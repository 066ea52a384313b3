/**
 * Where the capture preview puts its window: to the right of the captured
 * region, else to its left, and when even that leaves the virtual desktop,
 * in the desktop's top-left corner; always `margin` pixels away.
 */
module RoiPreview {
  import opened Geometry

  /**
   * `place_safely()` for the captured region `monitor`, the preview width
   * `w`, the virtual desktop `virtual` (every monitor together) and the
   * spacing `margin`.
   */
  method PlaceSafely(monitor: Rect, w: int, virtual: Rect, margin: int) returns (x: int, y: int)
    // the three placements, in the order they are tried
    ensures var right := monitor.left + monitor.width + margin;
      var left := monitor.left - w - margin;
      var fitsRight := right + w <= virtual.left + virtual.width;
      && (fitsRight && right >= virtual.left ==> x == right && y == monitor.top)
      && (!fitsRight && left >= virtual.left ==> x == left && y == monitor.top)
      && ((if fitsRight then right else left) < virtual.left ==>
            x == virtual.left + margin && y == virtual.top + margin)
    ensures y == monitor.top || y == virtual.top + margin
    ensures margin >= 0 ==> x >= virtual.left
  {
    x := monitor.left + monitor.width + margin;
    y := monitor.top;
    if x + w > virtual.left + virtual.width {
      x := monitor.left - w - margin;
    }
    if x < virtual.left {
      x, y := virtual.left + margin, virtual.top + margin;
    }
  }
}
