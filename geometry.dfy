/** Screen rectangles in physical pixels, as the `mss` region dictionaries hold them. */
module Geometry {
  datatype Rect = Rect(left: int, top: int, width: int, height: int)
}
