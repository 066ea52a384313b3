/**
 * The region selector's console status line. `print_region` reads the
 * selection window's client rectangle in screen coordinates and, when it
 * changed (or when forced), rewrites one console line in place with the
 * rectangle as an `mss` region; `_status_write` pads the new text with
 * blanks so nothing of a longer previous text is left visible, and
 * `_status_newline` ends the line.
 *
 * The console is modelled by what it shows: the current line and the
 * cursor column, driven by carriage returns, line feeds and printable
 * characters.
 */
module RoiSelector {
  import opened Wrappers
  import opened Decimal
  import opened Geometry

  /** The Win32 `RECT` that `GetClientRect` fills in. */
  datatype WinRect = WinRect(left: int, top: int, right: int, bottom: int)

  /** The Win32 `POINT` that `ClientToScreen` maps the client origin to. */
  datatype Point = Point(x: int, y: int)

  /** `get_client_rect_screen`: the client area's screen position and its size. */
  function ClientRectScreen(rc: WinRect, origin: Point): (r: Rect)
    ensures r.left == origin.x && r.top == origin.y
    ensures r.width == rc.right - rc.left && r.height == rc.bottom - rc.top
  {
    Rect(origin.x, origin.y, rc.right - rc.left, rc.bottom - rc.top)
  }

  predicate Contains(r: Rect, x: int, y: int) {
    r.left <= x < r.left + r.width && r.top <= y < r.top + r.height
  }

  /**
   * The screen rectangle covers exactly the client area moved to the client
   * origin: a client pixel lies in the client `RECT` exactly when its screen
   * position lies in the rectangle.
   */
  lemma ClientAreaOnScreen(rc: WinRect, origin: Point, x: int, y: int)
    ensures rc.left <= x < rc.right && rc.top <= y < rc.bottom
        <==> Contains(ClientRectScreen(rc, origin), origin.x + (x - rc.left), origin.y + (y - rc.top))
  {
  }

  // ---------------------------------------------------------------- console

  /** What the console shows of its current line, and where the cursor is. */
  datatype Console = Console(line: string, col: nat)

  predicate IsBreak(c: char) {
    c == '\r' || c == '\n'
  }

  predicate NoBreaks(s: string) {
    forall k :: 0 <= k < |s| ==> !IsBreak(s[k])
  }

  /** One character: a carriage return goes back to column 0, a line feed opens an empty line, anything else is drawn at the cursor. */
  function Step(t: Console, c: char): Console {
    if c == '\r' then Console(t.line, 0)
    else if c == '\n' then Console([], 0)
    else if t.col < |t.line| then Console(t.line[t.col := c], t.col + 1)
    else Console(t.line + [c], t.col + 1)
  }

  function RenderFrom(t: Console, s: string): Console
    decreases |s|
  {
    if s == [] then t else RenderFrom(Step(t, s[0]), s[1..])
  }

  /** The console after everything written to it, starting from an empty line. */
  function Render(out: string): Console {
    RenderFrom(Console([], 0), out)
  }

  lemma {:induction false} RenderAppend(t: Console, a: string, b: string)
    ensures RenderFrom(t, a + b) == RenderFrom(RenderFrom(t, a), b)
    decreases |a|
  {
    if a == [] {
      assert a + b == b;
    } else {
      assert (a + b)[1..] == a[1..] + b;
      RenderAppend(Step(t, a[0]), a[1..], b);
    }
  }

  /** The line after drawing `w` from column `col`: `w` replaces what it covers, the rest stays. */
  function Put(line: string, col: nat, w: string): (r: string)
    requires col <= |line|
  {
    if col + |w| <= |line| then line[..col] + w + line[col + |w|..] else line[..col] + w
  }

  /** Drawing text without line breaks overwrites the line from the cursor on. */
  lemma {:induction false} DrawText(t: Console, w: string)
    requires t.col <= |t.line| && NoBreaks(w)
    ensures RenderFrom(t, w) == Console(Put(t.line, t.col, w), t.col + |w|)
    decreases |w|
  {
    if w == [] {
      assert Put(t.line, t.col, w) == t.line;
    } else {
      StepDraws(t, w[0]);
      NoBreaksTail(w);
      DrawText(Step(t, w[0]), w[1..]);
      PutTwice(t.line, t.col, w[0], w[1..]);
      assert [w[0]] + w[1..] == w;
    }
  }

  /** One character that is not a line break is drawn at the cursor, which moves one column on. */
  lemma StepDraws(t: Console, c: char)
    requires t.col <= |t.line| && !IsBreak(c)
    ensures Step(t, c) == Console(Put(t.line, t.col, [c]), t.col + 1)
  {
  }

  lemma NoBreaksTail(w: string)
    requires w != [] && NoBreaks(w)
    ensures NoBreaks(w[1..])
  {
    forall k | 0 <= k < |w[1..]| ensures !IsBreak(w[1..][k]) {
      assert w[1..][k] == w[k + 1];
    }
  }

  lemma PutTwice(line: string, col: nat, c: char, w: string)
    requires col <= |line|
    ensures col + 1 <= |Put(line, col, [c])|
    ensures Put(Put(line, col, [c]), col + 1, w) == Put(line, col, [c] + w)
  {
    var l1 := Put(line, col, [c]);
    assert l1[..col + 1] == line[..col] + [c];
  }

  function Spaces(n: nat): (s: string)
    ensures |s| == n
    ensures forall k :: 0 <= k < n ==> s[k] == ' '
  {
    seq(n, _ => ' ')
  }

  predicate AllBlank(s: string) {
    forall k :: 0 <= k < |s| ==> s[k] == ' '
  }

  /** `max(0, last - len(text))`. */
  function Pad(last: nat, textLen: nat): (pad: nat)
    ensures textLen + pad >= last
    ensures textLen >= last ==> pad == 0
    ensures textLen < last ==> textLen + pad == last
  {
    if last > textLen then last - textLen else 0
  }

  /**
   * The status line's state: everything written to standard output, the
   * length of the text last written on the current line (`_last_len`) and
   * the rectangle last shown (`_last_key`).
   */
  class StatusLine {
    var out: string
    var lastLen: nat
    var lastKey: Option<Rect>

    /** Past the last text written, the console line shows only blanks, and the cursor is on the line. */
    ghost predicate Valid()
      reads this
    {
      var t := Render(out);
      t.col <= |t.line| && lastLen <= |t.line| && AllBlank(t.line[lastLen..])
    }

    /** The module globals before anything is written: `_last_key = None`, `_last_len = 0`. */
    constructor ()
      ensures out == [] && lastLen == 0 && lastKey == None
      ensures Valid()
    {
      out := [];
      lastLen := 0;
      lastKey := None;
    }

    /**
     * `_status_write(text)`: back to column 0, the text, and enough blanks to
     * cover the previous text. For a text without line breaks the console line
     * then shows exactly the text followed by blanks: nothing of the previous
     * text survives.
     */
    method StatusWrite(text: string)
      requires Valid()
      modifies this`out, this`lastLen
      ensures out == old(out) + "\r" + text + Spaces(Pad(old(lastLen), |text|))
      ensures |text| + Pad(old(lastLen), |text|) >= old(lastLen)
      ensures lastLen == |text|
      ensures NoBreaks(text) ==> Valid()
      ensures NoBreaks(text) ==>
        var line := Render(out).line;
        |text| <= |line| && line[..|text|] == text && AllBlank(line[|text|..])
    {
      var pad := Pad(lastLen, |text|);
      ghost var before := Render(out);
      ghost var w := text + Spaces(pad);
      out := out + "\r" + text + Spaces(pad);
      ghost var oldLen := lastLen;
      lastLen := |text|;
      if NoBreaks(text) {
        assert out == old(out) + ("\r" + w);
        RenderAppend(Console([], 0), old(out), "\r" + w);
        RenderAppend(before, "\r", w);
        var t0 := Console(before.line, 0);
        assert RenderFrom(before, "\r") == t0;
        assert NoBreaks(w) by {
          forall k | 0 <= k < |w| ensures !IsBreak(w[k]) {
            if k >= |text| {
              assert w[k] == ' ';
            }
          }
        }
        DrawText(t0, w);
        var line := Render(out).line;
        assert line == Put(before.line, 0, w);
        assert line[..|text|] == text;
        forall k | |text| <= k < |line| ensures line[k] == ' ' {
          if k < |w| {
            assert line[k] == w[k];
          } else {
            assert line[k] == before.line[k];
            assert before.line[oldLen..][k - oldLen] == before.line[k];
          }
        }
        assert AllBlank(line[lastLen..]) by {
          forall k | 0 <= k < |line[lastLen..]| ensures line[lastLen..][k] == ' ' {
            assert line[lastLen..][k] == line[k + lastLen];
          }
        }
      }
    }

    /** `_status_newline()`: end the line and start counting afresh. */
    method StatusNewline()
      modifies this`out, this`lastLen
      ensures out == old(out) + "\n"
      ensures lastLen == 0
      ensures Render(out) == Console([], 0)
      ensures Valid()
    {
      RenderAppend(Console([], 0), out, "\n");
      out := out + "\n";
      lastLen := 0;
    }

    /**
     * `print_region(force)` for the client rectangle `rc` whose origin is at
     * `origin` on screen: an empty rectangle changes nothing; otherwise the
     * rectangle is written when forced or when it differs from the one last
     * shown, and then becomes the one last shown; an unchanged rectangle
     * writes nothing.
     */
    method PrintRegion(origin: Point, rc: WinRect, force: bool)
      requires Valid()
      modifies this`out, this`lastLen, this`lastKey
      ensures Valid()
      ensures var r := ClientRectScreen(rc, origin);
        if r.width <= 0 || r.height <= 0 || (!force && old(lastKey) == Some(r)) then
          out == old(out) && lastLen == old(lastLen) && lastKey == old(lastKey)
        else
          lastKey == Some(r) && lastLen == |RegionText(r)|
          && out == old(out) + "\r" + RegionText(r) + Spaces(Pad(old(lastLen), |RegionText(r)|))
          && Render(out).line[..|RegionText(r)|] == RegionText(r)
          && AllBlank(Render(out).line[|RegionText(r)|..])
    {
      var r := ClientRectScreen(rc, origin);
      if r.width <= 0 || r.height <= 0 {
        return;
      }
      if force || lastKey != Some(r) {
        lastKey := Some(r);
        RegionTextOneLine(r);
        StatusWrite(RegionText(r));
      }
    }

    /**
     * `on_key` for the keys it handles, with the window's rectangle at that
     * moment: Escape or Q ends the status line and quits, Enter prints the
     * rectangle once more, forced, ends the line and quits; any other key
     * does nothing. Returns whether the window is destroyed.
     */
    method OnKey(key: string, origin: Point, rc: WinRect) returns (quit: bool)
      requires Valid()
      modifies this`out, this`lastLen, this`lastKey
      ensures Valid()
      ensures quit <==> key in ["Escape", "q", "Q", "Return", "KP_Enter"]
      ensures key in ["Escape", "q", "Q"] ==>
        out == old(out) + "\n" + QuitMessage + "\n" && lastKey == old(lastKey) && lastLen == 0
      ensures key in ["Return", "KP_Enter"] ==>
        var r := ClientRectScreen(rc, origin);
        lastLen == 0
        && (r.width > 0 && r.height > 0 ==>
              lastKey == Some(r)
              && out == old(out) + "\r" + RegionText(r) + Spaces(Pad(old(lastLen), |RegionText(r)|))
                 + "\n" + ConfirmMessage + "\n")
        && (r.width <= 0 || r.height <= 0 ==>
              lastKey == old(lastKey) && out == old(out) + "\n" + ConfirmMessage + "\n")
      ensures !quit ==> out == old(out) && lastLen == old(lastLen) && lastKey == old(lastKey)
    {
      if key in ["Escape", "q", "Q"] {
        StatusNewline();
        out := out + QuitMessage + "\n";
        EndsLine(out);
        return true;
      } else if key in ["Return", "KP_Enter"] {
        PrintRegion(origin, rc, true);
        StatusNewline();
        out := out + ConfirmMessage + "\n";
        EndsLine(out);
        return true;
      }
      return false;
    }
  }

  const QuitMessage: string := "Saindo."
  const ConfirmMessage: string := "Medida final confirmada. Saindo."

  /** Whatever came before, output that ends with a line feed leaves the console on a fresh empty line. */
  lemma {:induction false} EndsLine(out: string)
    requires |out| > 0 && out[|out| - 1] == '\n'
    ensures Render(out) == Console([], 0)
  {
    var front := out[..|out| - 1];
    assert out == front + "\n";
    RenderAppend(Console([], 0), front, "\n");
  }

  /** The f-string `print_region` writes: the rectangle as an `mss` region dictionary. */
  function RegionText(r: Rect): string {
    "Use no mss: {'left': " + IntToString(r.left) + ", 'top': " + IntToString(r.top)
    + ", 'width': " + IntToString(r.width) + ", 'height': " + IntToString(r.height) + "}"
  }

  /** The region text never contains a line break, so it stays on the status line. */
  lemma RegionTextOneLine(r: Rect)
    ensures NoBreaks(RegionText(r))
  {
    var s := "Use no mss: {'left': ";
    assert NoBreaks(s);
    JoinOneLine(s, IntToString(r.left));
    s := s + IntToString(r.left);
    assert NoBreaks(", 'top': ");
    JoinOneLine(s, ", 'top': ");
    s := s + ", 'top': ";
    JoinOneLine(s, IntToString(r.top));
    s := s + IntToString(r.top);
    assert NoBreaks(", 'width': ");
    JoinOneLine(s, ", 'width': ");
    s := s + ", 'width': ";
    JoinOneLine(s, IntToString(r.width));
    s := s + IntToString(r.width);
    assert NoBreaks(", 'height': ");
    JoinOneLine(s, ", 'height': ");
    s := s + ", 'height': ";
    JoinOneLine(s, IntToString(r.height));
    s := s + IntToString(r.height);
    assert NoBreaks("}");
    JoinOneLine(s, "}");
  }

  /** Text without line breaks joined to a number, or to more such text, has none either. */
  lemma JoinOneLine(a: string, b: string)
    requires NoBreaks(a)
    requires NoBreaks(b) || forall k :: 0 <= k < |b| ==> IsDigit(b[k]) || b[k] == '-'
    ensures NoBreaks(a + b)
  {
    forall k | 0 <= k < |a + b| ensures !IsBreak((a + b)[k]) {
      if k >= |a| {
        assert (a + b)[k] == b[k - |a|];
      }
    }
  }
}
