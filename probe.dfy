/**
 * `verify_audio`: after the output file is written, `ffprobe` lists its audio
 * streams one index per line, and the file is accepted when some line of that
 * listing is non-blank after stripping. A missing `ffprobe` or a probe that
 * fails skips the check and accepts the file. Lines and blanks follow
 * Python's `str.splitlines` and `str.strip` over Python's whitespace.
 */
module Probe {
  import opened Wrappers

  /** What running `ffprobe` gave: an exception (non-zero exit, launch failure) or its standard output. */
  datatype ProbeResult = ProbeRaised | ProbeOutput(stdout: string)

  /** A located executable in Python's truth sense: present and not the empty string. */
  predicate Found(exe: Option<string>) {
    exe.Some? && exe.value != []
  }

  /** `str.isspace` for one character. */
  predicate IsSpace(c: char) {
    var n := c as int;
    (9 <= n <= 13) || (28 <= n <= 32) || n == 0x85 || n == 0xA0 || n == 0x1680
    || (0x2000 <= n <= 0x200A) || n == 0x2028 || n == 0x2029 || n == 0x202F
    || n == 0x205F || n == 0x3000
  }

  /** The line boundaries of `str.splitlines`. */
  predicate IsLineBreak(c: char) {
    var n := c as int;
    n == 10 || n == 13 || n == 11 || n == 12 || n == 28 || n == 29 || n == 30
    || n == 0x85 || n == 0x2028 || n == 0x2029
  }

  lemma LineBreakIsSpace(c: char)
    requires IsLineBreak(c)
    ensures IsSpace(c)
  {
  }

  predicate HasNonSpace(s: string) {
    exists k :: 0 <= k < |s| && !IsSpace(s[k])
  }

  /** `s.lstrip()`: the suffix left after dropping the leading whitespace. */
  function LStrip(s: string): (r: string)
    ensures |r| <= |s| && r == s[|s| - |r|..]
    ensures forall k :: 0 <= k < |s| - |r| ==> IsSpace(s[k])
    ensures r != [] ==> !IsSpace(r[0])
    decreases |s|
  {
    if s == [] then []
    else if IsSpace(s[0]) then LStrip(s[1..])
    else s
  }

  /** `s.rstrip()`: the prefix left after dropping the trailing whitespace. */
  function RStrip(s: string): (r: string)
    ensures |r| <= |s| && r == s[..|r|]
    ensures forall k :: |r| <= k < |s| ==> IsSpace(s[k])
    ensures r != [] ==> !IsSpace(r[|r| - 1])
    decreases |s|
  {
    if s == [] then []
    else if IsSpace(s[|s| - 1]) then RStrip(s[..|s| - 1])
    else s
  }

  /** `s.strip()`. */
  function Strip(s: string): string {
    RStrip(LStrip(s))
  }

  lemma LStripEmpty(s: string)
    ensures LStrip(s) == [] <==> !HasNonSpace(s)
  {
    var l := LStrip(s);
    if l != [] {
      assert s[|s| - |l|] == l[0];
    }
  }

  lemma RStripNonBlank(l: string)
    requires l != [] && !IsSpace(l[0])
    ensures RStrip(l) != []
  {
  }

  /** A line strips to the empty string exactly when it holds nothing but whitespace. */
  lemma StripEmpty(s: string)
    ensures Strip(s) == [] <==> !HasNonSpace(s)
  {
    LStripEmpty(s);
    if LStrip(s) != [] {
      RStripNonBlank(LStrip(s));
    }
  }

  /** The index of the first line boundary in `s`, or `|s|` when there is none. */
  function LineEnd(s: string): (i: nat)
    ensures i <= |s|
    ensures i < |s| ==> IsLineBreak(s[i])
    decreases |s|
  {
    if s == [] then 0
    else if IsLineBreak(s[0]) then 0
    else 1 + LineEnd(s[1..])
  }

  /** No character before the end of the first line is a line boundary. */
  lemma {:induction false} LineEndIsFirst(s: string)
    ensures forall k :: 0 <= k < LineEnd(s) ==> !IsLineBreak(s[k])
    decreases |s|
  {
    if s != [] && !IsLineBreak(s[0]) {
      LineEndIsFirst(s[1..]);
      forall k | 1 <= k < LineEnd(s)
        ensures !IsLineBreak(s[k])
      {
        assert s[k] == s[1..][k - 1];
      }
    }
  }

  /** The width of the boundary at `i`: "\r\n" counts as one boundary of two characters. */
  function BreakWidth(s: string, i: nat): (w: nat)
    requires i < |s|
    ensures 1 <= w <= |s| - i
  {
    if s[i] == '\r' && i + 1 < |s| && s[i + 1] == '\n' then 2 else 1
  }

  /** A line boundary is whitespace, both its characters when it is "\r\n". */
  lemma BreakIsSpace(s: string, i: nat)
    requires i < |s| && IsLineBreak(s[i])
    ensures forall k :: i <= k < i + BreakWidth(s, i) ==> IsSpace(s[k])
  {
    LineBreakIsSpace(s[i]);
  }

  /** `s.splitlines()`: the lines without their boundaries; a trailing boundary ends the last line and opens none. */
  function SplitLines(s: string): seq<string>
    decreases |s|
  {
    if s == [] then []
    else
      var i := LineEnd(s);
      if i == |s| then [s]
      else [s[..i]] + SplitLines(s[i + BreakWidth(s, i)..])
  }

  /** `any(l.strip() for l in lines)`. */
  function AnyNonBlank(lines: seq<string>): bool
    decreases |lines|
  {
    lines != [] && (Strip(lines[0]) != [] || AnyNonBlank(lines[1..]))
  }

  /**
   * Splitting into lines and asking whether some line is non-blank is the
   * same as asking whether the whole output holds a non-whitespace character:
   * the boundaries are themselves whitespace, and every other character lands
   * in some line.
   */
  lemma {:induction false} SomeLineNonBlank(s: string)
    ensures AnyNonBlank(SplitLines(s)) <==> HasNonSpace(s)
    decreases |s|
  {
    if s != [] {
      var i := LineEnd(s);
      if i == |s| {
        LastLine(s);
      } else {
        var j := i + BreakWidth(s, i);
        SomeLineNonBlank(s[j..]);
        BrokenLine(s, i, j);
      }
    }
  }

  /** Text without a line break is one line, non-blank exactly when the text is. */
  lemma LastLine(s: string)
    requires s != [] && LineEnd(s) == |s|
    ensures AnyNonBlank(SplitLines(s)) <==> HasNonSpace(s)
  {
    StripEmpty(s);
    AnyNonBlankCons(s, []);
    assert [s] + [] == [s];
  }

  /** The first line and its break are cut off; what the rest holds decides the rest. */
  lemma BrokenLine(s: string, i: nat, j: nat)
    requires s != [] && i == LineEnd(s) < |s| && j == i + BreakWidth(s, i)
    requires AnyNonBlank(SplitLines(s[j..])) <==> HasNonSpace(s[j..])
    ensures AnyNonBlank(SplitLines(s)) <==> HasNonSpace(s)
  {
    SplitFirst(s, i, j);
    StripEmpty(s[..i]);
    AnyNonBlankCons(s[..i], SplitLines(s[j..]));
    BreakIsSpace(s, i);
    NonSpaceAroundGap(s, i, j);
  }

  /** A text with a line break splits into its first line and the lines after the break. */
  lemma SplitFirst(s: string, i: nat, j: nat)
    requires s != [] && i == LineEnd(s) < |s| && j == i + BreakWidth(s, i)
    ensures SplitLines(s) == [s[..i]] + SplitLines(s[j..])
  {
    var first, rest := s[..i], s[j..];
    assert SplitLines(s) == [first] + SplitLines(rest);
  }

  /** Some line is non-blank exactly when the first one is or one of the rest is. */
  lemma AnyNonBlankCons(line: string, rest: seq<string>)
    ensures AnyNonBlank([line] + rest) == (Strip(line) != [] || AnyNonBlank(rest))
  {
    assert ([line] + rest)[1..] == rest;
  }

  /** Cutting a run of whitespace out of a string leaves its non-whitespace characters on one side or the other. */
  lemma NonSpaceAroundGap(s: string, i: nat, j: nat)
    requires i <= j <= |s|
    requires forall k :: i <= k < j ==> IsSpace(s[k])
    ensures HasNonSpace(s) <==> HasNonSpace(s[..i]) || HasNonSpace(s[j..])
  {
    if HasNonSpace(s) {
      var k :| 0 <= k < |s| && !IsSpace(s[k]);
      if k < i {
        assert s[..i][k] == s[k];
      } else {
        assert s[j..][k - j] == s[k];
      }
    }
    if HasNonSpace(s[j..]) {
      var k :| 0 <= k < |s[j..]| && !IsSpace(s[j..][k]);
      assert s[k + j] == s[j..][k];
    }
    if HasNonSpace(s[..i]) {
      var k :| 0 <= k < i && !IsSpace(s[..i][k]);
      assert s[k] == s[..i][k];
    }
  }

  /**
   * `verify_audio(ffprobe, path)`, given what the probe of `path` gave. It
   * rejects the file only when the probe ran and listed nothing but
   * whitespace.
   */
  function VerifyAudio(ffprobe: Option<string>, probe: ProbeResult): (ok: bool)
    ensures !Found(ffprobe) ==> ok
    ensures Found(ffprobe) && probe.ProbeRaised? ==> ok
    ensures Found(ffprobe) && probe.ProbeOutput? ==> (ok <==> HasNonSpace(probe.stdout))
  {
    if !Found(ffprobe) then true
    else match probe
      case ProbeRaised => true
      case ProbeOutput(out) =>
        SomeLineNonBlank(out);
        AnyNonBlank(SplitLines(out))
  }

  /** An empty listing, or one of blank lines only, rejects the file. */
  lemma BlankListingRejected(ffprobe: Option<string>)
    requires Found(ffprobe)
    ensures !VerifyAudio(ffprobe, ProbeOutput(""))
    ensures !VerifyAudio(ffprobe, ProbeOutput(" \r\n\n"))
    ensures VerifyAudio(ffprobe, ProbeOutput("0\n"))
  {
    var blank := " \r\n\n";
    assert blank[0] == ' ' && blank[1] == '\r' && blank[2] == '\n' && blank[3] == '\n';
    assert !HasNonSpace(blank);
    assert !IsSpace("0\n"[0]);
  }
}
