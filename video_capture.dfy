/**
 * The constant-frame-rate scheduler of `record_video`. Each pass of its loop
 * computes the frame slot `int((now - t0) * fps)` from the clock; a pass
 * whose slot is not past the last slot written sleeps and retries, any other
 * pass grabs and writes exactly one frame and moves `last_idx` to its slot.
 * Slots the loop jumped over stay empty. The clock, the grab and the video
 * writer are inputs here: a pass is its slot and the clock reading a write
 * would record.
 */
module VideoCapture {
  import opened Wrappers

  datatype Tick = Tick(target: int, clock: real)

  /** The passes that write a frame, in order, when `last` is the last slot written. */
  function Writes(ticks: seq<Tick>, last: int): seq<Tick>
    decreases |ticks|
  {
    if ticks == [] then []
    else if ticks[0].target > last then [ticks[0]] + Writes(ticks[1..], ticks[0].target)
    else Writes(ticks[1..], last)
  }

  /** The slot numbers of a list of passes. */
  function Targets(ws: seq<Tick>): (r: seq<int>)
    ensures |r| == |ws|
    ensures forall i :: 0 <= i < |ws| ==> r[i] == ws[i].target
    decreases |ws|
  {
    if ws == [] then [] else [ws[0].target] + Targets(ws[1..])
  }

  /**
   * At most one frame per pass, every written frame is some pass's own slot
   * (no slot is invented or filled in), and the slots written strictly increase
   * from past `last`: the i-th write lands at slot last + 1 + i or later.
   */
  lemma {:induction false} WritesShape(ticks: seq<Tick>, last: int)
    ensures |Writes(ticks, last)| <= |ticks|
    ensures forall i :: 0 <= i < |Writes(ticks, last)| ==> Writes(ticks, last)[i] in ticks
    ensures forall i :: 0 <= i < |Writes(ticks, last)| ==> Writes(ticks, last)[i].target >= last + 1 + i
    ensures forall i, j :: 0 <= i < j < |Writes(ticks, last)| ==>
      Writes(ticks, last)[i].target < Writes(ticks, last)[j].target
    decreases |ticks|
  {
    if ticks != [] {
      var rest := ticks[1..];
      if ticks[0].target > last {
        WritesShape(rest, ticks[0].target);
        var w := Writes(ticks, last);
        assert w == [ticks[0]] + Writes(rest, ticks[0].target);
        forall i | 1 <= i < |w| ensures w[i] in ticks && w[i].target >= last + 1 + i {
          assert w[i] == Writes(rest, ticks[0].target)[i - 1];
          assert w[i] in rest;
        }
      } else {
        WritesShape(rest, last);
        forall i | 0 <= i < |Writes(ticks, last)| ensures Writes(ticks, last)[i] in ticks {
          assert Writes(ticks, last)[i] in rest;
        }
      }
    }
  }

  predicate NonDecreasing(ticks: seq<Tick>) {
    forall i, j :: 0 <= i < j < |ticks| ==> ticks[i].target <= ticks[j].target
  }

  /**
   * With a clock that never runs backwards the slots never decrease, and then
   * the written slots are exactly the distinct slots past `last` that some
   * pass computed: each is written once, none is duplicated and none filled in.
   */
  lemma {:induction false} WritesAreDistinctSlots(ticks: seq<Tick>, last: int, n: int)
    requires NonDecreasing(ticks)
    ensures (exists i :: 0 <= i < |Writes(ticks, last)| && Writes(ticks, last)[i].target == n)
        <==> (n > last && exists j :: 0 <= j < |ticks| && ticks[j].target == n)
    decreases |ticks|
  {
    WritesShape(ticks, last);
    if ticks != [] {
      var rest := ticks[1..];
      assert NonDecreasing(rest);
      var w := Writes(ticks, last);
      var next := if ticks[0].target > last then ticks[0].target else last;
      WritesAreDistinctSlots(rest, next, n);
      if n > last && exists j :: 0 <= j < |ticks| && ticks[j].target == n {
        var j :| 0 <= j < |ticks| && ticks[j].target == n;
        if ticks[0].target > last && n == ticks[0].target {
          assert w[0].target == n;
        } else {
          assert j > 0;
          assert rest[j - 1].target == n;
          assert n > next;
          var i :| 0 <= i < |Writes(rest, next)| && Writes(rest, next)[i].target == n;
          if ticks[0].target > last {
            assert w[i + 1].target == n;
          } else {
            assert w[i].target == n;
          }
        }
      }
      if exists i :: 0 <= i < |w| && w[i].target == n {
        var i :| 0 <= i < |w| && w[i].target == n;
        assert w[i] in ticks;
        var j :| 0 <= j < |ticks| && ticks[j] == w[i];
      }
    }
  }

  /**
   * A pass that finds the clock three slots ahead writes one frame and drops
   * the two slots in between: two frames end up covering four slots.
   */
  lemma StallDropsSlots(c0: real, c1: real)
    ensures Targets(Writes([Tick(0, c0), Tick(3, c1)], -1)) == [0, 3]
  {
    var ticks := [Tick(0, c0), Tick(3, c1)];
    assert ticks[1..][1..] == [];
    assert Writes(ticks[1..], 0) == [Tick(3, c1)];
    assert Writes(ticks, -1) == [Tick(0, c0), Tick(3, c1)];
  }

  /** A pass whose slot is past `last` writes, and the writes to come start from its slot. */
  lemma WriteStep(ticks: seq<Tick>, n: nat, last: int, ws: seq<Tick>)
    requires n < |ticks| && ticks[n].target > last
    requires ws + Writes(ticks[n..], last) == Writes(ticks, -1)
    ensures (ws + [ticks[n]]) + Writes(ticks[n + 1..], ticks[n].target) == Writes(ticks, -1)
  {
    assert ticks[n..][1..] == ticks[n + 1..];
    assert (ws + [ticks[n]]) + Writes(ticks[n + 1..], ticks[n].target)
        == ws + ([ticks[n]] + Writes(ticks[n + 1..], ticks[n].target));
  }

  /** A pass whose slot is not past `last` writes nothing. */
  lemma SkipStep(ticks: seq<Tick>, n: nat, last: int, ws: seq<Tick>)
    requires n < |ticks| && ticks[n].target <= last
    requires ws + Writes(ticks[n..], last) == Writes(ticks, -1)
    ensures ws + Writes(ticks[n + 1..], last) == Writes(ticks, -1)
  {
    assert ticks[n..][1..] == ticks[n + 1..];
  }

  lemma TargetsSnoc(ws: seq<Tick>, t: Tick)
    ensures Targets(ws + [t]) == Targets(ws) + [t.target]
  {
    var a := Targets(ws + [t]);
    var b := Targets(ws) + [t.target];
    forall i | 0 <= i < |a| ensures a[i] == b[i] {
      if i < |ws| {
        assert (ws + [t])[i] == ws[i];
      }
    }
  }

  /**
   * Writing the grab at tick `n` keeps every fact the capture loop carries:
   * the writes so far, their slots, the last slot written and the start time.
   */
  lemma WriteUpkeep(ticks: seq<Tick>, n: nat, last: int, ws: seq<Tick>, written: seq<int>, startTs: Option<real>)
    requires n < |ticks| && ticks[n].target > last
    requires ws + Writes(ticks[n..], last) == Writes(ticks, -1)
    requires written == Targets(ws)
    requires startTs == if ws == [] then None else Some(ws[0].clock)
    ensures (ws + [ticks[n]]) + Writes(ticks[n + 1..], ticks[n].target) == Writes(ticks, -1)
    ensures written + [ticks[n].target] == Targets(ws + [ticks[n]])
    ensures ticks[n].target == (ws + [ticks[n]])[|ws + [ticks[n]]| - 1].target
    ensures (if startTs == None then Some(ticks[n].clock) else startTs) == Some((ws + [ticks[n]])[0].clock)
  {
    WriteStep(ticks, n, last, ws);
    assert (ws + [ticks[n]])[0] == if ws == [] then ticks[n] else ws[0];
    assert (ws + [ticks[n]])[|ws|] == ticks[n];
    TargetsSnoc(ws, ticks[n]);
  }

  /**
   * `record_video`'s loop over the passes it makes before the interrupt.
   * Returns `start_ts_video`, the frame count it reports and the slots of the
   * frames written to the video file, in order.
   */
  method RecordVideo(ticks: seq<Tick>) returns (startTs: Option<real>, frames: nat, written: seq<int>)
    ensures written == Targets(Writes(ticks, -1))
    ensures frames == |written| <= |ticks|
    ensures forall i, j :: 0 <= i < j < |written| ==> written[i] < written[j]
    ensures written != [] ==> 0 <= written[0] && frames <= written[|written| - 1] + 1
    ensures startTs.None? <==> written == []
    ensures startTs.Some? ==> startTs.value == Writes(ticks, -1)[0].clock
  {
    startTs := None;
    var lastIdx := -1;
    frames := 0;
    written := [];
    ghost var ws: seq<Tick> := [];
    for n := 0 to |ticks|
      invariant ws + Writes(ticks[n..], lastIdx) == Writes(ticks, -1)
      invariant written == Targets(ws)
      invariant frames == |written|
      invariant lastIdx == if ws == [] then -1 else ws[|ws| - 1].target
      invariant startTs == if ws == [] then None else Some(ws[0].clock)
    {
      var t := ticks[n];
      if t.target <= lastIdx {
        // sleep and recompute the slot
        SkipStep(ticks, n, lastIdx, ws);
        continue;
      }
      WriteUpkeep(ticks, n, lastIdx, ws, written, startTs);
      if startTs == None {
        startTs := Some(t.clock);
      }
      written := written + [t.target];
      frames := frames + 1;
      lastIdx := t.target;
      ws := ws + [t];
    }
    assert ticks[|ticks|..] == [];
    CaptureDone(ticks, ws, lastIdx, written, startTs);
  }

  /** Once every tick is handled, the writes collected are those `Writes` selects, with their shape. */
  lemma CaptureDone(ticks: seq<Tick>, ws: seq<Tick>, last: int, written: seq<int>, startTs: Option<real>)
    requires ws + Writes([], last) == Writes(ticks, -1)
    requires written == Targets(ws)
    requires startTs == if ws == [] then None else Some(ws[0].clock)
    ensures written == Targets(Writes(ticks, -1))
    ensures |written| <= |ticks|
    ensures forall i, j :: 0 <= i < j < |written| ==> written[i] < written[j]
    ensures written != [] ==> 0 <= written[0] && |written| <= written[|written| - 1] + 1
    ensures startTs.None? <==> written == []
    ensures startTs.Some? ==> startTs.value == Writes(ticks, -1)[0].clock
  {
    assert ws + [] == ws;
    WritesShape(ticks, -1);
  }
}
