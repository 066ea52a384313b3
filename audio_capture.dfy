/**
 * The loopback audio recorder shared by both capture scripts (`AudioRecorder`
 * and `find_loopback_device`), sequentialised: the recording thread's loop is
 * a method fed the blocks the device yields, and the coordinator's `stop()` is
 * an event that lands before a given check of the `is_recording` flag.
 */
module AudioCapture {
  import opened Wrappers
  import opened Pcm

  /** Frames requested per `record` call. */
  const BlockFrames: nat := 1024

  /**
   * A block returned by `mic.record`: a 1-D array of mono samples, or a 2-D
   * array of `rows` frames of `channels` samples each.
   */
  datatype Block = Mono(samples: seq<real>) | Multi(channels: nat, rows: seq<seq<real>>)

  /** numpy arrays are rectangular: every row of a 2-D block has `channels` samples. */
  predicate Rectangular(b: Block) {
    b.Multi? ==> forall i :: 0 <= i < |b.rows| ==> |b.rows[i]| == b.channels
  }

  /** `data[:, None]`: a 1-D block as one column. */
  function AsColumn(samples: seq<real>): (rows: seq<seq<real>>)
    ensures |rows| == |samples|
    ensures forall i :: 0 <= i < |rows| ==> rows[i] == [samples[i]]
    decreases |samples|
  {
    if samples == [] then [] else [[samples[0]]] + AsColumn(samples[1..])
  }

  /** The block as a 2-D array: mono blocks reshaped to one column. */
  function Frames(b: Block): seq<seq<real>> {
    match b
    case Mono(s) => AsColumn(s)
    case Multi(_, rows) => rows
  }

  /** The channel count the first block fixes: `first.shape[1]`, or 1 for a 1-D block. */
  function Channels(b: Block): nat {
    match b
    case Mono(_) => 1
    case Multi(c, _) => c
  }

  /** Row-major flattening, the order in which `tobytes()` lays out a C-contiguous array. */
  function Flatten(rows: seq<seq<real>>): seq<real>
    decreases |rows|
  {
    if rows == [] then [] else rows[0] + Flatten(rows[1..])
  }

  /** The interleaved samples of a block, in the order they reach the WAV file. */
  function Interleaved(b: Block): seq<real> {
    Flatten(Frames(b))
  }

  /** Reshaping a mono block to one column keeps its samples and their order. */
  lemma {:induction false} FlattenColumn(s: seq<real>)
    ensures Flatten(AsColumn(s)) == s
    decreases |s|
  {
    if s != [] {
      assert AsColumn(s)[1..] == AsColumn(s[1..]);
      FlattenColumn(s[1..]);
    }
  }

  lemma MonoInterleaved(s: seq<real>)
    ensures Interleaved(Mono(s)) == s
  {
    FlattenColumn(s);
  }

  /** A rectangular block holds a whole number of frames of its own channel count. */
  lemma {:induction false} FlattenLength(rows: seq<seq<real>>, c: nat)
    requires forall i :: 0 <= i < |rows| ==> |rows[i]| == c
    ensures |Flatten(rows)| == |rows| * c
    decreases |rows|
  {
    if rows != [] {
      FlattenLength(rows[1..], c);
      assert |Flatten(rows)| == c + (|rows| - 1) * c;
    }
  }

  /** The interleaved samples of each block the device yields, in order. */
  function Streams(device: seq<Block>): (xs: seq<seq<real>>)
    ensures |xs| == |device|
    ensures forall i :: 0 <= i < |device| ==> xs[i] == Interleaved(device[i])
  {
    seq(|device|, i requires 0 <= i < |device| => Interleaved(device[i]))
  }

  /** The interleaved samples of the first `n` blocks of the stream. */
  function Recorded(device: seq<Block>, n: nat): seq<real>
    requires n <= |device|
  {
    Concat(Streams(device), n)
  }

  /** Recording block `k` after the first `k` appends its interleaved samples. */
  lemma RecordNext(device: seq<Block>, k: nat)
    requires k < |device|
    ensures Recorded(device, 0) == []
    ensures Recorded(device, k + 1) == Recorded(device, k) + Interleaved(device[k])
  {
    assert Streams(device)[k] == Interleaved(device[k]);
  }

  lemma BlockLength(b: Block)
    requires Rectangular(b)
    ensures |Interleaved(b)| == |Frames(b)| * Channels(b)
  {
    match b {
      case Mono(s) =>
        MonoInterleaved(s);
      case Multi(c, rows) =>
        FlattenLength(rows, c);
    }
  }

  /** Factoring the channel count out of a sum of frame counts, kept apart so the solver meets the product alone. */
  lemma Distribute(a: nat, b: nat, c: nat)
    ensures a * c + b * c == (a + b) * c
  {
  }

  /** The number of frames (rows) in the first `n` blocks. */
  function FrameCount(device: seq<Block>, n: nat): nat
    requires n <= |device|
  {
    if n == 0 then 0 else FrameCount(device, n - 1) + |Frames(device[n - 1])|
  }

  /**
   * When every block has the channel count of the first one, the WAV data holds
   * whole frames: its sample count is the frame count times the header's channel count.
   */
  lemma {:induction false} RecordedWholeFrames(device: seq<Block>, n: nat)
    requires 0 < n <= |device|
    requires forall i :: 0 <= i < |device| ==> Rectangular(device[i]) && Channels(device[i]) == Channels(device[0])
    ensures |Recorded(device, n)| == FrameCount(device, n) * Channels(device[0])
    decreases n
  {
    var c := Channels(device[0]);
    var k1 := |Frames(device[n - 1])|;
    BlockLength(device[n - 1]);
    RecordNext(device, n - 1);
    if n > 1 {
      RecordedWholeFrames(device, n - 1);
      var k0 := FrameCount(device, n - 1);
      assert |Recorded(device, n)| == k0 * c + k1 * c;
      Distribute(k0, k1, c);
    }
  }

  /** The bytes `writeframes` has appended once the first `n` blocks are written, block by block. */
  function Written(device: seq<Block>, n: nat): seq<byte>
    requires n <= |device|
  {
    WrittenBytes(Streams(device), n)
  }

  /** Writing block `k` after the first `k` appends that block's PCM16 bytes. */
  lemma WriteNext(device: seq<Block>, k: nat)
    requires k < |device|
    ensures Written(device, 0) == []
    ensures Written(device, k + 1) == Written(device, k) + Pcm16Bytes(Interleaved(device[k]))
  {
    assert Streams(device)[k] == Interleaved(device[k]);
  }

  /** Writing block by block gives the PCM16 conversion of everything recorded, in order. */
  lemma WrittenIsWavData(device: seq<Block>, n: nat)
    requires n <= |device|
    ensures Written(device, n) == WavData(device, n)
  {
    WrittenBytesAtOnce(Streams(device), n);
  }

  /** The WAV data frames once the first `n` blocks are written. */
  function WavData(device: seq<Block>, n: nat): seq<byte>
    requires n <= |device|
  {
    Pcm16Bytes(Recorded(device, n))
  }

  /** The parameters `wf.setnchannels`, `wf.setsampwidth`, `wf.setframerate` fix. */
  datatype WavHeader = WavHeader(channels: nat, sampleWidth: nat, frameRate: int)

  /**
   * How many blocks one run of the loop writes: none when the first `record`
   * fails; the first block always; then one block per check of the flag that
   * finds it still set, until `stop()` has landed or a `record` fails.
   */
  function BlocksTaken(available: nat, running: bool, stopAfter: nat): (n: nat)
    ensures n <= available
    ensures available > 0 ==> n >= 1
  {
    if available == 0 then 0
    else if !running then 1
    else if stopAfter + 1 < available then stopAfter + 1
    else available
  }

  class AudioRecorder {
    const samplerate: int
    var isRecording: bool
    var startTs: Option<real>
    var header: Option<WavHeader>
    /** The data frames written to the WAV file. */
    var wav: seq<byte>

    constructor (samplerate: int)
      ensures this.samplerate == samplerate
      ensures !isRecording && startTs == None && header == None && wav == []
    {
      this.samplerate := samplerate;
      isRecording := false;
      startTs := None;
      header := None;
      wav := [];
    }

    /** `start()`: raise the flag; the thread it spawns is the call to `Loop`. */
    method Start()
      modifies this`isRecording
      ensures isRecording
    {
      isRecording := true;
    }

    /** `stop()`: lower the flag; the join is implicit in the sequential model. */
    method Stop()
      modifies this`isRecording
      ensures !isRecording
    {
      isRecording := false;
    }

    /**
     * `_loop`. `device` lists the blocks `mic.record` returns, in order; a
     * `record` call past its end raises, which ends the loop. `stop()` lands
     * just before check number `stopAfter` (counting from 0) of the flag.
     * `now` is the clock reading taken after the first block is written.
     */
    method Loop(device: seq<Block>, stopAfter: nat, now: real)
      modifies this`isRecording, this`startTs, this`header, this`wav
      ensures header == (if device == [] then None
                         else Some(WavHeader(Channels(device[0]), 2, samplerate)))
      ensures wav == WavData(device, BlocksTaken(|device|, old(isRecording), stopAfter))
      ensures startTs == (if device != [] && old(startTs) == None then Some(now) else old(startTs))
      ensures isRecording == (old(isRecording) && (device == [] || |device| <= stopAfter))
    {
      var wasRecording := isRecording;
      // opening the WAV file for writing starts it empty
      header := None;
      wav := [];
      if device == [] {
        return;
      }
      var first := device[0];
      header := Some(WavHeader(Channels(first), 2, samplerate));
      var data := Pcm16Bytes(Interleaved(first));
      if startTs == None {
        startTs := Some(now);
      }
      WriteNext(device, 0);
      assert [] + data == data;
      var k, flag;
      data, k, flag := RecordWhileUp(device, stopAfter, wasRecording, data);
      wav := data;
      isRecording := flag;
    }
  }

  /**
   * The `while self.is_recording` part of `_loop`, after the first block:
   * read and write a block each time the flag is found up, until the stop
   * lands or a `record` past the device's blocks raises. Returns the data
   * written so far, how many blocks that is, and the flag as last seen.
   */
  method RecordWhileUp(device: seq<Block>, stopAfter: nat, running: bool, first: seq<byte>)
    returns (data: seq<byte>, k: nat, flag: bool)
    requires 1 <= |device| && first == Written(device, 1)
    ensures 1 <= k <= |device| && data == WavData(device, k)
    ensures k == BlocksTaken(|device|, running, stopAfter)
    ensures flag == (running && |device| <= stopAfter)
  {
    data := first;
    // stop() may land before the first check of the flag
    flag := running && stopAfter != 0;
    k := 1;
    while flag && k < |device|
      invariant 1 <= k <= |device|
      invariant Progress(k, flag, running, stopAfter)
      invariant data == Written(device, k)
      decreases |device| - k
    {
      WriteNext(device, k);
      data := data + Pcm16Bytes(Interleaved(device[k]));
      k := k + 1;
      if k - 1 == stopAfter {
        flag := false;
      }
    }
    LoopExit(|device|, running, stopAfter, k, flag);
    WrittenIsWavData(device, k);
  }

  /**
   * After `k` blocks the flag has been checked `k - 1` times: it is still up
   * only if it was up and the stop has not landed, and without a stop in
   * between the loop never reads past the check at which the stop lands.
   */
  predicate Progress(k: nat, flag: bool, running: bool, stopAfter: nat) {
    && flag == (running && k - 1 < stopAfter)
    && (running ==> k - 1 <= stopAfter)
    && (!running ==> k == 1)
  }

  /**
   * When the loop ends, either the flag was found lowered or the device ran
   * out: it has taken `BlocksTaken` blocks, and the flag is still up only if
   * the stop never landed.
   */
  lemma LoopExit(available: nat, running: bool, stopAfter: nat, k: nat, flag: bool)
    requires 1 <= k <= available
    requires Progress(k, flag, running, stopAfter)
    requires !(flag && k < available)
    ensures k == BlocksTaken(available, running, stopAfter)
    ensures flag == (running && available <= stopAfter)
  {
  }

  /** A microphone as `sc.all_microphones(include_loopback=True)` lists it. */
  datatype Mic = Mic(name: string, isLoopback: bool)

  /** A device the scan accepts: a loopback device with the requested name, if one is requested. */
  predicate Wanted(m: Mic, name: Option<string>) {
    m.isLoopback && (name.None? || m.name == name.value)
  }

  /** The first loopback microphone, among those named `name` when one is given. */
  function FirstLoopback(mics: seq<Mic>, name: Option<string>): (r: Option<Mic>)
    ensures r.Some? ==> r.value in mics && r.value.isLoopback
    ensures r.Some? && name.Some? ==> r.value.name == name.value
    decreases |mics|
  {
    if mics == [] then None
    else if Wanted(mics[0], name) then Some(mics[0])
    else FirstLoopback(mics[1..], name)
  }

  /**
   * The choice `find_loopback_device` makes. `speaker` is the default
   * speaker's name, or None when asking for it raises.
   */
  function SelectLoopback(mics: seq<Mic>, speaker: Option<string>): Option<Mic> {
    if mics == [] then None
    else if speaker.Some? && FirstLoopback(mics, speaker).Some? then FirstLoopback(mics, speaker)
    else FirstLoopback(mics, None)
  }

  /** The scan finds a device exactly when some device in the list would do. */
  lemma {:induction false} FirstLoopbackExists(mics: seq<Mic>, name: Option<string>)
    ensures FirstLoopback(mics, name).Some? <==> exists i :: 0 <= i < |mics| && Wanted(mics[i], name)
    decreases |mics|
  {
    if mics != [] && !Wanted(mics[0], name) {
      FirstLoopbackExists(mics[1..], name);
      forall i | 0 <= i < |mics| && Wanted(mics[i], name)
        ensures exists i' :: 0 <= i' < |mics[1..]| && Wanted(mics[1..][i'], name)
      {
        assert mics[1..][i - 1] == mics[i];
      }
    }
  }

  /** The device the scan finds comes before every other device that would do. */
  lemma {:induction false} FirstLoopbackIsFirst(mics: seq<Mic>, name: Option<string>)
    ensures FirstLoopback(mics, name).Some? ==>
      exists k :: 0 <= k < |mics| && mics[k] == FirstLoopback(mics, name).value
        && forall j :: 0 <= j < k ==> !Wanted(mics[j], name)
    decreases |mics|
  {
    if mics != [] && !Wanted(mics[0], name) && FirstLoopback(mics, name).Some? {
      FirstLoopbackIsFirst(mics[1..], name);
      var k :| 0 <= k < |mics[1..]| && mics[1..][k] == FirstLoopback(mics, name).value
        && forall j :: 0 <= j < k ==> !Wanted(mics[1..][j], name);
      assert mics[k + 1] == FirstLoopback(mics, name).value;
      forall j | 0 <= j < k + 1
        ensures !Wanted(mics[j], name)
      {
        if j > 0 {
          assert mics[j] == mics[1..][j - 1];
        }
      }
    }
  }

  lemma SelectLoopbackSound(mics: seq<Mic>, speaker: Option<string>)
    ensures mics == [] ==> SelectLoopback(mics, speaker) == None
    ensures SelectLoopback(mics, speaker).Some? ==>
      SelectLoopback(mics, speaker).value in mics && SelectLoopback(mics, speaker).value.isLoopback
    ensures speaker.Some? && (exists i :: 0 <= i < |mics| && mics[i].isLoopback && mics[i].name == speaker.value) ==>
      SelectLoopback(mics, speaker).Some? && SelectLoopback(mics, speaker).value.name == speaker.value
    ensures SelectLoopback(mics, speaker).None? <==> forall i :: 0 <= i < |mics| ==> !mics[i].isLoopback
  {
    FirstLoopbackExists(mics, speaker);
    FirstLoopbackExists(mics, None);
  }

  /** `find_loopback_device`: two scans of the list with early returns. */
  method FindLoopbackDevice(mics: seq<Mic>, speaker: Option<string>) returns (r: Option<Mic>)
    ensures r == SelectLoopback(mics, speaker)
  {
    if mics == [] {
      return None;
    }
    if speaker.Some? {
      for i := 0 to |mics|
        invariant FirstLoopback(mics, speaker) == FirstLoopback(mics[i..], speaker)
      {
        assert mics[i..][1..] == mics[i + 1..];
        if mics[i].isLoopback && mics[i].name == speaker.value {
          return Some(mics[i]);
        }
      }
    }
    for i := 0 to |mics|
      invariant FirstLoopback(mics, None) == FirstLoopback(mics[i..], None)
      invariant speaker.Some? ==> FirstLoopback(mics, speaker).None?
    {
      assert mics[i..][1..] == mics[i + 1..];
      if mics[i].isLoopback {
        return Some(mics[i]);
      }
    }
    return None;
  }
}
