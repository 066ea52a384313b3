/**
 * What the measured offset does to the muxed recording. ffmpeg's
 * `-itsoffset d` adds `d` seconds to every timestamp of the input it
 * precedes. A moment captured at clock time `t` by a stream whose recording
 * began at clock time `start` therefore plays at `t - start + d` in the
 * output. Picture and sound are in sync when every moment plays at the
 * same time in both.
 */
module StreamSync {
  import opened FfmpegArgs
  import opened VideoSession
  import opened Wrappers

  /** The `-itsoffset` delays, in seconds, given to the video input and to the audio input. */
  datatype Delays = Delays(video: real, audio: real)

  /** When a moment captured at clock time `t` plays in the output. */
  function PlayTime(t: real, start: real, delay: real): real {
    t - start + delay
  }

  /**
   * The delays `mux_ffmpeg` gives for an offset: a positive offset delays
   * the audio, a negative one delays the video by its magnitude. Either
   * way the audio ends up `offset` seconds later than the video.
   */
  function InputDelays(offset: real): (d: Delays)
    ensures d.video >= 0.0 && d.audio >= 0.0 && (d.video == 0.0 || d.audio == 0.0)
    ensures d.audio - d.video == offset
  {
    if offset > 0.0 then Delays(0.0, offset)
    else if offset < 0.0 then Delays(-offset, 0.0)
    else Delays(0.0, 0.0)
  }

  /** The options an input carries for a delay: `-itsoffset` only when there is something to shift. */
  function DelayOpts(delay: real, fmt: Formatter): seq<Opt> {
    if delay > 0.0 then [Pair("-itsoffset", fmt(delay))] else []
  }

  /** The two inputs of the mux, video first, with their delays. */
  function InputsFor(video: string, audio: string, d: Delays, fmt: Formatter): seq<Input> {
    [Input(DelayOpts(d.video, fmt), video), Input(DelayOpts(d.audio, fmt), audio)]
  }

  /** The input part of `mux_ffmpeg`'s command gives each input exactly the delay `InputDelays` names. */
  lemma MuxInputsDelay(video: string, audio: string, offset: real, fmt: Formatter, rest: seq<string>, g: seq<Opt>)
    ensures ParseFrom(MuxInputs(video, audio, offset, fmt) + rest, g, [], [])
         == ParseFrom(rest, g, InputsFor(video, audio, InputDelays(offset), fmt), [])
  {
    if offset > 0.0 {
      ParseDelayedAudio(video, audio, fmt(offset), rest, g);
    } else if offset < 0.0 {
      ParseDelayedVideo(video, audio, fmt(-offset), rest, g);
    } else {
      ParseUndelayed(video, audio, rest, g);
    }
  }

  /**
   * As written: when the video starts `v0 - a0` seconds after the audio,
   * the mux plays every sound `2 * (v0 - a0)` seconds after the picture
   * captured with it, instead of together with it.
   */
  lemma MuxDoublesOffset(v0: real, a0: real, t: real)
    requires v0 != 0.0
    ensures var d := InputDelays(MeasuredOffset(Some(v0), a0));
      PlayTime(t, a0, d.audio) - PlayTime(t, v0, d.video) == 2.0 * (v0 - a0)
  {
    var offset := MeasuredOffset(Some(v0), a0);
    assert offset == v0 - a0;
  }

  /**
   * Video starting half a second after the audio: the first frame plays at
   * 0 s, and the sound captured at that moment plays a whole second later.
   */
  lemma MuxOutOfSyncExample()
    ensures var d := InputDelays(MeasuredOffset(Some(10.5), 10.0));
      PlayTime(10.5, 10.5, d.video) == 0.0 && PlayTime(10.5, 10.0, d.audio) == 1.0
  {
    assert MeasuredOffset(Some(10.5), 10.0) == 0.5;
  }

  /** The delays that cancel the offset: a later video start delays the video, a later audio start the audio. */
  function AlignedDelays(offset: real): (d: Delays)
    ensures d.video >= 0.0 && d.audio >= 0.0 && (d.video == 0.0 || d.audio == 0.0)
    ensures d.video - d.audio == offset
  {
    if offset > 0.0 then Delays(offset, 0.0)
    else if offset < 0.0 then Delays(0.0, -offset)
    else Delays(0.0, 0.0)
  }

  /** With the offset cancelled, every moment plays at the same time in picture and sound. */
  lemma AlignedInSync(v0: real, a0: real, t: real)
    requires v0 != 0.0
    ensures var d := AlignedDelays(MeasuredOffset(Some(v0), a0));
      PlayTime(t, v0, d.video) == PlayTime(t, a0, d.audio)
  {
    var offset := MeasuredOffset(Some(v0), a0);
    assert offset == v0 - a0;
  }

  /** The input part of the mux command with the offset applied to the stream that started later. */
  function MuxInputsAligned(video: string, audio: string, offset: real, fmt: Formatter): seq<string> {
    if offset > 0.0 then ["-itsoffset", fmt(offset), "-i", video, "-i", audio]
    else if offset < 0.0 then ["-i", video, "-itsoffset", fmt(-offset), "-i", audio]
    else ["-i", video, "-i", audio]
  }

  /** The corrected input part gives each input exactly the delay `AlignedDelays` names. */
  lemma AlignedInputsDelay(video: string, audio: string, offset: real, fmt: Formatter, rest: seq<string>, g: seq<Opt>)
    ensures ParseFrom(MuxInputsAligned(video, audio, offset, fmt) + rest, g, [], [])
         == ParseFrom(rest, g, InputsFor(video, audio, AlignedDelays(offset), fmt), [])
  {
    if offset > 0.0 {
      ParseDelayedVideo(video, audio, fmt(offset), rest, g);
    } else if offset < 0.0 {
      ParseDelayedAudio(video, audio, fmt(-offset), rest, g);
    } else {
      ParseUndelayed(video, audio, rest, g);
    }
  }
}
