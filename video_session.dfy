/**
 * The decisions of `main` in the screen-and-audio script: it needs ffmpeg
 * (and stops with an error without it) and a loopback device, names the
 * temporaries and the final MP4 after the timestamp, records, checks that
 * both temporaries hold data, measures the offset between the two streams'
 * start times and muxes them; a `finally` clause then removes the
 * temporaries unless they are to be kept.
 *
 * Recording, the clock and ffmpeg's run are inputs: the start times the two
 * recorders report, the fallback clock reading, what the temporaries look
 * like afterwards and the exit code of the mux.
 */
module VideoSession {
  import opened Wrappers
  import opened Files
  import opened AudioCapture
  import opened EncodeProfile
  import opened FfmpegArgs
  import opened Probe

  /** Python's `x or y` for an optional time stamp: `None` and `0.0` are false. */
  function PyOr(x: Option<real>, y: real): (r: real)
    ensures x.Some? && x.value != 0.0 ==> r == x.value
    ensures x.None? || x.value == 0.0 ==> r == y
  {
    if x.Some? && x.value != 0.0 then x.value else y
  }

  /**
   * `offset = (v0 or a0) - a0`: how much later the video started than the
   * audio. A video start of exactly 0.0 is falsy in Python and counts as none.
   */
  function MeasuredOffset(videoStart: Option<real>, audioStart: real): (offset: real)
    ensures videoStart.None? ==> offset == 0.0
    ensures videoStart.Some? && videoStart.value != 0.0 ==> offset + audioStart == videoStart.value
    ensures videoStart == Some(0.0) ==> offset == 0.0
  {
    PyOr(videoStart, audioStart) - audioStart
  }

  /** A positive offset means the video started later, a negative one that the audio did. */
  lemma OffsetSign(v: real, a0: real)
    requires v != 0.0
    ensures MeasuredOffset(Some(v), a0) > 0.0 <==> v > a0
    ensures MeasuredOffset(Some(v), a0) < 0.0 <==> v < a0
    ensures MeasuredOffset(Some(v), a0) == 0.0 <==> v == a0
  {
  }

  datatype VideoNames = VideoNames(tmpVideo: Path, tmpAudio: Path, out: Path)

  /** `base = f"video_{ts}"`, the temporaries `temp_{base}.mp4` and `.wav`, and the final `{base}.mp4`. */
  function VideoFiles(outdir: string, ts: string): VideoNames {
    var base := "video_" + ts;
    VideoNames(Path(outdir, "temp_" + base + ".mp4"), Path(outdir, "temp_" + base + ".wav"),
               Path(outdir, base + ".mp4"))
  }

  /** The three files are distinct for every timestamp, so neither temporary is the output nor the other. */
  lemma VideoFilesDistinct(outdir: string, ts: string)
    ensures VideoFiles(outdir, ts).tmpVideo != VideoFiles(outdir, ts).tmpAudio
    ensures VideoFiles(outdir, ts).tmpVideo != VideoFiles(outdir, ts).out
    ensures VideoFiles(outdir, ts).tmpAudio != VideoFiles(outdir, ts).out
    ensures Text(VideoFiles(outdir, ts).tmpVideo) != Text(VideoFiles(outdir, ts).tmpAudio)
    ensures Text(VideoFiles(outdir, ts).out) != Text(VideoFiles(outdir, ts).tmpVideo)
    ensures Text(VideoFiles(outdir, ts).tmpAudio) != Text(VideoFiles(outdir, ts).out)
  {
    var n := VideoFiles(outdir, ts);
    var k := |n.tmpVideo.name| - 3;
    assert n.tmpVideo.name[k] == 'm' && n.tmpAudio.name[k] == 'w';
    assert |n.out.name| + 5 == |n.tmpVideo.name| == |n.tmpAudio.name|;
    TextInjective(outdir, n.tmpVideo.name, n.tmpAudio.name);
    TextInjective(outdir, n.out.name, n.tmpVideo.name);
  }

  /** What the run found and what it was given. */
  datatype VideoEnv = VideoEnv(
    ffmpeg: Option<string>,       // shutil.which("ffmpeg")
    mics: seq<Mic>,               // the microphones, loopback devices included
    speaker: Option<string>,      // the default speaker's name
    nvencMode: string,            // NVENC_MODE
    nvencDetected: bool,          // what detect_nvenc() would report
    quality: string,              // QUALITY_MODE
    outdir: string,               // OUTPUT_DIR
    ts: string,                   // time.strftime("%d-%m-%Y_%H-%M")
    fps: int,                     // FPS
    rate: int,                    // AUDIO_SAMPLERATE
    bitrate: string,              // AUDIO_BITRATE
    videoStart: Option<real>,     // what record_video returned
    audioStart: Option<real>,     // rec.start_ts after stop
    now: real,                    // the clock reading that replaces a missing audio start
    videoFile: FileState,         // the temporary video after recording
    audioFile: FileState,         // the temporary WAV after recording
    muxExit: int,                 // the return code of the mux
    keepTemp: bool)               // KEEP_TEMP

  datatype VideoOutcome = FfmpegMissing | NoLoopback | EmptyVideo | EmptyAudio | MuxFailed | Muxed

  /** How a run ended, the mux command it ran if any, and the files it removed, in order. */
  datatype VideoRun = VideoRun(outcome: VideoOutcome, mux: Option<seq<string>>, removed: seq<Path>)

  /** The mux `main` would run, once ffmpeg, the device and both temporaries are there. */
  function MainMux(env: VideoEnv, fmt: Formatter): seq<string>
    requires env.ffmpeg.Some?
  {
    var names := VideoFiles(env.outdir, env.ts);
    var prof := QualityProfile(env.quality, PickNvenc(env.nvencMode, env.nvencDetected));
    var offset := MeasuredOffset(env.videoStart, PyOr(env.audioStart, env.now));
    MuxArgs(env.ffmpeg.value, Text(names.tmpVideo), Text(names.tmpAudio), Text(names.out),
            env.fps, env.rate, env.bitrate, offset, prof, fmt)
  }

  /** `main()` as written, the `finally` clause included. */
  function VideoMain(env: VideoEnv, fmt: Formatter): VideoRun {
    var names := VideoFiles(env.outdir, env.ts);
    if !Found(env.ffmpeg) then VideoRun(FfmpegMissing, None, [])
    else if SelectLoopback(env.mics, env.speaker).None? then VideoRun(NoLoopback, None, [])
    else if !HasData(env.videoFile) then VideoRun(EmptyVideo, None, [])
    else if !HasData(env.audioFile) then VideoRun(EmptyAudio, None, [])
    else
      VideoRun(if env.muxExit == 0 then Muxed else MuxFailed, Some(MainMux(env, fmt)),
               if env.keepTemp then [] else [names.tmpVideo, names.tmpAudio])
  }

  predicate ReachesMux(env: VideoEnv) {
    Found(env.ffmpeg) && SelectLoopback(env.mics, env.speaker).Some?
    && HasData(env.videoFile) && HasData(env.audioFile)
  }

  /**
   * The early returns: without ffmpeg, without a loopback device or with an
   * empty or missing temporary nothing is muxed and nothing removed; the mux
   * runs exactly when all four are there, and the run succeeds exactly when
   * its exit code is 0.
   */
  lemma VideoMainExits(env: VideoEnv, fmt: Formatter)
    ensures !Found(env.ffmpeg) ==> VideoMain(env, fmt).outcome == FfmpegMissing
    ensures Found(env.ffmpeg) && (forall i :: 0 <= i < |env.mics| ==> !env.mics[i].isLoopback) ==>
      VideoMain(env, fmt).outcome == NoLoopback
    ensures VideoMain(env, fmt).mux.Some? <==> ReachesMux(env)
    ensures !ReachesMux(env) ==> VideoMain(env, fmt).removed == []
    ensures VideoMain(env, fmt).outcome == Muxed <==> ReachesMux(env) && env.muxExit == 0
    ensures VideoMain(env, fmt).outcome == MuxFailed <==> ReachesMux(env) && env.muxExit != 0
  {
    SelectLoopbackSound(env.mics, env.speaker);
  }

  /** The final MP4's path never reads as an option when the output directory does not start with a dash. */
  lemma OutputNotOption(outdir: string, ts: string)
    requires outdir == [] || outdir[0] != '-'
    ensures !IsOption(Text(VideoFiles(outdir, ts).out))
  {
    var out := Text(VideoFiles(outdir, ts).out);
    if outdir == [] {
      assert out[0] == '\\';
    } else {
      assert out[0] == outdir[0];
    }
  }

  /**
   * The mux reads the temporary video as input 0 and the temporary WAV as
   * input 1, and delays the stream that started earlier by the gap: the
   * audio when the video started later, the video when the audio did, and
   * neither when no video start was recorded.
   */
  lemma MainMuxAligns(env: VideoEnv, fmt: Formatter)
    requires ReachesMux(env)
    requires env.outdir == [] || env.outdir[0] != '-'
    ensures var names := VideoFiles(env.outdir, env.ts);
      var a0 := PyOr(env.audioStart, env.now);
      var c := Parse(MainMux(env, fmt));
      c.Some? && |c.value.inputs| == 2
      && c.value.inputs[0].path == Text(names.tmpVideo) && c.value.inputs[1].path == Text(names.tmpAudio)
      && c.value.output == Text(names.out)
      && (env.videoStart.None? ==> c.value.inputs[0].opts == [] && c.value.inputs[1].opts == [])
      && (env.videoStart.Some? && env.videoStart.value != 0.0 && env.videoStart.value > a0 ==>
            c.value.inputs[0].opts == [] &&
            c.value.inputs[1].opts == [Pair("-itsoffset", fmt(env.videoStart.value - a0))])
      && (env.videoStart.Some? && env.videoStart.value != 0.0 && env.videoStart.value < a0 ==>
            c.value.inputs[0].opts == [Pair("-itsoffset", fmt(a0 - env.videoStart.value))] &&
            c.value.inputs[1].opts == [])
  {
    var names := VideoFiles(env.outdir, env.ts);
    var prof := QualityProfile(env.quality, PickNvenc(env.nvencMode, env.nvencDetected));
    var a0 := PyOr(env.audioStart, env.now);
    var offset := MeasuredOffset(env.videoStart, a0);
    var out := Text(names.out);
    OutputNotOption(env.outdir, env.ts);
    ProfileOptsWellFormed(env.quality, PickNvenc(env.nvencMode, env.nvencDetected));
    MuxDelaysBySign(env.ffmpeg.value, Text(names.tmpVideo), Text(names.tmpAudio), out,
                    env.fps, env.rate, env.bitrate, offset, prof, fmt);
    if env.videoStart.Some? && env.videoStart.value != 0.0 {
      OffsetSign(env.videoStart.value, a0);
      assert -offset == a0 - env.videoStart.value;
    }
  }

  /** The mux command's two inputs, its output, and which input carries the offset, by the offset's sign. */
  lemma MuxDelaysBySign(ffmpeg: string, video: string, audio: string, out: string, fps: int, rate: int,
                        bitrate: string, offset: real, prof: Profile, fmt: Formatter)
    requires WellFormedOpts(prof.opts) && !IsOption(out)
    ensures var c := Parse(MuxArgs(ffmpeg, video, audio, out, fps, rate, bitrate, offset, prof, fmt));
      c.Some? && |c.value.inputs| == 2
      && c.value.inputs[0].path == video && c.value.inputs[1].path == audio && c.value.output == out
      && (offset == 0.0 ==> c.value.inputs[0].opts == [] && c.value.inputs[1].opts == [])
      && (offset > 0.0 ==> c.value.inputs[0].opts == [] && c.value.inputs[1].opts == [Pair("-itsoffset", fmt(offset))])
      && (offset < 0.0 ==> c.value.inputs[0].opts == [Pair("-itsoffset", fmt(-offset))] && c.value.inputs[1].opts == [])
  {
    MuxCommandParses(ffmpeg, video, audio, out, fps, rate, bitrate, offset, prof, fmt);
  }

  /**
   * What the code does after a failed mux: it reports the temporaries as
   * preserved, but the `finally` clause runs after that `return` and removes
   * both of them unless they are to be kept.
   */
  lemma MuxFailureDeletesTemporaries(env: VideoEnv, fmt: Formatter)
    requires ReachesMux(env) && env.muxExit != 0 && !env.keepTemp
    ensures VideoMain(env, fmt).outcome == MuxFailed
    ensures VideoMain(env, fmt).removed ==
      [VideoFiles(env.outdir, env.ts).tmpVideo, VideoFiles(env.outdir, env.ts).tmpAudio]
  {
  }

  /** `main()` with the cleanup the failure message promises: a failed mux keeps both temporaries. */
  function VideoMainPreserving(env: VideoEnv, fmt: Formatter): VideoRun {
    var run := VideoMain(env, fmt);
    if run.outcome == MuxFailed then run.(removed := []) else run
  }

  /**
   * With that cleanup the temporaries survive a failed mux, so the files the
   * message names are there to retry with, and every other run behaves as
   * before: a successful mux still removes both unless they are to be kept.
   */
  lemma MuxFailurePreservesTemporaries(env: VideoEnv, fmt: Formatter)
    ensures VideoMainPreserving(env, fmt).outcome == VideoMain(env, fmt).outcome
    ensures VideoMainPreserving(env, fmt).mux == VideoMain(env, fmt).mux
    ensures VideoMainPreserving(env, fmt).outcome == MuxFailed ==> VideoMainPreserving(env, fmt).removed == []
    ensures VideoMainPreserving(env, fmt).outcome == Muxed && !env.keepTemp ==>
      VideoMainPreserving(env, fmt).removed ==
        [VideoFiles(env.outdir, env.ts).tmpVideo, VideoFiles(env.outdir, env.ts).tmpAudio]
    ensures VideoMainPreserving(env, fmt).outcome != MuxFailed ==> VideoMainPreserving(env, fmt) == VideoMain(env, fmt)
    ensures forall p :: p in VideoMainPreserving(env, fmt).removed ==>
      VideoMainPreserving(env, fmt).outcome == Muxed && !env.keepTemp
      && (p == VideoFiles(env.outdir, env.ts).tmpVideo || p == VideoFiles(env.outdir, env.ts).tmpAudio)
  {
  }

  /** The final MP4 is never among the files removed, in either version. */
  lemma OutputNeverRemoved(env: VideoEnv, fmt: Formatter)
    ensures VideoFiles(env.outdir, env.ts).out !in VideoMain(env, fmt).removed
    ensures VideoFiles(env.outdir, env.ts).out !in VideoMainPreserving(env, fmt).removed
  {
    VideoFilesDistinct(env.outdir, env.ts);
  }
}
