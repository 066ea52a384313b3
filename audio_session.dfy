/**
 * The decisions of `main` in the audio-only script: it needs a loopback
 * device, names the temporary WAV and the final M4A after the timestamp,
 * records, checks that the WAV holds data, transcodes it to AAC when ffmpeg
 * is there, picks the file that is the result, and removes the WAV only
 * when it is not that result and is not to be kept.
 */
module AudioSession {
  import opened Wrappers
  import opened Files
  import opened AudioCapture
  import opened FfmpegArgs
  import opened Probe

  datatype AudioNames = AudioNames(tmpWav: Path, out: Path)

  /** `base = f"audio_{ts}"`, the temporary `temp_{base}.wav` and the final `{base}.m4a`. */
  function AudioFiles(outdir: string, ts: string): AudioNames {
    var base := "audio_" + ts;
    AudioNames(Path(outdir, "temp_" + base + ".wav"), Path(outdir, base + ".m4a"))
  }

  /** The temporary and the result differ for every timestamp: their names differ in length and in their first letter. */
  lemma AudioFilesDistinct(outdir: string, ts: string)
    ensures AudioFiles(outdir, ts).tmpWav != AudioFiles(outdir, ts).out
    ensures Text(AudioFiles(outdir, ts).tmpWav) != Text(AudioFiles(outdir, ts).out)
    ensures AudioFiles(outdir, ts).tmpWav.name[..11] == "temp_audio_"
    ensures AudioFiles(outdir, ts).out.name[..6] == "audio_"
  {
    var n := AudioFiles(outdir, ts);
    assert |n.tmpWav.name| == |n.out.name| + 5;
    TextInjective(outdir, n.tmpWav.name, n.out.name);
  }

  /** What the run found and what it was given. */
  datatype AudioEnv = AudioEnv(
    ffmpeg: Option<string>,       // shutil.which("ffmpeg")
    mics: seq<Mic>,               // the microphones, loopback devices included
    speaker: Option<string>,      // the default speaker's name
    outdir: string,               // OUTPUT_DIR
    ts: string,                   // time.strftime("%d-%m-%Y_%H-%M")
    rate: int,                    // AUDIO_SAMPLERATE
    bitrate: string,              // AUDIO_BITRATE
    wavFile: FileState,           // the temporary WAV after recording
    transcodeExit: int,           // the return code the transcode would give
    keepTemp: bool)               // KEEP_TEMP

  datatype AudioOutcome = NoLoopback | EmptyWav | Saved(final: Path)

  /** How a run ended, the transcode command it ran if any, and the files it removed. */
  datatype AudioRun = AudioRun(outcome: AudioOutcome, transcode: Option<seq<string>>, removed: seq<Path>)

  /** `main()`. */
  function AudioMain(env: AudioEnv): AudioRun {
    var names := AudioFiles(env.outdir, env.ts);
    if SelectLoopback(env.mics, env.speaker).None? then AudioRun(NoLoopback, None, [])
    else if !HasData(env.wavFile) then AudioRun(EmptyWav, None, [])
    else
      var t := TranscodeToM4a(env.ffmpeg, Text(names.tmpWav), Text(names.out), env.rate, env.bitrate,
                              env.transcodeExit);
      var final := if Found(env.ffmpeg) && t.ok then names.out else names.tmpWav;
      AudioRun(Saved(final), t.ran, if final != names.tmpWav && !env.keepTemp then [names.tmpWav] else [])
  }

  /**
   * The result is the M4A exactly when ffmpeg was found and the transcode
   * exited with 0, and the WAV in every other case that got past the
   * sanity check; ffmpeg runs only when it was found; the WAV is removed
   * exactly when it is not the result and is not to be kept, so the result
   * is never removed.
   */
  lemma AudioMainResult(env: AudioEnv)
    requires AudioMain(env).outcome.Saved?
    ensures var names := AudioFiles(env.outdir, env.ts);
      var run := AudioMain(env);
      && (run.outcome.final == names.out <==> Found(env.ffmpeg) && env.transcodeExit == 0)
      && (run.outcome.final == names.out || run.outcome.final == names.tmpWav)
      && (run.transcode.Some? <==> Found(env.ffmpeg))
      && (names.tmpWav in run.removed <==> run.outcome.final != names.tmpWav && !env.keepTemp)
      && (forall p :: p in run.removed ==> p == names.tmpWav)
      && run.outcome.final !in run.removed
  {
    AudioFilesDistinct(env.outdir, env.ts);
  }

  /** The run stops before any transcode without a loopback device or with an empty or missing WAV. */
  lemma AudioMainExits(env: AudioEnv)
    ensures (forall i :: 0 <= i < |env.mics| ==> !env.mics[i].isLoopback) ==> AudioMain(env).outcome == NoLoopback
    ensures AudioMain(env).outcome.Saved? <==> SelectLoopback(env.mics, env.speaker).Some? && HasData(env.wavFile)
    ensures !AudioMain(env).outcome.Saved? ==> AudioMain(env).transcode.None? && AudioMain(env).removed == []
  {
    SelectLoopbackSound(env.mics, env.speaker);
  }

  /** The transcode that runs reads the temporary WAV and writes the final M4A. */
  lemma AudioTranscodeFiles(env: AudioEnv)
    requires AudioMain(env).transcode.Some?
    requires env.outdir == [] || env.outdir[0] != '-'
    ensures var names := AudioFiles(env.outdir, env.ts);
      var c := Parse(AudioMain(env).transcode.value);
      c.Some? && c.value.inputs == [Input([], Text(names.tmpWav))] && c.value.output == Text(names.out)
  {
    var names := AudioFiles(env.outdir, env.ts);
    var out := Text(names.out);
    assert !IsOption(out) by {
      if env.outdir == [] {
        assert out[0] == '\\';
      } else {
        assert out[0] == env.outdir[0];
      }
    }
    TranscodeCommandParses(env.ffmpeg.value, Text(names.tmpWav), out, env.rate, env.bitrate);
  }
}
