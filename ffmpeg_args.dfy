/**
 * The argument lists handed to ffmpeg: `mux_ffmpeg` joins the temporary
 * video and WAV into the final MP4, delaying the stream that started earlier
 * by the measured gap with `-itsoffset` (`StreamSync` states what that does
 * to playback), and `transcode_to_m4a` turns the WAV into AAC.
 *
 * What an argument list means is given by `Parse`, a reading of ffmpeg's
 * command-line grammar: after the program name, options before an `-i`
 * belong to that input, options after the last input belong to the output
 * file, which is the final plain word; `-y` is global and `-shortest` takes
 * no value; every other option takes the next word as its value.
 */
module FfmpegArgs {
  import opened Wrappers
  import opened Decimal
  import opened EncodeProfile
  import opened Probe

  datatype Opt = Flag(key: string) | Pair(key: string, value: string)
  datatype Input = Input(opts: seq<Opt>, path: string)
  datatype Command = Command(program: string, globals: seq<Opt>, inputs: seq<Input>, outOpts: seq<Opt>, output: string)

  predicate IsOption(t: string) {
    |t| > 0 && t[0] == '-'
  }

  predicate IsGlobalFlag(t: string) {
    t == "-y"
  }

  predicate IsLoneFlag(t: string) {
    t == "-shortest"
  }

  /** An option word that takes the next word as its value and belongs to the next file. */
  predicate IsValued(t: string) {
    IsOption(t) && t != "-i" && !IsGlobalFlag(t) && !IsLoneFlag(t)
  }

  function ParseFrom(ts: seq<string>, globals: seq<Opt>, inputs: seq<Input>, pending: seq<Opt>)
    : Option<(seq<Opt>, seq<Input>, seq<Opt>, string)>
    decreases |ts|
  {
    if ts == [] then None
    else if IsGlobalFlag(ts[0]) then ParseFrom(ts[1..], globals + [Flag(ts[0])], inputs, pending)
    else if ts[0] == "-i" then
      if |ts| < 2 then None else ParseFrom(ts[2..], globals, inputs + [Input(pending, ts[1])], [])
    else if IsLoneFlag(ts[0]) then ParseFrom(ts[1..], globals, inputs, pending + [Flag(ts[0])])
    else if IsOption(ts[0]) then
      if |ts| < 2 then None else ParseFrom(ts[2..], globals, inputs, pending + [Pair(ts[0], ts[1])])
    else if |ts| == 1 then Some((globals, inputs, pending, ts[0]))
    else None
  }

  /** How ffmpeg reads an argument list; `None` when it names no output file or ends inside an option. */
  function Parse(argv: seq<string>): Option<Command> {
    if argv == [] then None
    else match ParseFrom(argv[1..], [], [], [])
      case None => None
      case Some((g, ins, outs, out)) => Some(Command(argv[0], g, ins, outs, out))
  }

  /** A codec option list: words in key/value pairs whose keys are valued options. */
  predicate WellFormedOpts(ts: seq<string>)
    decreases |ts|
  {
    ts == [] || (|ts| >= 2 && IsValued(ts[0]) && WellFormedOpts(ts[2..]))
  }

  /** The options a well-formed option list spells. */
  function AsPairs(ts: seq<string>): (os: seq<Opt>)
    requires WellFormedOpts(ts)
    ensures |os| == |ts| / 2
    decreases |ts|
  {
    if ts == [] then [] else [Pair(ts[0], ts[1])] + AsPairs(ts[2..])
  }

  /** ffmpeg reads a well-formed option list as its pairs, attached to the file that follows. */
  lemma {:induction false} ParseOpts(ts: seq<string>, rest: seq<string>, g: seq<Opt>, ins: seq<Input>, p: seq<Opt>)
    requires WellFormedOpts(ts)
    ensures ParseFrom(ts + rest, g, ins, p) == ParseFrom(rest, g, ins, p + AsPairs(ts))
    decreases |ts|
  {
    if ts == [] {
      assert ts + rest == rest;
      assert p + AsPairs(ts) == p;
    } else {
      var tail := ts[2..];
      assert (ts + rest)[2..] == tail + rest;
      ParseOpts(tail, rest, g, ins, p + [Pair(ts[0], ts[1])]);
      assert p + [Pair(ts[0], ts[1])] + AsPairs(tail) == p + AsPairs(ts);
    }
  }

  /** One valued option. */
  lemma ParsePair(k: string, v: string, rest: seq<string>, g: seq<Opt>, ins: seq<Input>, p: seq<Opt>)
    requires IsValued(k)
    ensures ParseFrom([k, v] + rest, g, ins, p) == ParseFrom(rest, g, ins, p + [Pair(k, v)])
  {
    assert ([k, v] + rest)[2..] == rest;
  }

  /** One option without a value. */
  lemma ParseLone(k: string, rest: seq<string>, g: seq<Opt>, ins: seq<Input>, p: seq<Opt>)
    requires IsLoneFlag(k)
    ensures ParseFrom([k] + rest, g, ins, p) == ParseFrom(rest, g, ins, p + [Flag(k)])
  {
    assert ([k] + rest)[1..] == rest;
  }

  /** The overwrite flag that opens both commands. */
  lemma ParseGlobal(rest: seq<string>)
    ensures ParseFrom(["-y"] + rest, [], [], []) == ParseFrom(rest, [Flag("-y")], [], [])
  {
    assert (["-y"] + rest)[1..] == rest;
    assert [] + [Flag("-y")] == [Flag("-y")];
  }

  /** One input file. */
  lemma ParseInput(path: string, rest: seq<string>, g: seq<Opt>, ins: seq<Input>, p: seq<Opt>)
    ensures ParseFrom(["-i", path] + rest, g, ins, p) == ParseFrom(rest, g, ins + [Input(p, path)], [])
  {
    assert (["-i", path] + rest)[2..] == rest;
  }

  lemma WellFormedCons(k: string, v: string, rest: seq<string>)
    requires IsValued(k) && WellFormedOpts(rest)
    ensures WellFormedOpts([k, v] + rest)
  {
    assert ([k, v] + rest)[2..] == rest;
  }

  lemma NvencOptsWellFormed(cq: string)
    ensures WellFormedOpts(NvencOpts(cq))
  {
    WellFormedCons("-bf", "3", []);
    WellFormedCons("-rc-lookahead", "32", ["-bf", "3"]);
    WellFormedCons("-cq", cq, ["-rc-lookahead", "32", "-bf", "3"]);
    WellFormedCons("-preset", "p4", ["-cq", cq, "-rc-lookahead", "32", "-bf", "3"]);
    assert NvencOpts(cq) == ["-preset", "p4"] + ["-cq", cq, "-rc-lookahead", "32", "-bf", "3"];
  }

  lemma X264OptsWellFormed(preset: string, crf: string, k: string, v: string)
    requires IsValued(k)
    ensures WellFormedOpts(["-preset", preset, "-crf", crf, k, v])
    ensures WellFormedOpts(["-preset", preset, "-crf", crf])
  {
    WellFormedCons(k, v, []);
    WellFormedCons("-crf", crf, [k, v]);
    WellFormedCons("-preset", preset, ["-crf", crf, k, v]);
    assert ["-preset", preset, "-crf", crf, k, v] == ["-preset", preset] + ["-crf", crf, k, v];
    WellFormedCons("-crf", crf, []);
    WellFormedCons("-preset", preset, ["-crf", crf]);
    assert ["-preset", preset, "-crf", crf] == ["-preset", preset] + ["-crf", crf];
  }

  /** Every encoder profile's codec options are a well-formed option list. */
  lemma ProfileOptsWellFormed(mode: string, useNvenc: bool)
    ensures WellFormedOpts(QualityProfile(mode, useNvenc).opts)
  {
    var ts := QualityProfile(mode, useNvenc).opts;
    if useNvenc {
      NvencOptsWellFormed(ts[3]);
    } else if mode == "lossless" {
      X264OptsWellFormed("slow", "0", "-profile:v", "high444");
    } else if mode == "insane" {
      X264OptsWellFormed("slower", "12", "-x264-params", ts[5]);
    } else {
      X264OptsWellFormed("slow", "14", "-x", "");
    }
  }

  /** The audio filter of the mux: resample to keep audio in step with its timestamps, starting at zero. */
  const Resample: string := "aresample=async=1:first_pts=0"

  /** `f"{x:.6f}"` is not modelled: the caller supplies the formatter. */
  type Formatter = real -> string

  /** The input part of the mux command for each sign of the measured offset. */
  function MuxInputs(video: string, audio: string, offset: real, fmt: Formatter): seq<string> {
    if offset > 0.0 then ["-i", video, "-itsoffset", fmt(offset), "-i", audio]
    else if offset < 0.0 then ["-itsoffset", fmt(-offset), "-i", video, "-i", audio]
    else ["-i", video, "-i", audio]
  }

  /** The output part of the mux command: stream maps, codecs, rates and the output path. */
  function MuxOutput(out: string, fps: int, rate: int, bitrate: string, prof: Profile): seq<string> {
    ["-map", "0:v:0", "-map", "1:a:0", "-c:v", prof.codec] + prof.opts + MuxTail(out, fps, rate, bitrate, prof.pix)
  }

  /** The words after the codec options. */
  function MuxTail(out: string, fps: int, rate: int, bitrate: string, pix: string): seq<string> {
    ["-pix_fmt", pix, "-r", IntToString(fps), "-vsync", "1"] + AudioTail(out, rate, bitrate)
  }

  /** `mux_ffmpeg`'s command line. */
  function MuxArgs(ffmpeg: string, video: string, audio: string, out: string, fps: int, rate: int,
                   bitrate: string, offset: real, prof: Profile, fmt: Formatter): seq<string>
  {
    [ffmpeg, "-y"] + MuxInputs(video, audio, offset, fmt) + MuxOutput(out, fps, rate, bitrate, prof)
  }

  /** The options ffmpeg attaches to the mux output file, in order. */
  function MuxOutOpts(fps: int, rate: int, bitrate: string, prof: Profile): seq<Opt>
    requires WellFormedOpts(prof.opts)
  {
    [Pair("-map", "0:v:0")] + [Pair("-map", "1:a:0")] + [Pair("-c:v", prof.codec)] + AsPairs(prof.opts)
    + [Pair("-pix_fmt", prof.pix)] + [Pair("-r", IntToString(fps))] + [Pair("-vsync", "1")]
    + [Pair("-c:a", "aac")] + [Pair("-b:a", bitrate)] + [Pair("-ar", IntToString(rate))] + [Pair("-ac", "2")]
    + [Pair("-af", Resample)] + [Flag("-shortest")] + [Pair("-movflags", "+faststart")]
  }

  /** The output file closes the command. */
  lemma ParseOutput(out: string, g: seq<Opt>, ins: seq<Input>, p: seq<Opt>)
    requires !IsOption(out)
    ensures ParseFrom([out], g, ins, p) == Some((g, ins, p, out))
  {
  }

  lemma ParseMuxTail(out: string, fps: int, rate: int, bitrate: string, pix: string,
                     g: seq<Opt>, ins: seq<Input>, p: seq<Opt>)
    requires !IsOption(out)
    ensures ParseFrom(MuxTail(out, fps, rate, bitrate, pix), g, ins, p)
         == Some((g, ins, p + [Pair("-pix_fmt", pix)] + [Pair("-r", IntToString(fps))] + [Pair("-vsync", "1")]
                  + [Pair("-c:a", "aac")] + [Pair("-b:a", bitrate)] + [Pair("-ar", IntToString(rate))]
                  + [Pair("-ac", "2")] + [Pair("-af", Resample)] + [Flag("-shortest")]
                  + [Pair("-movflags", "+faststart")], out))
  {
    var r := IntToString(fps);
    var t3 := AudioTail(out, rate, bitrate);
    var t2 := ["-vsync", "1"] + t3;
    var t1 := ["-r", r] + t2;
    var t0 := ["-pix_fmt", pix] + t1;
    assert MuxTail(out, fps, rate, bitrate, pix) == t0;
    var q := p;
    ParsePair("-pix_fmt", pix, t1, g, ins, q);
    q := q + [Pair("-pix_fmt", pix)];
    ParsePair("-r", r, t2, g, ins, q);
    q := q + [Pair("-r", r)];
    ParsePair("-vsync", "1", t3, g, ins, q);
    q := q + [Pair("-vsync", "1")];
    ParseAudioTail(out, rate, bitrate, g, ins, q);
  }

  /** The audio options of the mux command and what follows them. */
  function AudioTail(out: string, rate: int, bitrate: string): seq<string> {
    ["-c:a", "aac", "-b:a", bitrate, "-ar", IntToString(rate), "-ac", "2", "-af", Resample,
     "-shortest", "-movflags", "+faststart", out]
  }

  lemma ParseAudioTail(out: string, rate: int, bitrate: string, g: seq<Opt>, ins: seq<Input>, p: seq<Opt>)
    requires !IsOption(out)
    ensures ParseFrom(AudioTail(out, rate, bitrate), g, ins, p)
         == Some((g, ins, p + [Pair("-c:a", "aac")] + [Pair("-b:a", bitrate)] + [Pair("-ar", IntToString(rate))]
                  + [Pair("-ac", "2")] + [Pair("-af", Resample)] + [Flag("-shortest")]
                  + [Pair("-movflags", "+faststart")], out))
  {
    var ar := IntToString(rate);
    var t8 := ["-shortest"] + (["-movflags", "+faststart"] + [out]);
    var t7 := ["-af", Resample] + t8;
    var t6 := ["-ac", "2"] + t7;
    var t5 := ["-ar", ar] + t6;
    var t4 := ["-b:a", bitrate] + t5;
    var t3 := ["-c:a", "aac"] + t4;
    assert AudioTail(out, rate, bitrate) == t3;
    var q := p;
    ParsePair("-c:a", "aac", t4, g, ins, q);
    q := q + [Pair("-c:a", "aac")];
    ParsePair("-b:a", bitrate, t5, g, ins, q);
    q := q + [Pair("-b:a", bitrate)];
    ParsePair("-ar", ar, t6, g, ins, q);
    q := q + [Pair("-ar", ar)];
    ParsePair("-ac", "2", t7, g, ins, q);
    q := q + [Pair("-ac", "2")];
    ParsePair("-af", Resample, t8, g, ins, q);
    q := q + [Pair("-af", Resample)];
    ParseLone("-shortest", ["-movflags", "+faststart"] + [out], g, ins, q);
    q := q + [Flag("-shortest")];
    ParsePair("-movflags", "+faststart", [out], g, ins, q);
    q := q + [Pair("-movflags", "+faststart")];
    ParseOutput(out, g, ins, q);
  }

  lemma ParseMuxOutput(out: string, fps: int, rate: int, bitrate: string, prof: Profile, g: seq<Opt>, ins: seq<Input>)
    requires WellFormedOpts(prof.opts) && !IsOption(out)
    ensures ParseFrom(MuxOutput(out, fps, rate, bitrate, prof), g, ins, [])
         == Some((g, ins, MuxOutOpts(fps, rate, bitrate, prof), out))
  {
    var tail := MuxTail(out, fps, rate, bitrate, prof.pix);
    ParseMuxHead(prof, tail, g, ins);
    var p := [Pair("-map", "0:v:0")] + [Pair("-map", "1:a:0")] + [Pair("-c:v", prof.codec)] + AsPairs(prof.opts);
    ParseMuxTail(out, fps, rate, bitrate, prof.pix, g, ins, p);
  }

  /** The stream maps, the codec and the profile's options open the mux's output options, in that order. */
  lemma ParseMuxHead(prof: Profile, tail: seq<string>, g: seq<Opt>, ins: seq<Input>)
    requires WellFormedOpts(prof.opts)
    ensures ParseFrom(["-map", "0:v:0", "-map", "1:a:0", "-c:v", prof.codec] + prof.opts + tail, g, ins, [])
         == ParseFrom(tail, g, ins, [Pair("-map", "0:v:0")] + [Pair("-map", "1:a:0")] + [Pair("-c:v", prof.codec)]
                                    + AsPairs(prof.opts))
  {
    var h2 := ["-c:v", prof.codec] + (prof.opts + tail);
    var h1 := ["-map", "1:a:0"] + h2;
    var h0 := ["-map", "0:v:0"] + h1;
    assert ["-map", "0:v:0", "-map", "1:a:0", "-c:v", prof.codec] + prof.opts + tail == h0;
    var p: seq<Opt> := [];
    ParsePair("-map", "0:v:0", h1, g, ins, p);
    assert p + [Pair("-map", "0:v:0")] == [Pair("-map", "0:v:0")];
    p := p + [Pair("-map", "0:v:0")];
    ParsePair("-map", "1:a:0", h2, g, ins, p);
    p := p + [Pair("-map", "1:a:0")];
    ParsePair("-c:v", prof.codec, prof.opts + tail, g, ins, p);
    p := p + [Pair("-c:v", prof.codec)];
    ParseOpts(prof.opts, tail, g, ins, p);
  }

  /**
   * What ffmpeg is asked to do by `mux_ffmpeg`: the video is always input 0
   * and the audio input 1, mapped as 0:v:0 and 1:a:0; when the video started
   * later (positive offset) the audio input is delayed by the offset, when
   * the audio started later the video input is delayed by its magnitude, and
   * with no offset neither is; the output carries the profile's codec and
   * options, the frame rate, the audio settings and `-shortest`, and is
   * written to `out`, overwriting it.
   */
  lemma MuxCommandParses(ffmpeg: string, video: string, audio: string, out: string, fps: int, rate: int,
                         bitrate: string, offset: real, prof: Profile, fmt: Formatter)
    requires WellFormedOpts(prof.opts) && !IsOption(out)
    ensures Parse(MuxArgs(ffmpeg, video, audio, out, fps, rate, bitrate, offset, prof, fmt)) ==
      Some(Command(ffmpeg, [Flag("-y")],
        (if offset > 0.0 then [Input([], video), Input([Pair("-itsoffset", fmt(offset))], audio)]
         else if offset < 0.0 then [Input([Pair("-itsoffset", fmt(-offset))], video), Input([], audio)]
         else [Input([], video), Input([], audio)]),
        MuxOutOpts(fps, rate, bitrate, prof), out))
  {
    var argv := MuxArgs(ffmpeg, video, audio, out, fps, rate, bitrate, offset, prof, fmt);
    var outArgs := MuxOutput(out, fps, rate, bitrate, prof);
    var ins := MuxInputs(video, audio, offset, fmt);
    assert argv[1..] == ["-y"] + (ins + outArgs);
    ParseGlobal(ins + outArgs);
    var g := [Flag("-y")];
    if offset > 0.0 {
      var files := [Input([], video), Input([Pair("-itsoffset", fmt(offset))], audio)];
      ParseDelayedAudio(video, audio, fmt(offset), outArgs, g);
      ParseMuxOutput(out, fps, rate, bitrate, prof, g, files);
    } else if offset < 0.0 {
      var files := [Input([Pair("-itsoffset", fmt(-offset))], video), Input([], audio)];
      ParseDelayedVideo(video, audio, fmt(-offset), outArgs, g);
      ParseMuxOutput(out, fps, rate, bitrate, prof, g, files);
    } else {
      var files := [Input([], video), Input([], audio)];
      ParseUndelayed(video, audio, outArgs, g);
      ParseMuxOutput(out, fps, rate, bitrate, prof, g, files);
    }
  }

  lemma ParseDelayedAudio(video: string, audio: string, delay: string, rest: seq<string>, g: seq<Opt>)
    ensures ParseFrom(["-i", video, "-itsoffset", delay, "-i", audio] + rest, g, [], [])
         == ParseFrom(rest, g, [Input([], video), Input([Pair("-itsoffset", delay)], audio)], [])
  {
    var none: seq<Input> := [];
    var vIn := Input([], video);
    var d := Pair("-itsoffset", delay);
    assert ["-i", video, "-itsoffset", delay, "-i", audio] + rest
        == ["-i", video] + (["-itsoffset", delay] + (["-i", audio] + rest));
    ParseInput(video, ["-itsoffset", delay] + (["-i", audio] + rest), g, none, []);
    assert none + [vIn] == [vIn];
    ParsePair("-itsoffset", delay, ["-i", audio] + rest, g, [vIn], []);
    assert [] + [d] == [d];
    ParseInput(audio, rest, g, [vIn], [d]);
    assert [vIn] + [Input([d], audio)] == [vIn, Input([d], audio)];
  }

  lemma ParseDelayedVideo(video: string, audio: string, delay: string, rest: seq<string>, g: seq<Opt>)
    ensures ParseFrom(["-itsoffset", delay, "-i", video, "-i", audio] + rest, g, [], [])
         == ParseFrom(rest, g, [Input([Pair("-itsoffset", delay)], video), Input([], audio)], [])
  {
    var none: seq<Input> := [];
    var d := Pair("-itsoffset", delay);
    assert ["-itsoffset", delay, "-i", video, "-i", audio] + rest
        == ["-itsoffset", delay] + (["-i", video] + (["-i", audio] + rest));
    ParsePair("-itsoffset", delay, ["-i", video] + (["-i", audio] + rest), g, none, []);
    assert [] + [d] == [d];
    ParseInput(video, ["-i", audio] + rest, g, none, [d]);
    assert none + [Input([d], video)] == [Input([d], video)];
    ParseInput(audio, rest, g, [Input([d], video)], []);
    assert [Input([d], video)] + [Input([], audio)] == [Input([d], video), Input([], audio)];
  }

  lemma ParseUndelayed(video: string, audio: string, rest: seq<string>, g: seq<Opt>)
    ensures ParseFrom(["-i", video, "-i", audio] + rest, g, [], [])
         == ParseFrom(rest, g, [Input([], video), Input([], audio)], [])
  {
    var none: seq<Input> := [];
    var vIn := Input([], video);
    assert ["-i", video, "-i", audio] + rest == ["-i", video] + (["-i", audio] + rest);
    ParseInput(video, ["-i", audio] + rest, g, none, []);
    assert none + [vIn] == [vIn];
    ParseInput(audio, rest, g, [vIn], []);
    assert [vIn] + [Input([], audio)] == [vIn, Input([], audio)];
  }

  /** A profile chosen by `quality_profile` always yields a command ffmpeg reads as two inputs and one output. */
  lemma MuxWithProfile(ffmpeg: string, video: string, audio: string, out: string, fps: int, rate: int,
                       bitrate: string, offset: real, mode: string, useNvenc: bool, fmt: Formatter)
    requires !IsOption(out)
    ensures var c := Parse(MuxArgs(ffmpeg, video, audio, out, fps, rate, bitrate, offset,
                                   QualityProfile(mode, useNvenc), fmt));
      c.Some? && |c.value.inputs| == 2 && c.value.inputs[0].path == video && c.value.inputs[1].path == audio
      && Pair("-c:v", QualityProfile(mode, useNvenc).codec) in c.value.outOpts
      && Pair("-pix_fmt", QualityProfile(mode, useNvenc).pix) in c.value.outOpts
  {
    var prof := QualityProfile(mode, useNvenc);
    ProfileOptsWellFormed(mode, useNvenc);
    MuxCommandParses(ffmpeg, video, audio, out, fps, rate, bitrate, offset, prof, fmt);
    MuxOutOptsCodec(fps, rate, bitrate, prof);
  }

  /** The mux's output options name the profile's codec and pixel format. */
  lemma MuxOutOptsCodec(fps: int, rate: int, bitrate: string, prof: Profile)
    requires WellFormedOpts(prof.opts)
    ensures Pair("-c:v", prof.codec) in MuxOutOpts(fps, rate, bitrate, prof)
    ensures Pair("-pix_fmt", prof.pix) in MuxOutOpts(fps, rate, bitrate, prof)
  {
    var os := MuxOutOpts(fps, rate, bitrate, prof);
    assert os[2] == Pair("-c:v", prof.codec);
    assert os[3 + |AsPairs(prof.opts)|] == Pair("-pix_fmt", prof.pix);
  }

  /** `transcode_to_m4a`'s command line. */
  function TranscodeArgs(ffmpeg: string, wav: string, out: string, rate: int, bitrate: string): seq<string> {
    [ffmpeg, "-y", "-i", wav, "-c:a", "aac", "-b:a", bitrate, "-ar", IntToString(rate), "-ac", "2",
     "-movflags", "+faststart", out]
  }

  lemma ParseTranscodeOutput(out: string, rate: int, bitrate: string, g: seq<Opt>, ins: seq<Input>)
    requires !IsOption(out)
    ensures ParseFrom(["-c:a", "aac", "-b:a", bitrate, "-ar", IntToString(rate), "-ac", "2",
                       "-movflags", "+faststart", out], g, ins, [])
         == Some((g, ins, [Pair("-c:a", "aac"), Pair("-b:a", bitrate), Pair("-ar", IntToString(rate)),
                           Pair("-ac", "2"), Pair("-movflags", "+faststart")], out))
  {
    var ar := IntToString(rate);
    var t2 := ["-ar", ar, "-ac", "2", "-movflags", "+faststart", out];
    var t1 := ["-b:a", bitrate] + t2;
    assert ["-c:a", "aac", "-b:a", bitrate, "-ar", ar, "-ac", "2", "-movflags", "+faststart", out]
        == ["-c:a", "aac"] + t1;
    var p: seq<Opt> := [];
    ParsePair("-c:a", "aac", t1, g, ins, p);
    assert p + [Pair("-c:a", "aac")] == [Pair("-c:a", "aac")];
    p := p + [Pair("-c:a", "aac")];
    ParsePair("-b:a", bitrate, t2, g, ins, p);
    p := p + [Pair("-b:a", bitrate)];
    ParseTranscodeRest(out, ar, g, ins, p);
    assert p + [Pair("-ar", ar), Pair("-ac", "2"), Pair("-movflags", "+faststart")]
        == [Pair("-c:a", "aac"), Pair("-b:a", bitrate), Pair("-ar", ar), Pair("-ac", "2"), Pair("-movflags", "+faststart")];
  }

  lemma ParseTranscodeRest(out: string, ar: string, g: seq<Opt>, ins: seq<Input>, p: seq<Opt>)
    requires !IsOption(out)
    ensures ParseFrom(["-ar", ar, "-ac", "2", "-movflags", "+faststart", out], g, ins, p)
         == Some((g, ins, p + [Pair("-ar", ar), Pair("-ac", "2"), Pair("-movflags", "+faststart")], out))
  {
    var t4 := ["-movflags", "+faststart"] + [out];
    var t3 := ["-ac", "2"] + t4;
    assert ["-ar", ar, "-ac", "2", "-movflags", "+faststart", out] == ["-ar", ar] + t3;
    var q := p;
    ParsePair("-ar", ar, t3, g, ins, q);
    q := q + [Pair("-ar", ar)];
    ParsePair("-ac", "2", t4, g, ins, q);
    q := q + [Pair("-ac", "2")];
    ParsePair("-movflags", "+faststart", [out], g, ins, q);
    q := q + [Pair("-movflags", "+faststart")];
    ParseOutput(out, g, ins, q);
    assert q == p + [Pair("-ar", ar), Pair("-ac", "2"), Pair("-movflags", "+faststart")];
  }

  /** The transcode reads the WAV as its only input and writes AAC, stereo, at `rate`, to `out`, overwriting it. */
  lemma TranscodeCommandParses(ffmpeg: string, wav: string, out: string, rate: int, bitrate: string)
    requires !IsOption(out)
    ensures Parse(TranscodeArgs(ffmpeg, wav, out, rate, bitrate)) ==
      Some(Command(ffmpeg, [Flag("-y")], [Input([], wav)],
        [Pair("-c:a", "aac"), Pair("-b:a", bitrate), Pair("-ar", IntToString(rate)), Pair("-ac", "2"),
         Pair("-movflags", "+faststart")], out))
  {
    var argv := TranscodeArgs(ffmpeg, wav, out, rate, bitrate);
    var t0 := ["-c:a", "aac", "-b:a", bitrate, "-ar", IntToString(rate), "-ac", "2", "-movflags", "+faststart", out];
    assert argv[1..] == ["-y"] + (["-i", wav] + t0);
    ParseGlobal(["-i", wav] + t0);
    var none: seq<Input> := [];
    ParseInput(wav, t0, [Flag("-y")], none, []);
    assert none + [Input([], wav)] == [Input([], wav)];
    ParseTranscodeOutput(out, rate, bitrate, [Flag("-y")], [Input([], wav)]);
  }

  /** What `transcode_to_m4a` did: the command it ran, if any, and its verdict. */
  datatype Transcode = Transcode(ran: Option<seq<string>>, ok: bool)

  /**
   * `transcode_to_m4a(ffmpeg, wav, out, rate, bitrate)`; `exitCode` is the
   * return code the process would give.
   */
  function TranscodeToM4a(ffmpeg: Option<string>, wav: string, out: string, rate: int, bitrate: string,
                          exitCode: int): (t: Transcode)
    ensures !Found(ffmpeg) ==> t.ran.None? && !t.ok
    ensures Found(ffmpeg) ==> t.ran == Some(TranscodeArgs(ffmpeg.value, wav, out, rate, bitrate))
    ensures t.ok <==> Found(ffmpeg) && exitCode == 0
  {
    if !Found(ffmpeg) then Transcode(None, false)
    else Transcode(Some(TranscodeArgs(ffmpeg.value, wav, out, rate, bitrate)), exitCode == 0)
  }
}
