# Screen and loopback-audio capture, modelled in Dafny

A model of a small Windows capture toolkit. It has four parts:

- `captura_video.py` records a screen region at a constant frame rate while a
  background thread records the system's loopback audio to a PCM16 WAV. It
  then muxes the two with ffmpeg, shifting one stream by the measured
  start-time offset.
- `captura_audio.py` records only the loopback audio and transcodes the WAV
  to AAC in an M4A when ffmpeg is present.
- `roi_selector.py` keeps one console status line showing the `mss` region
  under a translucent selection window.
- `roi_preview.py` places its preview window beside the captured region.

The model has one module per concern:

| module | file | what it holds |
|---|---|---|
| `Pcm` | pcm.dfy | `to_pcm16`: clip to [-1, 1], scale by 32767, truncate toward zero; the little-endian int16 bytes `tobytes()` gives and their decoding |
| `AudioCapture` | audio_capture.dfy | the `AudioRecorder` class (`start`, `stop`, and `_loop` run sequentially over the blocks the device yields); `find_loopback_device` |
| `VideoCapture` | video_capture.dfy | the constant-frame-rate scheduler of `record_video`: a grab is written only when its target frame index passes the last one written |
| `Probe` | probe.dfy | `verify_audio` with Python's `splitlines` and `strip` |
| `EncodeProfile` | encode_profile.dfy | `quality_profile`, `pick_nvenc` |
| `FfmpegArgs` | ffmpeg_args.dfy | the argument vectors of `mux_ffmpeg` and `transcode_to_m4a`, and a parser for ffmpeg's command-line grammar that reads them back |
| `VideoSession`, `AudioSession` | video_session.dfy, audio_session.dfy | the decisions each `main` takes: early exits, file names, the offset, the result file, the cleanup |
| `RoiSelector` | roi_selector.dfy | the status line as a `StatusLine` class over everything written to standard output, and a console model that shows what the current line displays |
| `RoiPreview` | roi_preview.dfy | `place_safely` |
| `StreamSync` | stream_sync.dfy | what `-itsoffset` does to the playback times of the two inputs |
| `Decimal`, `Files`, `Geometry`, `Wrappers` | decimal.dfy, files.dfy, geometry.dfy, wrappers.dfy | `str(int)` and its parse, Windows paths, the region rectangle, `Option` |

Everything the scripts get from the outside world is a parameter of the model:

- what `shutil.which` found;
- the microphone list and the default speaker;
- the blocks a recorder yields and the clock reading at each grab;
- the exit status of ffmpeg and the output of ffprobe;
- the state of a file after recording;
- the window rectangle reported by Win32.

## Model

| member | source | states |
|---|---|---|
| `Pcm.Trunc` | captura_video.py:31 | the `astype(np.int16)` cast truncates toward zero: the result is within 1 of its argument, on the side nearer 0 |
| `Pcm.Clip` | captura_video.py:30 | `np.clip(x, -1, 1)`: the result lies in [-1, 1], equals `x` inside that range, and is the nearer bound outside it |
| `Pcm.ToPcm16` | captura_video.py:28-31 | a sample lies in [-32767, 32767]; full scale or beyond saturates; otherwise it is `x * 32767` truncated toward zero (the same function is at captura_audio.py:16-18) |
| `Pcm.ToPcm16IsOdd` | captura_video.py:28-31 | the conversion is symmetric: negating the input negates the sample |
| `Pcm.ToPcm16Monotonic` | captura_video.py:28-31 | a louder input never gives a smaller sample |
| `Pcm.ToPcm16RoundTrip` | captura_video.py:28-31 | converting a sample back to a float and again to PCM16 gives the same sample |
| `Pcm.Pcm16` | captura_video.py:28-31 | the element-wise conversion keeps the number of samples |
| `Pcm.Pcm16At` | captura_video.py:28-31 | every element of the converted array is the conversion of the input element at the same index, and lies in the int16 range |
| `Pcm.Pcm16Append` | captura_video.py:28-31 | converting two blocks one after the other is converting their concatenation |
| `Pcm.Le16` | captura_video.py:106 | `tobytes()` writes each sample as exactly two bytes |
| `Pcm.FromLe16` | captura_video.py:106 | decoding two little-endian bytes always gives a value in the int16 range |
| `Pcm.Le16RoundTrip` | captura_video.py:106 | decoding the two bytes of an int16 sample gives the sample back |
| `Pcm.Bytes` | captura_video.py:106 | a block of samples becomes twice as many bytes |
| `Pcm.Samples` | captura_video.py:106 | decoding an even number of bytes gives half as many samples |
| `Pcm.BytesAppend` | captura_video.py:106 | the bytes of consecutive blocks are the bytes of their concatenation, so WAV data is the same whichever way it is cut into blocks |
| `Pcm.SamplesOfBytes` | captura_video.py:106 | decoding the bytes of any int16 samples gives the samples back |
| `Pcm.Pcm16Bytes` | captura_video.py:106 | the bytes written for a block are two per sample |
| `Pcm.Pcm16BytesDecode` | captura_video.py:106 | what a WAV reader decodes from the written bytes is exactly `to_pcm16` of the recorded samples |
| `Pcm.Pcm16BytesAppend` | captura_video.py:106 | the data written block by block equals the conversion of all recorded samples at once |
| `Pcm.WrittenBytesAtOnce` | captura_video.py:106 | converting and writing blocks one at a time writes the same bytes as converting all their samples at once |
| `AudioCapture.AsColumn` | captura_video.py:97-98 | `first[:, None]` makes one row per sample, each holding only that sample |
| `AudioCapture.FlattenColumn` | captura_video.py:97-98 | flattening the column of a mono block gives the samples back in order |
| `AudioCapture.MonoInterleaved` | captura_video.py:97-98 | a mono block is written as its samples, unchanged in order |
| `AudioCapture.FlattenLength` | captura_video.py:106 | flattening rows of `c` channels gives rows × `c` values |
| `AudioCapture.BlockLength` | captura_video.py:96-106 | a block of rectangular frames writes frames × channels values |
| `AudioCapture.RecordedWholeFrames` | captura_video.py:96-113 | when every block has the channel count of the first block, which sets the WAV header, the data holds a whole number of frames of that many channels |
| `AudioCapture.RecordNext` | captura_video.py:110-114 | nothing is recorded before the first block, and each further block appends exactly its interleaved samples |
| `AudioCapture.WriteNext` | captura_video.py:114 | the file starts empty, and each `writeframes` appends exactly the PCM16 bytes of the block just read |
| `AudioCapture.WrittenIsWavData` | captura_video.py:106-114 | the bytes written block by block are the PCM16 conversion of all samples recorded so far, in order |
| `AudioCapture.BlocksTaken` | captura_video.py:95-114 | the loop reads the first block whenever the device yields one, and never more blocks than the device yields |
| `AudioCapture.AudioRecorder.constructor` | captura_video.py:83-89 | a recorder starts stopped, without a start time and without output |
| `AudioCapture.AudioRecorder.Start` | captura_video.py:118-121 | `start()` sets the recording flag |
| `AudioCapture.AudioRecorder.Stop` | captura_video.py:123-126 | `stop()` clears the recording flag |
| `AudioCapture.AudioRecorder.Loop` | captura_video.py:91-116 | `_loop` writes a header only when a first block arrives, and its channel count is that block's. The WAV data is the blocks taken, in order. The start time is set at the first block only if it was unset. Recording stays on only while no stop has arrived. (The same class is at captura_audio.py:44-90.) |
| `AudioCapture.RecordWhileUp` | captura_video.py:110-114 | the `while self.is_recording` loop writes, after the first block, one block per check that finds the flag up, stopping when the flag is lowered or the device runs out; the bytes written are the WAV data of exactly `BlocksTaken` blocks |
| `AudioCapture.LoopExit` | captura_video.py:110-114 | when the loop ends it has taken `BlocksTaken` blocks, and the flag is still up only if the stop never landed |
| `AudioCapture.FirstLoopback` | captura_video.py:128-145 | a device found by the scan is one of the microphones and is a loopback device; when a name is asked for, it has that name |
| `AudioCapture.FirstLoopbackExists` | captura_video.py:128-145 | the scan finds a device exactly when some loopback device has the requested name, or is any loopback device when no name is asked for |
| `AudioCapture.FirstLoopbackIsFirst` | captura_video.py:128-145 | the device the scan finds comes before every other device that would do, in list order |
| `AudioCapture.SelectLoopbackSound` | captura_video.py:128-145 | an empty list gives nothing. The result is a loopback device from the list. The default speaker's loopback device is preferred when there is one. There is no result exactly when no device is loopback. (The same function is at captura_audio.py:92-108.) |
| `AudioCapture.FindLoopbackDevice` | captura_video.py:128-145 | the two scans over the list choose exactly the device described by `SelectLoopback` |
| `VideoCapture.Targets` | captura_video.py:165-175 | the frame indices written, one per written grab, in order |
| `VideoCapture.WritesShape` | captura_video.py:163-175 | never more frames than grabs, and every written frame is one of the grabs. The k-th written frame has index at least k, and the written indices strictly increase. |
| `VideoCapture.WritesAreDistinctSlots` | captura_video.py:163-175 | with non-decreasing clock targets, a frame index is written exactly when some grab targets it and it is past the last index written before the loop |
| `VideoCapture.StallDropsSlots` | captura_video.py:163-175 | a stall between two grabs skips the frame indices in between rather than filling them: targets 0 then 3 write frames 0 and 3 |
| `VideoCapture.WriteStep` | captura_video.py:165-170 | writing a grab whose target passes the last written index extends the written prefix by that grab |
| `VideoCapture.SkipStep` | captura_video.py:165-166 | a grab whose target does not pass the last written index is dropped |
| `VideoCapture.TargetsSnoc` | captura_video.py:170 | appending a written grab appends its target to the indices |
| `VideoCapture.RecordVideo` | captura_video.py:149-184 | `record_video` writes exactly the grabs `Writes` selects. The frame count is the number written and never exceeds the grabs. The written indices strictly increase from at least 0. The start time is absent exactly when nothing was written, and otherwise is the clock of the first written grab. |
| `Probe.LineBreakIsSpace` | captura_video.py:233 | every character `splitlines` breaks on is one `strip` removes |
| `Probe.LStrip` | captura_video.py:233 | the result is a suffix of the input, everything before it is whitespace, and it does not start with whitespace |
| `Probe.RStrip` | captura_video.py:233 | the result is a prefix of the input, everything after it is whitespace, and it does not end with whitespace |
| `Probe.LStripEmpty` | captura_video.py:233 | stripping the left side leaves nothing exactly when the line is all whitespace |
| `Probe.RStripNonBlank` | captura_video.py:233 | a line starting with a non-space character keeps it after the right-hand strip |
| `Probe.StripEmpty` | captura_video.py:233 | `l.strip()` is false exactly when the line is all whitespace |
| `Probe.LineEnd` | captura_video.py:233 | the first line ends within the text, and when it ends before the end of the text it ends at a line-break character |
| `Probe.LineEndIsFirst` | captura_video.py:233 | no character before the end of the first line is a line break, so the first line runs up to the first line-break character or the end |
| `Probe.BreakWidth` | captura_video.py:233 | a line break takes one character, or two for `\r\n`, and stays within the text |
| `Probe.BreakIsSpace` | captura_video.py:233 | the characters of a line break are whitespace |
| `Probe.SomeLineNonBlank` | captura_video.py:233 | `any(l.strip() for l in out.splitlines())` holds exactly when the output contains a non-whitespace character |
| `Probe.LastLine` | captura_video.py:233 | a text without a line break is one line, which is non-blank exactly when the text has a non-whitespace character |
| `Probe.BrokenLine` | captura_video.py:233 | splitting off the first line and its break keeps the "some line is non-blank" answer equal to "the text has a non-whitespace character" |
| `Probe.SplitFirst` | captura_video.py:233 | `splitlines` of a text holding a line break is its first line followed by the lines after that break |
| `Probe.AnyNonBlankCons` | captura_video.py:233 | `any` over a list of lines is the first line being non-blank or `any` over the rest |
| `Probe.NonSpaceAroundGap` | captura_video.py:233 | cutting a run of whitespace out of a text neither adds nor removes non-whitespace |
| `Probe.VerifyAudio` | captura_video.py:225-237 | the check passes when ffprobe is missing or when ffprobe raises. Otherwise it passes exactly when the listing has a non-blank character. (The same function is at captura_audio.py:27-41.) |
| `Probe.BlankListingRejected` | captura_video.py:225-237 | an empty or all-blank listing fails the check and a listed stream index passes |
| `EncodeProfile.ProfileShape` | captura_video.py:55-78 | the codec is NVENC exactly when it was chosen, the pixel format is `yuv444p` exactly in lossless mode and `yuv420p` otherwise, and the options start with a preset and then `-cq` for NVENC or `-crf` for x264 |
| `EncodeProfile.LosslessIsQualityZero` | captura_video.py:55-78 | the rate-control value is `0` exactly in lossless mode |
| `EncodeProfile.QualityByMode` | captura_video.py:64-78 | insane asks for 18 (NVENC) or 12 (x264), high for 20 or 14 |
| `EncodeProfile.UnknownModeIsHigh` | captura_video.py:72-78 | any mode string other than "lossless" and "insane" gets the high profile |
| `EncodeProfile.NvencProfilesShareOptions` | captura_video.py:56-73 | all NVENC profiles share every option except the constant-quality value |
| `EncodeProfile.PickNvenc` | captura_video.py:50-53 | "on" forces the hardware encoder, "off" forbids it, and every other mode follows detection |
| `EncodeProfile.CodecFollowsOverride` | captura_video.py:50-78 | the codec given to ffmpeg is `h264_nvenc` exactly when the mode is "on", or when it is not "off" and NVENC was detected |
| `Decimal.NatToString` | captura_video.py:209 | `str(n)` of a natural number is a non-empty string of digits |
| `Decimal.IntToString` | captura_video.py:209 | `str(n)` is non-empty and made of digits and a sign |
| `Decimal.ParseNatToString` | captura_video.py:209 | the digits of a natural number read back as that number |
| `Decimal.IntToStringRoundTrip` | captura_video.py:209 | `str(n)` reads back as `n`, and only its first character can be a sign |
| `FfmpegArgs.AsPairs` | captura_video.py:207 | the codec options splat into the command read as one option per key-value pair |
| `FfmpegArgs.ParseOpts` | captura_video.py:207 | splicing well-formed options into a command line is parsed as pending those options in order |
| `FfmpegArgs.ParsePair` | captura_video.py:206-217 | a valued option and its value are read as one option |
| `FfmpegArgs.ParseLone` | captura_video.py:216 | `-shortest` is read as a flag that takes no value |
| `FfmpegArgs.ParseGlobal` | captura_video.py:193 | a leading `-y` is a global flag |
| `FfmpegArgs.ParseInput` | captura_video.py:196 | `-i path` closes an input carrying the options read since the last input |
| `FfmpegArgs.WellFormedCons` | captura_video.py:207 | a valued key and its value in front of well-formed options keep them well-formed |
| `FfmpegArgs.NvencOptsWellFormed` | captura_video.py:62-73 | every NVENC option list is key-value pairs |
| `FfmpegArgs.X264OptsWellFormed` | captura_video.py:64-78 | every x264 option list is key-value pairs |
| `FfmpegArgs.ProfileOptsWellFormed` | captura_video.py:55-78 | every profile's options are key-value pairs, so splicing them never shifts the rest of the command |
| `FfmpegArgs.ParseOutput` | captura_video.py:218 | a last argument that is not an option is the output file |
| `FfmpegArgs.ParseMuxTail` | captura_video.py:208-218 | the fixed output options of the mux command are read in order, with `-shortest` as a lone flag, up to the output file |
| `FfmpegArgs.ParseAudioTail` | captura_video.py:211-218 | the audio options, `-shortest` as a lone flag and `-movflags` are read in order, up to the output file |
| `FfmpegArgs.ParseMuxOutput` | captura_video.py:205-218 | the output part of the mux command is read as the two maps, the codec, the profile options and the fixed tail, all applying to the output file |
| `FfmpegArgs.ParseMuxHead` | captura_video.py:205-207 | the two stream maps, the video codec and the profile options open the output options, in that order |
| `FfmpegArgs.MuxCommandParses` | captura_video.py:188-219 | the mux command reads back as one global `-y`, the video then the audio input, and one output. A positive offset delays the audio input by that amount, a negative offset delays the video input by its magnitude, and zero delays neither. |
| `FfmpegArgs.ParseDelayedAudio` | captura_video.py:195-197 | with a positive offset, `-itsoffset` applies to the audio input only |
| `FfmpegArgs.ParseDelayedVideo` | captura_video.py:198-200 | with a negative offset, `-itsoffset` applies to the video input only |
| `FfmpegArgs.ParseUndelayed` | captura_video.py:201-203 | with no offset, neither input is shifted |
| `FfmpegArgs.MuxWithProfile` | captura_video.py:188-219 | for every quality mode and encoder choice, the mux command parses with the profile's codec and pixel format applying to the output |
| `FfmpegArgs.MuxOutOptsCodec` | captura_video.py:207-208 | the mux's output options carry the profile's video codec and pixel format |
| `FfmpegArgs.ParseTranscodeOutput` | captura_audio.py:123-128 | the transcode's output options are read in order up to the output file |
| `FfmpegArgs.ParseTranscodeRest` | captura_audio.py:125-128 | the sample rate, channel count and `-movflags` options are read in order, up to the output file |
| `FfmpegArgs.TranscodeCommandParses` | captura_audio.py:120-129 | the transcode command reads back as `-y`, the WAV as its only input, the AAC options, and the M4A as the output |
| `FfmpegArgs.TranscodeToM4a` | captura_audio.py:111-131 | without ffmpeg nothing runs and the result is false; with it the transcode command runs, and the result is true exactly when ffmpeg exits with 0 |
| `Files.Text` | captura_video.py:256-258 | a path's text is the directory, one separator and the name |
| `Files.TextInjective` | captura_video.py:256-258 | two files of one directory have the same text exactly when their names agree |
| `VideoSession.PyOr` | captura_video.py:272 | `x or y` gives `x` when it is set and non-zero, and `y` otherwise |
| `VideoSession.MeasuredOffset` | captura_video.py:281 | no video start, or a video start of exactly 0.0 (falsy for `or`), gives offset 0; for a non-zero video start, the offset added to the audio start is the video start |
| `VideoSession.OffsetSign` | captura_video.py:281 | the offset is positive exactly when video started after audio, negative exactly when before, and zero exactly when together |
| `StreamSync.InputDelays` | captura_video.py:195-203 | the delays `mux_ffmpeg` gives are non-negative and at most one is non-zero. They leave the audio `offset` seconds later than the video. |
| `StreamSync.MuxInputsDelay` | captura_video.py:195-203 | the inputs of the mux command carry exactly those delays as `-itsoffset` |
| `StreamSync.MuxDoublesOffset` | captura_video.py:195-203 | as written, every sound plays twice the measured offset after the picture captured with it |
| `StreamSync.MuxOutOfSyncExample` | captura_video.py:195-203 | video starting 0.5 s after audio: the first frame plays at 0 s and the sound captured with it at 1 s |
| `StreamSync.AlignedDelays` | captura_video.py:195-203 | corrected: the stream that started later is delayed by the offset, so the video ends up `offset` seconds later than the audio |
| `StreamSync.AlignedInSync` | captura_video.py:195-203 | with the corrected delays, every moment plays at the same time in picture and sound |
| `StreamSync.AlignedInputsDelay` | captura_video.py:195-203 | the corrected input part of the command carries exactly the corrected delays |
| `VideoSession.VideoFilesDistinct` | captura_video.py:254-258 | the temporary video, the temporary audio and the output are three different files with three different path texts |
| `VideoSession.VideoMainExits` | captura_video.py:241-299 | a missing ffmpeg or no loopback device ends the run before recording. ffmpeg runs exactly when both temporaries hold data, and nothing is removed before that. The run succeeds exactly when the mux exits with 0. |
| `VideoSession.MainMuxAligns` | captura_video.py:281-286 | the mux reads the temporary video and audio as inputs and writes the output file. The measured offset shifts the stream that started first. |
| `VideoSession.MuxDelaysBySign` | captura_video.py:195-203 | a positive offset shifts only the audio input, a negative one only the video input by its magnitude, and zero neither |
| `VideoSession.OutputNotOption` | captura_video.py:258 | the final MP4's path cannot be read as an option when the output directory does not start with a dash |
| `VideoSession.MuxFailureDeletesTemporaries` | captura_video.py:289-299 | as written, a failed mux still removes both temporaries in `finally` unless they are to be kept |
| `VideoSession.MuxFailurePreservesTemporaries` | captura_video.py:289-299 | with the cleanup only after success, a failed mux removes nothing. A successful one removes both temporaries unless they are to be kept. Nothing else changes. |
| `VideoSession.OutputNeverRemoved` | captura_video.py:293-299 | the output file is never among the files removed, as written or corrected |
| `AudioSession.AudioFilesDistinct` | captura_audio.py:144-147 | the temporary WAV and the M4A are different files with different texts, named `temp_audio_…` and `audio_…` |
| `AudioSession.AudioMainResult` | captura_audio.py:176-195 | the result is the M4A exactly when ffmpeg was found and exited with 0, and the WAV otherwise. ffmpeg runs exactly when found. The WAV is removed exactly when it is not the result and is not kept. The result is never removed. |
| `AudioSession.AudioMainExits` | captura_audio.py:139-174 | without a loopback device the run ends early, and only a recording whose WAV holds data reaches the transcode. An early end transcodes and removes nothing. |
| `AudioSession.AudioTranscodeFiles` | captura_audio.py:176-184 | the transcode that runs reads the temporary WAV and writes the M4A |
| `RoiSelector.ClientRectScreen` | roi_selector.py:17-25 | the region is at the screen position of the client origin, and its size is the client `RECT`'s width and height |
| `RoiSelector.ClientAreaOnScreen` | roi_selector.py:17-25 | a client pixel lies in the client `RECT` exactly when its screen position lies in the region |
| `RoiSelector.RenderAppend` | roi_selector.py:33 | the console shows the same after two writes as after their concatenation |
| `RoiSelector.DrawText` | roi_selector.py:33 | text without line breaks overwrites the current line from the cursor on and moves the cursor past it |
| `RoiSelector.PutTwice` | roi_selector.py:33 | drawing one character and then the rest is drawing the whole text |
| `RoiSelector.Pad` | roi_selector.py:32 | `max(0, last - len(text))` makes the text and its padding at least as long as the previous text, exactly as long when the text is shorter, and adds nothing when it is not |
| `RoiSelector.StatusLine.constructor` | roi_selector.py:27-28 | nothing shown yet, no previous length, no previous rectangle |
| `RoiSelector.StatusLine.StatusWrite` | roi_selector.py:30-35 | the line is written after a carriage return, padded to cover the previous text, and its length is recorded. For text without line breaks, the console line afterwards shows exactly the text followed only by blanks, so nothing of the previous text survives. |
| `RoiSelector.StatusLine.StatusNewline` | roi_selector.py:37-41 | a line feed is written, the console is on a fresh empty line, and the length is reset |
| `RoiSelector.StatusLine.PrintRegion` | roi_selector.py:66-80 | an empty client area changes nothing. An unforced call with the rectangle last shown writes nothing, so `on_configure` (roi_selector.py:78-80) never repeats the rectangle just shown. Otherwise the region text is written and the console line shows exactly it. |
| `RoiSelector.StatusLine.OnKey` | roi_selector.py:82-92 | Escape or Q end the line, print the quit message and quit. Enter prints the region once more (forced), ends the line, prints the confirmation and quits. Other keys change nothing. |
| `RoiSelector.EndsLine` | roi_selector.py:37-41 | whatever was shown before, output ending in a line feed leaves an empty line |
| `RoiSelector.RegionTextOneLine` | roi_selector.py:75 | the region text contains no line break, so it stays on the status line |
| `RoiSelector.JoinOneLine` | roi_selector.py:75 | joining break-free text to a number or to more break-free text gives break-free text |
| `RoiPreview.PlaceSafely` | roi_preview.py:24-31 | the window goes right of the region when it fits within the virtual desktop, else left of it. When that still starts left of the desktop, it goes to the desktop's top-left corner plus the margin. `y` is the region's top or the desktop's top plus the margin, and with a non-negative margin `x` never starts left of the desktop. |

## Left out

- Threads: the recorder's thread, `join` and the shared `is_recording` flag. `_loop` runs sequentially, and a stop is the index of the block after which it arrives.
- Clocks: `time.perf_counter`, `time.sleep` and `time.strftime` readings are parameters. `record_video`'s grabs are a list of target frame indices with the clock of each grab.
- Devices and I/O: soundcard, `mss` screen grabs, OpenCV and its `VideoWriter`, `wave` and the files themselves. The WAV is its header fields and the bytes of its data, and a temporary file after recording is a `FileState`.
- Subprocesses: ffmpeg and ffprobe are not run. Their exit status and output are parameters, and a raised exception is the `ProbeRaised` value.
- `find_ffmpeg` in captura_video.py raises when ffmpeg is missing. It is modelled as the `FfmpegMissing` outcome, taken before anything else.
- `detect_nvenc` runs `ffmpeg -encoders`; its result is the `detected` parameter of `PickNvenc`.
- Exceptions from `unlink` are not modelled; they only print a warning.
- Exceptions inside `_loop` are not modelled; they only end the recording.
- VideoCapture.RecordVideo: an interrupt in `record_video` after it sets the start time and before that grab's write is not modelled; the model sets the start time and writes the grab in one step.
- `verify_audio`'s result is discarded by both `main`s. It is modelled, but no session depends on it.
- Floating point: samples are reals. NaN and the float32 arrays are left out, and so is `f"{offset:.6f}"`. The formatting of offsets is the `Formatter` parameter, which the mux properties hold for whatever it returns.
- `Pcm.ToPcm16`: NaN inputs, where numpy's cast is undefined, are left out.
- Python's `str(Path)` is written with the Windows separator `\`. Normalisation of the directory text is not modelled.
- The preview `scale`, the `cv2` window and its key loop are not modelled, because they involve floating point and a GUI. `place_safely` takes the preview width `w` as a parameter.
- `RoiSelector.StatusLine.StatusWrite`: the console postcondition is stated for text without line breaks. That is the only text `print_region` passes (`RoiSelector.RegionTextOneLine`). Any other character, including a tab, is drawn as one column.
- The Tk window, `draw_client_guide`, `ctypes` calls and the three banner `print`s of roi_selector.py are not modelled. The status line starts on a fresh line.
- yolo_roi_detect.py is not part of this model. Its only logic is a frame-skip counter around GPU inference and a display overlay.
- `main` in captura_audio.py prints the recording duration. The duration is a clock reading and is not modelled.

## Findings

| source | as written | input that shows it | evidently intended | confidence | as-written member | corrected member |
|---|---|---|---|---|---|---|
| captura_video.py:289-299 | when the mux fails, `except` prints that the temporaries are preserved and returns, but `finally` still deletes both temporaries unless `KEEP_TEMP` is set | both temporaries hold data, ffmpeg exits with 1, `KEEP_TEMP` is false | a failed mux keeps the temporaries, as the message says, so the recording can be muxed again | not executed | `VideoSession.MuxFailureDeletesTemporaries` | `VideoSession.MuxFailurePreservesTemporaries` |
| captura_video.py:195-203 | a positive offset, meaning the video started after the audio, puts `-itsoffset` on the audio input. A negative offset puts it on the video input. Yet `-itsoffset` delays the input it precedes, and the stream that started first holds the extra material. | video starts 0.5 s after audio (`v0` = 10.5, `a0` = 10.0): the first frame plays at 0 s and the sound captured with it at 1 s, twice the measured offset | the stream that started later is delayed by the offset, so each sound plays together with the frame captured with it | not executed | `StreamSync.MuxDoublesOffset` | `StreamSync.AlignedInSync` |
