/**
 * The video encoder settings handed to ffmpeg: `quality_profile` maps a
 * quality mode and the hardware-encoder choice to a codec, a pixel format
 * and the codec options; `pick_nvenc` decides whether the NVIDIA encoder is
 * used from the configured mode and, in "auto", from what detection found.
 */
module EncodeProfile {

  datatype Profile = Profile(codec: string, pix: string, opts: seq<string>)

  const Nvenc: string := "h264_nvenc"
  const X264: string := "libx264"

  /** The x264 tuning of the "insane" profile: more reference frames and B-frames, a slower motion search. */
  const InsaneX264Params: string :=
    "ref=6:bframes=6:subme=9:me=umh:rc-lookahead=60:aq-mode=2:aq-strength=1.2:deblock=-1,-1:psy-rd=1.00,0.15"

  /** The options shared by every NVENC profile around its constant-quality value. */
  function NvencOpts(cq: string): seq<string> {
    ["-preset", "p4", "-cq", cq, "-rc-lookahead", "32", "-bf", "3"]
  }

  /** The three quality levels `quality_profile` knows. */
  datatype Level = Lossless | Insane | High

  /** The level a configured mode string selects: "lossless", "insane", and "high" for any other string. */
  function LevelOf(mode: string): Level {
    if mode == "lossless" then Lossless else if mode == "insane" then Insane else High
  }

  function ProfileFor(level: Level, useNvenc: bool): Profile {
    match level
      case Lossless =>
        if useNvenc then Profile(Nvenc, "yuv444p", NvencOpts("0"))
        else Profile(X264, "yuv444p", ["-preset", "slow", "-crf", "0", "-profile:v", "high444"])
      case Insane =>
        if useNvenc then Profile(Nvenc, "yuv420p", NvencOpts("18"))
        else Profile(X264, "yuv420p",
          ["-preset", "slower", "-crf", "12", "-x264-params", InsaneX264Params])
      case High =>
        if useNvenc then Profile(Nvenc, "yuv420p", NvencOpts("20"))
        else Profile(X264, "yuv420p", ["-preset", "slow", "-crf", "14"])
  }

  /** `quality_profile(mode, use_nvenc)`. */
  function QualityProfile(mode: string, useNvenc: bool): Profile {
    ProfileFor(LevelOf(mode), useNvenc)
  }

  /** The rate-control setting of a profile: the value after "-cq" for NVENC, after "-crf" for x264. */
  function RateControl(p: Profile): string
    requires |p.opts| >= 4
  {
    p.opts[3]
  }

  /**
   * The codec is the hardware encoder exactly when it was chosen, the
   * full-chroma pixel format is used exactly in lossless mode, and the
   * rate-control key matches the codec.
   */
  lemma ProfileShape(mode: string, useNvenc: bool)
    ensures QualityProfile(mode, useNvenc).codec == (if useNvenc then Nvenc else X264)
    ensures QualityProfile(mode, useNvenc).pix == "yuv444p" <==> mode == "lossless"
    ensures QualityProfile(mode, useNvenc).pix == "yuv444p" || QualityProfile(mode, useNvenc).pix == "yuv420p"
    ensures |QualityProfile(mode, useNvenc).opts| >= 4
    ensures QualityProfile(mode, useNvenc).opts[0] == "-preset"
    ensures QualityProfile(mode, useNvenc).opts[2] == (if useNvenc then "-cq" else "-crf")
  {
    assert "yuv420p"[4] != "yuv444p"[4];
  }

  /** Lossless mode asks either encoder for quality 0; the other modes never do. */
  lemma LosslessIsQualityZero(mode: string, useNvenc: bool)
    ensures RateControl(QualityProfile(mode, useNvenc)) == "0" <==> mode == "lossless"
  {
    QualityByMode(useNvenc);
    if mode == "insane" {
      assert |RateControl(QualityProfile(mode, useNvenc))| == 2;
    } else if mode != "lossless" {
      UnknownModeIsHigh(mode, useNvenc);
      assert |RateControl(QualityProfile(mode, useNvenc))| == 2;
    }
  }

  /** Higher quality modes ask for a lower rate-control value: lossless 0, insane 12 or 18, high 14 or 20. */
  lemma QualityByMode(useNvenc: bool)
    ensures RateControl(QualityProfile("insane", useNvenc)) == (if useNvenc then "18" else "12")
    ensures RateControl(QualityProfile("high", useNvenc)) == (if useNvenc then "20" else "14")
  {
    assert "insane"[0] != "lossless"[0];
    assert LevelOf("insane") == Insane;
    assert "high"[0] != "lossless"[0] && "high"[0] != "insane"[0];
    assert LevelOf("high") == High;
  }

  /** Every mode other than "lossless" and "insane", the empty string and misspellings included, is "high". */
  lemma UnknownModeIsHigh(mode: string, useNvenc: bool)
    requires mode != "lossless" && mode != "insane"
    ensures QualityProfile(mode, useNvenc) == QualityProfile("high", useNvenc)
  {
  }

  /** The NVENC profiles differ from one another only in the constant-quality value. */
  lemma NvencProfilesShareOptions(mode: string)
    ensures exists cq :: QualityProfile(mode, true).opts == NvencOpts(cq)
  {
    var cq := if mode == "lossless" then "0" else if mode == "insane" then "18" else "20";
    assert QualityProfile(mode, true).opts == NvencOpts(cq);
  }

  /** `pick_nvenc()`, with the configured `NVENC_MODE` and the result `detect_nvenc()` would give as inputs. */
  function PickNvenc(nvencMode: string, detected: bool): (use: bool)
    ensures nvencMode == "on" ==> use
    ensures nvencMode == "off" ==> !use
    ensures nvencMode != "on" && nvencMode != "off" ==> use == detected
  {
    if nvencMode == "on" then true
    else if nvencMode == "off" then false
    else detected
  }

  /**
   * The codec ffmpeg is asked for: forcing the hardware encoder on or off
   * decides it regardless of detection; in any other mode it follows detection.
   */
  lemma CodecFollowsOverride(mode: string, nvencMode: string, detected: bool)
    ensures nvencMode == "on" ==> QualityProfile(mode, PickNvenc(nvencMode, detected)).codec == Nvenc
    ensures nvencMode == "off" ==> QualityProfile(mode, PickNvenc(nvencMode, detected)).codec == X264
    ensures QualityProfile(mode, PickNvenc(nvencMode, detected)).codec == Nvenc
        <==> (nvencMode == "on" || (nvencMode != "off" && detected))
  {
    ProfileShape(mode, PickNvenc(nvencMode, detected));
  }
}
