/** The ffmpeg command line of the concatenation: a fixed prefix that reads
    the concat list and sets the H.264 encoding, then the video filter and
    output rate, then the audio arguments, then the output path. Numbers are
    kept as numbers inside the arguments that print them; their decimal
    rendering is not part of this model. */
module FfmpegCommand {
  import opened Atempo

  /** One command-line argument. */
  datatype Arg =
    | Lit(text: string)              // a fixed word or a path
    | IntValue(n: int)               // an integer printed as is
    | RealValue(x: real)             // a float printed as is
    | SetPts(speed: real)            // the filter "setpts=PTS/<speed>"
    | FpsFilter(fps: real)           // the filter "fps=<fps>"
    | AtempoFilters(steps: seq<real>) // "atempo=<s>" per step, comma-joined

  /** The arguments every run starts with. */
  function Common(listfile: string): (r: seq<Arg>)
    ensures |r| == 22 && r[0] == Lit("ffmpeg") && r[8] == Lit(listfile)
  {
    [ Lit("ffmpeg"), Lit("-hide_banner"), Lit("-y"),
      Lit("-f"), Lit("concat"), Lit("-safe"), Lit("0"), Lit("-i"), Lit(listfile),
      Lit("-pix_fmt"), Lit("yuv420p"), Lit("-c:v"), Lit("libx264"), Lit("-preset"), Lit("slow"), Lit("-crf"), Lit("22"),
      Lit("-movflags"), Lit("+faststart"), Lit("-progress"), Lit("pipe:1"), Lit("-nostats") ]
  }

  /** The AAC encoding arguments used whenever audio is kept. */
  const AacArgs: seq<Arg> := [Lit("-c:a"), Lit("aac"), Lit("-b:a"), Lit("192k")]

  /** The speed-up of speed mode: output rate over the rate the clips are
      taken to have been recorded at. */
  function SpeedFactor(baseFps: int, userFps: real): real
    requires userFps != 0.0
  {
    (baseFps as real) / userFps
  }

  /** The video arguments: speed mode retimes the frames by setpts and writes
      them at the base rate; otherwise frames are dropped or duplicated to the
      requested rate. */
  function VideoArgs(userFps: real, speedMode: bool, baseFps: int): (r: seq<Arg>)
    requires speedMode ==> userFps != 0.0
    ensures |r| == 4 && r[0] == Lit("-vf") && r[2] == Lit("-r")
    ensures speedMode ==> r[1] == SetPts(SpeedFactor(baseFps, userFps)) && r[3] == IntValue(baseFps)
    ensures !speedMode ==> r[1] == FpsFilter(userFps) && r[3] == RealValue(userFps)
  {
    if speedMode then [Lit("-vf"), SetPts(SpeedFactor(baseFps, userFps)), Lit("-r"), IntValue(baseFps)]
    else [Lit("-vf"), FpsFilter(userFps), Lit("-r"), RealValue(userFps)]
  }

  /** The atempo steps of the audio: the chain of the speed-up in speed mode,
      none otherwise. */
  function AudioSteps(userFps: real, speedMode: bool, baseFps: int): seq<real>
    requires speedMode ==> userFps != 0.0
  {
    if speedMode then AtempoChain(SpeedFactor(baseFps, userFps)) else []
  }

  /** The audio arguments: "-an" when there is no audio to keep, otherwise the
      atempo filter when it has steps, then the AAC encoding. */
  function AudioArgs(steps: seq<real>, keep: bool): seq<Arg> {
    if keep then (if steps != [] then [Lit("-filter:a"), AtempoFilters(steps)] else []) + AacArgs
    else [Lit("-an")]
  }

  /** The command for the given settings. */
  function BuildCommand(listfile: string, userFps: real, outPath: string, speedMode: bool,
                        baseFps: int, keepAudio: bool, audioPresent: bool): (cmd: seq<Arg>)
    requires speedMode ==> userFps != 0.0
    ensures |cmd| >= 22 + 4 + 1 + 1
    ensures cmd[..22] == Common(listfile)
    ensures cmd[|cmd| - 1] == Lit(outPath)
  {
    Common(listfile) + VideoArgs(userFps, speedMode, baseFps)
      + AudioArgs(AudioSteps(userFps, speedMode, baseFps), keepAudio && audioPresent) + [Lit(outPath)]
  }

  /** The audio arguments: what sits between the four video arguments and the
      output path. */
  function AudioSection(cmd: seq<Arg>): seq<Arg>
    requires |cmd| >= 27
  {
    cmd[26..|cmd| - 1]
  }

  lemma AudioSectionOf(listfile: string, userFps: real, outPath: string, speedMode: bool,
                       baseFps: int, keepAudio: bool, audioPresent: bool)
    requires speedMode ==> userFps != 0.0
    ensures AudioSection(BuildCommand(listfile, userFps, outPath, speedMode, baseFps, keepAudio, audioPresent))
            == AudioArgs(AudioSteps(userFps, speedMode, baseFps), keepAudio && audioPresent)
  {
    var head := Common(listfile) + VideoArgs(userFps, speedMode, baseFps);
    var audio := AudioArgs(AudioSteps(userFps, speedMode, baseFps), keepAudio && audioPresent);
    assert |head| == 26;
    var cmd := head + audio + [Lit(outPath)];
    assert cmd[26..|cmd| - 1] == audio;
  }

  /** "-an" alone exactly when no audio is kept; otherwise the AAC arguments
      close the section and "-an" is absent; the filter appears exactly when
      audio is kept and there are steps. */
  lemma AudioArgsShape(steps: seq<real>, keep: bool)
    ensures var audio := AudioArgs(steps, keep);
            && (audio == [Lit("-an")] <==> !keep)
            && (keep ==> |audio| >= 4 && audio[|audio| - 4..] == AacArgs && Lit("-an") !in audio)
            && (Lit("-filter:a") in audio <==> keep && steps != [])
  {
    var audio := AudioArgs(steps, keep);
    if keep {
      assert |audio| >= 4;
      assert audio[|audio| - 4] == Lit("-c:a");
      if steps != [] {
        assert audio[0] == Lit("-filter:a");
      }
    }
  }

  /** Audio is either dropped with "-an" alone, or encoded as AAC at 192k,
      after an atempo chain exactly in speed mode when the chain has steps;
      never both. */
  lemma AudioArguments(listfile: string, userFps: real, outPath: string, speedMode: bool,
                       baseFps: int, keepAudio: bool, audioPresent: bool)
    requires speedMode ==> userFps != 0.0
    ensures var audio := AudioSection(BuildCommand(listfile, userFps, outPath, speedMode, baseFps, keepAudio, audioPresent));
            && (audio == [Lit("-an")] <==> !(keepAudio && audioPresent))
            && (keepAudio && audioPresent ==> |audio| >= 4 && audio[|audio| - 4..] == AacArgs && Lit("-an") !in audio)
            && (Lit("-filter:a") in audio <==>
                  speedMode && keepAudio && audioPresent && AtempoChain(SpeedFactor(baseFps, userFps)) != [])
  {
    AudioSectionOf(listfile, userFps, outPath, speedMode, baseFps, keepAudio, audioPresent);
    AudioArgsShape(AudioSteps(userFps, speedMode, baseFps), keepAudio && audioPresent);
  }

  /** In speed mode with audio kept, the audio filter's steps each lie within
      [0.5, 2.0] and multiply to the video's speed-up, up to a dropped
      remainder within the tolerance of 1. */
  lemma AudioFollowsVideo(listfile: string, userFps: real, outPath: string,
                          baseFps: int, keepAudio: bool, audioPresent: bool)
    requires userFps != 0.0 && SpeedFactor(baseFps, userFps) > 0.0
    requires keepAudio && audioPresent
    ensures var cmd := BuildCommand(listfile, userFps, outPath, true, baseFps, keepAudio, audioPresent);
            var speed := SpeedFactor(baseFps, userFps);
            && cmd[23] == SetPts(speed)
            && (AtempoChain(speed) != [] ==> cmd[27] == AtempoFilters(AtempoChain(speed)))
            && (forall k :: 0 <= k < |AtempoChain(speed)| ==> 0.5 <= AtempoChain(speed)[k] <= 2.0)
            && (Abs(FixedSteps(speed).1 - 1.0) > Tolerance ==> Product(AtempoChain(speed)) == speed)
  {
    AtempoStepsInRange(SpeedFactor(baseFps, userFps));
    AtempoProduct(SpeedFactor(baseFps, userFps));
  }
}
