# DashcamTools core, modelled in Dafny

DashcamTools is a pair of small desktop tools for folders of dashcam clips:

- a player that plays all ".mp4" clips of a folder as one continuous video;
- a concatenator that joins them into one file with ffmpeg, optionally
  speeding the result up.

Underneath their windows sit a few self-contained routines, and this project
models those routines and proves what they promise.

- **Natural-sort keys** (`natural_sort.dfy`, module `NaturalSort`). A name is
  split at its digit runs, the way a regular-expression split with one
  captured digit group splits it. Digit runs become numbers and the rest is
  lower-cased, so "clip2" sorts before "clip10". Both tools carry the same
  `natural_keys` function (dashcam_clips_viewer.py:14-18 and
  concat_video_clips.py:19-22). The two copies have the same code (the
  viewer's adds only a docstring), so they are modelled once.
- **Clip selection** (`clip_list.dfy`, `ClipList`). Regular files whose
  extension, lower-cased, is ".mp4", ordered by natural key. Python's stable
  sort is modelled as an insertion sort.
- **Clip index and frame mapping** (`clip_index.dfy`, `ClipIndex`).
  - The loop that probes each clip and lays the clips out one after the
    other on a single global frame counter.
  - The map from a global frame to a (clip, local frame) pair.
- **Player state machine** (`player.dfy`, `Player`). The class
  `FolderVideoPlayer` holds the index, the playhead, the open clip, play and
  pause, looping and the playback speed. It has methods for loading, seeking,
  stepping, speed changes and the playback timer. A decoder read is an input
  that either succeeds or fails.
- **Concat list** (`concat_list.dfy`, `ConcatList`). The `file '<path>'` list
  given to ffmpeg's concat demuxer, with its quote escaping. A reader of that
  quoting is modelled beside the writer so the two can be proved inverses.
- **Atempo chain** (`atempo.dfy`, `Atempo`). A speed factor is split into
  audio tempo steps within [0.5, 2.0]. This is modelled both as a function
  and as the source's two loops.
- **ffmpeg command** (`ffmpeg_command.dfy`, `FfmpegCommand`). The argument
  list for a run.
- **Progress reader** (`progress.dfy`, `ProgressParser`).
  - Stripping, integer and float parsing.
  - Sorting of each `-progress` output line into a sample in seconds, an
    ignored line or a log line.
  - The reading loop.
- **Window bookkeeping** (`concat_app.dfy`, `ConcatApp`). The running time
  that progress is measured against, and the progress bar's percentage,
  capped at 100.

Floats are exact `real`s. Frame counts and indices are unbounded integers.

## Model

| member | source | states |
|---|---|---|
| NaturalSort.SplitDigitRunsCorrect | dashcam_clips_viewer.py:18 | The split alternates text parts without digits and non-empty digit runs. It starts and ends with text, has no empty text part inside, and joins back to the name. |
| NaturalSort.SplitDigitRunsUnique | dashcam_clips_viewer.py:18 | Any split with those properties is the computed one, so the split is fully determined by them. |
| NaturalSort.NaturalKeysAlternate | dashcam_clips_viewer.py:14-18 | A key has odd length, and its tokens alternate text and integer, with integers exactly at odd positions. |
| NaturalSort.SplitAround | dashcam_clips_viewer.py:18 | A name made of a head that is empty or ends in a non-digit, a digit run, and a tail that is empty or starts with a non-digit splits as the head's split, then the run, then the tail's split. |
| NaturalSort.KeysAround | dashcam_clips_viewer.py:14-18 | The key of such a name is the head's key, then the run's integer value, then the tail's key. |
| NaturalSort.DigitRunsCompareNumerically | dashcam_clips_viewer.py:14-18 | Two names that agree up to a digit run are ordered by the runs' integer values, whatever follows. The shared head may hold earlier digit runs, as in "20240101_120000_0002.mp4" against "20240101_120000_0010.mp4"; it must be empty or end in a non-digit. |
| NaturalSort.Clip2BeforeClip10 | dashcam_clips_viewer.py:15 | "clip2" sorts before "clip10" and not the other way round, although plain string order puts "clip10" first. |
| NaturalSort.NameLessIrreflexive | dashcam_clips_viewer.py:14-18 | No name sorts before itself. |
| NaturalSort.NameLessTransitive | dashcam_clips_viewer.py:14-18 | The order on names is transitive. |
| NaturalSort.NameLessTotal | concat_video_clips.py:19-22 | Any two names either have equal keys or one sorts before the other. |
| NaturalSort.NaturalKeysIgnoreCase | dashcam_clips_viewer.py:17 | A name and its lower-cased form have the same key. |
| NaturalSort.SplitOfLower | dashcam_clips_viewer.py:17-18 | Lower-casing a name lower-cases each part of its split and keeps the split's shape. |
| ClipList.Mp4SuffixExactly | dashcam_clips_viewer.py:158 | A name has the ".mp4" suffix in some case exactly when it is longer than ".mp4" and ends with ".mp4" in some case. A bare ".mp4" has no suffix. |
| ClipList.Mp4Names | dashcam_clips_viewer.py:158 | The kept names are exactly the names of regular-file entries with that suffix. |
| ClipList.InsertPermutes | dashcam_clips_viewer.py:163 | One insertion step adds exactly the inserted name. |
| ClipList.InsertSorted | dashcam_clips_viewer.py:163 | One insertion step keeps the list in natural order. |
| ClipList.SortByNaturalKeyCorrect | dashcam_clips_viewer.py:163 | The sort returns a permutation of its input in natural order. |
| ClipList.SortByNaturalKeyStable | dashcam_clips_viewer.py:163 | The sort is stable: for every key, the names with that key (such as "A.mp4" and "a.mp4") appear in the output in their input order. |
| ClipList.SelectMp4Correct | concat_video_clips.py:252-257 | The selection is missing exactly when no entry is an ".mp4" file. Otherwise it is naturally sorted, has the same multiset as the ".mp4" names, and has exactly those members. |
| ClipIndex.Clamp | dashcam_clips_viewer.py:20-21 | The result lies in [lo, hi] when lo <= hi. A value inside is kept; one below gives lo and one above gives hi. |
| ClipIndex.IndexOfStep | dashcam_clips_viewer.py:171-197 | Each path keeps the index exact. A clip that opens is appended, starting at the running total. One that does not open is skipped. |
| ClipIndex.BuildIndex | dashcam_clips_viewer.py:164-198 | The loop yields one clip per path that opens, in order, each with the probe's frame count. Each clip starts at the sum of the frames before it, and the total is the sum of all frames. |
| ClipIndex.IndexOfUnique | dashcam_clips_viewer.py:164-198 | The paths and the probe determine the index completely. |
| ClipIndex.GaplessAppend | dashcam_clips_viewer.py:184-197 | Appending a clip that starts at the current total keeps the index gapless and adds its frames to the total. |
| ClipIndex.ScanFromFinds | dashcam_clips_viewer.py:226-231 | From a clip starting no later than g, the scan finds a clip that holds g, and every clip before it ends at or before g. |
| ClipIndex.GlobalToFileLocalCorrect | dashcam_clips_viewer.py:223-234 | With frames loaded, the fallback is never taken. The result is (first clip holding the clamped frame, offset in that clip), the offset is within the clip's frames, and start plus offset gives the clamped frame back. |
| ClipIndex.HolderUnique | dashcam_clips_viewer.py:226-231 | At most one clip holds a frame, so a clip with no frames is never returned. |
| ClipIndex.GlobalToFileLocalInverse | dashcam_clips_viewer.py:223-231 | Mapping a clip's start plus a local frame inside it gives that clip and local frame back. |
| Player.MinSpeedIsMin | dashcam_clips_viewer.py:44 | 0.25 is the minimum of the speed choices. |
| Player.MaxSpeedIsMax | dashcam_clips_viewer.py:44 | 4.0 is the maximum of the speed choices. |
| Player.NearestUpTo | dashcam_clips_viewer.py:130-131 | The chosen index is nearest to the speed and is the first of the nearest ones, as min over the index range picks it. |
| Player.NudgeFromChoice | dashcam_clips_viewer.py:128-133 | From a speed that is a choice, a nudge moves exactly step places along the list, clamped to its ends. |
| Player.NudgePastEnds | dashcam_clips_viewer.py:128-133 | Nudging up from the fastest speed or down from the slowest leaves it unchanged. |
| Player.IndexFolder | dashcam_clips_viewer.py:156-201 | No videos exactly when no ".mp4" file is listed. No frames only when every index of the selection has total 0. Otherwise it gives the index of the selection, with a positive total. |
| Player.FolderVideoPlayer.constructor | dashcam_clips_viewer.py:30-43 | No clips, no open clip, playhead 0, paused, speed 1.0 and looping on. |
| Player.FolderVideoPlayer.OpenCaptureForFile | dashcam_clips_viewer.py:236-242 | Afterwards the given clip is the open one and a decoder handle is held. |
| Player.FolderVideoPlayer.OpenCaptureForGlobalFrame | dashcam_clips_viewer.py:244-247 | Afterwards the clip holding the frame is open. |
| Player.FolderVideoPlayer.DisplayCurrentFrame | dashcam_clips_viewer.py:330-334 | Afterwards the clip under the playhead is open, and the playhead has not moved. |
| Player.FolderVideoPlayer.LoadFolder | dashcam_clips_viewer.py:151-213 | Corrected load. "No videos" is reported exactly when no ".mp4" file is listed. On success the index is that of the selection and the playhead is at 0. On either error the index and playhead stay, no clip counts as open, and the invariant holds. |
| Player.FolderVideoPlayer.LoadFolderAsWritten | dashcam_clips_viewer.py:151-161 | The load as written: on an error after a clip was open, the open clip index survives while the decoder handle is gone, so the invariant is broken. |
| Player.FolderVideoPlayer.TogglePlay | dashcam_clips_viewer.py:251-252 | playing is negated. |
| Player.FolderVideoPlayer.SetLoop | dashcam_clips_viewer.py:82 | The loop flag takes the check box's value. |
| Player.FolderVideoPlayer.SeekTo | dashcam_clips_viewer.py:263-268 | Nothing changes with no clips loaded. Otherwise the playhead is the clamped target and the clip holding it is open. |
| Player.FolderVideoPlayer.Step | dashcam_clips_viewer.py:255-261 | Nothing changes with no clips loaded. Otherwise playback pauses and the playhead moves by delta, clamped. |
| Player.FolderVideoPlayer.SetSpeed | dashcam_clips_viewer.py:121-124 | The speed is clamped to [slowest, fastest] choice, and a speed inside that range is kept. |
| Player.FolderVideoPlayer.NudgeSpeed | dashcam_clips_viewer.py:128-133 | The new speed is a choice, step places from the nearest one, clamped to the ends. |
| Player.FolderVideoPlayer.ClipEnded | dashcam_clips_viewer.py:285-300 | After a failed read: the next clip opens at its start frame; after the last clip the player seeks to 0 when looping; otherwise playback stops. |
| Player.FolderVideoPlayer.TimerTick | dashcam_clips_viewer.py:273-305 | Nothing happens unless clips are loaded and playing. A successful read advances the playhead by one, clamped. At the end of a clip that is not the last, the playhead jumps to the next clip's start. At the end of the last clip, it loops to 0 or stops. |
| Player.StaleCaptureAfterFailedReload | dashcam_clips_viewer.py:151-161 | After a successful load followed by a failed one, the source leaves clip 0 marked open with no decoder handle held. |
| ConcatList.Escape | concat_video_clips.py:28 | A path without quotes is unchanged, and escaping adds no newline. |
| ConcatList.DequoteEscaped | concat_video_clips.py:28 | Inside quotes, an escaped path reads back as the path and leaves the reader inside quotes. |
| ConcatList.QuotedRoundTrip | concat_video_clips.py:28-29 | The quoted, escaped form of any path reads back as that path. |
| ConcatList.ReadLineOfLine | concat_video_clips.py:29 | A directive reads back as its path. |
| ConcatList.LineInjective | concat_video_clips.py:28-29 | Distinct paths give distinct directives. |
| ConcatList.ListFileLines | concat_video_clips.py:27-29 | The list has exactly one line per clip, in order, each the clip's directive, as long as no path holds a newline. |
| ConcatList.ListFileRoundTrip | concat_video_clips.py:24-32 | Reading the list back gives the clips in order, as long as no path holds a newline. |
| ConcatList.BuildListFile | concat_video_clips.py:24-32 | The writing loop produces the list file of its clips. |
| Atempo.Raise | concat_video_clips.py:58-59 | The doubling loop emits only 0.5 steps and leaves a factor of at least 0.5. It touches nothing at or above 0.5, and leaves a factor below 1 when it runs. |
| Atempo.Reduce | concat_video_clips.py:60-61 | The halving loop emits only 2.0 steps and leaves a factor in [0.5, 2.0], and it touches nothing at or below 2.0. |
| Atempo.RaiseProduct | concat_video_clips.py:58-59 | The doubling steps times the factor left give the original factor. |
| Atempo.ReduceProduct | concat_video_clips.py:60-61 | The halving steps times the factor left give the original factor. |
| Atempo.FixedStepsProduct | concat_video_clips.py:58-61 | The fixed steps times the remainder give the factor, and the remainder lies in [0.5, 2.0]. |
| Atempo.AtempoStepsInRange | concat_video_clips.py:55-64 | Every step lies in [0.5, 2.0]. |
| Atempo.FixedStepsUniform | concat_video_clips.py:58-61 | The fixed steps are all 0.5 or all 2.0, never a mix. |
| Atempo.AtempoProduct | concat_video_clips.py:55-64 | For a positive factor the steps multiply to the factor, except when the remainder lies within 1e-6 of 1. In that case the chain is the fixed steps alone. |
| Atempo.AtempoNonPositive | concat_video_clips.py:57 | A factor that is not positive gets no steps. |
| Atempo.BuildAtempoChain | concat_video_clips.py:55-64 | The two loops and the final remainder step produce the chain. |
| FfmpegCommand.Common | concat_video_clips.py:76-81 | The fixed prefix has 22 arguments, starts with "ffmpeg" and names the list file as input. |
| FfmpegCommand.VideoArgs | concat_video_clips.py:83-97 | Speed mode sets setpts by the speed-up and writes at the base rate. Otherwise the fps filter and output rate are the requested rate. |
| FfmpegCommand.BuildCommand | concat_video_clips.py:76-102 | The command starts with the fixed prefix and ends with the output path. |
| FfmpegCommand.AudioArgsShape | concat_video_clips.py:87-101 | "-an" alone exactly when no audio is kept. Otherwise the AAC arguments close the section and "-an" is absent. "-filter:a" appears exactly when audio is kept and there are steps. |
| FfmpegCommand.AudioArguments | concat_video_clips.py:83-102 | In the command, "-an" appears exactly without kept audio. AAC at 192k appears otherwise. "-filter:a" appears exactly in speed mode with kept audio and a non-empty chain. |
| FfmpegCommand.AudioFollowsVideo | concat_video_clips.py:83-90 | In speed mode with audio, the video is retimed by the speed-up, and the audio chain's steps lie in [0.5, 2.0] and multiply to that speed-up, up to the dropped remainder. |
| ProgressParser.StripIdempotent | concat_video_clips.py:110 | A stripped line has no white space at either end and strips to itself. |
| ProgressParser.ParseIntDigits | concat_video_clips.py:114 | A run of ASCII digits parses as its decimal value. |
| ProgressParser.ParseFloatDecimal | concat_video_clips.py:123 | Digits, a dot and digits parse as whole part plus fraction. |
| ProgressParser.LogIff | concat_video_clips.py:109-129 | A line is logged exactly when, stripped, it is non-empty and starts with none of the three keys. It is logged stripped. |
| ProgressParser.IgnoredAndProgress | concat_video_clips.py:110-128 | Blank lines and "progress=" lines are ignored, and a sample comes only from an "out_time_ms=" or "out_time=" line. |
| ProgressParser.MalformedDropped | concat_video_clips.py:112-126 | A time-keyed line is never logged. An unparsable microsecond value is ignored. So is a time value without exactly three fields, or one with three fields whose hours or minutes are not an integer or whose seconds are not a number. |
| ProgressParser.BadTimeFieldsDropped | concat_video_clips.py:119-125 | An "out_time=" value of three fields is ignored when the hours or minutes are not an integer or the seconds are not a number, as one `try` covers all three conversions. |
| ProgressParser.OutTimeMs | concat_video_clips.py:112-117 | "out_time_ms=N" with N an integer reports N / 1,000,000 seconds. |
| ProgressParser.OutTimeFields | concat_video_clips.py:119-125 | "out_time=H:M:S" with parsable fields reports H*3600 + M*60 + S seconds. |
| ProgressParser.Dispatch | concat_video_clips.py:109-129 | The events of a run of lines are at most one per line, and none is an ignored line. |
| ProgressParser.DispatchAppend | concat_video_clips.py:109-129 | Lines are handled one at a time: the events of two pieces are the events of the whole. |
| ProgressParser.ReadProgress | concat_video_clips.py:109-129 | The reading loop passes on exactly the events of its lines, in order. |
| ConcatApp.EffectiveTotal | concat_video_clips.py:261-267 | Outside speed mode, or with a speed-up that is not positive, the running time is the clips' total. |
| ConcatApp.SpeedModeTotal | concat_video_clips.py:262-264 | In speed mode the running time is total * requested rate / base rate. |
| ConcatApp.Percent | concat_video_clips.py:228 | The percentage never exceeds 100. It is not negative for non-negative progress, and it is 100 exactly when the time done reaches the total. |
| ConcatApp.PercentMonotone | concat_video_clips.py:228 | More time done never shows a smaller percentage. |
| ConcatApp.ProgressBar.constructor | concat_video_clips.py:147 | The bar starts determinate and empty, with no running time. |
| ConcatApp.ProgressBar.SetProgressTotal | concat_video_clips.py:216-224 | The running time is max(0, given). If positive, the bar is determinate at 0 percent; otherwise it is indeterminate and animated. |
| ConcatApp.ProgressBar.OnProgressSeconds | concat_video_clips.py:226-230 | With a positive running time, the bar shows the capped percentage; otherwise nothing changes. |
| ConcatApp.ProgressBar.Finish | concat_video_clips.py:290-295 | The bar is filled to 100 with a positive running time; otherwise its animation stops. |

## Left out

- The tkinter windows are not modelled: widgets, dialogs, labels, the slider, key bindings, and the `after` scheduling and delay of the timer. They hold no logic beyond what is modelled.
- OpenCV is not modelled: opening, reading, positioning and colour conversion of frames. A clip's probe is an input (it opens with a frame count, or it fails), and a frame read is a boolean input.
- The per-clip fps, its fallback to 30, the clip durations and `total_seconds` are not modelled. They feed the time displays and the timer delay, both left out above.
- Processes, the file system and the network are not modelled: the ffmpeg and ffprobe runs, `shutil.which`, the temporary list file and its removal, and directory listing. A folder listing is an input sequence of entries. `Path.resolve` and `as_posix` are not modelled: paths are taken as already resolved and in POSIX form (`resolve().as_posix()`), so symbolic links, ".." parts and separators are not modelled.
- `has_audio_stream` and `get_duration_seconds` are not modelled, because they are ffprobe calls. Their results are parameters (`audioPresent`, `totalSec`).
- The worker thread and the callback marshalling are not modelled, since their point is concurrency. The progress reader returns its events in order rather than calling callbacks. The exit code of ffmpeg is not modelled.
- Float formatting is not modelled: `:g`, `.6g`, `.3g`, `hms_from_seconds` and the time display. Numbers inside arguments stay numbers (`FfmpegCommand.Arg`).
- The validations and log messages of `start` are not modelled, apart from the positive requested rate, which `EffectiveTotal` requires.
- Characters are handled as ASCII. Python's `str.isdigit`, `\d` and `int` also accept other Unicode digits, and `str.lower` lower-cases beyond ASCII; neither is modelled. Stripping uses Python's white-space set for the code points listed in `ProgressParser.IsSpace`.
- Atempo.Reduce: float overflow is not modelled. In the source, a positive rate small enough (such as "1e-310") makes the speed-up infinite, and with audio kept the halving loop then never ends. With exact reals every positive factor reaches [0.5, 2.0].
- ProgressParser.ParseFloat: exponents, "inf" and "nan" are not modelled. Such a value is read as not parsable, which makes the line ignored.
- ProgressParser.OutTimeMs and ProgressParser.OutTimeFields are stated for values that already parse, rather than for every digit string.
- Frame counts are `nat`, so a negative count reported by a decoder is not modelled.
- ConcatList.ListFileLines, ConcatList.ListFileRoundTrip: paths that hold a newline are excluded from the list-file round trip, because the newline splits their directive.
- `sorted` is modelled as an insertion sort, proved stable; its run time is not modelled.

## Findings

| source | as written | input that shows it | evidently intended | confidence | as-written member | corrected member |
|---|---|---|---|---|---|---|
| dashcam_clips_viewer.py:151-161, 200-202, 236-247 | A folder load releases the decoder handle first. On the "no videos" or "no frames" error it returns without resetting `cur_file_idx`. | Load a folder holding "a.mp4" with 10 frames, then load a folder with no ".mp4" file. Clip 0 still counts as open while the handle is None, so the next seek's `_open_capture_for_file(0)` returns early and `self.cap.set` is called on None. | A failed load leaves no clip marked open, so the next seek opens the clip again. | not executed | Player.FolderVideoPlayer.LoadFolderAsWritten, Player.StaleCaptureAfterFailedReload | Player.FolderVideoPlayer.LoadFolder |
