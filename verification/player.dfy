/** The multi-clip player's state machine: the folder index, the playhead
    (one global frame counter across all clips), the clip the decoder has
    open, play/pause and the playback speed. Decoder reads are inputs that
    either succeed or fail; the widgets and the decoder itself are not part
    of this model. */
module Player {
  import opened Wrappers
  import opened NaturalSort
  import opened ClipList
  import opened ClipIndex

  /** The discrete playback speeds offered to the user. */
  const SpeedChoices: seq<real> := [0.25, 0.5, 0.75, 1.0, 1.25, 1.5, 2.0, 3.0, 4.0]

  function AbsReal(x: real): real { if x < 0.0 then -x else x }

  function MinReal(a: real, b: real): real { if a <= b then a else b }

  function MaxReal(a: real, b: real): real { if a >= b then a else b }

  /** The smallest element of a non-empty list. */
  function SeqMin(xs: seq<real>): (m: real)
    requires xs != []
    ensures m in xs && forall j :: 0 <= j < |xs| ==> m <= xs[j]
  {
    if |xs| == 1 then xs[0] else MinReal(xs[0], SeqMin(xs[1..]))
  }

  /** The largest element of a non-empty list. */
  function SeqMax(xs: seq<real>): (m: real)
    requires xs != []
    ensures m in xs && forall j :: 0 <= j < |xs| ==> xs[j] <= m
  {
    if |xs| == 1 then xs[0] else MaxReal(xs[0], SeqMax(xs[1..]))
  }

  /** The slowest and the fastest choice, min and max of the speed list. */
  const MinSpeed: real := 0.25
  const MaxSpeed: real := 4.0

  /** A member of a list that no element undercuts is its minimum. */
  lemma SeqMinIs(xs: seq<real>, m: real)
    requires m in xs && forall j :: 0 <= j < |xs| ==> m <= xs[j]
    ensures SeqMin(xs) == m
  {
    var k :| 0 <= k < |xs| && xs[k] == m;
  }

  /** A member of a list that no element exceeds is its maximum. */
  lemma SeqMaxIs(xs: seq<real>, m: real)
    requires m in xs && forall j :: 0 <= j < |xs| ==> xs[j] <= m
    ensures SeqMax(xs) == m
  {
    var k :| 0 <= k < |xs| && xs[k] == m;
  }

  lemma MinSpeedIsMin()
    ensures SeqMin(SpeedChoices) == MinSpeed
  {
    SeqMinIs(SpeedChoices, MinSpeed);
  }

  lemma MaxSpeedIsMax()
    ensures SeqMax(SpeedChoices) == MaxSpeed
  {
    SeqMaxIs(SpeedChoices, MaxSpeed);
  }

  /** max(lo, min(hi, val)) on speeds. */
  function ClampReal(val: real, lo: real, hi: real): (r: real)
    ensures lo <= hi ==> lo <= r <= hi
    ensures lo <= val <= hi ==> r == val
  {
    MaxReal(lo, MinReal(hi, val))
  }

  /** Index of the first of choices[..n] nearest to speed. */
  function NearestUpTo(choices: seq<real>, speed: real, n: nat): (k: nat)
    requires 0 < n <= |choices|
    ensures k < n
    ensures forall j :: 0 <= j < n ==> AbsReal(choices[k] - speed) <= AbsReal(choices[j] - speed)
    ensures forall j :: 0 <= j < k ==> AbsReal(choices[k] - speed) < AbsReal(choices[j] - speed)
  {
    if n == 1 then 0
    else
      var best := NearestUpTo(choices, speed, n - 1);
      if AbsReal(choices[n - 1] - speed) < AbsReal(choices[best] - speed) then n - 1 else best
  }

  /** The index whose speed lies nearest to the current one; on a tie, the
      first such index, as a minimum over the index range picks it. */
  function NearestChoice(speed: real): (k: nat)
    ensures k < |SpeedChoices|
  {
    NearestUpTo(SpeedChoices, speed, |SpeedChoices|)
  }

  /** The speed a nudge by step settles on: step places along the list from
      the nearest choice, stopping at either end. */
  function NudgedSpeed(speed: real, step: int): real {
    var idx := Clamp(NearestChoice(speed) + step, 0, |SpeedChoices| - 1);
    ClampReal(SpeedChoices[idx], MinSpeed, MaxSpeed)
  }

  /** The speed choices are strictly increasing, so a speed that is a choice
      is nearest to itself only. */
  lemma NearestOfChoice(k: nat)
    requires k < |SpeedChoices|
    ensures NearestChoice(SpeedChoices[k]) == k
  {
    var r := NearestChoice(SpeedChoices[k]);
    assert AbsReal(SpeedChoices[r] - SpeedChoices[k]) <= AbsReal(SpeedChoices[k] - SpeedChoices[k]);
    assert forall i, j :: 0 <= i < j < |SpeedChoices| ==> SpeedChoices[i] < SpeedChoices[j];
  }

  /** From a speed that is one of the choices, a nudge moves exactly step
      places along the list, clamped to its ends. */
  lemma NudgeFromChoice(k: nat, step: int)
    requires k < |SpeedChoices|
    ensures NudgedSpeed(SpeedChoices[k], step) == SpeedChoices[Clamp(k + step, 0, |SpeedChoices| - 1)]
  {
    NearestOfChoice(k);
  }

  /** Nudging up from the fastest speed or down from the slowest one changes
      nothing, so repeated nudges past an end are idempotent. */
  lemma NudgePastEnds()
    ensures NudgedSpeed(MaxSpeed, 1) == MaxSpeed
    ensures NudgedSpeed(MinSpeed, -1) == MinSpeed
  {
    NudgeFromChoice(8, 1);
    NudgeFromChoice(0, -1);
  }

  /** What a folder scan and indexing yield before anything is committed. */
  datatype IndexOutcome =
    | NoVideos                                   // no ".mp4" file in the folder
    | NoFrames                                   // no kept clip reported a frame
    | Indexed(clips: seq<Clip>, total: nat)

  /** Scan a folder listing and index its clips: the ".mp4" files in natural
      order, probed one by one. */
  method IndexFolder(entries: seq<Entry>, probe: string -> Probe) returns (out: IndexOutcome)
    ensures out == NoVideos <==> SelectMp4(entries).None?
    ensures out.NoFrames? ==>
              && SelectMp4(entries).Some?
              && forall clips :: IndexOf(clips, SelectMp4(entries).value, probe) ==> SumFrames(clips) == 0
    ensures out.Indexed? ==>
              && SelectMp4(entries).Some?
              && IndexOf(out.clips, SelectMp4(entries).value, probe)
              && out.total == SumFrames(out.clips) && out.total > 0 && out.clips != []
  {
    var selected := SelectMp4(entries);
    if selected.None? {
      return NoVideos;
    }
    var clips, total := BuildIndex(selected.value, probe);
    if total == 0 {
      forall other | IndexOf(other, selected.value, probe)
        ensures SumFrames(other) == 0
      {
        IndexOfUnique(clips, other, selected.value, probe);
      }
      return NoFrames;
    }
    return Indexed(clips, total);
  }

  /** How a folder load ends. */
  datatype LoadResult = Loaded | NoVideosError | NoFramesError

  class FolderVideoPlayer {
    var files: seq<Clip>
    var totalFrames: nat
    /** Index of the clip the decoder has open, -1 for none. */
    var curFileIdx: int
    var curGlobalFrame: int
    var playing: bool
    var playSpeed: real
    /** The "Loop" check box. */
    var loopOn: bool
    /** Whether a decoder handle is held at all. */
    var captureOpen: bool

    /** The player's invariant: a gapless index with a non-zero total whenever
        clips are loaded, the playhead between 0 and the total, a valid open
        clip index, a decoder handle behind any open clip index, and a speed
        within the offered range. */
    ghost predicate Valid()
      reads this
    {
      && Gapless(files) && totalFrames == SumFrames(files)
      && (files == [] <==> totalFrames == 0)
      && 0 <= curGlobalFrame <= totalFrames
      && -1 <= curFileIdx < |files|
      && (curFileIdx >= 0 ==> captureOpen)
      && MinSpeed <= playSpeed <= MaxSpeed
    }

    constructor ()
      ensures Valid()
      ensures files == [] && totalFrames == 0 && curFileIdx == -1 && curGlobalFrame == 0
      ensures !playing && playSpeed == 1.0 && loopOn && !captureOpen
    {
      files, totalFrames := [], 0;
      curFileIdx, curGlobalFrame := -1, 0;
      playing, playSpeed := false, 1.0;
      loopOn, captureOpen := true, false;
    }

    /** Open clip idx unless it is already the open one. */
    method OpenCaptureForFile(idx: int)
      requires Valid() && 0 <= idx < |files|
      modifies this`curFileIdx, this`captureOpen
      ensures Valid()
      ensures curFileIdx == idx && captureOpen
    {
      if idx == curFileIdx {
        return;
      }
      captureOpen := true;
      curFileIdx := idx;
    }

    /** Open the clip that holds global frame g (the decoder is then
        positioned on g's local frame). */
    method OpenCaptureForGlobalFrame(g: int)
      requires Valid() && files != []
      modifies this`curFileIdx, this`captureOpen
      ensures Valid()
      ensures curFileIdx == GlobalToFileLocal(files, totalFrames, g).0 && captureOpen
    {
      var (idx, local) := GlobalToFileLocal(files, totalFrames, g);
      OpenCaptureForFile(idx);
    }

    /** Show the frame under the playhead: map it and open its clip; the
        playhead itself does not move. */
    method DisplayCurrentFrame()
      requires Valid() && files != []
      modifies this`curFileIdx, this`captureOpen
      ensures Valid()
      ensures curFileIdx == GlobalToFileLocal(files, totalFrames, curGlobalFrame).0 && captureOpen
    {
      var (idx, local) := GlobalToFileLocal(files, totalFrames, curGlobalFrame);
      OpenCaptureForFile(idx);
    }

    /** Load a folder: on success the new index replaces the old one and the
        playhead goes back to frame 0; on either error the old index and
        playhead stay, the old decoder handle is released and no clip counts
        as open any more. */
    method LoadFolder(entries: seq<Entry>, probe: string -> Probe) returns (result: LoadResult)
      requires Valid()
      modifies this`files, this`totalFrames, this`curFileIdx, this`curGlobalFrame, this`captureOpen
      ensures Valid()
      ensures result == NoVideosError <==> SelectMp4(entries).None?
      ensures result == Loaded ==>
                && SelectMp4(entries).Some? && IndexOf(files, SelectMp4(entries).value, probe)
                && files != [] && curGlobalFrame == 0
                && curFileIdx == GlobalToFileLocal(files, totalFrames, 0).0
      ensures result != Loaded ==>
                && files == old(files) && totalFrames == old(totalFrames)
                && curGlobalFrame == old(curGlobalFrame)
                && curFileIdx == -1 && !captureOpen
      ensures result == NoFramesError ==>
                forall clips :: IndexOf(clips, SelectMp4(entries).value, probe) ==> SumFrames(clips) == 0
    {
      captureOpen := false;
      curFileIdx := -1;
      var out := IndexFolder(entries, probe);
      if out.NoVideos? {
        return NoVideosError;
      }
      if out.NoFrames? {
        return NoFramesError;
      }
      files, totalFrames := out.clips, out.total;
      curFileIdx, curGlobalFrame := -1, 0;
      OpenCaptureForGlobalFrame(0);
      DisplayCurrentFrame();
      result := Loaded;
    }

    /** The folder load as the source writes it: the old decoder handle is
        released before the folder is scanned, but the open clip index is reset
        only on success. After a failed reload the player thus names an open
        clip with no decoder behind it, and the invariant is lost. */
    method LoadFolderAsWritten(entries: seq<Entry>, probe: string -> Probe) returns (result: LoadResult)
      requires Valid()
      modifies this`files, this`totalFrames, this`curFileIdx, this`curGlobalFrame, this`captureOpen
      ensures result == NoVideosError <==> SelectMp4(entries).None?
      ensures result != Loaded ==>
                && files == old(files) && totalFrames == old(totalFrames)
                && curGlobalFrame == old(curGlobalFrame)
                && curFileIdx == old(curFileIdx) && !captureOpen
      ensures result != Loaded && old(curFileIdx) >= 0 ==> !Valid()
      ensures result == Loaded ==>
                && Valid() && SelectMp4(entries).Some? && IndexOf(files, SelectMp4(entries).value, probe)
                && files != [] && curGlobalFrame == 0
                && curFileIdx == GlobalToFileLocal(files, totalFrames, 0).0
      ensures result == NoFramesError ==>
                forall clips :: IndexOf(clips, SelectMp4(entries).value, probe) ==> SumFrames(clips) == 0
    {
      captureOpen := false;
      var out := IndexFolder(entries, probe);
      if out.NoVideos? {
        return NoVideosError;
      }
      if out.NoFrames? {
        return NoFramesError;
      }
      files, totalFrames := out.clips, out.total;
      curFileIdx, curGlobalFrame := -1, 0;
      OpenCaptureForGlobalFrame(0);
      DisplayCurrentFrame();
      result := Loaded;
    }

    method TogglePlay()
      modifies this`playing
      ensures playing == !old(playing)
    {
      playing := !playing;
    }

    /** The "Loop" check box. */
    method SetLoop(on: bool)
      modifies this`loopOn
      ensures loopOn == on
    {
      loopOn := on;
    }

    /** Move the playhead to g, clamped into the clip range, and open the clip
        that holds it; with no clips loaded nothing happens. */
    method SeekTo(g: int)
      requires Valid()
      modifies this`curGlobalFrame, this`curFileIdx, this`captureOpen
      ensures Valid()
      ensures files == [] ==>
                curGlobalFrame == old(curGlobalFrame) && curFileIdx == old(curFileIdx)
                && captureOpen == old(captureOpen)
      ensures files != [] ==>
                && curGlobalFrame == Clamp(g, 0, totalFrames - 1)
                && curFileIdx == GlobalToFileLocal(files, totalFrames, curGlobalFrame).0
                && captureOpen
    {
      if files == [] {
        return;
      }
      curGlobalFrame := Clamp(g, 0, totalFrames - 1);
      OpenCaptureForGlobalFrame(curGlobalFrame);
      DisplayCurrentFrame();
    }

    /** Pause and move the playhead by delta frames, clamped; with no clips
        loaded nothing happens. */
    method Step(delta: int)
      requires Valid()
      modifies this`playing, this`curGlobalFrame, this`curFileIdx, this`captureOpen
      ensures Valid()
      ensures files == [] ==>
                playing == old(playing) && curGlobalFrame == old(curGlobalFrame)
                && curFileIdx == old(curFileIdx) && captureOpen == old(captureOpen)
      ensures files != [] ==>
                && !playing
                && curGlobalFrame == Clamp(old(curGlobalFrame) + delta, 0, totalFrames - 1)
                && curFileIdx == GlobalToFileLocal(files, totalFrames, curGlobalFrame).0
    {
      if files == [] {
        return;
      }
      playing := false;
      var newFrame := Clamp(curGlobalFrame + delta, 0, totalFrames - 1);
      SeekTo(newFrame);
    }

    /** Set the speed, clamped to the slowest and fastest choice. */
    method SetSpeed(speed: real)
      requires Valid()
      modifies this`playSpeed
      ensures Valid()
      ensures playSpeed == ClampReal(speed, MinSpeed, MaxSpeed)
      ensures MinSpeed <= speed <= MaxSpeed ==> playSpeed == speed
    {
      playSpeed := ClampReal(speed, MinSpeed, MaxSpeed);
    }

    /** Move step places along the speed list from the choice nearest to the
        current speed, clamped to the list's ends. */
    method NudgeSpeed(step: int)
      requires Valid()
      modifies this`playSpeed
      ensures Valid()
      ensures playSpeed == NudgedSpeed(old(playSpeed), step)
      ensures playSpeed in SpeedChoices
    {
      var idx := NearestChoice(playSpeed);
      idx := Clamp(idx + step, 0, |SpeedChoices| - 1);
      SetSpeed(SpeedChoices[idx]);
    }

    /** The read in clip fileIdx failed, so that clip has ended: open the next
        clip at its first frame, or, after the last clip, seek to frame 0 when
        looping and stop playing otherwise. ok is the outcome of the read tried
        after a jump, false when playback stops. */
    method ClipEnded(fileIdx: int, secondRead: bool) returns (ok: bool)
      requires Valid() && 0 <= fileIdx < |files|
      modifies this`playing, this`curGlobalFrame, this`curFileIdx, this`captureOpen
      ensures Valid()
      ensures fileIdx + 1 < |files| ==>
                && playing == old(playing) && ok == secondRead
                && curFileIdx == fileIdx + 1 && curGlobalFrame == files[fileIdx + 1].startFrame
      ensures fileIdx + 1 == |files| && loopOn ==>
                && playing == old(playing) && ok == secondRead
                && curGlobalFrame == 0 && curFileIdx == GlobalToFileLocal(files, totalFrames, 0).0
      ensures fileIdx + 1 == |files| && !loopOn ==>
                && !playing && !ok
                && curFileIdx == old(curFileIdx) && curGlobalFrame == old(curGlobalFrame)
                && captureOpen == old(captureOpen)
    {
      if fileIdx + 1 < |files| {
        OpenCaptureForFile(fileIdx + 1);
        ClipEnd(files, fileIdx);
        curGlobalFrame := files[fileIdx + 1].startFrame;
        ok := secondRead;
      } else if loopOn {
        SeekTo(0);
        ok := secondRead;
      } else {
        playing := false;
        ok := false;
      }
    }

    /** One tick of the playback timer. Nothing happens unless clips are loaded
        and playing. Otherwise the playhead's clip is opened and a frame read
        (firstRead says whether that succeeded). A failed read means the clip
        has ended: the next clip is opened at its first frame, or, after the
        last clip, playback restarts from frame 0 when looping and stops
        otherwise; after a jump a second read is tried (secondRead). A
        successful read advances the playhead by one frame, clamped. */
    method TimerTick(firstRead: bool, secondRead: bool)
      requires Valid()
      modifies this`playing, this`curGlobalFrame, this`curFileIdx, this`captureOpen
      ensures Valid()
      ensures !(files != [] && old(playing)) ==>
                playing == old(playing) && curGlobalFrame == old(curGlobalFrame)
                && curFileIdx == old(curFileIdx) && captureOpen == old(captureOpen)
      ensures files != [] && old(playing) && firstRead ==>
                && playing && curFileIdx == GlobalToFileLocal(files, totalFrames, old(curGlobalFrame)).0
                && curGlobalFrame == Clamp(old(curGlobalFrame) + 1, 0, totalFrames - 1)
      ensures files != [] && old(playing) && !firstRead ==>
                var fi := GlobalToFileLocal(files, totalFrames, old(curGlobalFrame)).0;
                fi + 1 < |files| ==>
                  && playing && curFileIdx == fi + 1
                  && (secondRead ==> curGlobalFrame == Clamp(files[fi + 1].startFrame + 1, 0, totalFrames - 1))
                  && (!secondRead ==> curGlobalFrame == files[fi + 1].startFrame)
      ensures files != [] && old(playing) && !firstRead && loopOn ==>
                GlobalToFileLocal(files, totalFrames, old(curGlobalFrame)).0 + 1 == |files| ==>
                  && playing && curFileIdx == GlobalToFileLocal(files, totalFrames, 0).0
                  && curGlobalFrame == (if secondRead then Clamp(1, 0, totalFrames - 1) else 0)
      ensures files != [] && old(playing) && !firstRead && !loopOn ==>
                var fi := GlobalToFileLocal(files, totalFrames, old(curGlobalFrame)).0;
                fi + 1 == |files| ==>
                  && !playing && curFileIdx == fi && curGlobalFrame == old(curGlobalFrame)
    {
      if !(files != [] && playing) {
        return;
      }
      var (fileIdx, localFrame) := GlobalToFileLocal(files, totalFrames, curGlobalFrame);
      OpenCaptureForFile(fileIdx);
      var ok := firstRead;
      if !ok {
        ok := ClipEnded(fileIdx, secondRead);
      }
      if ok {
        curGlobalFrame := Clamp(curGlobalFrame + 1, 0, totalFrames - 1);
      }
    }
  }

  /** A folder holding the single clip "a.mp4" selects exactly that clip. */
  lemma SingleClipFolder()
    ensures SelectMp4([Entry("a.mp4", true)]) == Some(["a.mp4"])
  {
    Mp4SuffixExactly("a.mp4");
    assert "a.mp4"[1..] == ".mp4";
    assert Lower(".mp4") == ".mp4";
    assert IsMp4(Entry("a.mp4", true));
    assert Mp4Names([Entry("a.mp4", true)]) == ["a.mp4"];
  }

  /** The index of a single clip that opens with 10 frames. */
  lemma SingleClipIndex(clips: seq<Clip>, probe: string -> Probe)
    requires forall path :: probe(path) == Opened(10)
    ensures IndexOf(clips, ["a.mp4"], probe) <==> clips == [Clip("a.mp4", 10, 0)]
  {
    assert ["a.mp4"][..0] == [];
    assert Kept(["a.mp4"], probe) == ["a.mp4"];
    if |clips| == 1 {
      assert clips[..0] == [];
    }
  }

  /** A failed reload after a successful one, with the source's load: the
      player is left naming clip 0 as open while holding no decoder handle,
      so the next seek, step or timer tick uses a handle that is gone. */
  method StaleCaptureAfterFailedReload() returns (openIdx: int, handleHeld: bool)
    ensures openIdx == 0 && !handleHeld
  {
    var p := new FolderVideoPlayer();
    var probe := (path: string) => Opened(10);
    var entries := [Entry("a.mp4", true)];
    SingleClipFolder();
    var one := [Clip("a.mp4", 10, 0)];
    SingleClipIndex(one, probe);
    var first := p.LoadFolderAsWritten(entries, probe);
    assert first == Loaded;
    SingleClipIndex(p.files, probe);
    var second := p.LoadFolderAsWritten([], probe);
    openIdx, handleHeld := p.curFileIdx, p.captureOpen;
  }
}
