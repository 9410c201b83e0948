/** The player's index of a folder: the kept clips laid end to end in one
    global frame space, each clip starting where the previous one ends, and
    the mapping from a global frame to a clip and a frame inside it. */
module ClipIndex {
  import opened Wrappers

  /** What opening a clip with the decoder reports: it could not be opened, or
      it opened and announced a frame count. */
  datatype Probe = Unopenable | Opened(frames: nat)

  /** One kept clip: its path, its frame count and its first global frame. */
  datatype Clip = Clip(path: string, frames: nat, startFrame: nat)

  function Min(a: int, b: int): int { if a <= b then a else b }

  function Max(a: int, b: int): int { if a >= b then a else b }

  /** max(lo, min(hi, val)): val forced into [lo, hi]; lo wins when lo > hi. */
  function Clamp(val: int, lo: int, hi: int): (r: int)
    ensures r >= lo
    ensures lo <= hi ==> r <= hi
    ensures lo <= val <= hi ==> r == val
    ensures val < lo ==> r == lo
    ensures lo <= hi < val ==> r == hi
  {
    Max(lo, Min(hi, val))
  }

  /** Total frame count of a run of clips. */
  function SumFrames(clips: seq<Clip>): nat {
    if clips == [] then 0 else SumFrames(clips[..|clips| - 1]) + clips[|clips| - 1].frames
  }

  /** Every clip starts where the clips before it end. */
  ghost predicate Gapless(clips: seq<Clip>) {
    forall i :: 0 <= i < |clips| ==> clips[i].startFrame == SumFrames(clips[..i])
  }

  /** The paths that open, in order: the clips the index keeps. */
  function Kept(paths: seq<string>, probe: string -> Probe): (kept: seq<string>)
    ensures |kept| <= |paths|
  {
    if paths == [] then []
    else
      var last := paths[|paths| - 1];
      Kept(paths[..|paths| - 1], probe) + (if probe(last).Opened? then [last] else [])
  }

  lemma KeptStep(paths: seq<string>, probe: string -> Probe, i: nat)
    requires i < |paths|
    ensures Kept(paths[..i + 1], probe)
            == Kept(paths[..i], probe) + (if probe(paths[i]).Opened? then [paths[i]] else [])
  {
    assert paths[..i + 1][..i] == paths[..i];
  }

  /** Appending a clip that starts at the current total keeps the index
      gapless and adds its frames to the total. */
  lemma GaplessAppend(clips: seq<Clip>, c: Clip)
    requires Gapless(clips) && c.startFrame == SumFrames(clips)
    ensures Gapless(clips + [c])
    ensures SumFrames(clips + [c]) == SumFrames(clips) + c.frames
  {
    var r := clips + [c];
    assert r[..|clips|] == clips;
    forall i | 0 <= i < |r|
      ensures r[i].startFrame == SumFrames(r[..i])
    {
      if i < |clips| { assert r[..i] == clips[..i]; }
    }
  }

  /** clips is the index of paths: one clip per path that opens, in order,
      with the frame count the decoder announced, laid out without gaps. */
  ghost predicate IndexOf(clips: seq<Clip>, paths: seq<string>, probe: string -> Probe) {
    && Gapless(clips)
    && |clips| == |Kept(paths, probe)|
    && forall k :: 0 <= k < |clips| ==>
         clips[k].path == Kept(paths, probe)[k] && probe(clips[k].path) == Opened(clips[k].frames)
  }

  lemma {:induction false} SumFramesEqual(a: seq<Clip>, b: seq<Clip>)
    requires |a| == |b| && forall k :: 0 <= k < |a| ==> a[k].frames == b[k].frames
    ensures SumFrames(a) == SumFrames(b)
    decreases |a|
  {
    if a != [] {
      SumFramesEqual(a[..|a| - 1], b[..|b| - 1]);
    }
  }

  /** A list of paths has one index only: paths and frame counts come from the
      paths and the decoder, and the starts follow from the frame counts. */
  lemma IndexOfUnique(c1: seq<Clip>, c2: seq<Clip>, paths: seq<string>, probe: string -> Probe)
    requires IndexOf(c1, paths, probe) && IndexOf(c2, paths, probe)
    ensures c1 == c2
  {
    forall k | 0 <= k < |c1|
      ensures c1[k] == c2[k]
    {
      assert c1[k].frames == c2[k].frames;
      SumFramesEqual(c1[..k], c2[..k]);
    }
  }

  /** One step of the indexing loop: a path that opens adds a clip starting
      at the frame sum so far, one that does not open adds nothing. */
  lemma IndexOfStep(clips: seq<Clip>, paths: seq<string>, probe: string -> Probe, i: nat)
    requires i < |paths| && IndexOf(clips, paths[..i], probe)
    ensures probe(paths[i]).Opened? ==>
              var c := Clip(paths[i], probe(paths[i]).frames, SumFrames(clips));
              IndexOf(clips + [c], paths[..i + 1], probe) && SumFrames(clips + [c]) == SumFrames(clips) + c.frames
    ensures !probe(paths[i]).Opened? ==> IndexOf(clips, paths[..i + 1], probe)
  {
    KeptStep(paths, probe, i);
    if probe(paths[i]).Opened? {
      var c := Clip(paths[i], probe(paths[i]).frames, SumFrames(clips));
      GaplessAppend(clips, c);
      var r := clips + [c];
      var kept := Kept(paths[..i + 1], probe);
      assert kept == Kept(paths[..i], probe) + [paths[i]];
      forall k | 0 <= k < |r|
        ensures r[k].path == kept[k] && probe(r[k].path) == Opened(r[k].frames)
      {
        if k < |clips| {
          assert r[k] == clips[k];
        }
      }
    } else {
      assert Kept(paths[..i + 1], probe) == Kept(paths[..i], probe) + [];
    }
  }

  /** The indexing loop of a folder load: each path that opens becomes a clip
      starting at the running frame sum; paths that fail to open are skipped
      and shift nothing. */
  method BuildIndex(paths: seq<string>, probe: string -> Probe) returns (clips: seq<Clip>, total: nat)
    ensures IndexOf(clips, paths, probe) && total == SumFrames(clips)
  {
    clips, total := [], 0;
    var startFrame := 0;
    var i := 0;
    while i < |paths|
      invariant 0 <= i <= |paths|
      invariant IndexOf(clips, paths[..i], probe)
      invariant total == SumFrames(clips) && startFrame == total
    {
      var p := paths[i];
      IndexOfStep(clips, paths, probe, i);
      var info := probe(p);
      if info.Opened? {
        var clip := Clip(p, info.frames, startFrame);
        clips := clips + [clip];
        startFrame := startFrame + info.frames;
        total := total + info.frames;
      }
      i := i + 1;
    }
    assert paths[..i] == paths;
  }

  lemma PrefixSumStep(clips: seq<Clip>, i: nat)
    requires i < |clips|
    ensures SumFrames(clips[..i + 1]) == SumFrames(clips[..i]) + clips[i].frames
  {
    assert clips[..i + 1][..i] == clips[..i];
  }

  lemma {:induction false} PrefixSumMonotone(clips: seq<Clip>, j: nat, i: nat)
    requires j <= i <= |clips|
    ensures SumFrames(clips[..j]) <= SumFrames(clips[..i])
    decreases i - j
  {
    if j < i {
      PrefixSumStep(clips, i - 1);
      PrefixSumMonotone(clips, j, i - 1);
    }
  }

  /** The end of clip i, that is the start of the clip after it, or the total
      for the last clip. */
  lemma ClipEnd(clips: seq<Clip>, i: nat)
    requires Gapless(clips) && i < |clips|
    ensures clips[i].startFrame + clips[i].frames == SumFrames(clips[..i + 1])
    ensures clips[i].startFrame + clips[i].frames <= SumFrames(clips)
    ensures i + 1 < |clips| ==> clips[i].startFrame + clips[i].frames == clips[i + 1].startFrame
  {
    PrefixSumStep(clips, i);
    PrefixSumMonotone(clips, i + 1, |clips|);
    assert clips[..|clips|] == clips;
  }

  /** The scan in the mapping: the first clip from position i on whose end
      lies beyond g, with g's offset inside it. */
  function ScanFrom(clips: seq<Clip>, g: int, i: nat): (r: Option<(nat, int)>)
    ensures r.Some? ==> i <= r.value.0 < |clips|
    decreases |clips| - i
  {
    if i >= |clips| then None
    else if g < clips[i].startFrame + clips[i].frames then Some((i, g - clips[i].startFrame))
    else ScanFrom(clips, g, i + 1)
  }

  /** The player's global-to-(clip, local frame) mapping: clamp into
      [0, total - 1], scan, and fall back to the last frame of the last clip. */
  function GlobalToFileLocal(clips: seq<Clip>, total: int, g: int): (r: (int, int))
    requires clips != []
    ensures 0 <= r.0 < |clips|
  {
    var gc := Clamp(g, 0, Max(0, total - 1));
    match ScanFrom(clips, gc, 0)
    case Some(hit) => hit
    case None => (|clips| - 1, Max(0, clips[|clips| - 1].frames - 1))
  }

  /** Started no later than g inside a gapless index, the scan finds the first
      clip whose end lies beyond g, and g lies inside it. */
  lemma {:induction false} ScanFromFinds(clips: seq<Clip>, g: int, i: nat)
    requires Gapless(clips) && g < SumFrames(clips)
    requires i <= |clips| && SumFrames(clips[..i]) <= g
    ensures ScanFrom(clips, g, i).Some?
    ensures var (k, local) := ScanFrom(clips, g, i).value;
            && clips[k].startFrame <= g < clips[k].startFrame + clips[k].frames
            && local == g - clips[k].startFrame
            && forall j :: i <= j < k ==> clips[j].startFrame + clips[j].frames <= g
    decreases |clips| - i
  {
    assert clips[..|clips|] == clips;
    if i < |clips| {
      ClipEnd(clips, i);
      if g >= clips[i].startFrame + clips[i].frames {
        ScanFromFinds(clips, g, i + 1);
      }
    }
  }

  /** With frames to play, the mapping returns the first clip that holds the
      clamped frame, and a local frame inside it: clip start plus local frame
      gives back the clamped global frame, a clip with no frames is never
      returned, and the fallback branch is never taken. */
  lemma GlobalToFileLocalCorrect(clips: seq<Clip>, total: int, g: int)
    requires clips != [] && Gapless(clips) && total == SumFrames(clips) && total > 0
    ensures ScanFrom(clips, Clamp(g, 0, total - 1), 0).Some?
    ensures var r := GlobalToFileLocal(clips, total, g);
            && 0 <= r.1 < clips[r.0].frames
            && clips[r.0].startFrame + r.1 == Clamp(g, 0, total - 1)
            && forall j :: 0 <= j < r.0 ==> clips[j].startFrame + clips[j].frames <= Clamp(g, 0, total - 1)
  {
    assert clips[..0] == [];
    ScanFromFinds(clips, Clamp(g, 0, total - 1), 0);
  }

  /** In a gapless index a clip ends no later than any later clip starts. */
  lemma ClipsInOrder(clips: seq<Clip>, i: nat, k: nat)
    requires Gapless(clips) && i < k < |clips|
    ensures clips[i].startFrame + clips[i].frames <= clips[k].startFrame
  {
    ClipEnd(clips, i);
    PrefixSumMonotone(clips, i + 1, k);
  }

  /** In a gapless index a frame lies inside one clip at most. */
  lemma HolderUnique(clips: seq<Clip>, g: int, i: nat, k: nat)
    requires Gapless(clips) && i < |clips| && k < |clips|
    requires clips[i].startFrame <= g < clips[i].startFrame + clips[i].frames
    requires clips[k].startFrame <= g < clips[k].startFrame + clips[k].frames
    ensures i == k
  {
    if i < k {
      ClipsInOrder(clips, i, k);
      assert false;
    } else if k < i {
      ClipsInOrder(clips, k, i);
      assert false;
    }
  }

  /** The mapping inverts the index: frame local of clip i, taken as a global
      frame, maps back to exactly (i, local). */
  lemma GlobalToFileLocalInverse(clips: seq<Clip>, total: int, i: nat, local: int)
    requires Gapless(clips) && total == SumFrames(clips)
    requires i < |clips| && 0 <= local < clips[i].frames
    ensures GlobalToFileLocal(clips, total, clips[i].startFrame + local) == (i, local)
  {
    var g := clips[i].startFrame + local;
    ClipEnd(clips, i);
    assert Clamp(g, 0, total - 1) == g;
    GlobalToFileLocalCorrect(clips, total, g);
    var r := GlobalToFileLocal(clips, total, g);
    HolderUnique(clips, g, i, r.0);
  }
}
