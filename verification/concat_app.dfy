/** The bookkeeping of the concatenation window around a run: the running
    time the progress bar is measured against, and the bar itself, which is
    determinate (a percentage) when that time is known to be positive and
    indeterminate otherwise. Durations are exact reals here. */
module ConcatApp {
  /** The running time of the output: in speed mode the clips play faster by
      the speed-up base rate over requested rate, so their total is divided by
      it when it is positive; otherwise the total of the clips is kept. The
      requested rate has been checked to be positive before this point. */
  function EffectiveTotal(totalSec: real, speedMode: bool, baseFps: int, userFps: real): (r: real)
    requires userFps > 0.0
    ensures !speedMode ==> r == totalSec
    ensures speedMode && baseFps <= 0 ==> r == totalSec
  {
    if speedMode then
      var speed := (baseFps as real) / userFps;
      if speed > 0.0 then totalSec / speed else totalSec
    else totalSec
  }

  /** In speed mode with a positive base rate, the output runs for the clips'
      total times requested rate over base rate: halving the rate halves the
      running time. */
  lemma SpeedModeTotal(totalSec: real, baseFps: int, userFps: real)
    requires userFps > 0.0 && baseFps > 0
    ensures EffectiveTotal(totalSec, true, baseFps, userFps) == totalSec * userFps / (baseFps as real)
  {
    var b := baseFps as real;
    var speed := b / userFps;
    assert speed > 0.0;
    assert speed * userFps == b;
    calc {
      totalSec / speed;
      == { assert (totalSec / speed) * speed == totalSec; }
      (totalSec * userFps) / b;
    }
  }

  /** The share of the running time done, in percent, capped at 100. */
  function Percent(done: real, total: real): (r: real)
    requires total > 0.0
    ensures r <= 100.0
    ensures done >= 0.0 ==> r >= 0.0
    ensures r == 100.0 <==> done >= total
  {
    var raw := done / total * 100.0;
    if raw <= 100.0 then raw else 100.0
  }

  /** More time done never shows a smaller percentage. */
  lemma PercentMonotone(d1: real, d2: real, total: real)
    requires total > 0.0 && d1 <= d2
    ensures Percent(d1, total) <= Percent(d2, total)
  {
    DivMonotone(d1, d2, total);
  }

  lemma DivMonotone(a: real, b: real, c: real)
    requires c > 0.0 && a <= b
    ensures a / c * 100.0 <= b / c * 100.0
  {
    assert (b - a) / c >= 0.0;
    assert b / c - a / c == (b - a) / c;
  }

  /** The progress bar of the window. */
  class ProgressBar {
    /** The running time progress is measured against, never negative. */
    var totalDuration: real
    /** Determinate mode shows a percentage; otherwise the bar just runs. */
    var determinate: bool
    /** Whether the indeterminate animation is running. */
    var animating: bool
    /** The percentage shown in determinate mode. */
    var value: real

    /** The bar is determinate whenever the running time is positive, and
        never shows more than 100 percent. */
    ghost predicate Valid()
      reads this
    {
      && totalDuration >= 0.0
      && (totalDuration > 0.0 ==> determinate)
      && value <= 100.0
    }

    /** The bar starts determinate, empty, with no running time known. */
    constructor ()
      ensures Valid() && totalDuration == 0.0 && determinate && !animating && value == 0.0
    {
      totalDuration, determinate, animating, value := 0.0, true, false, 0.0;
    }

    /** Set the running time, never below 0; a positive one makes the bar
        determinate and starts it at 0 percent (an animation left running is
        not stopped), otherwise the bar is switched to indeterminate and its
        animation started. */
    method SetProgressTotal(secondsTotal: real)
      requires Valid()
      modifies this
      ensures Valid()
      ensures totalDuration == (if secondsTotal > 0.0 then secondsTotal else 0.0)
      ensures secondsTotal > 0.0 ==> determinate && animating == old(animating) && value == 0.0
      ensures secondsTotal <= 0.0 ==> !determinate && animating && value == old(value)
    {
      totalDuration := if secondsTotal >= 0.0 then secondsTotal else 0.0;
      if totalDuration > 0.0 {
        determinate := true;
        value := 0.0;
      } else {
        determinate := false;
        animating := true;
      }
    }

    /** A progress report: with a positive running time the bar shows the
        percentage done, capped at 100 (a negative time gives a negative
        percentage, as nothing bounds it from below); otherwise nothing
        changes. */
    method OnProgressSeconds(secondsDone: real)
      requires Valid()
      modifies this`value
      ensures Valid()
      ensures totalDuration > 0.0 ==> value == Percent(secondsDone, totalDuration)
      ensures totalDuration <= 0.0 ==> value == old(value)
    {
      if totalDuration > 0.0 {
        var pct := secondsDone / totalDuration * 100.0;
        value := if pct <= 100.0 then pct else 100.0;
      }
    }

    /** The end of a run: with a positive running time the bar is filled to
        100 percent, otherwise its animation is stopped. */
    method Finish()
      requires Valid()
      modifies this`value, this`animating
      ensures Valid()
      ensures totalDuration > 0.0 ==> value == 100.0 && animating == old(animating)
      ensures totalDuration <= 0.0 ==> !animating && value == old(value)
    {
      if totalDuration <= 0.0 {
        animating := false;
      } else {
        value := 100.0;
      }
    }
  }
}
