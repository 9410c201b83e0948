/** The audio tempo chain: ffmpeg's atempo filter accepts factors between 0.5
    and 2.0 only, so a speed factor is split into fixed steps of 0.5 (while it
    is below 0.5) or 2.0 (while it is above 2.0), followed by the remaining
    factor unless that lies within one millionth of 1. Speeds are exact reals
    here. */
module Atempo {
  /** The tolerance under which a remaining factor counts as 1. */
  const Tolerance: real := 0.000001

  function Abs(x: real): real { if x < 0.0 then -x else x }

  function Product(xs: seq<real>): real {
    if xs == [] then 1.0 else xs[0] * Product(xs[1..])
  }

  lemma {:induction false} ProductAppend(xs: seq<real>, ys: seq<real>)
    ensures Product(xs + ys) == Product(xs) * Product(ys)
    decreases |xs|
  {
    if xs == [] {
      assert xs + ys == ys;
    } else {
      assert (xs + ys)[1..] == xs[1..] + ys;
      ProductAppend(xs[1..], ys);
      MulAssoc(xs[0], Product(xs[1..]), Product(ys));
    }
  }

  lemma MulAssoc(a: real, b: real, c: real)
    ensures a * (b * c) == (a * b) * c
  {
  }

  /** Halving a number above 1 lowers its integer part. */
  lemma HalfFloorDecreases(x: real)
    requires x > 1.0
    ensures (x / 2.0).Floor < x.Floor
  {
  }

  /** The measure of the doubling loop: how often 0.5 / f can still be
      halved. */
  function DoublingMeasure(f: real): int
    requires f > 0.0
  {
    (0.5 / f).Floor
  }

  lemma DoublingDecreases(f: real)
    requires 0.0 < f < 0.5
    ensures 0 <= DoublingMeasure(f / 0.5) < DoublingMeasure(f)
  {
    var x := 0.5 / f;
    assert x * f == 0.5;
    assert x > 1.0;
    var y := 0.5 / (f / 0.5);
    assert y * (f / 0.5) == 0.5;
    assert y == x / 2.0;
    HalfFloorDecreases(x);
  }

  /** The doubling loop: 0.5 steps while the factor is below 0.5, and the
      factor it leaves. */
  function Raise(f: real): (r: (seq<real>, real))
    requires f > 0.0
    ensures r.1 >= 0.5
    ensures forall k :: 0 <= k < |r.0| ==> r.0[k] == 0.5
    ensures f >= 0.5 ==> r == ([], f)
    ensures f < 0.5 ==> r.1 < 1.0
    decreases DoublingMeasure(f)
  {
    if f < 0.5 then
      DoublingDecreases(f);
      var t := Raise(f / 0.5);
      ([0.5] + t.0, t.1)
    else ([], f)
  }

  /** The halving loop: 2.0 steps while the factor is above 2.0, and the
      factor it leaves. */
  function Reduce(f: real): (r: (seq<real>, real))
    requires f >= 0.5
    ensures 0.5 <= r.1 <= 2.0
    ensures forall k :: 0 <= k < |r.0| ==> r.0[k] == 2.0
    ensures f <= 2.0 ==> r == ([], f)
    decreases f.Floor
  {
    if f > 2.0 then
      HalfFloorDecreases(f);
      var t := Reduce(f / 2.0);
      ([2.0] + t.0, t.1)
    else ([], f)
  }

  /** The doubling steps times the factor they leave give the factor back. */
  lemma {:induction false} RaiseProduct(f: real)
    requires f > 0.0
    ensures Product(Raise(f).0) * Raise(f).1 == f
    decreases DoublingMeasure(f)
  {
    if f < 0.5 {
      DoublingDecreases(f);
      var t := Raise(f / 0.5);
      assert Raise(f) == ([0.5] + t.0, t.1);
      RaiseProduct(f / 0.5);
      assert Product([0.5] + t.0) == 0.5 * Product(t.0);
      MulAssoc(0.5, Product(t.0), t.1);
    }
  }

  /** The halving steps times the factor they leave give the factor back. */
  lemma {:induction false} ReduceProduct(f: real)
    requires f >= 0.5
    ensures Product(Reduce(f).0) * Reduce(f).1 == f
    decreases f.Floor
  {
    if f > 2.0 {
      HalfFloorDecreases(f);
      var t := Reduce(f / 2.0);
      assert Reduce(f) == ([2.0] + t.0, t.1);
      ReduceProduct(f / 2.0);
      assert Product([2.0] + t.0) == 2.0 * Product(t.0);
      MulAssoc(2.0, Product(t.0), t.1);
    }
  }

  /** The fixed steps of both loops, and the factor that remains after them. */
  function FixedSteps(factor: real): (seq<real>, real)
    requires factor > 0.0
  {
    var up := Raise(factor);
    var down := Reduce(up.1);
    (up.0 + down.0, down.1)
  }

  /** The steps for a speed factor; none for a factor that is not positive. */
  function AtempoChain(factor: real): seq<real> {
    if factor <= 0.0 then []
    else
      WithRemainder(FixedSteps(factor).0, FixedSteps(factor).1)
  }

  /** Every step lies in [0.5, 2.0], the range the filter accepts. */
  lemma AtempoStepsInRange(factor: real)
    ensures forall k :: 0 <= k < |AtempoChain(factor)| ==> 0.5 <= AtempoChain(factor)[k] <= 2.0
  {
    if factor > 0.0 {
      var up := Raise(factor);
      var down := Reduce(up.1);
      assert forall k :: 0 <= k < |up.0 + down.0| ==> (up.0 + down.0)[k] == 0.5 || (up.0 + down.0)[k] == 2.0;
    }
  }

  /** The fixed steps are either all 0.5 or all 2.0, never a mix: doubling
      leaves a factor below 1, which the halving loop does not touch. */
  lemma FixedStepsUniform(factor: real)
    requires factor > 0.0
    ensures var fixed := FixedSteps(factor).0;
            (forall k :: 0 <= k < |fixed| ==> fixed[k] == 0.5) || (forall k :: 0 <= k < |fixed| ==> fixed[k] == 2.0)
  {
    var up := Raise(factor);
    if up.0 != [] {
      assert factor < 0.5;
      assert up.1 < 1.0;
      assert Reduce(up.1).0 == [];
      assert up.0 + [] == up.0;
    } else {
      assert [] + Reduce(up.1).0 == Reduce(up.1).0;
    }
  }

  /** The fixed steps times the remaining factor give the factor back. */
  lemma FixedStepsProduct(factor: real)
    requires factor > 0.0
    ensures Product(FixedSteps(factor).0) * FixedSteps(factor).1 == factor
    ensures 0.5 <= FixedSteps(factor).1 <= 2.0
  {
    var up := Raise(factor);
    var down := Reduce(up.1);
    RaiseProduct(factor);
    ReduceProduct(up.1);
    ProductAppend(up.0, down.0);
    MulAssoc(Product(up.0), Product(down.0), down.1);
  }

  /** Appending the remainder unless it is within the tolerance of 1. */
  function WithRemainder(fixed: seq<real>, rest: real): seq<real> {
    fixed + (if Abs(rest - 1.0) > Tolerance then [rest] else [])
  }

  lemma WithRemainderProduct(fixed: seq<real>, rest: real)
    ensures Abs(rest - 1.0) > Tolerance ==> Product(WithRemainder(fixed, rest)) == Product(fixed) * rest
    ensures Abs(rest - 1.0) <= Tolerance ==> Product(WithRemainder(fixed, rest)) == Product(fixed)
  {
    if Abs(rest - 1.0) > Tolerance {
      ProductAppend(fixed, [rest]);
      assert Product([rest]) == rest * Product([]);
    } else {
      assert fixed + [] == fixed;
    }
  }

  /** The steps multiply to the factor, except that a remaining factor within
      the tolerance of 1 is dropped: the steps are then the fixed steps alone,
      which times that remainder give the factor (FixedStepsProduct). */
  lemma AtempoProduct(factor: real)
    requires factor > 0.0
    ensures Abs(FixedSteps(factor).1 - 1.0) > Tolerance ==> Product(AtempoChain(factor)) == factor
    ensures Abs(FixedSteps(factor).1 - 1.0) <= Tolerance ==> AtempoChain(factor) == FixedSteps(factor).0
  {
    var fixed := FixedSteps(factor).0;
    var rest := FixedSteps(factor).1;
    FixedStepsProduct(factor);
    if Abs(rest - 1.0) > Tolerance {
      WithRemainderProduct(fixed, rest);
    } else {
      assert fixed + [] == fixed;
    }
  }

  /** A factor that is not positive gets no steps. */
  lemma AtempoNonPositive(factor: real)
    requires factor <= 0.0
    ensures AtempoChain(factor) == []
  {
  }

  /** The two loops of the chain builder, proved to produce the chain above. */
  method BuildAtempoChain(factor: real) returns (steps: seq<real>)
    ensures steps == AtempoChain(factor)
  {
    steps := [];
    if factor <= 0.0 {
      return;
    }
    var f := factor;
    while f < 0.5
      invariant f > 0.0
      invariant steps + Raise(f).0 == Raise(factor).0 && Raise(f).1 == Raise(factor).1
      decreases DoublingMeasure(f)
    {
      DoublingDecreases(f);
      assert Raise(f).0 == [0.5] + Raise(f / 0.5).0;
      steps := steps + [0.5];
      f := f / 0.5;
    }
    assert Raise(f) == ([], f);
    assert steps + [] == steps;
    while f > 2.0
      invariant f >= 0.5
      invariant steps + Reduce(f).0 == FixedSteps(factor).0 && Reduce(f).1 == FixedSteps(factor).1
      decreases f.Floor
    {
      HalfFloorDecreases(f);
      assert Reduce(f).0 == [2.0] + Reduce(f / 2.0).0;
      steps := steps + [2.0];
      f := f / 2.0;
    }
    assert Reduce(f) == ([], f);
    assert steps + [] == steps;
    if Abs(f - 1.0) > Tolerance {
      steps := steps + [f];
    } else {
      assert steps + [] == steps;
    }
  }
}
