// Walk-forward folds: a loop that slides or grows a training window, and its closed form.
module WalkForward {
  import opened Arithmetic

  // Any other string is rejected.
  datatype Mode = Anchored | Rolling | Other(name: string)

  // Times and durations are microseconds.
  datatype Plan = Plan(totalStart: int, totalEnd: int, train: int, test: int, step: int, mode: Mode)

  datatype Fold = Fold(trainStart: int, trainEnd: int, testStart: int, testEnd: int)

  datatype Result<T> = Ok(value: T) | ValueError

  // The validation a fold runs when it is made.
  function NewFold(trainStart: int, trainEnd: int, testStart: int, testEnd: int): Result<Fold> {
    if trainEnd > testStart || testEnd <= testStart then ValueError
    else Ok(Fold(trainStart, trainEnd, testStart, testEnd))
  }

  /* --------------------------------------------------------------------- closed form */

  predicate Accepted(p: Plan) {
    && !p.mode.Other?
    && p.train + p.test <= p.totalEnd - p.totalStart
    && 0 < p.step
    && 0 < p.test
  }

  function Count(p: Plan): (n: nat)
    requires Accepted(p)
    ensures 1 <= n
  {
    NotNegative(p.totalEnd - p.totalStart - p.train - p.test, p.step);
    (p.totalEnd - p.totalStart - p.train - p.test) / p.step + 1
  }

  function FoldAt(p: Plan, k: nat): Fold {
    var testStart := p.totalStart + p.train + k * p.step;
    Fold(if p.mode.Rolling? then p.totalStart + k * p.step else p.totalStart, testStart, testStart, testStart + p.test)
  }

  function Folds(p: Plan): (folds: seq<Fold>)
    requires Accepted(p)
    ensures |folds| == Count(p)
  {
    seq(Count(p), k requires 0 <= k < Count(p) => FoldAt(p, k))
  }

  // A fold fits exactly when its number is below the count.
  lemma FitsIffCounted(p: Plan, k: nat)
    requires Accepted(p)
    ensures FoldAt(p, k).testEnd <= p.totalEnd <==> k < Count(p)
  {
    var x := p.totalEnd - p.totalStart - p.train - p.test;
    Quotient(x, p.step);
    Next(x / p.step, p.step);
    if k <= x / p.step {
      Grows(k, x / p.step, p.step);
    } else {
      Grows(x / p.step + 1, k, p.step);
    }
  }

  // A plan is accepted exactly when its mode is known, it moves on, and its first fold has a test window
  // that fits the range, exactly filling it included.
  lemma AcceptedIffFirstFits(p: Plan)
    ensures Accepted(p) <==>
              && (p.mode == Anchored || p.mode == Rolling) && p.step > 0
              && FoldAt(p, 0).testStart < FoldAt(p, 0).testEnd <= p.totalEnd
  {
    assert 0 * p.step == 0;
  }

  /* ------------------------------------------------------------------------ the loop */

  method Generate(p: Plan) returns (r: Result<seq<Fold>>)
    ensures r == if Accepted(p) then Ok(Folds(p)) else ValueError
  {
    if p.mode.Other? {
      return ValueError;
    }
    if p.totalEnd - p.totalStart < p.train + p.test {
      return ValueError;
    }
    if p.step <= 0 {
      return ValueError;
    }
    var folds: seq<Fold> := [];
    var trainStart := p.totalStart;
    var trainEnd := p.totalStart + p.train;
    while trainEnd + p.test <= p.totalEnd
      invariant trainEnd == FoldAt(p, |folds|).trainEnd && trainStart == FoldAt(p, |folds|).trainStart
      invariant forall k :: 0 <= k < |folds| ==> folds[k] == FoldAt(p, k)
      invariant 0 < p.test || |folds| == 0
      invariant Accepted(p) ==> |folds| <= Count(p)
      decreases p.totalEnd - p.test - trainEnd
    {
      var testStart := trainEnd;
      var testEnd := testStart + p.test;
      var fold := NewFold(trainStart, trainEnd, testStart, testEnd);
      if fold.ValueError? {
        return ValueError;
      }
      FitsIffCounted(p, |folds|);
      Next(|folds|, p.step);
      folds := folds + [fold.value];
      trainEnd := trainEnd + p.step;
      if p.mode.Rolling? {
        trainStart := trainStart + p.step;
      }
    }
    if folds == [] {
      return ValueError;
    }
    FitsIffCounted(p, |folds|);
    assert folds == Folds(p);
    return Ok(folds);
  }

  /* -------------------------------------------------------------- what the folds are */

  // Every fold ends its training where its test begins and stays inside the range, and no further
  // fold would fit; rolling training keeps its length, anchored training its start.
  lemma FoldsFillTheRange(p: Plan, k: nat)
    requires Accepted(p) && k < Count(p)
    ensures var f := Folds(p)[k];
            && f.trainEnd == f.testStart && f.testEnd == f.testStart + p.test && f.testEnd <= p.totalEnd
            && p.totalStart <= f.trainStart
            && (k == 0 ==> f.trainStart == p.totalStart && f.trainEnd == p.totalStart + p.train)
            && (p.mode.Rolling? ==> f.trainEnd - f.trainStart == p.train)
            && (p.mode.Anchored? ==> f.trainStart == p.totalStart)
            && (k + 1 < Count(p) ==> Folds(p)[k + 1].testStart == f.testStart + p.step)
            && (k + 1 == Count(p) ==> p.totalEnd - f.testEnd < p.step)
  {
    FitsIffCounted(p, k);
    FitsIffCounted(p, k + 1);
    Next(k, p.step);
    Grows(0, k, p.step);
  }

  // Every training window lies inside the range and runs forwards exactly when the training length is
  // not negative, which nothing checks.
  lemma TrainsForwardIffNotNegative(p: Plan)
    requires Accepted(p)
    ensures (forall k :: 0 <= k < Count(p) ==> Folds(p)[k].trainStart <= Folds(p)[k].trainEnd) <==> p.train >= 0
  {
    assert 0 * p.step == 0;
    assert Folds(p)[0] == FoldAt(p, 0);
    forall k | 0 <= k < Count(p)
      ensures 0 <= k * p.step
    {
      Grows(0, k, p.step);
    }
  }

  ghost predicate TestsDisjoint(folds: seq<Fold>) {
    forall i, j :: 0 <= i < j < |folds| ==> folds[i].testEnd <= folds[j].testStart
  }

  predicate Tests(f: Fold, t: int) {
    f.testStart <= t < f.testEnd
  }

  ghost predicate InSpan(folds: seq<Fold>, t: int)
    requires folds != []
  {
    folds[0].testStart <= t < folds[|folds| - 1].testEnd
  }

  // Every moment from the first test's start to the last test's end is tested by some fold.
  ghost predicate TestsCover(folds: seq<Fold>)
    requires folds != []
  {
    forall t :: InSpan(folds, t) ==> exists k :: 0 <= k < |folds| && Tests(folds[k], t)
  }

  // Test windows never overlap exactly when the step is at least the test window (or there is one
  // fold), not for every accepted plan as the documentation says.
  lemma DisjointIffStepCoversTest(p: Plan)
    requires Accepted(p)
    ensures TestsDisjoint(Folds(p)) <==> p.step >= p.test || Count(p) == 1
  {
    var folds := Folds(p);
    if p.step >= p.test {
      forall i, j | 0 <= i < j < |folds|
        ensures folds[i].testEnd <= folds[j].testStart
      {
        Next(i, p.step);
        Grows(i + 1, j, p.step);
      }
    } else if Count(p) > 1 {
      assert folds[0] == FoldAt(p, 0) && folds[1] == FoldAt(p, 1);
      assert 0 * p.step == 0 && 1 * p.step == p.step;
    }
  }

  lemma CoverIffTestCoversStep(p: Plan)
    requires Accepted(p)
    ensures TestsCover(Folds(p)) <==> p.step <= p.test || Count(p) == 1
  {
    var folds := Folds(p);
    var n := |folds|;
    var first := p.totalStart + p.train;
    assert 0 * p.step == 0;
    assert folds[0] == FoldAt(p, 0);
    if p.step <= p.test || n == 1 {
      forall t | InSpan(folds, t)
        ensures exists k :: 0 <= k < n && Tests(folds[k], t)
      {
        var k := Covering(p, t);
        assert Tests(folds[k], t);
      }
    } else {
      var t := first + p.test;
      forall k | 0 <= k < n
        ensures !Tests(folds[k], t)
      {
        if k > 0 {
          Grows(1, k, p.step);
        }
      }
      Grows(1, n - 1, p.step);
      assert InSpan(folds, t);
    }
  }

  lemma Covering(p: Plan, t: int) returns (k: nat)
    requires Accepted(p) && (p.step <= p.test || Count(p) == 1)
    requires p.totalStart + p.train <= t < FoldAt(p, Count(p) - 1).testEnd
    ensures k < Count(p) && Tests(FoldAt(p, k), t)
  {
    var x := t - p.totalStart - p.train;
    NotNegative(x, p.step);
    Quotient(x, p.step);
    k := if x / p.step < Count(p) then x / p.step else Count(p) - 1;
    if Count(p) <= x / p.step {
      Grows(Count(p) - 1, x / p.step, p.step);
    }
    if Count(p) == 1 {
      assert 0 * p.step == 0;
    }
  }

  // The test windows tile their span exactly when the step equals the test window.
  lemma TileIffStepIsTest(p: Plan)
    requires Accepted(p)
    ensures TestsDisjoint(Folds(p)) && TestsCover(Folds(p)) <==> p.step == p.test || Count(p) == 1
  {
    DisjointIffStepCoversTest(p);
    CoverIffTestCoversStep(p);
  }
}
