// The parameter sweep: every combination is run, in turn or in a pool, scored and ranked.
module ParameterSweep {
  import opened Options
  import opened ParameterGrid
  import opened StableSort

  type Params = map<string, Value>

  datatype Report = Report(initialBalance: real, finalBalance: real)

  // What a call comes to: its result, or the exception it raised.
  datatype Outcome<T> = Returned(result: T) | Raised(message: string)

  datatype Status = Okay | Failed | Stopped

  datatype Score = NegativeInfinity | Finite(value: real)

  datatype Combination = Combination(params: Params, status: Status, result: Option<Report>, score: Score, error: Option<string>)

  datatype EarlyStop = EarlyStop(metric: Report -> Outcome<real>, threshold: real, greater: bool)

  // A deterministic backtest with its objective; both may raise.
  datatype Job = Job(backtest: Params -> Outcome<Report>, objective: Report -> Outcome<real>, earlyStop: Option<EarlyStop>)

  /* ------------------------------------------------------------------ one combination */

  function ShouldStop(job: Job, report: Report): Outcome<bool> {
    if job.earlyStop.None? then Returned(false)
    else
      var stop := job.earlyStop.value;
      var metric := stop.metric(report);
      if metric.Raised? then Raised(metric.message)
      else Returned(if stop.greater then metric.result > stop.threshold else metric.result < stop.threshold)
  }

  function Classify(job: Job, params: Params, report: Report): Outcome<Combination> {
    var stop := ShouldStop(job, report);
    if stop.Raised? then Raised(stop.message)
    else if stop.result then Returned(Combination(params, Stopped, Some(report), NegativeInfinity, None))
    else
      var score := job.objective(report);
      if score.Raised? then Raised(score.message)
      else Returned(Combination(params, Okay, Some(report), Finite(score.result), None))
  }

  // An exception of the backtest is recorded; one of the metric or the objective is not caught.
  function RunOne(job: Job, params: Params): Outcome<Combination> {
    var run := job.backtest(params);
    if run.Raised? then Returned(Combination(params, Failed, None, NegativeInfinity, Some(run.message)))
    else Classify(job, params, run.result)
  }

  // The report's metric has crossed the threshold of the early stop.
  ghost predicate Crosses(job: Job, report: Report) {
    && job.earlyStop.Some?
    && var stop := job.earlyStop.value;
       && stop.metric(report).Returned?
       && (stop.greater ==> stop.metric(report).result > stop.threshold)
       && (!stop.greater ==> stop.metric(report).result < stop.threshold)
  }

  // Its early stop, if there is one, measures the report.
  ghost predicate Measures(job: Job, report: Report) {
    job.earlyStop.Some? ==> job.earlyStop.value.metric(report).Returned?
  }

  // The backtest with these parameters runs, does not cross the threshold, and its objective is value.
  ghost predicate Scores(job: Job, params: Params, value: real) {
    && job.backtest(params).Returned?
    && var report := job.backtest(params).result;
       Measures(job, report) && !Crosses(job, report) && job.objective(report) == Returned(value)
  }

  // A combination fails exactly when its backtest raises, is stopped exactly when its report crosses the
  // threshold, and is okay, with its score, exactly when it scores; what it raises is the metric's or, of
  // an uncrossed report, the objective's.
  lemma OutcomeIs(job: Job, params: Params)
    ensures var one := RunOne(job, params);
            && (forall message :: job.backtest(params) == Raised(message) ==>
                  one == Returned(Combination(params, Failed, None, NegativeInfinity, Some(message))))
            && (forall report :: job.backtest(params) == Returned(report) ==>
                  && (Crosses(job, report) ==> one == Returned(Combination(params, Stopped, Some(report), NegativeInfinity, None)))
                  && (!Measures(job, report) ==> one == Raised(job.earlyStop.value.metric(report).message))
                  && (Measures(job, report) && !Crosses(job, report) ==>
                        one == if job.objective(report).Raised? then Raised(job.objective(report).message)
                               else Returned(Combination(params, Okay, Some(report), Finite(job.objective(report).result), None))))
  {
  }

  lemma OkayIffScores(job: Job, params: Params)
    ensures var one := RunOne(job, params);
            && (forall value :: Scores(job, params, value) ==>
                  one.Returned? && one.result.status.Okay? && one.result.score == Finite(value) && one.result.params == params)
            && (one.Returned? && one.result.status.Okay? ==>
                  one.result.score.Finite? && Scores(job, params, one.result.score.value) && one.result.params == params)
  {
  }

  /* ------------------------------------------------------------------- the whole sweep */

  function Sequential(job: Job, combos: seq<Params>): Outcome<seq<Combination>> {
    if combos == [] then Returned([])
    else
      var done := Sequential(job, combos[..|combos| - 1]);
      if done.Raised? then done
      else
        var one := RunOne(job, combos[|combos| - 1]);
        if one.Raised? then Raised(one.message) else Returned(done.result + [one.result])
  }

  // The pool yields every future, each of them once, in some order.
  ghost predicate CompletionOrder(order: seq<nat>, n: nat) {
    && (forall k :: 0 <= k < |order| ==> order[k] < n)
    && (forall i :: 0 <= i < n ==> i in order)
    && Distinct(order)
  }

  // The results by number after the first k futures have completed.
  function Finished(job: Job, combos: seq<Params>, order: seq<nat>, k: nat): Outcome<map<nat, Combination>>
    requires k <= |order| && forall j :: 0 <= j < |order| ==> order[j] < |combos|
  {
    if k == 0 then Returned(map[])
    else
      var done := Finished(job, combos, order, k - 1);
      if done.Raised? then done
      else
        var idx := order[k - 1];
        var one := RunOne(job, combos[idx]);
        if one.Raised? then Raised(one.message) else Returned(done.result[idx := one.result])
  }

  lemma {:induction false} FinishedAre(job: Job, combos: seq<Params>, order: seq<nat>, k: nat)
    requires k <= |order| && forall j :: 0 <= j < |order| ==> order[j] < |combos|
    ensures var done := Finished(job, combos, order, k);
            && (done.Returned? ==>
                  && (forall j :: 0 <= j < k ==> order[j] in done.result)
                  && (forall i :: i in done.result ==> i < |combos| && RunOne(job, combos[i]) == Returned(done.result[i])))
            && (done.Raised? ==>
                  exists j :: 0 <= j < k && RunOne(job, combos[order[j]]) == Raised(done.message))
  {
    if k > 0 {
      FinishedAre(job, combos, order, k - 1);
    }
  }

  function Parallel(job: Job, combos: seq<Params>, order: seq<nat>): Outcome<seq<Combination>>
    requires CompletionOrder(order, |combos|)
  {
    var done := Finished(job, combos, order, |order|);
    FinishedAre(job, combos, order, |order|);
    if done.Raised? then Raised(done.message)
    else Returned(seq(|combos|, i requires 0 <= i < |combos| => InOrder(order, i); done.result[i]))
  }

  lemma InOrder(order: seq<nat>, i: nat)
    requires i in order
    ensures exists k :: 0 <= k < |order| && order[k] == i
  {
  }

  method RunSequential(job: Job, combos: seq<Params>) returns (r: Outcome<seq<Combination>>)
    ensures r == Sequential(job, combos)
  {
    var done: seq<Combination> := [];
    var i := 0;
    while i < |combos|
      invariant i <= |combos|
      invariant Sequential(job, combos[..i]) == Returned(done)
    {
      var one := RunOne(job, combos[i]);
      assert combos[..i + 1][..i] == combos[..i];
      if one.Raised? {
        RaisedStays(job, combos, i + 1);
        return Raised(one.message);
      }
      done := done + [one.result];
      i := i + 1;
    }
    assert combos[..i] == combos;
    return Returned(done);
  }

  lemma {:induction false} RaisedStays(job: Job, combos: seq<Params>, i: nat)
    requires i <= |combos| && Sequential(job, combos[..i]).Raised?
    ensures Sequential(job, combos) == Sequential(job, combos[..i])
    decreases |combos|
  {
    if i == |combos| {
      assert combos[..i] == combos;
    } else {
      var init := combos[..|combos| - 1];
      assert init[..i] == combos[..i];
      RaisedStays(job, init, i);
    }
  }

  method RunParallel(job: Job, combos: seq<Params>, order: seq<nat>) returns (r: Outcome<seq<Combination>>)
    requires CompletionOrder(order, |combos|)
    ensures r == Parallel(job, combos, order)
  {
    var combosByParams: map<nat, Combination> := map[];
    var k := 0;
    while k < |order|
      invariant k <= |order|
      invariant Finished(job, combos, order, k) == Returned(combosByParams)
    {
      var idx := order[k];
      var one := RunOne(job, combos[idx]);
      if one.Raised? {
        FinishedRaisedStays(job, combos, order, k + 1, |order|);
        return Raised(one.message);
      }
      combosByParams := combosByParams[idx := one.result];
      k := k + 1;
    }
    FinishedAre(job, combos, order, |order|);
    var ordered: seq<Combination> := [];
    var i := 0;
    while i < |combos|
      invariant i <= |combos| && |ordered| == i
      invariant forall j :: 0 <= j < i ==> j in combosByParams && ordered[j] == combosByParams[j]
    {
      InOrder(order, i);
      ordered := ordered + [combosByParams[i]];
      i := i + 1;
    }
    assert ordered == Parallel(job, combos, order).result;
    return Returned(ordered);
  }

  lemma {:induction false} FinishedRaisedStays(job: Job, combos: seq<Params>, order: seq<nat>, k: nat, m: nat)
    requires k <= m <= |order| && forall j :: 0 <= j < |order| ==> order[j] < |combos|
    requires Finished(job, combos, order, k).Raised?
    ensures Finished(job, combos, order, m) == Finished(job, combos, order, k)
    decreases m
  {
    if k < m {
      FinishedRaisedStays(job, combos, order, k, m - 1);
    }
  }

  method Run(job: Job, combos: seq<Params>, maxWorkers: int, order: seq<nat>) returns (r: Outcome<seq<Combination>>)
    requires CompletionOrder(order, |combos|)
    ensures maxWorkers < 1 ==> r.Raised?
    ensures 1 <= maxWorkers ==>
              r == if maxWorkers == 1 || |combos| <= 1 then Sequential(job, combos) else Parallel(job, combos, order)
  {
    if maxWorkers < 1 {
      return Raised("max_workers must be >= 1");
    }
    if maxWorkers == 1 || |combos| <= 1 {
      r := RunSequential(job, combos);
    } else {
      r := RunParallel(job, combos, order);
    }
  }

  /* -------------------------------------------------------------- parallel = sequential */

  ghost predicate Raises(job: Job, combos: seq<Params>, i: nat) {
    i < |combos| && RunOne(job, combos[i]).Raised?
  }

  // The sequential run returns every combination's result in order, or raises for the first that raises.
  lemma {:induction false} SequentialIs(job: Job, combos: seq<Params>)
    ensures var r := Sequential(job, combos);
            && (r.Returned? <==> forall i: nat :: !Raises(job, combos, i))
            && (r.Returned? ==>
                  |r.result| == |combos| && forall i :: 0 <= i < |combos| ==> RunOne(job, combos[i]) == Returned(r.result[i]))
            && (r.Raised? ==>
                  exists i: nat :: Raises(job, combos, i) && RunOne(job, combos[i]).message == r.message
                                   && forall j: nat :: j < i ==> !Raises(job, combos, j))
  {
    if combos != [] {
      var n := |combos| - 1;
      var init := combos[..n];
      SequentialIs(job, init);
      assert forall i :: 0 <= i < n ==> init[i] == combos[i];
      var r := Sequential(job, combos);
      if Sequential(job, init).Raised? {
        var i: nat :| Raises(job, init, i) && RunOne(job, init[i]).message == r.message
                      && forall j: nat :: j < i ==> !Raises(job, init, j);
        assert Raises(job, combos, i);
        assert forall j: nat :: j < i ==> (Raises(job, combos, j) <==> Raises(job, init, j));
      } else if r.Raised? {
        assert Raises(job, combos, n);
        assert forall j: nat :: j < n ==> !Raises(job, combos, j);
      }
    }
  }

  lemma ParallelIs(job: Job, combos: seq<Params>, order: seq<nat>)
    requires CompletionOrder(order, |combos|)
    ensures var r := Parallel(job, combos, order);
            && (r.Returned? <==> forall i: nat :: !Raises(job, combos, i))
            && (r.Returned? ==>
                  |r.result| == |combos| && forall i :: 0 <= i < |combos| ==> RunOne(job, combos[i]) == Returned(r.result[i]))
            && (r.Raised? ==> exists i: nat :: Raises(job, combos, i) && RunOne(job, combos[i]).message == r.message)
  {
    FinishedAre(job, combos, order, |order|);
    var done := Finished(job, combos, order, |order|);
    if done.Raised? {
      var j :| 0 <= j < |order| && RunOne(job, combos[order[j]]) == Raised(done.message);
      assert Raises(job, combos, order[j]);
    } else {
      forall i | 0 <= i < |combos|
        ensures RunOne(job, combos[i]) == Returned(Parallel(job, combos, order).result[i])
      {
        InOrder(order, i);
      }
    }
  }

  // In whatever order the pool finishes, the parallel run returns exactly when the sequential run does,
  // and then the same list; when scoring raises, both raise.
  lemma ParallelIsSequential(job: Job, combos: seq<Params>, order: seq<nat>)
    requires CompletionOrder(order, |combos|)
    ensures var p, s := Parallel(job, combos, order), Sequential(job, combos);
            (p.Returned? <==> s.Returned?) && (p.Returned? ==> p == s)
  {
    SequentialIs(job, combos);
    ParallelIs(job, combos, order);
    var p, s := Parallel(job, combos, order), Sequential(job, combos);
    if p.Returned? {
      assert p.result == s.result;
    }
  }

  ghost predicate OneMessage(job: Job, combos: seq<Params>) {
    forall i: nat, j: nat :: Raises(job, combos, i) && Raises(job, combos, j) ==>
      RunOne(job, combos[i]).message == RunOne(job, combos[j]).message
  }

  function StartingWith(n: nat, i: nat): seq<nat>
    requires i < n
  {
    seq(n, k requires 0 <= k < n => if k == 0 then i else if k == i then 0 else k)
  }

  lemma StartingWithIsOrder(n: nat, i: nat)
    requires i < n
    ensures CompletionOrder(StartingWith(n, i), n) && StartingWith(n, i)[0] == i
  {
    var order := StartingWith(n, i);
    forall j | 0 <= j < n
      ensures j in order
    {
      var k := if j == i then 0 else if j == 0 then i else j;
      assert order[k] == j;
    }
  }

  // Even the exception is the same for every completion order exactly when all combinations whose
  // scoring raises raise alike: otherwise the pool reports whichever finishes first.
  lemma EveryOrderAgreesIff(job: Job, combos: seq<Params>)
    ensures (forall order :: CompletionOrder(order, |combos|) ==> Parallel(job, combos, order) == Sequential(job, combos)) <==>
              OneMessage(job, combos)
  {
    SequentialIs(job, combos);
    var s := Sequential(job, combos);
    if OneMessage(job, combos) {
      forall order | CompletionOrder(order, |combos|)
        ensures Parallel(job, combos, order) == s
      {
        ParallelIsSequential(job, combos, order);
        ParallelIs(job, combos, order);
      }
    } else {
      var i: nat, j: nat :| Raises(job, combos, i) && Raises(job, combos, j)
                            && RunOne(job, combos[i]).message != RunOne(job, combos[j]).message;
      FirstOutRaises(job, combos, i);
      FirstOutRaises(job, combos, j);
      assert s != Raised(RunOne(job, combos[i]).message) || s != Raised(RunOne(job, combos[j]).message);
      assert CompletionOrder(StartingWith(|combos|, i), |combos|);
      assert CompletionOrder(StartingWith(|combos|, j), |combos|);
    }
  }

  lemma FirstOutRaises(job: Job, combos: seq<Params>, i: nat)
    requires Raises(job, combos, i)
    ensures CompletionOrder(StartingWith(|combos|, i), |combos|)
    ensures Parallel(job, combos, StartingWith(|combos|, i)) == Raised(RunOne(job, combos[i]).message)
  {
    StartingWithIsOrder(|combos|, i);
    var order := StartingWith(|combos|, i);
    assert Finished(job, combos, order, 0) == Returned(map[]);
    assert Finished(job, combos, order, 1) == Raised(RunOne(job, combos[i]).message);
    FinishedRaisedStays(job, combos, order, 1, |order|);
  }

  /* -------------------------------------------------------------------------- ranking */

  predicate AtLeast(a: Score, b: Score) {
    b.NegativeInfinity? || (a.Finite? && a.value >= b.value)
  }

  function IsOkay(): Combination -> bool {
    (c: Combination) => c.status.Okay?
  }

  function BestFirst(): (Combination, Combination) -> bool {
    (a: Combination, b: Combination) => AtLeast(a.score, b.score)
  }

  function Ranked(combos: seq<Combination>): seq<Combination> {
    Sort(Filter(combos, IsOkay()), BestFirst())
  }

  function Best(combos: seq<Combination>): Outcome<Combination> {
    if Ranked(combos) == [] then Raised("No successful combos in sweep result") else Returned(Ranked(combos)[0])
  }

  lemma BestFirstIsTotal()
    ensures TotalPreorder(BestFirst())
  {
  }

  // The ranking holds the successful combinations, best scores first, equal scores in sweep order.
  lemma RankedIsBestFirst(combos: seq<Combination>, c: Combination)
    ensures var ranked := Ranked(combos);
            && multiset(ranked) == multiset(Filter(combos, IsOkay()))
            && (c in ranked <==> c in combos && c.status.Okay?)
            && (forall i, j :: 0 <= i < j < |ranked| ==> AtLeast(ranked[i].score, ranked[j].score))
            && Filter(ranked, Alike(c, BestFirst())) == Filter(Filter(combos, IsOkay()), Alike(c, BestFirst()))
  {
    BestFirstIsTotal();
    var okay := Filter(combos, IsOkay());
    FilterHolds(combos, IsOkay());
    SortSorts(okay, BestFirst());
    SortIsStable(okay, BestFirst(), c);
    var ranked := Ranked(combos);
    forall i, j | 0 <= i < j < |ranked|
      ensures AtLeast(ranked[i].score, ranked[j].score)
    {
      assert BestFirst()(ranked[i], ranked[j]);
    }
  }

  // best raises exactly when nothing succeeded; otherwise it is the first of the highest scores.
  lemma BestIsFirstHighest(combos: seq<Combination>)
    ensures var okay := Filter(combos, IsOkay());
            && (Best(combos).Raised? <==> forall c :: c in combos ==> !c.status.Okay?)
            && (Best(combos).Returned? ==>
                  exists k: nat :: k < |okay| && okay[k] == Best(combos).result
                    && (forall j :: 0 <= j < |okay| ==> AtLeast(okay[k].score, okay[j].score))
                    && (forall j :: 0 <= j < k ==> !AtLeast(okay[j].score, okay[k].score)))
  {
    BestFirstIsTotal();
    var okay := Filter(combos, IsOkay());
    FilterHolds(combos, IsOkay());
    if okay == [] {
      assert forall c :: c in combos && c.status.Okay? ==> c in okay;
    } else {
      var k := HeadIsFirstLeast(okay, BestFirst());
      assert okay[k] in okay;
      forall j | 0 <= j < |okay|
        ensures AtLeast(okay[k].score, okay[j].score)
        ensures j < k ==> !AtLeast(okay[j].score, okay[k].score)
      {
        assert BestFirst()(okay[k], okay[j]);
        assert j < k ==> !BestFirst()(okay[j], okay[k]);
      }
    }
  }

  /* ---------------------------------------------------------------------- end to end */

  ghost predicate Classified(job: Job, dicts: seq<Params>, combos: seq<Combination>) {
    |combos| == |dicts| && forall i :: 0 <= i < |dicts| ==> RunOne(job, dicts[i]) == Returned(combos[i])
  }

  lemma BestIsEarned(job: Job, dicts: seq<Params>, combos: seq<Combination>)
    requires Classified(job, dicts, combos) && Best(combos).Returned?
    ensures var best := Best(combos).result;
            best.params in dicts && best.score.Finite? && Scores(job, best.params, best.score.value)
  {
    RankedIsBestFirst(combos, Best(combos).result);
    assert Best(combos).result in Ranked(combos);
    var i :| 0 <= i < |combos| && combos[i] == Best(combos).result;
    OkayIffScores(job, dicts[i]);
  }

  lemma BestIsUnbeaten(job: Job, dicts: seq<Params>, combos: seq<Combination>, params: Params, value: real)
    requires Classified(job, dicts, combos) && params in dicts && Scores(job, params, value)
    ensures var best := Best(combos); best.Returned? && best.result.score.Finite? && value <= best.result.score.value
  {
    var i :| 0 <= i < |dicts| && dicts[i] == params;
    OkayIffScores(job, dicts[i]);
    RankedIsBestFirst(combos, combos[i]);
    assert combos[i] in Ranked(combos);
    var j :| 0 <= j < |Ranked(combos)| && Ranked(combos)[j] == combos[i];
    assert 0 < j ==> AtLeast(Ranked(combos)[0].score, Ranked(combos)[j].score);
  }

  // A grid sweep that returns, finished in any order, ends with a best combination that is a point of
  // the grid, has the score its backtest earns, and is beaten by no point of the grid.
  lemma GridSweepFindsTheBest(job: Job, grid: seq<Axis>, order: seq<nat>, choice: seq<Value>, value: real)
    requires IsDict(grid) && CompletionOrder(order, |ExpandGrid(grid)|)
    requires Parallel(job, ExpandGrid(grid), order).Returned?
    ensures var best := Best(Parallel(job, ExpandGrid(grid), order).result);
            && (best.Returned? ==>
                  && (exists point :: IsChoice(grid, point) && Zip(grid, point) == best.result.params)
                  && best.result.score.Finite? && Scores(job, best.result.params, best.result.score.value))
            && (IsChoice(grid, choice) && Scores(job, Zip(grid, choice), value) ==>
                  best.Returned? && best.result.score.Finite? && value <= best.result.score.value)
  {
    var dicts := ExpandGrid(grid);
    ParallelIs(job, dicts, order);
    var combos := Parallel(job, dicts, order).result;
    assert Classified(job, dicts, combos);
    ExpandGridAt(grid);
    var best := Best(combos);
    if best.Returned? {
      BestIsEarned(job, dicts, combos);
      var i :| 0 <= i < |dicts| && dicts[i] == best.result.params;
      ProductHoldsAllChoices(grid, Product(grid)[i]);
      assert Product(grid)[i] in Product(grid);
    }
    if IsChoice(grid, choice) {
      ProductHoldsAllChoices(grid, choice);
      var i :| 0 <= i < |Product(grid)| && Product(grid)[i] == choice;
      assert dicts[i] == Zip(grid, choice);
      if Scores(job, Zip(grid, choice), value) {
        BestIsUnbeaten(job, dicts, combos, dicts[i], value);
      }
    }
  }
}
