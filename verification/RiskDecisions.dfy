// What the enforcement of limits decides: when an update pauses its account, which trades are allowed,
// and which lifecycle requests take effect, stated by the limits and statuses themselves.
module RiskDecisions {
  import opened Options
  import opened RiskIsolation
  import opened Traces
  import R = RiskState

  /* ---------------------------------------------------------------- enforcement */

  // All stretches of a handler; those it does not reach change nothing.
  function Handler(n: nat, job: Job): Trace<Happening> {
    Then(Then(Then(Then(Then(Begin, Do(Submit(n, job))), Do(Install(n))), Do(Check(n))), Do(SavePause(n))), Do(Record(n)))
  }

  lemma UpdateIsMade(v: Account, n: nat, job: Job)
    requires Unused(v, n) && Locked(job) && !LockHeld(v.calls)
    ensures var made := Some(Made(job, Risk(v)));
            Alone(Alone(v, Submit(n, job)), Install(n)) == Goes(v.(manager := made, stored := made), n, Checking(job))
  {
    var t := Alone(v, Submit(n, job));
    if v.manager.None? {
      assert t.calls[n] == Loading(job, Risk(v));
      assert (v.calls[n := Loading(job, Risk(v))])[n := Checking(job)] == v.calls[n := Checking(job)];
    }
  }

  // From the check on, for an account whose risk has just been updated.
  function Enforced(v: Account, n: nat, job: Job, r: R.Risk): Account {
    if !Violated(job, r) then Ends(v, n, Returned)
    else if v.known && v.status == Some(Active)
      then Ends(v.(status := Some(Paused), violations := Logged(v.violations, Entry(job, r))), n, Returned)
    else Ends(v, n, Raised)
  }

  lemma Replaced(calls: map<nat, Call>, n: nat, c: Call, d: Call)
    requires n !in calls
    ensures calls[n := c] - {n} == calls && calls[n := c][n := d] == calls[n := d] && calls - {n} == calls
  {
  }

  // The three stretches from the check on.
  function FromCheck(v: Account, n: nat): Account {
    Alone(Alone(Alone(v, Check(n)), SavePause(n)), Record(n))
  }

  lemma NoBreachEnds(v: Account, n: nat, job: Job, r: R.Risk)
    requires Unused(v, n) && v.manager == Some(r) && (!Violated(job, r) || !v.known)
    ensures FromCheck(Goes(v, n, Checking(job)), n) == Enforced(v, n, job, r)
  {
    Replaced(v.calls, n, Checking(job), Checking(job));
  }

  lemma BreachReads(v: Account, n: nat, job: Job, r: R.Risk)
    requires Unused(v, n) && v.manager == Some(r) && Violated(job, r) && v.known
    ensures Alone(Goes(v, n, Checking(job)), Check(n)) == Goes(v, n, Pausing(Entry(job, r), v.status))
  {
    Replaced(v.calls, n, Checking(job), Pausing(Entry(job, r), v.status));
  }

  lemma BreachPauses(v: Account, n: nat, entry: Violation)
    requires Unused(v, n)
    ensures Alone(Alone(Goes(v, n, Pausing(entry, v.status)), SavePause(n)), Record(n)) ==
            if v.status == Some(Active)
            then Ends(v.(status := Some(Paused), violations := Logged(v.violations, entry)), n, Returned)
            else Ends(v, n, Raised)
  {
    Replaced(v.calls, n, Pausing(entry, v.status), Recording(entry));
    Replaced(v.calls, n, Recording(entry), Recording(entry));
    if v.status == Some(Active) {
      assert Alone(Goes(v, n, Pausing(entry, v.status)), SavePause(n)) == Goes(v.(status := Some(Paused)), n, Recording(entry));
    }
  }

  lemma CheckEnforces(v: Account, n: nat, job: Job, r: R.Risk)
    requires Unused(v, n) && v.manager == Some(r)
    ensures FromCheck(Goes(v, n, Checking(job)), n) == Enforced(v, n, job, r)
  {
    if Violated(job, r) && v.known {
      BreachReads(v, n, job, r);
      BreachPauses(v, n, Entry(job, r));
    } else {
      NoBreachEnds(v, n, job, r);
    }
  }

  lemma HandlerEnforces(v: Account, n: nat, job: Job)
    requires Unused(v, n) && Locked(job) && !LockHeld(v.calls)
    ensures var r := Made(job, Risk(v));
            RunAlone(v, Handler(n, job)) == Enforced(v.(manager := Some(r), stored := Some(r)), n, job, r)
  {
    var r := Made(job, Risk(v));
    UpdateIsMade(v, n, job);
    CheckEnforces(v.(manager := Some(r), stored := Some(r)), n, job, r);
    var h := Handler(n, job);
    assert RunAlone(v, h.past.past.past.past.past) == v;
    assert RunAlone(v, h.past.past.past.past) == Alone(v, Submit(n, job));
    assert RunAlone(v, h.past.past.past) == Alone(Alone(v, Submit(n, job)), Install(n));
    assert RunAlone(v, h.past.past) == Alone(RunAlone(v, h.past.past.past), Check(n));
    assert RunAlone(v, h.past) == Alone(RunAlone(v, h.past.past), SavePause(n));
  }

  // It raises exactly when the limit is hit on an account that is not active; returning with the limit
  // hit, it has turned active into paused and put the violation on top of the log.
  ghost predicate IsEnforced(v: Account, t: Account, n: nat, violated: bool, entry: Violation) {
    && n in t.results && (t.results[n] == Raised || t.results[n] == Returned)
    && (t.results[n] == Raised <==> violated && !(v.known && v.status == Some(Active)))
    && (violated && t.results[n] == Returned ==>
          v.status == Some(Active) && t.status == Some(Paused) && t.violations == Logged(v.violations, entry))
    && (!violated || t.results[n] == Raised ==> t.status == v.status && t.violations == v.violations)
  }

  lemma EnforcedIs(v: Account, n: nat, job: Job, r: R.Risk)
    requires Unused(v, n)
    ensures var t := Enforced(v, n, job, r);
            && t.manager == v.manager && t.stored == v.stored && t.calls == v.calls
            && IsEnforced(v, t, n, Violated(job, r), Entry(job, r))
  {
    assert v.calls - {n} == v.calls;
  }

  // An equity update that no other call of its account cuts into, whatever other accounts do meanwhile.
  lemma BreachPausesOrRaises(w: World, h: Trace<Event>, a: string, n: nat, equity: real, limit: real)
    requires Own(h, a) == Handler(n, EquityUpdate(equity, limit))
    requires Unused(View(w, a), n) && !LockHeld(CallsOf(w, a))
    ensures var v, t := View(w, a), View(Run(w, h), a);
            var risk := R.WithEquity(Risk(v), equity);
            && t.manager == t.stored == Some(risk) && t.calls == v.calls
            && IsEnforced(v, t, n, R.DrawdownViolated(risk, limit), Violation(MaxDrawdown, risk.totalDrawdownPercent, limit))
  {
    var job := EquityUpdate(equity, limit);
    var v := View(w, a);
    var risk := Some(Made(job, Risk(v)));
    AccountsDoNotInterfere(w, h, a);
    HandlerEnforces(v, n, job);
    EnforcedIs(v.(manager := risk, stored := risk), n, job, risk.value);
  }

  // A completed trade, likewise, against the daily loss limit.
  lemma LossPausesOrRaises(w: World, h: Trace<Event>, a: string, n: nat, pnl: real, limit: real)
    requires Own(h, a) == Handler(n, TradeCompleted(pnl, limit))
    requires Unused(View(w, a), n) && !LockHeld(CallsOf(w, a))
    ensures var v, t := View(w, a), View(Run(w, h), a);
            var risk := R.WithTrade(Risk(v), pnl);
            && t.manager == t.stored == Some(risk) && t.calls == v.calls
            && IsEnforced(v, t, n, R.DailyLossViolated(risk, limit), Violation(DailyLoss, risk.dailyPnlPercent, limit))
  {
    var job := TradeCompleted(pnl, limit);
    var v := View(w, a);
    var risk := Some(Made(job, Risk(v)));
    AccountsDoNotInterfere(w, h, a);
    HandlerEnforces(v, n, job);
    EnforcedIs(v.(manager := risk, stored := risk), n, job, risk.value);
  }

  // An update is never stuck before its check: its manager is there until a restart, which ends it.
  ghost predicate ChecksHaveManager(v: Account) {
    forall n :: n in v.calls && v.calls[n].Checking? ==> v.manager.Some?
  }

  lemma {:induction false} ChecksKeepManager(v: Account, h: Trace<Happening>)
    requires ChecksHaveManager(v)
    ensures ChecksHaveManager(RunAlone(v, h))
  {
    if h.Then? {
      ChecksKeepManager(v, h.past);
      if h.last.Do? { MoveKeepsManager(RunAlone(v, h.past), h.last.move); }
    }
  }

  lemma MoveKeepsManager(v: Account, move: Move)
    requires ChecksHaveManager(v)
    ensures ChecksHaveManager(Alone(v, move))
  {
  }

  // When other calls of the account do cut in, the pause still goes by what it read at the check.
  lemma PauseGoesByItsRead(v: Account, n: nat)
    requires n in v.calls && v.calls[n].Pausing?
    ensures var t := Alone(v, SavePause(n));
            && (v.calls[n].read == Some(Active) ==> t.status == Some(Paused) && t.calls[n] == Recording(v.calls[n].entry))
            && (v.calls[n].read != Some(Active) ==> t.status == v.status && t.results[n] == Raised)
  {
  }

  /* ------------------------------------------------------------- pre-trade decisions */

  // A daily-loss rule is checked against the day's loss, a drawdown rule against the drawdown; any other
  // rule is neither kept nor broken.
  predicate Keeps(r: R.Risk, c: RuleConfig) {
    || (c.rule == DailyLoss && !R.DailyLossViolated(r, c.limit))
    || (c.rule == MaxDrawdown && !R.DrawdownViolated(r, c.limit))
  }

  predicate Breaks(r: R.Risk, c: RuleConfig) {
    || (c.rule == DailyLoss && R.DailyLossViolated(r, c.limit))
    || (c.rule == MaxDrawdown && R.DrawdownViolated(r, c.limit))
  }

  // All rules before index i are kept.
  ghost predicate KeptUpTo(r: R.Risk, rules: seq<RuleConfig>, i: nat) {
    i < |rules| && forall j :: 0 <= j < i ==> Keeps(r, rules[j])
  }

  ghost predicate RefusesAt(r: R.Risk, rules: seq<RuleConfig>, i: nat) {
    KeptUpTo(r, rules, i) && Breaks(r, rules[i])
  }

  ghost predicate RaisesAt(r: R.Risk, rules: seq<RuleConfig>, i: nat) {
    KeptUpTo(r, rules, i) && rules[i].rule == UnknownRule
  }

  lemma KeptLater(r: R.Risk, rules: seq<RuleConfig>, i: nat)
    requires rules != [] && Keeps(r, rules[0])
    ensures KeptUpTo(r, rules, i + 1) <==> KeptUpTo(r, rules[1..], i)
  {
    var rest := rules[1..];
    assert forall j :: 0 < j < |rules| ==> rules[j] == rest[j - 1];
    if KeptUpTo(r, rules, i + 1) {
      assert forall j :: 0 <= j < i ==> rest[j] == rules[j + 1];
    }
  }

  // Where the first rule that is not kept stands.
  lemma {:induction false} FirstNotKept(r: R.Risk, rules: seq<RuleConfig>)
    ensures PreTrade(r, rules) == Some(true) ==> forall c :: c in rules ==> Keeps(r, c)
    ensures PreTrade(r, rules) == Some(false) ==> exists i: nat :: RefusesAt(r, rules, i)
    ensures PreTrade(r, rules) == None ==> exists i: nat :: RaisesAt(r, rules, i)
  {
    if rules != [] {
      FirstNotKept(r, rules[1..]);
      assert rules == [rules[0]] + rules[1..];
      if !Keeps(r, rules[0]) {
        assert KeptUpTo(r, rules, 0);
        assert RefusesAt(r, rules, 0) || RaisesAt(r, rules, 0);
      } else if i: nat :| RefusesAt(r, rules[1..], i) {
        KeptLater(r, rules, i);
        assert RefusesAt(r, rules, i + 1);
      } else if i: nat :| RaisesAt(r, rules[1..], i) {
        KeptLater(r, rules, i);
        assert RaisesAt(r, rules, i + 1);
      }
    }
  }

  // And what it comes to.
  lemma {:induction false} NotKeptAt(r: R.Risk, rules: seq<RuleConfig>, i: nat)
    requires KeptUpTo(r, rules, i) && !Keeps(r, rules[i])
    ensures rules[i] in rules
    ensures PreTrade(r, rules) == (if RefusesAt(r, rules, i) then Some(false) else None)
  {
    if 0 < i {
      KeptLater(r, rules, i - 1);
      NotKeptAt(r, rules[1..], i - 1);
    }
  }

  // A trade is allowed exactly when every rule is kept; it is refused exactly when a broken rule comes
  // before any unknown one, and raises exactly when an unknown rule comes before any broken one.
  lemma PreTradeDecides(r: R.Risk, rules: seq<RuleConfig>)
    ensures PreTrade(r, rules) == Some(true) <==> forall c :: c in rules ==> Keeps(r, c)
    ensures PreTrade(r, rules) == Some(false) <==> exists i: nat :: RefusesAt(r, rules, i)
    ensures PreTrade(r, rules) == None <==> exists i: nat :: RaisesAt(r, rules, i)
  {
    FirstNotKept(r, rules);
    if i: nat :| RefusesAt(r, rules, i) {
      NotKeptAt(r, rules, i);
    } else if i: nat :| RaisesAt(r, rules, i) {
      NotKeptAt(r, rules, i);
    }
  }

  // In amounts: the day's loss stays below the limit's share of the day's starting balance, the distance
  // from the peak below its share of the peak.
  predicate WithinLimit(r: R.Risk, c: RuleConfig) {
    match c.rule
    case DailyLoss =>
      r.dailyPnl >= 0.0 || if r.dailyStartingBalance > 0.0 then -r.dailyPnl * 100.0 < c.limit * r.dailyStartingBalance else 0.0 < c.limit
    case MaxDrawdown =>
      if r.peakEquity > 0.0 then (r.peakEquity - r.currentEquity) * 100.0 < c.limit * r.peakEquity else 0.0 < c.limit
    case UnknownRule => false
  }

  lemma AllowedInAmounts(r: R.Risk, rules: seq<RuleConfig>)
    requires R.Coherent(r)
    ensures PreTrade(r, rules) == Some(true) <==> forall c :: c in rules ==> WithinLimit(r, c)
  {
    PreTradeDecides(r, rules);
    forall c
      ensures Keeps(r, c) <==> WithinLimit(r, c)
    {
      R.DailyLossInAmounts(r, c.limit);
      R.DrawdownInAmounts(r, c.limit);
    }
  }

  // All stretches of a pre-trade check, into which no other call of the account cuts.
  function PreTradeCall(n: nat, rules: seq<RuleConfig>): Trace<Happening> {
    Then(Then(Begin, Do(Submit(n, CheckPreTrade(rules)))), Do(Install(n)))
  }

  lemma CheckMakesManager(v: Account, n: nat, rules: seq<RuleConfig>)
    requires Unused(v, n) && rules != []
    ensures Alone(Alone(v, Submit(n, CheckPreTrade(rules))), Install(n)) ==
            v.(manager := Some(Risk(v)), results := v.results[n := Decision(Risk(v), rules)])
  {
    var c := Loading(CheckPreTrade(rules), Risk(v));
    Replaced(v.calls, n, c, c);
  }

  lemma CheckEndsAlone(v: Account, n: nat, rules: seq<RuleConfig>)
    requires Unused(v, n)
    ensures var t := RunAlone(v, PreTradeCall(n, rules));
            && t == v.(manager := t.manager, results := v.results[n := Decision(Risk(v), rules)])
            && Risk(t) == Risk(v) && (rules != [] ==> t.manager == Some(Risk(v)))
  {
    var h := PreTradeCall(n, rules);
    var t := Alone(v, Submit(n, CheckPreTrade(rules)));
    assert RunAlone(v, h.past.past) == v;
    StepRuns(v, h.past, v, t);
    StepRuns(v, h, t, Alone(t, Install(n)));
    if rules != [] {
      CheckMakesManager(v, n, rules);
    } else {
      Replaced(v.calls, n, Checking(CheckPreTrade(rules)), Checking(CheckPreTrade(rules)));
    }
  }

  // It comes to the decision, and changes nothing but to create the account's manager.
  lemma CheckDecides(w: World, h: Trace<Event>, a: string, n: nat, rules: seq<RuleConfig>)
    requires Own(h, a) == PreTradeCall(n, rules) && Unused(View(w, a), n)
    ensures var v, t := View(w, a), View(Run(w, h), a);
            && n in t.results
            && (t.results[n] == Decided(true) <==> forall c :: c in rules ==> Keeps(Risk(v), c))
            && (t.results[n] == Decided(false) <==> exists i: nat :: RefusesAt(Risk(v), rules, i))
            && (t.results[n] == Raised <==> exists i: nat :: RaisesAt(Risk(v), rules, i))
            && Risk(t) == Risk(v) && t == v.(manager := t.manager, results := v.results[n := t.results[n]])
  {
    AccountsDoNotInterfere(w, h, a);
    CheckEndsAlone(View(w, a), n, rules);
    PreTradeDecides(Risk(View(w, a)), rules);
  }

  /* ------------------------------------------------------------ lifecycle requests */

  // What a request needs to find, and what it leaves.
  predicate Finds(q: Request, status: Option<Status>) {
    match q
    case Start => status == None || status == Some(Paused) || status == Some(Stopped)
    case Stop => true
    case Pause => status == Some(Active)
    case Resume => status == Some(Paused)
    case Acknowledge => status == Some(Errored)
  }

  function Leaves(q: Request): Status {
    match q
    case Start => Active
    case Stop => Stopped
    case Pause => Paused
    case Resume => Active
    case Acknowledge => Stopped
  }

  lemma SavesWhatItFinds(v: Account, n: nat, q: Request)
    requires Unused(v, n) && v.known
    ensures Alone(Goes(v, n, Changing(q, v.status)), Save(n)) ==
            if Finds(q, v.status) then Ends(v.(status := Some(Leaves(q))), n, Returned) else Ends(v, n, Raised)
  {
    Replaced(v.calls, n, Changing(q, v.status), Changing(q, v.status));
  }

  // A request into which no other call of its account cuts raises exactly for an unknown account or one in
  // a status that it does not start from, and else leaves the account in the status asked for.
  lemma RequestTakesEffectIff(w: World, h: Trace<Event>, a: string, n: nat, q: Request)
    requires Own(h, a) == Then(Then(Begin, Do(Read(n, q))), Do(Save(n))) && Unused(View(w, a), n)
    ensures var v, t := View(w, a), View(Run(w, h), a);
            t == if v.known && Finds(q, v.status) then v.(status := Some(Leaves(q)), results := v.results[n := Returned])
                 else v.(results := v.results[n := Raised])
  {
    var v := View(w, a);
    var once := Then(Begin, Do(Read(n, q)));
    AccountsDoNotInterfere(w, h, a);
    assert RunAlone(v, once.past) == v;
    assert RunAlone(v, once) == Alone(v, Read(n, q));
    assert v.calls - {n} == v.calls;
    if v.known { SavesWhatItFinds(v, n, q); }
  }
}
