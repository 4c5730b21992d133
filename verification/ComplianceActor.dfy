// The backtest's prop-firm compliance tracker: on every bar it updates the equity curve, the peak and
// the day's P&L, feeds them to the rule engine and records each breach once per trading day.
module ComplianceActor {
  import opened Options
  import opened Traces
  import R = RiskState
  import Clock = SessionClock

  datatype Action = Allow | Warn | Block

  datatype RuleResult = RuleResult(rule: string, action: Action, current: real, threshold: real)

  datatype Breach = Breach(ts: int, rule: string, current: real, threshold: real)

  // A completed trading day and its P&L.
  datatype Day = Day(date: int, pnl: real)

  // What the rule engine is given on a bar.
  datatype Context = Context(
    ts: int, equity: real, initialBalance: real, peakBalance: real,
    dailyPnl: real, dailyPnlPercent: real, totalDrawdownPercent: real,
    completedDays: map<int, real>)

  // The rule engine is any function from context to results, in rule order.
  datatype Config = Config(initialBalance: real, zone: Clock.Zone, rules: Context -> seq<RuleResult>) {
    predicate Valid() { |zone.off| == |zone.at| + 1 }
  }

  datatype Actor = Actor(
    breaches: seq<Breach>, dedup: set<(int, string)>,
    curve: seq<(int, real)>, peakBalance: real,
    currentDay: Option<int>, dayOpenBalance: real, lastDailyPnl: real,
    completedDays: map<int, real>, registered: seq<Day>)

  // A bar with the equity read at it, or no equity while the provider warms up.
  datatype Event = OnBar(ts: int, equity: Option<real>) | OnStop

  function UtcDate(ts: int): int {
    ts / 86_400_000_000
  }

  // The local date names the trading session.
  function SessionId(c: Config, ts: int): int
    requires c.Valid()
  {
    c.zone.Wall(ts) / 86_400_000_000
  }

  // No midnight lies between the two readings.
  ghost predicate SameDay(x: int, y: int) {
    exists midnight :: IsDayOf(midnight, x) && IsDayOf(midnight, y)
  }

  predicate IsDayOf(midnight: int, x: int) {
    midnight % 86_400_000_000 == 0 && midnight <= x < midnight + 86_400_000_000
  }

  lemma DateIsDay(x: int, y: int)
    ensures IsDayOf(x / 86_400_000_000 * 86_400_000_000, x)
    ensures SameDay(x, y) <==> x / 86_400_000_000 == y / 86_400_000_000
  {
    var m := x / 86_400_000_000 * 86_400_000_000;
    assert IsDayOf(m, x);
    if x / 86_400_000_000 == y / 86_400_000_000 {
      assert IsDayOf(m, y);
    }
  }

  // Two moments have the same UTC date exactly when no midnight of UTC lies between them, and the date
  // numbers the days since the epoch.
  lemma DatesAreUtcDays(t: int, u: int)
    ensures UtcDate(t) == UtcDate(u) <==> SameDay(t, u)
    ensures IsDayOf(UtcDate(t) * 86_400_000_000, t)
  {
    DateIsDay(t, u);
  }

  // They are in the same session exactly when no local midnight lies between what the zone's clock shows.
  lemma SessionsAreLocalDays(c: Config, t: int, u: int)
    requires c.Valid()
    ensures SessionId(c, t) == SessionId(c, u) <==> SameDay(c.zone.Wall(t), c.zone.Wall(u))
    ensures IsDayOf(SessionId(c, t) * 86_400_000_000, c.zone.Wall(t))
  {
    DateIsDay(c.zone.Wall(t), c.zone.Wall(u));
  }

  /* ------------------------------------------------------------------ one bar */

  function BuildContext(c: Config, ts: int, equity: real, peak: real, dailyPnl: real, days: map<int, real>): Context {
    Context(ts, equity, c.initialBalance, peak, dailyPnl,
            if c.initialBalance > 0.0 then dailyPnl / c.initialBalance * 100.0 else 0.0,
            if peak > 0.0 && equity < peak then (peak - equity) / peak * 100.0 else 0.0,
            days)
  }

  // The blocking results, in rule order.
  function Blocked(ts: int, results: seq<RuleResult>): seq<Breach> {
    if results == [] then []
    else
      var last := results[|results| - 1];
      Blocked(ts, results[..|results| - 1]) +
      (if last.action == Block then [Breach(ts, last.rule, last.current, last.threshold)] else [])
  }

  function Registered(a: Actor): Actor
    requires a.currentDay.Some?
  {
    a.(completedDays := a.completedDays[a.currentDay.value := a.lastDailyPnl],
       registered := a.registered + [Day(a.currentDay.value, a.lastDailyPnl)])
  }

  // The day bookkeeping of a bar.
  function Rolled(a: Actor, ts: int, equity: real): Actor {
    var date := UtcDate(ts);
    var noted := a.(curve := a.curve + [(ts, equity)],
                    peakBalance := if equity > a.peakBalance then equity else a.peakBalance);
    var entered :=
      if noted.currentDay.None? then noted.(currentDay := Some(date), dayOpenBalance := equity)
      else if date != noted.currentDay.value
        then Registered(noted).(currentDay := Some(date), dayOpenBalance := equity)
      else noted;
    entered.(lastDailyPnl := equity - entered.dayOpenBalance)
  }

  function ContextAt(c: Config, a: Actor, ts: int, equity: real): Context {
    BuildContext(c, ts, equity, a.peakBalance, a.lastDailyPnl, a.completedDays)
  }

  // Append the events whose key is new.
  function Recorded(a: Actor, session: int, events: seq<Breach>): Actor {
    if events == [] then a
    else
      var before := Recorded(a, session, events[..|events| - 1]);
      var e := events[|events| - 1];
      if (session, e.rule) in before.dedup then before
      else before.(dedup := before.dedup + {(session, e.rule)}, breaches := before.breaches + [e])
  }

  function Initial(c: Config): Actor {
    Actor([], {}, [], c.initialBalance, None, c.initialBalance, 0.0, map[], [])
  }

  function Apply(c: Config, a: Actor, e: Event): Actor
    requires c.Valid()
  {
    match e
    case OnBar(_, None) => a
    case OnBar(ts, Some(equity)) =>
      var rolled := Rolled(a, ts, equity);
      Recorded(rolled, SessionId(c, ts), Blocked(ts, c.rules(ContextAt(c, rolled, ts, equity))))
    case OnStop =>
      if a.currentDay.None? then a else Registered(a).(currentDay := None, lastDailyPnl := 0.0)
  }

  function Run(c: Config, h: Trace<Event>): Actor
    requires c.Valid()
  {
    match h
    case Begin => Initial(c)
    case Then(past, e) => Apply(c, Run(c, past), e)
  }

  predicate NoStop(h: Trace<Event>) {
    h.Then? ==> NoStop(h.past) && h.last.OnBar?
  }

  /* ------------------------------------------- the equity samples and their days */

  datatype Sample = Sample(date: int, equity: real)

  function Samples(h: Trace<Event>): seq<Sample> {
    match h
    case Begin => []
    case Then(past, OnBar(ts, Some(equity))) => Samples(past) + [Sample(UtcDate(ts), equity)]
    case Then(past, _) => Samples(past)
  }

  // The first bar of the maximal run of equal dates that bar i is in.
  function RunStart(xs: seq<Sample>, i: nat): (j: nat)
    requires i < |xs|
    ensures j <= i
  {
    if i == 0 || xs[i - 1].date != xs[i].date then i else RunStart(xs, i - 1)
  }

  predicate EndsRun(xs: seq<Sample>, i: nat)
    requires i < |xs|
  {
    i + 1 == |xs| || xs[i + 1].date != xs[i].date
  }

  // The date of a run with its last equity less its first.
  function DayEnding(xs: seq<Sample>, i: nat): Day
    requires i < |xs|
  {
    Day(xs[i].date, xs[i].equity - xs[RunStart(xs, i)].equity)
  }

  // One day for every maximal run that ends among the first n bars, in order.
  function DaysAmong(xs: seq<Sample>, n: nat): seq<Day>
    requires n <= |xs|
  {
    if n == 0 then []
    else DaysAmong(xs, n - 1) + (if EndsRun(xs, n - 1) then [DayEnding(xs, n - 1)] else [])
  }

  function Days(xs: seq<Sample>): seq<Day> {
    DaysAmong(xs, |xs|)
  }

  lemma {:induction false} RunIsMaximal(xs: seq<Sample>, i: nat)
    requires i < |xs|
    ensures forall j :: RunStart(xs, i) <= j <= i ==> xs[j].date == xs[i].date
    ensures 0 < RunStart(xs, i) ==> xs[RunStart(xs, i) - 1].date != xs[i].date
  {
    if 0 < i && xs[i - 1].date == xs[i].date { RunIsMaximal(xs, i - 1); }
  }

  lemma {:induction false} RunStartOfPrefix(xs: seq<Sample>, x: Sample, i: nat)
    requires i < |xs|
    ensures RunStart(xs + [x], i) == RunStart(xs, i)
  {
    if 0 < i { RunStartOfPrefix(xs, x, i - 1); }
  }

  // Runs that ended before the last bar are not affected by another bar.
  lemma {:induction false} DaysOfPrefix(xs: seq<Sample>, x: Sample, n: nat)
    requires n < |xs|
    ensures DaysAmong(xs + [x], n) == DaysAmong(xs, n)
  {
    if n != 0 {
      DaysOfPrefix(xs, x, n - 1);
      RunStartOfPrefix(xs, x, n - 1);
    }
  }

  lemma {:induction false} RecordedKeepsDays(a: Actor, session: int, events: seq<Breach>)
    ensures var r := Recorded(a, session, events); r == a.(breaches := r.breaches, dedup := r.dedup)
  {
    if events != [] { RecordedKeepsDays(a, session, events[..|events| - 1]); }
  }

  // Before a stop, the last day is still open and all others are registered.
  ghost predicate DaysUpTo(a: Actor, xs: seq<Sample>) {
    if xs == [] then a.currentDay == None && a.registered == []
    else
      var n := |xs| - 1;
      && a.currentDay == Some(xs[n].date)
      && a.dayOpenBalance == xs[RunStart(xs, n)].equity
      && a.lastDailyPnl == xs[n].equity - a.dayOpenBalance
      && a.registered == DaysAmong(xs, n)
  }

  lemma {:induction false} RolledKeepsDays(a: Actor, xs: seq<Sample>, ts: int, equity: real)
    requires DaysUpTo(a, xs)
    ensures DaysUpTo(Rolled(a, ts, equity), xs + [Sample(UtcDate(ts), equity)])
  {
    var x := Sample(UtcDate(ts), equity);
    var all, n := xs + [x], |xs|;
    if 0 < n {
      assert all[n - 1] == xs[n - 1] && all[n] == x;
      DaysOfPrefix(xs, x, n - 1);
      RunStartOfPrefix(xs, x, n - 1);
      assert DaysAmong(all, n) == DaysAmong(all, n - 1) + (if EndsRun(all, n - 1) then [DayEnding(all, n - 1)] else []);
    }
  }

  lemma {:induction false} RunKeepsDays(c: Config, h: Trace<Event>)
    requires c.Valid() && NoStop(h)
    ensures DaysUpTo(Run(c, h), Samples(h))
  {
    if h.Then? {
      RunKeepsDays(c, h.past);
      match h.last
      case OnBar(ts, Some(equity)) =>
        var rolled := Rolled(Run(c, h.past), ts, equity);
        RolledKeepsDays(Run(c, h.past), Samples(h.past), ts, equity);
        RecordedKeepsDays(rolled, SessionId(c, ts), Blocked(ts, c.rules(ContextAt(c, rolled, ts, equity))));
      case _ =>
    }
  }

  // After on_stop, the registered days are exactly one per maximal run of equal-date bars, in order,
  // each with the last equity of the run less its first; the final day is not dropped.
  lemma {:induction false} StopRegistersEveryDay(c: Config, h: Trace<Event>)
    requires c.Valid() && NoStop(h)
    ensures Run(c, Then(h, OnStop)).registered == Days(Samples(h))
    ensures Run(c, Then(h, OnStop)).currentDay == None
  {
    RunKeepsDays(c, h);
  }

  /* ---------------------------------------------------------- history, peak, metrics */

  // The last P&L registered for each date.
  function ByDate(days: seq<Day>): map<int, real> {
    if days == [] then map[]
    else ByDate(days[..|days| - 1])[days[|days| - 1].date := days[|days| - 1].pnl]
  }

  lemma {:induction false} CompletedDaysAreRegistered(c: Config, h: Trace<Event>)
    requires c.Valid()
    ensures Run(c, h).completedDays == ByDate(Run(c, h).registered)
  {
    if h.Then? {
      CompletedDaysAreRegistered(c, h.past);
      var a := Run(c, h.past);
      match h.last
      case OnBar(ts, Some(equity)) =>
        var rolled := Rolled(a, ts, equity);
        RecordedKeepsDays(rolled, SessionId(c, ts), Blocked(ts, c.rules(ContextAt(c, rolled, ts, equity))));
        if a.currentDay.Some? { assert Registered(a).registered[..|a.registered|] == a.registered; }
      case OnStop =>
        if a.currentDay.Some? { assert Registered(a).registered[..|a.registered|] == a.registered; }
      case _ =>
    }
  }

  function MaxEquity(start: real, xs: seq<Sample>): real {
    if xs == [] then start
    else
      var m, e := MaxEquity(start, xs[..|xs| - 1]), xs[|xs| - 1].equity;
      if e > m then e else m
  }

  lemma {:induction false} MaxEquityIsMaximum(start: real, xs: seq<Sample>)
    ensures start <= MaxEquity(start, xs) && forall i :: 0 <= i < |xs| ==> xs[i].equity <= MaxEquity(start, xs)
    ensures MaxEquity(start, xs) == start || exists i :: 0 <= i < |xs| && xs[i].equity == MaxEquity(start, xs)
  {
    if xs != [] {
      var n := |xs| - 1;
      MaxEquityIsMaximum(start, xs[..n]);
      assert forall i :: 0 <= i < n ==> xs[..n][i] == xs[i];
    }
  }

  lemma MaxEquityPush(start: real, xs: seq<Sample>, x: Sample)
    ensures MaxEquity(start, xs + [x]) == if x.equity > MaxEquity(start, xs) then x.equity else MaxEquity(start, xs)
  {
    assert (xs + [x])[..|xs|] == xs;
  }

  lemma {:induction false} PeakIsMaxEquity(c: Config, h: Trace<Event>)
    requires c.Valid()
    ensures Run(c, h).peakBalance == MaxEquity(c.initialBalance, Samples(h))
  {
    if h.Then? {
      PeakIsMaxEquity(c, h.past);
      match h.last
      case OnBar(ts, Some(equity)) =>
        var rolled := Rolled(Run(c, h.past), ts, equity);
        RecordedKeepsDays(rolled, SessionId(c, ts), Blocked(ts, c.rules(ContextAt(c, rolled, ts, equity))));
        MaxEquityPush(c.initialBalance, Samples(h.past), Sample(UtcDate(ts), equity));
      case _ =>
    }
  }

  // Everything the rules see on a bar, recomputed from the equity samples so far: the peak is their
  // maximum, the day's P&L counts from the first bar of the date, the days before it are complete,
  // and the drawdown is the one the live risk state would store.
  lemma {:induction false} ContextIsRecomputed(c: Config, h: Trace<Event>, ts: int, equity: real)
    requires c.Valid() && NoStop(h)
    ensures var xs := Samples(h) + [Sample(UtcDate(ts), equity)];
            var ctx := ContextAt(c, Rolled(Run(c, h), ts, equity), ts, equity);
            && ctx.ts == ts && ctx.equity == equity && ctx.initialBalance == c.initialBalance
            && ctx.peakBalance == MaxEquity(c.initialBalance, xs)
            && ctx.dailyPnl == equity - xs[RunStart(xs, |xs| - 1)].equity
            && ctx.totalDrawdownPercent == R.DrawdownFromPeak(ctx.peakBalance, equity)
            && ctx.completedDays == ByDate(DaysAmong(xs, |xs| - 1))
  {
    RolledPeak(c, h, ts, equity);
    RolledDays(c, h, ts, equity);
  }

  // The day's percentage is its P&L as a share of the initial balance, if there is one.
  lemma PercentIsShareOfInitial(c: Config, a: Actor, ts: int, equity: real)
    ensures var ctx := ContextAt(c, a, ts, equity);
            if c.initialBalance > 0.0 then ctx.dailyPnlPercent * c.initialBalance == ctx.dailyPnl * 100.0
            else ctx.dailyPnlPercent == 0.0
  {
    if c.initialBalance > 0.0 {
      var pnl, balance := a.lastDailyPnl, c.initialBalance;
      assert pnl / balance * balance == pnl;
    }
  }

  // The equity of every bar that had one, in order.
  function Readings(h: Trace<Event>): seq<(int, real)> {
    match h
    case Begin => []
    case Then(past, OnBar(ts, Some(equity))) => Readings(past) + [(ts, equity)]
    case Then(past, _) => Readings(past)
  }

  lemma {:induction false} CurveIsReadings(c: Config, h: Trace<Event>)
    requires c.Valid()
    ensures Run(c, h).curve == Readings(h)
  {
    if h.Then? {
      CurveIsReadings(c, h.past);
      match h.last
      case OnBar(ts, Some(equity)) =>
        var rolled := Rolled(Run(c, h.past), ts, equity);
        RecordedKeepsDays(rolled, SessionId(c, ts), Blocked(ts, c.rules(ContextAt(c, rolled, ts, equity))));
      case _ =>
    }
  }

  lemma {:induction false} RolledPeak(c: Config, h: Trace<Event>, ts: int, equity: real)
    requires c.Valid()
    ensures var peak := Rolled(Run(c, h), ts, equity).peakBalance;
            equity <= peak == MaxEquity(c.initialBalance, Samples(h) + [Sample(UtcDate(ts), equity)])
  {
    PeakIsMaxEquity(c, h);
    MaxEquityPush(c.initialBalance, Samples(h), Sample(UtcDate(ts), equity));
  }

  lemma {:induction false} RolledDays(c: Config, h: Trace<Event>, ts: int, equity: real)
    requires c.Valid() && NoStop(h)
    ensures var xs, rolled := Samples(h) + [Sample(UtcDate(ts), equity)], Rolled(Run(c, h), ts, equity);
            && rolled.lastDailyPnl == equity - xs[RunStart(xs, |xs| - 1)].equity
            && rolled.completedDays == ByDate(DaysAmong(xs, |xs| - 1))
  {
    RunKeepsDays(c, h);
    RolledKeepsDays(Run(c, h), Samples(h), ts, equity);
    RolledDaysAreComplete(c, h, ts, equity);
  }

  lemma {:induction false} RolledDaysAreComplete(c: Config, h: Trace<Event>, ts: int, equity: real)
    requires c.Valid()
    ensures var rolled := Rolled(Run(c, h), ts, equity); rolled.completedDays == ByDate(rolled.registered)
  {
    var a := Run(c, h);
    CompletedDaysAreRegistered(c, h);
    if a.currentDay.Some? { assert Registered(a).registered[..|a.registered|] == a.registered; }
  }

  /* ------------------------------------------------ UTC days and trading sessions */

  // Bars with these times and equities, the first n of them.
  function Feed(times: seq<int>, equities: seq<real>, n: nat): Trace<Event>
    requires n <= |times| == |equities|
  {
    if n == 0 then Begin else Then(Feed(times, equities, n - 1), OnBar(times[n - 1], Some(equities[n - 1])))
  }

  function Dated(dates: seq<int>, equities: seq<real>): seq<Sample>
    requires |dates| == |equities|
  {
    seq(|dates|, i requires 0 <= i < |dates| => Sample(dates[i], equities[i]))
  }

  function UtcDates(times: seq<int>): seq<int> {
    seq(|times|, i requires 0 <= i < |times| => UtcDate(times[i]))
  }

  function SessionIds(c: Config, times: seq<int>): seq<int>
    requires c.Valid()
  {
    seq(|times|, i requires 0 <= i < |times| => SessionId(c, times[i]))
  }

  // The bar at which the run of equal dates that the last bar is in begins.
  function StartOf(dates: seq<int>): (i: nat)
    requires dates != []
    ensures i < |dates|
  {
    RunStart(Dated(dates, seq(|dates|, i => 0.0)), |dates| - 1)
  }

  lemma {:induction false} RunStartByDates(xs: seq<Sample>, ys: seq<Sample>, i: nat)
    requires i < |xs| == |ys| && forall j :: 0 <= j < |xs| ==> xs[j].date == ys[j].date
    ensures RunStart(xs, i) == RunStart(ys, i)
  {
    if 0 < i { RunStartByDates(xs, ys, i - 1); }
  }

  lemma StartIsOfDates(dates: seq<int>, equities: seq<real>, xs: seq<Sample>, start: nat)
    requires 0 < |dates| == |equities| && xs == Dated(dates, equities) && start == StartOf(dates)
    ensures |xs| == |dates| && RunStart(xs, |xs| - 1) == start
    ensures xs[|xs| - 1].equity == equities[|xs| - 1] && xs[start].equity == equities[start]
  {
    RunStartByDates(xs, Dated(dates, seq(|dates|, i => 0.0)), |dates| - 1);
  }

  lemma {:induction false} SamplesOfFeed(times: seq<int>, equities: seq<real>, n: nat)
    requires n <= |times| == |equities|
    ensures Samples(Feed(times, equities, n)) == Dated(UtcDates(times), equities)[..n] && NoStop(Feed(times, equities, n))
  {
    if n != 0 {
      SamplesOfFeed(times, equities, n - 1);
      var xs := Dated(UtcDates(times), equities);
      assert xs[..n] == xs[..n - 1] + [xs[n - 1]];
    }
  }

  lemma PnlOfLastDay(c: Config, h: Trace<Event>, xs: seq<Sample>)
    requires c.Valid() && NoStop(h) && Samples(h) == xs && xs != []
    ensures Run(c, h).lastDailyPnl == xs[|xs| - 1].equity - xs[RunStart(xs, |xs| - 1)].equity
  {
    RunKeepsDays(c, h);
  }

  lemma LastDailyPnlIs(c: Config, times: seq<int>, equities: seq<real>, start: nat)
    requires c.Valid() && 0 < |times| == |equities| && start == StartOf(UtcDates(times))
    ensures Run(c, Feed(times, equities, |times|)).lastDailyPnl == equities[|times| - 1] - equities[start]
  {
    var h, dates := Feed(times, equities, |times|), UtcDates(times);
    var xs := Dated(dates, equities);
    SamplesOfFeed(times, equities, |times|);
    assert xs[..|times|] == xs;
    PnlOfLastDay(c, h, xs);
    StartIsOfDates(dates, equities, xs, start);
  }

  // The bar at index i is the first of the last run of readings without a midnight between them.
  ghost predicate BeginsLastDay(readings: seq<int>, i: nat) {
    && i < |readings|
    && (forall k :: i <= k < |readings| ==> SameDay(readings[k], readings[|readings| - 1]))
    && (0 < i ==> !SameDay(readings[i - 1], readings[|readings| - 1]))
  }

  lemma StartBeginsLastDay(readings: seq<int>, dates: seq<int>)
    requires 0 < |readings| == |dates|
    requires forall k :: 0 <= k < |readings| ==> dates[k] == readings[k] / 86_400_000_000
    ensures BeginsLastDay(readings, StartOf(dates))
  {
    var xs := Dated(dates, seq(|dates|, i => 0.0));
    var n := |dates| - 1;
    RunIsMaximal(xs, n);
    forall k | 0 <= k < |readings|
      ensures SameDay(readings[k], readings[n]) <==> xs[k].date == xs[n].date
    {
      DateIsDay(readings[k], readings[n]);
    }
  }

  // The readings of the zone's clock at these times.
  function Walls(c: Config, times: seq<int>): seq<int>
    requires c.Valid()
  {
    seq(|times|, i requires 0 <= i < |times| => c.zone.Wall(times[i]))
  }

  // The P&L counts from the bar at index j.
  ghost predicate CountsFrom(c: Config, times: seq<int>, equities: seq<real>, j: nat)
    requires c.Valid() && j < |times| == |equities|
  {
    Run(c, Feed(times, equities, |times|)).lastDailyPnl == equities[|times| - 1] - equities[j]
  }

  ghost predicate AlwaysCountsFrom(c: Config, times: seq<int>, j: nat)
    requires c.Valid() && j < |times|
  {
    forall equities: seq<real> :: |equities| == |times| ==> CountsFrom(c, times, equities, j)
  }

  lemma CountsFromDay(c: Config, times: seq<int>, day: nat, j: nat)
    requires c.Valid() && times != [] && day == StartOf(UtcDates(times)) && j < |times|
    ensures AlwaysCountsFrom(c, times, j) <==> day == j
  {
    if day == j {
      forall equities: seq<real> | |equities| == |times|
        ensures CountsFrom(c, times, equities, j)
      {
        LastDailyPnlIs(c, times, equities, day);
      }
    } else {
      var equities := seq(|times|, k => if k == day then 1.0 else 0.0);
      LastDailyPnlIs(c, times, equities, day);
      assert equities[day] != equities[j];
      assert !CountsFrom(c, times, equities, j);
    }
  }

  // The day's P&L counts from the bar that begins the trading session, whatever the equities, as the
  // documentation of the context promises, exactly when that bar begins the UTC day too.
  lemma DailyPnlIsSessionPnlIff(c: Config, times: seq<int>) returns (day: nat, session: nat)
    requires c.Valid() && times != []
    ensures BeginsLastDay(times, day) && BeginsLastDay(Walls(c, times), session)
    ensures AlwaysCountsFrom(c, times, session) <==> day == session
  {
    day, session := StartOf(UtcDates(times)), StartOf(SessionIds(c, times));
    StartBeginsLastDay(times, UtcDates(times));
    StartBeginsLastDay(Walls(c, times), SessionIds(c, times));
    CountsFromDay(c, times, day, session);
  }

  /* --------------------------------------------------------------------- breaches */

  // A check breaches exactly for the results that block, and carries their figures.
  lemma {:induction false} BlockedAreBlocking(ts: int, results: seq<RuleResult>, b: Breach)
    ensures b in Blocked(ts, results) <==>
            exists r :: r in results && r.action == Block && b == Breach(ts, r.rule, r.current, r.threshold)
  {
    if results != [] {
      var init, last := results[..|results| - 1], results[|results| - 1];
      BlockedAreBlocking(ts, init, b);
      assert results == init + [last];
      assert forall r :: r in results <==> r in init || r == last;
    }
  }

  // The breach that the result at this index makes.
  function BreachOf(ts: int, r: RuleResult): Breach {
    Breach(ts, r.rule, r.current, r.threshold)
  }

  // The events are those of the blocking results, at ascending places.
  ghost predicate StandAt(ts: int, results: seq<RuleResult>, places: seq<nat>, events: seq<Breach>) {
    && |places| == |events|
    && (forall i :: 0 <= i < |places| ==> places[i] < |results| && events[i] == BreachOf(ts, results[places[i]]))
    && (forall i, j :: 0 <= i < j < |places| ==> places[i] < places[j])
    && (forall k :: 0 <= k < |results| ==> (k in places <==> results[k].action == Block))
  }

  lemma StandPush(ts: int, results: seq<RuleResult>, last: RuleResult, places: seq<nat>, events: seq<Breach>)
    requires StandAt(ts, results, places, events)
    ensures if last.action == Block then StandAt(ts, results + [last], places + [|results|], events + [BreachOf(ts, last)])
            else StandAt(ts, results + [last], places, events)
  {
    var all := results + [last];
    assert forall k :: 0 <= k < |results| ==> all[k] == results[k];
  }

  lemma BlockedPush(ts: int, results: seq<RuleResult>, last: RuleResult)
    ensures Blocked(ts, results + [last]) == if last.action == Block then Blocked(ts, results) + [BreachOf(ts, last)] else Blocked(ts, results)
  {
    assert (results + [last])[..|results|] == results;
  }

  // The breaches of a check stand in rule order.
  lemma {:induction false} BlockedInOrder(ts: int, results: seq<RuleResult>) returns (places: seq<nat>)
    ensures StandAt(ts, results, places, Blocked(ts, results))
  {
    if results == [] {
      places := [];
    } else {
      var init, last := results[..|results| - 1], results[|results| - 1];
      var before := BlockedInOrder(ts, init);
      assert results == init + [last];
      StandPush(ts, init, last, before, Blocked(ts, init));
      BlockedPush(ts, init, last);
      places := if last.action == Block then before + [|init|] else before;
    }
  }

  lemma {:induction false} BlockedAtBar(ts: int, results: seq<RuleResult>)
    ensures forall b :: b in Blocked(ts, results) ==> b.ts == ts
  {
    if results != [] { BlockedAtBar(ts, results[..|results| - 1]); }
  }

  // Every blocking result of every bar, before deduplication.
  function Raw(c: Config, h: Trace<Event>): seq<Breach>
    requires c.Valid()
  {
    match h
    case Begin => []
    case Then(past, OnBar(ts, Some(equity))) =>
      var rolled := Rolled(Run(c, past), ts, equity);
      Raw(c, past) + Blocked(ts, c.rules(ContextAt(c, rolled, ts, equity)))
    case Then(past, _) => Raw(c, past)
  }

  // The same rule was breached before, with no local midnight in between.
  ghost predicate Repeated(c: Config, raw: seq<Breach>, i: nat)
    requires c.Valid() && i < |raw|
  {
    exists j :: 0 <= j < i && raw[j].rule == raw[i].rule && SameDay(c.zone.Wall(raw[j].ts), c.zone.Wall(raw[i].ts))
  }

  // The breaches that are not repeated, among the first n.
  ghost function Firsts(c: Config, raw: seq<Breach>, n: nat): seq<Breach>
    requires c.Valid() && n <= |raw|
  {
    if n == 0 then []
    else Firsts(c, raw, n - 1) + (if Repeated(c, raw, n - 1) then [] else [raw[n - 1]])
  }

  lemma {:induction false} FirstsOfPrefix(c: Config, raw: seq<Breach>, more: seq<Breach>, n: nat)
    requires c.Valid() && n <= |raw|
    ensures Firsts(c, raw + more, n) == Firsts(c, raw, n)
  {
    if n != 0 {
      FirstsOfPrefix(c, raw, more, n - 1);
      var all := raw + more;
      assert forall j :: 0 <= j < n ==> all[j] == raw[j];
      assert Repeated(c, all, n - 1) <==> Repeated(c, raw, n - 1);
    }
  }

  function KeyOf(c: Config, b: Breach): (int, string)
    requires c.Valid()
  {
    (SessionId(c, b.ts), b.rule)
  }

  ghost predicate HasKey(c: Config, raw: seq<Breach>, key: (int, string))
    requires c.Valid()
  {
    exists j :: 0 <= j < |raw| && KeyOf(c, raw[j]) == key
  }

  // The dedup set holds exactly the keys of the raw stream, and the log its first occurrences.
  ghost predicate LogsFirsts(c: Config, a: Actor, raw: seq<Breach>)
    requires c.Valid()
  {
    && a.breaches == Firsts(c, raw, |raw|)
    && forall key :: key in a.dedup <==> HasKey(c, raw, key)
  }

  lemma KeyRepeats(c: Config, raw: seq<Breach>, b: Breach)
    requires c.Valid()
    ensures Repeated(c, raw + [b], |raw|) <==> HasKey(c, raw, KeyOf(c, b))
  {
    var all := raw + [b];
    forall j | 0 <= j < |raw|
      ensures KeyOf(c, raw[j]) == KeyOf(c, b) <==>
                all[j].rule == b.rule && SameDay(c.zone.Wall(all[j].ts), c.zone.Wall(b.ts))
    {
      SessionsAreLocalDays(c, raw[j].ts, b.ts);
    }
  }

  lemma HasKeyPush(c: Config, raw: seq<Breach>, b: Breach, key: (int, string))
    requires c.Valid()
    ensures HasKey(c, raw + [b], key) <==> HasKey(c, raw, key) || key == KeyOf(c, b)
  {
    var all := raw + [b];
    assert all[|raw|] == b && forall j :: 0 <= j < |raw| ==> all[j] == raw[j];
  }

  lemma FirstsPush(c: Config, raw: seq<Breach>, b: Breach)
    requires c.Valid()
    ensures Firsts(c, raw + [b], |raw| + 1) == Firsts(c, raw, |raw|) + if HasKey(c, raw, KeyOf(c, b)) then [] else [b]
  {
    FirstsOfPrefix(c, raw, [b], |raw|);
    KeyRepeats(c, raw, b);
  }

  lemma LogOne(c: Config, a: Actor, raw: seq<Breach>, b: Breach)
    requires c.Valid() && LogsFirsts(c, a, raw)
    ensures var key := KeyOf(c, b);
            LogsFirsts(c, if key in a.dedup then a else a.(dedup := a.dedup + {key}, breaches := a.breaches + [b]), raw + [b])
  {
    FirstsPush(c, raw, b);
    forall key
      ensures HasKey(c, raw + [b], key) <==> HasKey(c, raw, key) || key == KeyOf(c, b)
    {
      HasKeyPush(c, raw, b, key);
    }
  }

  lemma {:induction false} RecordedLogsFirsts(c: Config, a: Actor, raw: seq<Breach>, ts: int, events: seq<Breach>)
    requires c.Valid() && LogsFirsts(c, a, raw) && forall b :: b in events ==> b.ts == ts
    ensures LogsFirsts(c, Recorded(a, SessionId(c, ts), events), raw + events)
  {
    if events == [] {
      assert raw + events == raw;
    } else {
      var n := |events| - 1;
      RecordedLogsFirsts(c, a, raw, ts, events[..n]);
      assert events[n] in events && KeyOf(c, events[n]) == (SessionId(c, ts), events[n].rule);
      LogOne(c, Recorded(a, SessionId(c, ts), events[..n]), raw + events[..n], events[n]);
      assert raw + events == raw + events[..n] + [events[n]];
    }
  }

  // Over every run, the recorded breaches are the raw ones at their first occurrence of a rule without a
  // local midnight since, in order.
  lemma {:induction false} BreachesAreFirsts(c: Config, h: Trace<Event>)
    requires c.Valid()
    ensures Run(c, h).breaches == Firsts(c, Raw(c, h), |Raw(c, h)|)
    ensures LogsFirsts(c, Run(c, h), Raw(c, h))
  {
    if h.Then? {
      BreachesAreFirsts(c, h.past);
      match h.last
      case OnBar(ts, Some(equity)) =>
        var rolled := Rolled(Run(c, h.past), ts, equity);
        var results := c.rules(ContextAt(c, rolled, ts, equity));
        BlockedAtBar(ts, results);
        RecordedLogsFirsts(c, rolled, Raw(c, h.past), ts, Blocked(ts, results));
      case _ =>
    }
  }

  /* -------------------------------------------------------------------- the actor */

  class PropFirmComplianceActor {
    const config: Config
    var breaches: seq<Breach>
    var dedup: set<(int, string)>
    var curve: seq<(int, real)>
    var peakBalance: real
    var currentDay: Option<int>
    var dayOpenBalance: real
    var lastDailyPnl: real
    var completedDays: map<int, real>
    var registered: seq<Day>

    ghost function State(): Actor
      reads this
    {
      Actor(breaches, dedup, curve, peakBalance, currentDay, dayOpenBalance, lastDailyPnl, completedDays, registered)
    }

    constructor (config: Config)
      ensures this.config == config && State() == Initial(config)
    {
      this.config := config;
      breaches, dedup, curve, peakBalance := [], {}, [], config.initialBalance;
      currentDay, dayOpenBalance, lastDailyPnl := None, config.initialBalance, 0.0;
      completedDays, registered := map[], [];
    }

    method RecordEquity(ts: int, equity: real)
      modifies `curve, `peakBalance
      ensures curve == old(curve) + [(ts, equity)]
      ensures peakBalance == if equity > old(peakBalance) then equity else old(peakBalance)
    {
      curve := curve + [(ts, equity)];
      if equity > peakBalance {
        peakBalance := equity;
      }
    }

    method RegisterCompletedDay(day: int, pnl: real)
      modifies `completedDays, `registered
      ensures completedDays == old(completedDays)[day := pnl] && registered == old(registered) + [Day(day, pnl)]
    {
      completedDays := completedDays[day := pnl];
      registered := registered + [Day(day, pnl)];
    }

    method RecordComplianceCheck(ts: int, context: Context)
      requires config.Valid()
      modifies `breaches, `dedup
      ensures State() == Recorded(old(State()), SessionId(config, ts), Blocked(ts, config.rules(context)))
    {
      var results := config.rules(context);
      var events := [];
      for i := 0 to |results|
        invariant events == Blocked(ts, results[..i])
      {
        assert results[..i + 1][..i] == results[..i];
        var r := results[i];
        if r.action == Block {
          events := events + [Breach(ts, r.rule, r.current, r.threshold)];
        }
      }
      assert results[..|results|] == results;
      var session := SessionId(config, ts);
      for i := 0 to |events|
        invariant State() == Recorded(old(State()), session, events[..i])
      {
        assert events[..i + 1][..i] == events[..i];
        var key := (session, events[i].rule);
        if key !in dedup {
          dedup := dedup + {key};
          breaches := breaches + [events[i]];
        }
      }
      assert events[..|events|] == events;
    }

    method OnBar(ts: int, equity: Option<real>)
      requires config.Valid()
      modifies this
      ensures State() == Apply(config, old(State()), Event.OnBar(ts, equity))
    {
      if equity.None? {
        return;
      }
      RecordEquity(ts, equity.value);
      var date := UtcDate(ts);
      if currentDay.None? {
        currentDay, dayOpenBalance := Some(date), equity.value;
      } else if date != currentDay.value {
        RegisterCompletedDay(currentDay.value, lastDailyPnl);
        currentDay, dayOpenBalance, lastDailyPnl := Some(date), equity.value, 0.0;
      }
      var dailyPnl := equity.value - dayOpenBalance;
      lastDailyPnl := dailyPnl;
      assert State() == Rolled(old(State()), ts, equity.value);
      RecordComplianceCheck(ts, BuildContext(config, ts, equity.value, peakBalance, dailyPnl, completedDays));
    }

    method OnStop()
      requires config.Valid()
      modifies this
      ensures State() == Apply(config, old(State()), Event.OnStop)
    {
      if currentDay.Some? {
        RegisterCompletedDay(currentDay.value, lastDailyPnl);
        currentDay, lastDailyPnl := None, 0.0;
      }
    }
  }
}
