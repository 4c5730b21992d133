// Risk limits enforced per account: equity updates, completed trades, resets, checks and lifecycle
// requests over many accounts, each a call that is suspended at its awaits.  A step below is one
// stretch of a call between two awaits, so a run is an arbitrary interleaving of calls; a Redis
// command takes effect with the stretch that issues it.
module RiskIsolation {
  import opened Options
  import opened Traces
  import R = RiskState

  datatype Status = Active | Paused | Stopped | Errored

  datatype Rule = DailyLoss | MaxDrawdown | UnknownRule

  datatype RuleConfig = RuleConfig(rule: Rule, limit: real)

  datatype Violation = Violation(rule: Rule, current: real, limit: real)

  // The persisted violation list of an account keeps the newest entries.
  const MAX_VIOLATIONS: nat := 1000

  /* -------------------------------------------------------------- the lifecycle */

  function ValidTransitions(s: Status): set<Status> {
    match s
    case Active => {Paused, Stopped, Errored}
    case Paused => {Active, Stopped, Errored}
    case Stopped => {Active}
    case Errored => {Stopped}
  }

  predicate CanTransition(s: Status, target: Status) {
    target in ValidTransitions(s)
  }

  datatype Request = Start | Stop | Pause | Resume | Acknowledge

  function Target(q: Request): Status {
    match q
    case Start => Active
    case Resume => Active
    case Pause => Paused
    case Stop => Stopped
    case Acknowledge => Stopped
  }

  // The check that a request makes on the status it has read.
  predicate Allows(q: Request, read: Option<Status>) {
    match q
    case Start => read.None? || CanTransition(read.value, Active)
    case Stop => true
    case Pause => read.Some? && CanTransition(read.value, Paused)
    case Resume => read == Some(Paused)
    case Acknowledge => read == Some(Errored)
  }

  // Stopping a stopped account returns without saving.
  predicate Saves(q: Request, read: Option<Status>) {
    Allows(q, read) && !(q.Stop? && read == Some(Stopped))
  }

  /* ------------------------------------------------------------------- the calls */

  datatype Job =
    | EquityUpdate(equity: real, limit: real)
    | TradeCompleted(pnl: real, limit: real)
    | ResetDaily(balance: real)
    | CheckPreTrade(rules: seq<RuleConfig>)

  // Only these two hold the account's lock while they create its manager.
  predicate Locked(job: Job) {
    job.EquityUpdate? || job.TradeCompleted?
  }

  function Made(job: Job, r: R.Risk): R.Risk {
    match job
    case EquityUpdate(equity, _) => R.WithEquity(r, equity)
    case TradeCompleted(pnl, _) => R.WithTrade(r, pnl)
    case ResetDaily(balance) => R.WithReset(r, balance)
    case CheckPreTrade(_) => r
  }

  predicate Violated(job: Job, r: R.Risk) {
    match job
    case EquityUpdate(_, limit) => R.DrawdownViolated(r, limit)
    case TradeCompleted(_, limit) => R.DailyLossViolated(r, limit)
    case _ => false
  }

  function Entry(job: Job, r: R.Risk): Violation {
    match job
    case EquityUpdate(_, limit) => Violation(MaxDrawdown, r.totalDrawdownPercent, limit)
    case TradeCompleted(_, limit) => Violation(DailyLoss, r.dailyPnlPercent, limit)
    case _ => Violation(UnknownRule, 0.0, 0.0)
  }

  // Where a call is suspended: loading the persisted state of an account without a manager; after
  // saving an update; between reading a status and the check of what was read; before recording.
  datatype Call =
    | Loading(job: Job, loaded: R.Risk)
    | Checking(job: Job)
    | Pausing(entry: Violation, read: Option<Status>)
    | Recording(entry: Violation)
    | Changing(request: Request, read: Option<Status>)

  datatype Result = Returned | Raised | Decided(allowed: bool)

  predicate LockHeld(calls: map<nat, Call>) {
    exists n :: n in calls && calls[n].Loading? && Locked(calls[n].job)
  }

  // One stretch of a call, named by its number among the calls of its account; or a save of a status
  // that nothing has read, the coming and going of the account's task, or the loading of the account.
  datatype Move =
    | Submit(call: nat, job: Job)
    | Install(call: nat)
    | Check(call: nat)
    | SavePause(call: nat)
    | Record(call: nat)
    | Read(call: nat, request: Request)
    | Save(call: nat)
    | SetError
    | Abandon(call: nat)
    | Spawn
    | EndTask
    | Block
    | AddAccount

  // A restart forgets the managers and the calls of the engine; a lifecycle request may come from
  // another process, and is abandoned apart if it does not.
  datatype Event = On(account: string, move: Move) | Restart

  /* ------------------------------------------------------------- pre-trade checks */

  function Violates(r: R.Risk, c: RuleConfig): Option<bool> {
    match c.rule
    case DailyLoss => Some(R.DailyLossViolated(r, c.limit))
    case MaxDrawdown => Some(R.DrawdownViolated(r, c.limit))
    case UnknownRule => None
  }

  // Some(allowed), or None when an unknown rule type raises.
  function PreTrade(r: R.Risk, rules: seq<RuleConfig>): Option<bool> {
    if rules == [] then Some(true)
    else match Violates(r, rules[0])
      case None => None
      case Some(true) => Some(false)
      case Some(false) => PreTrade(r, rules[1..])
  }

  function Decision(r: R.Risk, rules: seq<RuleConfig>): Result {
    var allowed := PreTrade(r, rules);
    if allowed.None? then Raised else Decided(allowed.value)
  }

  /* ------------------------------------------------------------ the shared world */

  // Managers and tasks live in memory; risk states, statuses and violation lists in Redis; calls in the
  // event loop: all keyed by account.
  datatype World = World(
    accounts: set<string>,
    tasks: set<string>,
    managers: map<string, R.Risk>,
    stored: map<string, R.Risk>,
    status: map<string, Status>,
    violations: map<string, seq<Violation>>,
    calls: map<string, map<nat, Call>>,
    results: map<string, map<nat, Result>>)

  function Loaded(w: World, a: string): R.Risk {
    if a in w.stored then w.stored[a] else R.ZERO
  }

  function CallsOf(w: World, a: string): map<nat, Call> {
    if a in w.calls then w.calls[a] else map[]
  }

  function ResultsOf(w: World, a: string): map<nat, Result> {
    if a in w.results then w.results[a] else map[]
  }

  function WithCall(w: World, a: string, n: nat, c: Call): World {
    w.(calls := w.calls[a := CallsOf(w, a)[n := c]])
  }

  function Ended(w: World, a: string, n: nat, r: Result): World {
    w.(calls := w.calls[a := CallsOf(w, a) - {n}], results := w.results[a := ResultsOf(w, a)[n := r]])
  }

  function WithManager(w: World, a: string, r: R.Risk): World {
    w.(managers := w.managers[a := r])
  }

  function WithSaved(w: World, a: string, r: R.Risk): World {
    w.(managers := w.managers[a := r], stored := w.stored[a := r])
  }

  function WithStatus(w: World, a: string, s: Status): World {
    w.(status := w.status[a := s])
  }

  function WithEntry(w: World, a: string, entry: Violation): World {
    w.(violations := w.violations[a := Logged(LogOf(w, a), entry)])
  }

  function Logged(log: seq<Violation>, v: Violation): seq<Violation> {
    var pushed := [v] + log;
    if |pushed| <= MAX_VIOLATIONS then pushed else pushed[..MAX_VIOLATIONS]
  }

  function LogOf(w: World, a: string): seq<Violation> {
    if a in w.violations then w.violations[a] else []
  }

  // The manager is there, as `r`: do the job on it and issue the save.
  function Performed(w: World, a: string, n: nat, job: Job, r: R.Risk): World {
    match job
    case CheckPreTrade(rules) => Ended(WithManager(w, a, r), a, n, Decision(r, rules))
    case _ =>
      var saved := WithSaved(w, a, Made(job, r));
      if job.ResetDaily? then Ended(saved, a, n, Returned) else WithCall(saved, a, n, Checking(job))
  }

  predicate Fresh(w: World, a: string, n: nat) {
    n !in CallsOf(w, a) && n !in ResultsOf(w, a)
  }

  function Submitted(w: World, a: string, n: nat, job: Job): World {
    if !Fresh(w, a, n) || (Locked(job) && LockHeld(CallsOf(w, a))) then w
    else if job == CheckPreTrade([]) then Ended(w, a, n, Decided(true))
    else if a in w.managers then Performed(w, a, n, job, w.managers[a])
    else WithCall(w, a, n, Loading(job, Loaded(w, a)))
  }

  function Checked(w: World, a: string, n: nat, job: Job, r: R.Risk): World {
    if !Violated(job, r) then Ended(w, a, n, Returned)
    else if a !in w.accounts then Ended(w, a, n, Raised)
    else WithCall(w, a, n, Pausing(Entry(job, r), Lookup(w.status, a)))
  }

  function Saved(w: World, a: string, n: nat, q: Request, read: Option<Status>): World {
    if !Allows(q, read) then Ended(w, a, n, Raised)
    else if !Saves(q, read) then Ended(w, a, n, Returned)
    else Ended(WithStatus(w, a, Target(q)), a, n, Returned)
  }

  // The call goes on from where it is suspended; a step of a call that is not there changes nothing.
  function Resumed(w: World, a: string, n: nat, move: Move): World {
    if n !in CallsOf(w, a) then w else
    match CallsOf(w, a)[n]
    case Loading(job, loaded) => if move.Install? then Performed(w, a, n, job, loaded) else w
    case Checking(job) => if move.Check? && a in w.managers then Checked(w, a, n, job, w.managers[a]) else w
    case Pausing(entry, read) =>
      if !move.SavePause? then w
      else if !Allows(Pause, read) then Ended(w, a, n, Raised)
      else WithCall(WithStatus(w, a, Paused), a, n, Recording(entry))
    case Recording(entry) =>
      if move.Record? then Ended(WithEntry(w, a, entry), a, n, Returned) else w
    case Changing(q, read) => if move.Save? then Saved(w, a, n, q, read) else w
  }

  // Starting an account's task saves "active" over whatever is there, for any account without a task.
  function Spawned(w: World, a: string): World {
    if a in w.tasks then w else WithStatus(w, a, Active).(tasks := w.tasks + {a})
  }

  function Handle(w: World, a: string, move: Move): World {
    match move
    case Submit(n, job) => Submitted(w, a, n, job)
    case Read(n, q) =>
      if !Fresh(w, a, n) then w
      else if a !in w.accounts then Ended(w, a, n, Raised)
      else WithCall(w, a, n, Changing(q, Lookup(w.status, a)))
    case SetError => if a in w.accounts then WithStatus(w, a, Errored) else w
    case Abandon(n) => if n in CallsOf(w, a) then w.(calls := w.calls[a := CallsOf(w, a) - {n}]) else w
    case Spawn => Spawned(w, a)
    case EndTask => w.(tasks := w.tasks - {a})
    case Block => WithStatus(w, a, Errored)
    case AddAccount => w.(accounts := w.accounts + {a})
    case _ => Resumed(w, a, move.call, move)
  }

  function Survivors(calls: map<nat, Call>): map<nat, Call> {
    map n | n in calls && calls[n].Changing? :: calls[n]
  }

  function Apply(w: World, e: Event): World {
    match e
    case On(a, move) => Handle(w, a, move)
    case Restart => w.(tasks := {}, managers := map[], calls := map a | a in w.calls :: Survivors(w.calls[a]))
  }

  function Run(w: World, h: Trace<Event>): World {
    match h
    case Begin => w
    case Then(past, e) => Apply(Run(w, past), e)
  }

  /* ----------------------------------------------------------- one account alone */

  datatype Account = Account(
    known: bool, task: bool, manager: Option<R.Risk>, stored: Option<R.Risk>, status: Option<Status>,
    violations: seq<Violation>, calls: map<nat, Call>, results: map<nat, Result>)

  function View(w: World, a: string): Account {
    Account(a in w.accounts, a in w.tasks, Lookup(w.managers, a), Lookup(w.stored, a), Lookup(w.status, a),
            LogOf(w, a), CallsOf(w, a), ResultsOf(w, a))
  }

  function Goes(v: Account, n: nat, c: Call): Account {
    v.(calls := v.calls[n := c])
  }

  function Ends(v: Account, n: nat, r: Result): Account {
    v.(calls := v.calls - {n}, results := v.results[n := r])
  }

  function PerformAlone(v: Account, n: nat, job: Job, r: R.Risk): Account {
    if job.CheckPreTrade? then Ends(v.(manager := Some(r)), n, Decision(r, job.rules))
    else
      var saved := v.(manager := Some(Made(job, r)), stored := Some(Made(job, r)));
      if job.ResetDaily? then Ends(saved, n, Returned) else Goes(saved, n, Checking(job))
  }

  predicate Starts(v: Account, n: nat, job: Job) {
    n !in v.calls && n !in v.results && !(Locked(job) && LockHeld(v.calls))
  }

  // The stretch a suspended call is at.
  predicate Suspended(c: Call, move: Move) {
    match c
    case Loading(_, _) => move.Install?
    case Checking(_) => move.Check?
    case Pausing(_, _) => move.SavePause?
    case Recording(_) => move.Record?
    case Changing(_, _) => move.Save?
  }

  predicate Resumes(move: Move) {
    move.Install? || move.Check? || move.SavePause? || move.Record? || move.Save?
  }

  predicate At(v: Account, n: nat, move: Move) {
    n in v.calls && Suspended(v.calls[n], move) && (v.calls[n].Checking? ==> v.manager.Some?)
  }

  // What a step does to its account, with no other account in sight.
  function Alone(v: Account, move: Move): Account {
    match move
    case Submit(n, job) =>
      if !Starts(v, n, job) then v
      else if job == CheckPreTrade([]) then Ends(v, n, Decided(true))
      else if v.manager.Some? then PerformAlone(v, n, job, v.manager.value)
      else Goes(v, n, Loading(job, GetOr(v.stored, R.ZERO)))
    case Install(n) => if At(v, n, move) then PerformAlone(v, n, v.calls[n].job, v.calls[n].loaded) else v
    case Check(n) =>
      if !At(v, n, move) then v
      else
        var job, r := v.calls[n].job, v.manager.value;
        if !Violated(job, r) then Ends(v, n, Returned)
        else if !v.known then Ends(v, n, Raised)
        else Goes(v, n, Pausing(Entry(job, r), v.status))
    case SavePause(n) =>
      if !At(v, n, move) then v
      else if v.calls[n].read != Some(Active) then Ends(v, n, Raised)
      else Goes(v.(status := Some(Paused)), n, Recording(v.calls[n].entry))
    case Record(n) =>
      if At(v, n, move) then Ends(v.(violations := Logged(v.violations, v.calls[n].entry)), n, Returned) else v
    case Read(n, q) =>
      if n in v.calls || n in v.results then v
      else if !v.known then Ends(v, n, Raised)
      else Goes(v, n, Changing(q, v.status))
    case Save(n) =>
      if !At(v, n, move) then v
      else
        var q, read := v.calls[n].request, v.calls[n].read;
        if Saves(q, read) then Ends(v.(status := Some(Target(q))), n, Returned)
        else Ends(v, n, if Allows(q, read) then Returned else Raised)
    case SetError => if v.known then v.(status := Some(Errored)) else v
    case Abandon(n) => if n in v.calls then v.(calls := v.calls - {n}) else v
    case Spawn => if v.task then v else v.(task := true, status := Some(Active))
    case EndTask => v.(task := false)
    case Block => v.(status := Some(Errored))
    case AddAccount => v.(known := true)
  }

  function Restarted(v: Account): Account {
    v.(task := false, manager := None, calls := Survivors(v.calls))
  }

  // What happens to one account.
  datatype Happening = Do(move: Move) | Reboot

  function Happens(v: Account, x: Happening): Account {
    if x.Reboot? then Restarted(v) else Alone(v, x.move)
  }

  function RunAlone(v: Account, h: Trace<Happening>): Account {
    match h
    case Begin => v
    case Then(past, x) => Happens(RunAlone(v, past), x)
  }

  lemma StepRuns(v: Account, h: Trace<Happening>, before: Account, after: Account)
    requires h.Then? && RunAlone(v, h.past) == before && Happens(before, h.last) == after
    ensures RunAlone(v, h) == after
  {
  }

  // The account's own steps and the restarts, without the steps of other accounts.
  function Own(h: Trace<Event>, a: string): Trace<Happening> {
    match h
    case Begin => Begin
    case Then(past, On(b, move)) => if a == b then Then(Own(past, a), Do(move)) else Own(past, a)
    case Then(past, Restart) => Then(Own(past, a), Reboot)
  }

  // The step changes nothing that another account can see.
  ghost predicate SparesOthers(w: World, t: World, a: string) {
    forall b :: b != a ==> View(t, b) == View(w, b)
  }

  lemma EndedIsEnds(w: World, a: string, n: nat, r: Result)
    ensures View(Ended(w, a, n, r), a) == Ends(View(w, a), n, r) && SparesOthers(w, Ended(w, a, n, r), a)
  {
  }

  lemma WithCallIsGoes(w: World, a: string, n: nat, c: Call)
    ensures View(WithCall(w, a, n, c), a) == Goes(View(w, a), n, c) && SparesOthers(w, WithCall(w, a, n, c), a)
  {
  }

  lemma ManagerIsSeen(w: World, a: string, r: R.Risk)
    ensures View(WithManager(w, a, r), a) == View(w, a).(manager := Some(r)) && SparesOthers(w, WithManager(w, a, r), a)
  {
  }

  lemma SavedIsSeen(w: World, a: string, r: R.Risk)
    ensures View(WithSaved(w, a, r), a) == View(w, a).(manager := Some(r), stored := Some(r))
    ensures SparesOthers(w, WithSaved(w, a, r), a)
  {
  }

  lemma StatusIsSeen(w: World, a: string, s: Status)
    ensures View(WithStatus(w, a, s), a) == View(w, a).(status := Some(s)) && SparesOthers(w, WithStatus(w, a, s), a)
  {
  }

  lemma EntryIsSeen(w: World, a: string, entry: Violation)
    ensures View(WithEntry(w, a, entry), a) == View(w, a).(violations := Logged(LogOf(w, a), entry))
    ensures SparesOthers(w, WithEntry(w, a, entry), a)
  {
  }

  lemma SparesBoth(w: World, t: World, u: World, a: string)
    requires SparesOthers(w, t, a) && SparesOthers(t, u, a)
    ensures SparesOthers(w, u, a)
  {
  }

  // A change that is seen as `v`, after which the call ends or goes on.
  lemma ThenEnds(w: World, t: World, a: string, n: nat, r: Result, v: Account)
    requires View(t, a) == v && SparesOthers(w, t, a)
    ensures View(Ended(t, a, n, r), a) == Ends(v, n, r) && SparesOthers(w, Ended(t, a, n, r), a)
  {
    EndedIsEnds(t, a, n, r);
    SparesBoth(w, t, Ended(t, a, n, r), a);
  }

  lemma ThenGoes(w: World, t: World, a: string, n: nat, c: Call, v: Account)
    requires View(t, a) == v && SparesOthers(w, t, a)
    ensures View(WithCall(t, a, n, c), a) == Goes(v, n, c) && SparesOthers(w, WithCall(t, a, n, c), a)
  {
    WithCallIsGoes(t, a, n, c);
    SparesBoth(w, t, WithCall(t, a, n, c), a);
  }

  lemma PerformIsAlone(w: World, a: string, n: nat, job: Job, r: R.Risk)
    ensures View(Performed(w, a, n, job, r), a) == PerformAlone(View(w, a), n, job, r)
    ensures SparesOthers(w, Performed(w, a, n, job, r), a)
  {
    var v, made := View(w, a), Made(job, r);
    ManagerIsSeen(w, a, r);
    SavedIsSeen(w, a, made);
    if job.CheckPreTrade? {
      ThenEnds(w, WithManager(w, a, r), a, n, Decision(r, job.rules), v.(manager := Some(r)));
    } else if job.ResetDaily? {
      ThenEnds(w, WithSaved(w, a, made), a, n, Returned, v.(manager := Some(made), stored := Some(made)));
    } else {
      ThenGoes(w, WithSaved(w, a, made), a, n, Checking(job), v.(manager := Some(made), stored := Some(made)));
    }
  }

  lemma SubmittedIsAlone(w: World, a: string, n: nat, job: Job)
    ensures View(Submitted(w, a, n, job), a) == Alone(View(w, a), Submit(n, job))
    ensures SparesOthers(w, Submitted(w, a, n, job), a)
  {
    EndedIsEnds(w, a, n, Decided(true));
    WithCallIsGoes(w, a, n, Loading(job, Loaded(w, a)));
    if a in w.managers { PerformIsAlone(w, a, n, job, w.managers[a]); }
  }

  lemma SavedIsAlone(w: World, a: string, n: nat, q: Request, read: Option<Status>)
    requires n in CallsOf(w, a) && CallsOf(w, a)[n] == Changing(q, read)
    ensures View(Saved(w, a, n, q, read), a) == Alone(View(w, a), Save(n))
    ensures SparesOthers(w, Saved(w, a, n, q, read), a)
  {
    EndedIsEnds(w, a, n, Raised);
    EndedIsEnds(w, a, n, Returned);
    StatusIsSeen(w, a, Target(q));
    ThenEnds(w, WithStatus(w, a, Target(q)), a, n, Returned, View(w, a).(status := Some(Target(q))));
  }

  lemma CheckedIsAlone(w: World, a: string, n: nat, job: Job)
    requires n in CallsOf(w, a) && CallsOf(w, a)[n] == Checking(job) && a in w.managers
    ensures View(Checked(w, a, n, job, w.managers[a]), a) == Alone(View(w, a), Check(n))
    ensures SparesOthers(w, Checked(w, a, n, job, w.managers[a]), a)
  {
    var r := w.managers[a];
    EndedIsEnds(w, a, n, Raised);
    EndedIsEnds(w, a, n, Returned);
    WithCallIsGoes(w, a, n, Pausing(Entry(job, r), Lookup(w.status, a)));
  }

  lemma PausedIsAlone(w: World, a: string, n: nat)
    requires n in CallsOf(w, a) && CallsOf(w, a)[n].Pausing?
    ensures View(Resumed(w, a, n, SavePause(n)), a) == Alone(View(w, a), SavePause(n))
    ensures SparesOthers(w, Resumed(w, a, n, SavePause(n)), a)
  {
    var entry := CallsOf(w, a)[n].entry;
    EndedIsEnds(w, a, n, Raised);
    StatusIsSeen(w, a, Paused);
    ThenGoes(w, WithStatus(w, a, Paused), a, n, Recording(entry), View(w, a).(status := Some(Paused)));
  }

  lemma RecordedIsAlone(w: World, a: string, n: nat)
    requires n in CallsOf(w, a) && CallsOf(w, a)[n].Recording?
    ensures View(Resumed(w, a, n, Record(n)), a) == Alone(View(w, a), Record(n))
    ensures SparesOthers(w, Resumed(w, a, n, Record(n)), a)
  {
    var entry := CallsOf(w, a)[n].entry;
    EntryIsSeen(w, a, entry);
    ThenEnds(w, WithEntry(w, a, entry), a, n, Returned, View(w, a).(violations := Logged(LogOf(w, a), entry)));
  }

  lemma ResumedIsAlone(w: World, a: string, move: Move)
    requires Resumes(move)
    ensures View(Resumed(w, a, move.call, move), a) == Alone(View(w, a), move)
    ensures SparesOthers(w, Resumed(w, a, move.call, move), a)
  {
    var n, calls := move.call, CallsOf(w, a);
    if n !in calls || !Suspended(calls[n], move) {
      assert Resumed(w, a, n, move) == w;
    } else {
      match calls[n]
      case Loading(job, loaded) => PerformIsAlone(w, a, n, job, loaded);
      case Checking(job) => if a in w.managers { CheckedIsAlone(w, a, n, job); }
      case Pausing(_, _) => PausedIsAlone(w, a, n);
      case Recording(_) => RecordedIsAlone(w, a, n);
      case Changing(q, read) => SavedIsAlone(w, a, n, q, read);
    }
  }

  lemma ReadIsAlone(w: World, a: string, n: nat, q: Request)
    ensures View(Handle(w, a, Read(n, q)), a) == Alone(View(w, a), Read(n, q))
    ensures SparesOthers(w, Handle(w, a, Read(n, q)), a)
  {
    EndedIsEnds(w, a, n, Raised);
    WithCallIsGoes(w, a, n, Changing(q, Lookup(w.status, a)));
  }

  lemma AbandonIsAlone(w: World, a: string, n: nat)
    ensures View(Handle(w, a, Abandon(n)), a) == Alone(View(w, a), Abandon(n))
    ensures SparesOthers(w, Handle(w, a, Abandon(n)), a)
  {
  }

  lemma TaskIsAlone(w: World, a: string, move: Move)
    requires move.Spawn? || move.EndTask? || move.AddAccount?
    ensures View(Handle(w, a, move), a) == Alone(View(w, a), move)
    ensures SparesOthers(w, Handle(w, a, move), a)
  {
  }

  lemma HandleIsAlone(w: World, a: string, move: Move)
    ensures View(Handle(w, a, move), a) == Alone(View(w, a), move)
    ensures SparesOthers(w, Handle(w, a, move), a)
  {
    if Resumes(move) {
      ResumedIsAlone(w, a, move);
      assert Handle(w, a, move) == Resumed(w, a, move.call, move);
    } else {
      match move
      case Submit(n, job) => SubmittedIsAlone(w, a, n, job);
      case Read(n, q) => ReadIsAlone(w, a, n, q);
      case SetError => StatusIsSeen(w, a, Errored);
      case Abandon(n) => AbandonIsAlone(w, a, n);
      case Block => StatusIsSeen(w, a, Errored);
      case _ => TaskIsAlone(w, a, move);
    }
  }

  lemma RestartIsAlone(w: World, a: string)
    ensures View(Apply(w, Restart), a) == Restarted(View(w, a))
  {
  }

  // Non-interference: however the stretches of all calls over all accounts are interleaved, with
  // restarts anywhere, an account's risk, status, violation log, calls and their results are those of
  // running its own steps alone.
  lemma {:induction false} AccountsDoNotInterfere(w: World, h: Trace<Event>, a: string)
    ensures View(Run(w, h), a) == RunAlone(View(w, a), Own(h, a))
  {
    if h.Then? {
      AccountsDoNotInterfere(w, h.past, a);
      match h.last
      case On(b, move) => HandleIsAlone(Run(w, h.past), b, move);
      case Restart => RestartIsAlone(Run(w, h.past), a);
    }
  }

  // And every call of the account ends as if the others did not exist.
  lemma OutcomeIsOwn(w: World, h: Trace<Event>, a: string, n: nat)
    ensures Lookup(ResultsOf(Run(w, h), a), n) == Lookup(RunAlone(View(w, a), Own(h, a)).results, n)
  {
    AccountsDoNotInterfere(w, h, a);
  }

  // The risk state that the next step of the account would see.
  function Risk(v: Account): R.Risk {
    GetOr(v.manager, GetOr(v.stored, R.ZERO))
  }

  predicate Unused(v: Account, n: nat) {
    n !in v.calls && n !in v.results
  }

  /* ------------------------------------------------------------ resetting all accounts */

  function ResetOne(w: World, a: string, balance: real): World {
    WithSaved(w, a, R.WithReset(if a in w.managers then w.managers[a] else Loaded(w, a), balance))
  }

  // The daily reset over the first n of the given balances, one call after the other.
  function ResetAll(w: World, balances: seq<(string, real)>, n: nat): World
    requires n <= |balances|
  {
    if n == 0 then w else ResetOne(ResetAll(w, balances, n - 1), balances[n - 1].0, balances[n - 1].1)
  }

  function Resets(balances: seq<(string, real)>, n: nat, first: nat): Trace<Event>
    requires n <= |balances|
  {
    if n == 0 then Begin
    else
      var a, k := balances[n - 1].0, first + n - 1;
      Then(Then(Resets(balances, n - 1, first), On(a, Submit(k, ResetDaily(balances[n - 1].1)))), On(a, Install(k)))
  }

  predicate UnusedNumber(w: World, a: string, k: nat) {
    Fresh(w, a, k)
  }

  ghost predicate UnusedFrom(w: World, first: nat) {
    forall a, k: nat :: first <= k ==> UnusedNumber(w, a, k)
  }

  lemma ResetOneRuns(w: World, a: string, k: nat, balance: real)
    requires Fresh(w, a, k)
    ensures Handle(Handle(w, a, Submit(k, ResetDaily(balance))), a, Install(k)) == Ended(ResetOne(w, a, balance), a, k, Returned)
  {
    var calls, t := CallsOf(w, a), Handle(w, a, Submit(k, ResetDaily(balance)));
    if a in w.managers {
      assert t == Ended(ResetOne(w, a, balance), a, k, Returned);
      assert k !in CallsOf(t, a);
    } else {
      var c := Loading(ResetDaily(balance), Loaded(w, a));
      assert CallsOf(t, a) == calls[k := c] && calls[k := c] - {k} == calls - {k};
      assert w.calls[a := calls[k := c]][a := calls - {k}] == w.calls[a := calls - {k}];
    }
  }

  lemma UnusedAfterReset(w: World, a: string, k: nat, balance: real)
    requires UnusedFrom(w, k)
    ensures UnusedFrom(Ended(ResetOne(w, a, balance), a, k, Returned), k + 1)
  {
    forall b, m: nat | k + 1 <= m
      ensures UnusedNumber(Ended(ResetOne(w, a, balance), a, k, Returned), b, m)
    {
      assert UnusedNumber(w, b, m);
    }
  }

  lemma RunTwo(w: World, h: Trace<Event>, first: Event, second: Event)
    ensures Run(w, Then(Then(h, first), second)) == Apply(Apply(Run(w, h), first), second)
  {
    assert Run(w, Then(h, first)) == Apply(Run(w, h), first);
  }

  ghost predicate SameRisks(t: World, u: World) {
    t.managers == u.managers && t.stored == u.stored
  }

  lemma ResetOneSame(t: World, u: World, a: string, balance: real, k: nat)
    requires SameRisks(t, u)
    ensures SameRisks(Ended(ResetOne(t, a, balance), a, k, Returned), ResetOne(u, a, balance))
  {
  }

  // One more reset after a run that amounts to the resets so far.
  lemma ResetStep(t: World, u: World, a: string, balance: real, k: nat) returns (after: World)
    requires SameRisks(t, u) && UnusedFrom(t, k)
    ensures after == Apply(Apply(t, On(a, Submit(k, ResetDaily(balance)))), On(a, Install(k)))
    ensures SameRisks(after, ResetOne(u, a, balance)) && UnusedFrom(after, k + 1)
  {
    assert UnusedNumber(t, a, k);
    ResetOneRuns(t, a, k, balance);
    UnusedAfterReset(t, a, k, balance);
    ResetOneSame(t, u, a, balance, k);
    after := Ended(ResetOne(t, a, balance), a, k, Returned);
  }

  ghost predicate Amounts(w: World, h: Trace<Event>, u: World, next: nat) {
    SameRisks(Run(w, h), u) && UnusedFrom(Run(w, h), next)
  }

  lemma AmountsAfter(w: World, h: Trace<Event>, u: World, a: string, balance: real, k: nat, all: Trace<Event>, v: World)
    requires Amounts(w, h, u, k)
    requires all == Then(Then(h, On(a, Submit(k, ResetDaily(balance)))), On(a, Install(k))) && v == ResetOne(u, a, balance)
    ensures Amounts(w, all, v, k + 1)
  {
    var after := ResetStep(Run(w, h), u, a, balance, k);
    RunTwo(w, h, On(a, Submit(k, ResetDaily(balance))), On(a, Install(k)));
  }

  lemma NothingAmounts(w: World, next: nat)
    requires UnusedFrom(w, next)
    ensures Amounts(w, Begin, w, next)
  {
    assert Run(w, Begin) == w;
  }

  lemma {:induction false} ResetRunAmounts(w: World, balances: seq<(string, real)>, n: nat, first: nat, h: Trace<Event>, u: World, next: nat)
    requires n <= |balances| && UnusedFrom(w, first)
    requires h == Resets(balances, n, first) && u == ResetAll(w, balances, n) && next == first + n
    ensures Amounts(w, h, u, next)
  {
    if n == 0 {
      NothingAmounts(w, next);
    } else {
      var before, v := h.past.past, ResetAll(w, balances, n - 1);
      ResetRunAmounts(w, balances, n - 1, first, before, v, next - 1);
      AmountsAfter(w, before, v, balances[n - 1].0, balances[n - 1].1, next - 1, h, u);
    }
  }

  // Resetting all accounts is a run of one reset after the other, into which no other call cuts.
  lemma ResetAllIsRun(w: World, balances: seq<(string, real)>, first: nat)
    requires UnusedFrom(w, first)
    ensures SameRisks(Run(w, Resets(balances, |balances|, first)), ResetAll(w, balances, |balances|))
  {
    var n := |balances|;
    ResetRunAmounts(w, balances, n, first, Resets(balances, n, first), ResetAll(w, balances, n), first + n);
  }

  lemma InstalledFirst(w: World, a: string, n: nat, job: Job, r: R.Risk)
    ensures Performed(WithManager(w, a, r), a, n, job, r) == Performed(w, a, n, job, r)
  {
    assert w.managers[a := r][a := r] == w.managers[a := r];
    assert w.managers[a := r][a := Made(job, r)] == w.managers[a := Made(job, r)];
  }

  /* ---------------------------------------------------------------- the services */

  class RedisState {
    var risks: map<string, R.Risk>
    var statuses: map<string, Status>
    var violations: map<string, seq<Violation>>

    constructor ()
      ensures risks == map[] && statuses == map[] && violations == map[]
    {
      risks, statuses, violations := map[], map[], map[];
    }

    // Push at the front and trim.
    method RecordRiskViolation(a: string, v: Violation)
      modifies `violations
      ensures violations == old(violations)[a := Logged(if a in old(violations) then old(violations)[a] else [], v)]
    {
      var log := [v] + (if a in violations then violations[a] else []);
      if MAX_VIOLATIONS < |log| {
        log := log[..MAX_VIOLATIONS];
      }
      violations := violations[a := log];
    }
  }

  // The frames of the suspended calls, and what the finished ones came to.
  class EventLoop {
    var calls: map<string, map<nat, Call>>
    var results: map<string, map<nat, Result>>

    constructor ()
      ensures calls == map[] && results == map[]
    {
      calls, results := map[], map[];
    }

    method Suspend(a: string, n: nat, c: Call)
      modifies `calls
      ensures calls == old(calls)[a := (if a in old(calls) then old(calls)[a] else map[])[n := c]]
    {
      calls := calls[a := (if a in calls then calls[a] else map[])[n := c]];
    }

    method Finish(a: string, n: nat, r: Result)
      modifies this
      ensures calls == old(calls)[a := (if a in old(calls) then old(calls)[a] else map[]) - {n}]
      ensures results == old(results)[a := (if a in old(results) then old(results)[a] else map[])[n := r]]
    {
      calls := calls[a := (if a in calls then calls[a] else map[]) - {n}];
      results := results[a := (if a in results then results[a] else map[])[n := r]];
    }
  }

  // Risk managers by account, created on first use from the persisted state.
  class RiskStateRegistry {
    const redis: RedisState
    var managers: map<string, R.Risk>

    constructor (redis: RedisState)
      ensures this.redis == redis && managers == map[]
    {
      this.redis, managers := redis, map[];
    }

    // get_or_create up to its await: None when there is no manager and the stored state is on its way.
    method GetOrLoad(a: string) returns (manager: Option<R.Risk>, loaded: R.Risk)
      ensures manager == Lookup(managers, a)
      ensures manager.None? ==> loaded == if a in redis.risks then redis.risks[a] else R.ZERO
    {
      loaded := R.ZERO;
      if a in managers {
        manager := Some(managers[a]);
      } else {
        manager := None;
        if a in redis.risks {
          loaded := redis.risks[a];
        }
      }
    }

    // get_or_create after its await: it does not look whether a manager has appeared meanwhile.
    method InstallManager(a: string, loaded: R.Risk)
      modifies `managers
      ensures managers == old(managers)[a := loaded]
    {
      managers := managers[a := loaded];
    }

    // A mutation of the manager with the save it issues.
    method Update(a: string, r: R.Risk)
      modifies `managers, redis`risks
      ensures managers == old(managers)[a := r] && redis.risks == old(redis.risks)[a := r]
    {
      managers := managers[a := r];
      redis.risks := redis.risks[a := r];
    }

    // `w` is any world that shows this registry's managers and store; no other call cuts in.
    method ResetDailyAll(balances: seq<(string, real)>, ghost w: World)
      requires w.managers == managers && w.stored == redis.risks
      modifies `managers, redis`risks
      ensures ResetAll(w, balances, |balances|) == w.(managers := managers, stored := redis.risks)
    {
      for i := 0 to |balances|
        invariant ResetAll(w, balances, i) == w.(managers := managers, stored := redis.risks)
      {
        var (a, balance) := balances[i];
        ghost var before, stored := managers, redis.risks;
        var manager, loaded := GetOrLoad(a);
        if manager.None? {
          InstallManager(a, loaded);
        }
        var reset := R.WithReset(managers[a], balance);
        Update(a, reset);
        assert managers == before[a := reset] && redis.risks == stored[a := reset];
      }
    }
  }

  lemma SaveIs(w: World, a: string, n: nat)
    requires n in CallsOf(w, a) && CallsOf(w, a)[n].Changing?
    ensures Handle(w, a, Save(n)) == Saved(w, a, n, CallsOf(w, a)[n].request, CallsOf(w, a)[n].read)
  {
  }

  class AccountManager {
    const redis: RedisState
    const loop: EventLoop
    var accounts: set<string>
    var tasks: set<string>

    constructor (redis: RedisState, loop: EventLoop, accounts: set<string>)
      ensures this.redis == redis && this.loop == loop && this.accounts == accounts && tasks == {}
    {
      this.redis, this.loop, this.accounts, tasks := redis, loop, accounts, {};
    }

    // The part of a world that this manager works on.
    ghost predicate Shows(w: World)
      reads this, redis, loop
    {
      w.accounts == accounts && w.tasks == tasks && w.status == redis.statuses && w.calls == loop.calls && w.results == loop.results
    }

    ghost function With(w: World): World
      reads this, redis, loop
    {
      w.(accounts := accounts, tasks := tasks, status := redis.statuses, calls := loop.calls, results := loop.results)
    }

    // The first stretch of every lifecycle request.
    method ReadStatus(a: string, n: nat, request: Request, ghost w: World)
      requires Shows(w) && Fresh(w, a, n)
      modifies loop
      ensures With(w) == Handle(w, a, Read(n, request))
    {
      if a !in accounts {
        loop.Finish(a, n, Raised);
        return;
      }
      loop.Suspend(a, n, Changing(request, if a in redis.statuses then Some(redis.statuses[a]) else None));
    }

    // The second stretch of each: the check of the status read, and the save.
    method StartAccount(a: string, n: nat, ghost w: World)
      requires Shows(w) && n in CallsOf(w, a) && CallsOf(w, a)[n].Changing? && CallsOf(w, a)[n].request == Start
      modifies loop, redis`statuses
      ensures With(w) == Handle(w, a, Save(n))
    {
      SaveIs(w, a, n);
      var current := loop.calls[a][n].read;
      if current.Some? && !CanTransition(current.value, Active) {
        loop.Finish(a, n, Raised);
        return;
      }
      redis.statuses := redis.statuses[a := Active];
      loop.Finish(a, n, Returned);
    }

    method StopAccount(a: string, n: nat, ghost w: World)
      requires Shows(w) && n in CallsOf(w, a) && CallsOf(w, a)[n].Changing? && CallsOf(w, a)[n].request == Stop
      modifies loop, redis`statuses
      ensures With(w) == Handle(w, a, Save(n))
    {
      SaveIs(w, a, n);
      if loop.calls[a][n].read == Some(Stopped) {
        loop.Finish(a, n, Returned);
        return;
      }
      redis.statuses := redis.statuses[a := Stopped];
      loop.Finish(a, n, Returned);
    }

    method PauseAccount(a: string, n: nat, ghost w: World)
      requires Shows(w) && n in CallsOf(w, a) && CallsOf(w, a)[n].Changing? && CallsOf(w, a)[n].request == Pause
      modifies loop, redis`statuses
      ensures With(w) == Handle(w, a, Save(n))
    {
      SaveIs(w, a, n);
      var current := loop.calls[a][n].read;
      if current.None? || !CanTransition(current.value, Paused) {
        loop.Finish(a, n, Raised);
        return;
      }
      redis.statuses := redis.statuses[a := Paused];
      loop.Finish(a, n, Returned);
    }

    method ResumeAccount(a: string, n: nat, ghost w: World)
      requires Shows(w) && n in CallsOf(w, a) && CallsOf(w, a)[n].Changing? && CallsOf(w, a)[n].request == Resume
      modifies loop, redis`statuses
      ensures With(w) == Handle(w, a, Save(n))
    {
      SaveIs(w, a, n);
      if loop.calls[a][n].read != Some(Paused) {
        loop.Finish(a, n, Raised);
        return;
      }
      redis.statuses := redis.statuses[a := Active];
      loop.Finish(a, n, Returned);
    }

    method AcknowledgeError(a: string, n: nat, ghost w: World)
      requires Shows(w) && n in CallsOf(w, a) && CallsOf(w, a)[n].Changing? && CallsOf(w, a)[n].request == Acknowledge
      modifies loop, redis`statuses
      ensures With(w) == Handle(w, a, Save(n))
    {
      SaveIs(w, a, n);
      if loop.calls[a][n].read != Some(Errored) {
        loop.Finish(a, n, Raised);
        return;
      }
      redis.statuses := redis.statuses[a := Stopped];
      loop.Finish(a, n, Returned);
    }

    // Registers the task and saves "active" without reading; a running task is left alone.
    method SpawnAccountTask(a: string, ghost w: World)
      requires Shows(w)
      modifies `tasks, redis`statuses
      ensures With(w) == Handle(w, a, Spawn)
    {
      if a in tasks {
        return;
      }
      tasks := tasks + {a};
      redis.statuses := redis.statuses[a := Active];
    }

    // The account's loop ends, for whatever reason.
    method EndTask(a: string, ghost w: World)
      requires Shows(w)
      modifies `tasks
      ensures With(w) == Handle(w, a, Move.EndTask)
    {
      tasks := tasks - {a};
    }

    // Hot loading, up to the start of the task; raises for an account that is loaded already.
    method AddAccount(a: string, ghost w: World) returns (added: bool)
      requires Shows(w)
      modifies `accounts
      ensures added <==> a !in old(accounts)
      ensures With(w) == Handle(w, a, Move.AddAccount)
    {
      added := a !in accounts;
      if added {
        accounts := accounts + {a};
      }
    }

    // A failed recovery blocks the account, known or not.
    method BlockAfterRecovery(a: string, ghost w: World)
      requires Shows(w)
      modifies redis`statuses
      ensures With(w) == Handle(w, a, Block)
    {
      redis.statuses := redis.statuses[a := Errored];
    }

    // Saves without reading.
    method SetError(a: string, ghost w: World) returns (found: bool)
      requires Shows(w)
      modifies redis`statuses
      ensures found <==> a in accounts
      ensures With(w) == Handle(w, a, Move.SetError)
    {
      found := a in accounts;
      if found {
        redis.statuses := redis.statuses[a := Errored];
      }
    }
  }

  class RiskIsolationService {
    const redis: RedisState
    const loop: EventLoop
    const manager: AccountManager
    const registry: RiskStateRegistry

    ghost function State(): World
      reads redis, loop, registry, manager
    {
      World(manager.accounts, manager.tasks, registry.managers, redis.risks, redis.statuses, redis.violations, loop.calls, loop.results)
    }

    ghost predicate Valid() {
      manager.redis == redis && manager.loop == loop && registry.redis == redis
    }

    ghost predicate IsAt(a: string, n: nat, move: Move)
      reads redis, loop, registry, manager
    {
      n in CallsOf(State(), a) && Suspended(CallsOf(State(), a)[n], move)
    }

    constructor (manager: AccountManager, registry: RiskStateRegistry)
      requires manager.redis == registry.redis
      ensures Valid() && this.manager == manager && this.registry == registry
    {
      this.manager, this.registry := manager, registry;
      this.redis, this.loop := registry.redis, manager.loop;
    }

    // A call begins; a locked job waits for the lock before this.
    method Submit(a: string, n: nat, job: Job)
      requires Valid() && Fresh(State(), a, n) && (Locked(job) ==> !LockHeld(CallsOf(State(), a)))
      modifies registry, redis, loop
      ensures State() == Handle(old(State()), a, Move.Submit(n, job))
    {
      if job == CheckPreTrade([]) {
        loop.Finish(a, n, Decided(true));
        return;
      }
      var found, loaded := registry.GetOrLoad(a);
      if found.None? {
        loop.Suspend(a, n, Loading(job, loaded));
      } else {
        Perform(a, n, job);
        assert registry.managers == old(registry.managers)[a := Made(job, found.value)];
      }
    }

    // The stored state has arrived.
    method Install(a: string, n: nat)
      requires Valid() && IsAt(a, n, Move.Install(n))
      modifies registry, redis, loop
      ensures State() == Handle(old(State()), a, Move.Install(n))
    {
      var job, loaded := loop.calls[a][n].job, loop.calls[a][n].loaded;
      ghost var before := State();
      registry.InstallManager(a, loaded);
      assert State() == WithManager(before, a, loaded);
      InstalledFirst(before, a, n, job, loaded);
      Perform(a, n, job);
    }

    // The job on the registered manager.
    method Perform(a: string, n: nat, job: Job)
      requires Valid() && a in registry.managers
      modifies registry, redis, loop
      ensures State() == Performed(old(State()), a, n, job, old(registry.managers[a]))
      ensures registry.managers == old(registry.managers)[a := Made(job, old(registry.managers[a]))]
    {
      var r := registry.managers[a];
      match job
      case EquityUpdate(equity, _) =>
        registry.Update(a, R.WithEquity(r, equity));
        loop.Suspend(a, n, Checking(job));
      case TradeCompleted(pnl, _) =>
        registry.Update(a, R.WithTrade(r, pnl));
        loop.Suspend(a, n, Checking(job));
      case ResetDaily(balance) =>
        registry.Update(a, R.WithReset(r, balance));
        loop.Finish(a, n, Returned);
      case CheckPreTrade(rules) =>
        assert registry.managers[a := r] == registry.managers;
        var allowed := Decide(r, rules);
        loop.Finish(a, n, if allowed.None? then Raised else Decided(allowed.value));
    }

    // The loop over the rules with its early return.
    method Decide(r: R.Risk, rules: seq<RuleConfig>) returns (allowed: Option<bool>)
      ensures allowed == PreTrade(r, rules)
    {
      for i := 0 to |rules|
        invariant PreTrade(r, rules) == PreTrade(r, rules[i..])
      {
        var violated := Violates(r, rules[i]);
        if violated.None? {
          return None;
        }
        if violated.value {
          return Some(false);
        }
      }
      allowed := Some(true);
    }

    // The check of an update, up to the read of the status.
    method Check(a: string, n: nat)
      requires Valid() && IsAt(a, n, Move.Check(n)) && a in registry.managers
      modifies loop
      ensures State() == Handle(old(State()), a, Move.Check(n))
    {
      var job, r := loop.calls[a][n].job, registry.managers[a];
      var violated, current := false, 0.0;
      match job {
        case EquityUpdate(_, limit) => violated, current := r.totalDrawdownPercent >= limit, r.totalDrawdownPercent;
        case TradeCompleted(_, limit) =>
          violated, current := R.Abs(r.dailyPnlPercent) >= limit && r.dailyPnl < 0.0, r.dailyPnlPercent;
        case _ =>
      }
      if !violated {
        loop.Finish(a, n, Returned);
        return;
      }
      if a !in manager.accounts {
        loop.Finish(a, n, Raised);
        return;
      }
      var entry := Violation(if job.EquityUpdate? then MaxDrawdown else DailyLoss, current, job.limit);
      loop.Suspend(a, n, Pausing(entry, if a in redis.statuses then Some(redis.statuses[a]) else None));
    }

    // Pause by the status read; only then is the violation recorded.
    method PauseForViolation(a: string, n: nat)
      requires Valid() && IsAt(a, n, SavePause(n))
      modifies loop, redis
      ensures State() == Handle(old(State()), a, SavePause(n))
    {
      var entry, current := loop.calls[a][n].entry, loop.calls[a][n].read;
      if current.None? || !CanTransition(current.value, Paused) {
        loop.Finish(a, n, Raised);
        return;
      }
      redis.statuses := redis.statuses[a := Paused];
      loop.Suspend(a, n, Recording(entry));
    }

    method RecordViolation(a: string, n: nat)
      requires Valid() && IsAt(a, n, Record(n))
      modifies loop, redis
      ensures State() == Handle(old(State()), a, Record(n))
    {
      redis.RecordRiskViolation(a, loop.calls[a][n].entry);
      loop.Finish(a, n, Returned);
    }
  }
}
