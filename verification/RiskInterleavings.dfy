// What can happen to one account when its calls are interleaved at their awaits: changes of status by
// requests that another call has overtaken, and managers that two calls create at once.
module RiskInterleavings {
  import opened Options
  import opened Traces
  import opened RiskIsolation
  import R = RiskState

  /* ------------------------------------------------------------- the status table */

  // A change of status that the transition table lists.
  predicate Lawful(before: Option<Status>, after: Option<Status>) {
    before.None? || before == after || (after.Some? && CanTransition(before.value, after.value))
  }

  // The status that the move saves, if it saves one.
  function SavedBy(v: Account, move: Move): Option<Status> {
    match move
    case SavePause(n) => if At(v, n, move) && v.calls[n].read == Some(Active) then Some(Paused) else None
    case Save(n) => if At(v, n, move) && Saves(v.calls[n].request, v.calls[n].read) then Some(Target(v.calls[n].request)) else None
    case SetError => if v.known then Some(Errored) else None
    case Spawn => if v.task then None else Some(Active)
    case Block => Some(Errored)
    case _ => None
  }

  // Only saves change a status, by overwriting it.
  lemma StatusFollowsSaves(v: Account, move: Move)
    ensures Alone(v, move).status == if SavedBy(v, move).Some? then SavedBy(v, move) else v.status
  {
  }

  // The save of the move that is not preceded by a read meets a status it may not follow.
  predicate UncheckedLeaves(v: Account, move: Move) {
    match move
    case SetError => v.known && v.status == Some(Stopped)
    case Block => v.status == Some(Stopped)
    case Spawn => !v.task && v.status == Some(Errored)
    case _ => false
  }

  // A pause meets an account stopped or in error since it read "active"; a start or resume one that
  // fell into error since; or the save is unchecked.
  predicate MeetsForbidden(v: Account, move: Move) {
    match move
    case SavePause(n) => At(v, n, move) && v.calls[n].read == Some(Active) && (v.status == Some(Stopped) || v.status == Some(Errored))
    case Save(n) =>
      At(v, n, move) &&
      var q, read := v.calls[n].request, v.calls[n].read;
      || (q.Pause? && read == Some(Active) && (v.status == Some(Stopped) || v.status == Some(Errored)))
      || (q.Start? && read != Some(Active) && read != Some(Errored) && v.status == Some(Errored))
      || (q.Resume? && read == Some(Paused) && v.status == Some(Errored))
    case _ => UncheckedLeaves(v, move)
  }

  // A change of status leaves the transition table in exactly these cases: a stop or an acknowledgement
  // never does, a pause only over a stop or an error, a start or resume only over an error; and of the
  // unchecked saves, set_error and a failed recovery over a stop, and the start of a task over an error.
  lemma LeavesTableIffOvertaken(v: Account, move: Move)
    ensures Lawful(v.status, Alone(v, move).status) <==> !MeetsForbidden(v, move)
  {
    StatusFollowsSaves(v, move);
  }

  // No suspended request has been overtaken: the status is still the one it read.
  ghost predicate Undisturbed(v: Account) {
    forall n :: n in v.calls ==>
      && (v.calls[n].Changing? ==> v.calls[n].read == v.status)
      && (v.calls[n].Pausing? ==> v.calls[n].read == v.status)
  }

  lemma UndisturbedMeetsOnlyUnchecked(v: Account, move: Move)
    requires Undisturbed(v)
    ensures MeetsForbidden(v, move) <==> UncheckedLeaves(v, move)
  {
  }

  // While no other call changes the status between a request's read and its save, a change of status
  // leaves the transition table exactly when it is one of the unchecked saves.
  lemma LifecycleFollowsTable(w: World, e: Event, a: string)
    requires Undisturbed(View(w, a))
    ensures Lawful(View(w, a).status, View(Apply(w, e), a).status) <==>
            !(e.On? && e.account == a && UncheckedLeaves(View(w, a), e.move))
  {
    match e
    case On(b, move) =>
      HandleIsAlone(w, b, move);
      if b == a {
        LeavesTableIffOvertaken(View(w, a), move);
        UndisturbedMeetsOnlyUnchecked(View(w, a), move);
      }
    case Restart => RestartIsAlone(w, a);
  }

  // A step that leaves the table was overtaken: the status it read is no longer the status.
  lemma LeavingIsOvertaken(v: Account, n: nat)
    requires MeetsForbidden(v, Save(n)) || MeetsForbidden(v, SavePause(n))
    ensures n in v.calls && (v.calls[n].Changing? || v.calls[n].Pausing?) && v.calls[n].read != v.status
  {
  }

  lemma SetErrorLeavesTable(v: Account)
    requires v.known && v.status == Some(Stopped)
    ensures Alone(v, SetError).status == Some(Errored) && !Lawful(v.status, Some(Errored))
  {
  }

  // An account paused for a violation trades again after a restart, without a request, when its task is
  // started with the others; the violation is still on its log.
  lemma RestartUnpauses(w: World, a: string)
    requires a in w.status && w.status[a] == Paused
    ensures var t := View(Run(w, Then(Then(Begin, Restart), On(a, Spawn))), a);
            t.status == Some(Active) && t.violations == View(w, a).violations && t.calls == Survivors(CallsOf(w, a))
  {
    assert Run(w, Begin) == w;
    var restarted := Apply(w, Restart);
    assert Run(w, Then(Begin, Restart)) == restarted;
    RestartIsAlone(w, a);
    HandleIsAlone(restarted, a, Spawn);
  }

  lemma ReadOfActive(v: Account, n: nat, q: Request)
    requires v.known && v.status == Some(Active) && Unused(v, n)
    ensures Alone(v, Read(n, q)) == Goes(v, n, Changing(q, Some(Active)))
  {
  }

  lemma SaveOfActive(v: Account, n: nat, q: Request)
    requires n in v.calls && v.calls[n] == Changing(q, Some(Active)) && (q.Pause? || q.Stop?)
    ensures Alone(v, Save(n)) == Ends(v.(status := Some(Target(q))), n, Returned)
  {
  }

  // A pause and a stop of an active account, of which both read before either saves: the pause
  // undoes the stop, and both return normally.
  lemma PauseUndoesStop(v: Account, p: nat, s: nat)
    requires v.known && v.status == Some(Active) && Unused(v, p) && Unused(v, s) && p != s
    ensures var h := Then(Then(Then(Then(Begin, Do(Read(p, Pause))), Do(Read(s, Stop))), Do(Save(s))), Do(Save(p)));
            && RunAlone(v, h.past).status == Some(Stopped) && RunAlone(v, h).status == Some(Paused)
            && RunAlone(v, h).results == v.results[s := Returned][p := Returned]
            && !Lawful(RunAlone(v, h.past).status, RunAlone(v, h).status)
  {
    var h := Then(Then(Then(Then(Begin, Do(Read(p, Pause))), Do(Read(s, Stop))), Do(Save(s))), Do(Save(p)));
    var v1 := Goes(v, p, Changing(Pause, Some(Active)));
    ReadOfActive(v, p, Pause);
    assert RunAlone(v, h.past.past.past.past) == v;
    StepRuns(v, h.past.past.past, v, v1);
    var v2 := Goes(v1, s, Changing(Stop, Some(Active)));
    ReadOfActive(v1, s, Stop);
    StepRuns(v, h.past.past, v1, v2);
    var v3 := Ends(v2.(status := Some(Stopped)), s, Returned);
    SaveOfActive(v2, s, Stop);
    StepRuns(v, h.past, v2, v3);
    SaveOfActive(v3, p, Pause);
    StepRuns(v, h, v3, Ends(v3.(status := Some(Paused)), p, Returned));
  }

  // The requests that let an account trade.
  predicate Releasing(q: Request) {
    q.Start? || q.Resume?
  }

  // An account that is not active becomes active exactly by the save of a start or resume that was
  // allowed at its read, or by the start of its task.
  lemma ActivatedIff(v: Account, move: Move)
    requires v.status != Some(Active)
    ensures Alone(v, move).status == Some(Active) <==>
              || (move.Spawn? && !v.task)
              || (move.Save? && At(v, move.call, move) && Releasing(v.calls[move.call].request)
                  && Allows(v.calls[move.call].request, v.calls[move.call].read))
  {
    StatusFollowsSaves(v, move);
  }

  // Neither requests of that kind nor starts of the account's task.
  ghost predicate NoRelease(h: Trace<Happening>) {
    h.Then? ==>
      && NoRelease(h.past)
      && (h.last.Do? ==> !h.last.move.Spawn? && !(h.last.move.Read? && Releasing(h.last.move.request)))
  }

  ghost predicate NoneReleasing(v: Account) {
    forall n :: n in v.calls && v.calls[n].Changing? ==> !Releasing(v.calls[n].request)
  }

  // An account that is not active stays so until a start or resume is requested or its task is started,
  // whatever else runs.
  lemma {:induction false} PausedStaysInactive(v: Account, h: Trace<Happening>)
    requires v.status.Some? && v.status != Some(Active) && NoneReleasing(v) && NoRelease(h)
    ensures var t := RunAlone(v, h); t.status.Some? && t.status != Some(Active) && NoneReleasing(t)
  {
    if h.Then? {
      PausedStaysInactive(v, h.past);
      var t := RunAlone(v, h.past);
      if h.last.Do? {
        StatusFollowsSaves(t, h.last.move);
        ActivatedIff(t, h.last.move);
        MoveReleasesNothing(t, h.last.move);
      }
    }
  }

  ghost predicate RequestIsOld(v: Account, move: Move, n: nat) {
    n in Alone(v, move).calls && Alone(v, move).calls[n].Changing? ==>
      || (n in v.calls && v.calls[n] == Alone(v, move).calls[n])
      || (move.Read? && Alone(v, move).calls[n].request == move.request)
  }

  lemma JobsMakeNoRequest(v: Account, move: Move, n: nat)
    requires move.Submit? || move.Install? || move.Check?
    ensures RequestIsOld(v, move, n)
  {
  }

  lemma OthersMakeNoRequest(v: Account, move: Move, n: nat)
    requires !move.Submit? && !move.Install? && !move.Check?
    ensures RequestIsOld(v, move, n)
  {
  }

  // Only a read puts a request among the calls.
  lemma RequestsComeFromReads(v: Account, move: Move, n: nat)
    ensures RequestIsOld(v, move, n)
  {
    if move.Submit? || move.Install? || move.Check? {
      JobsMakeNoRequest(v, move, n);
    } else {
      OthersMakeNoRequest(v, move, n);
    }
  }

  lemma MoveReleasesNothing(v: Account, move: Move)
    requires NoneReleasing(v) && !(move.Read? && Releasing(move.request))
    ensures NoneReleasing(Alone(v, move))
  {
    var t := Alone(v, move);
    forall n | n in t.calls && t.calls[n].Changing?
      ensures !Releasing(t.calls[n].request)
    {
      RequestsComeFromReads(v, move, n);
    }
  }

  /* ----------------------------------------------------------- the violation log */

  // The violations that the account's own calls have recorded, oldest first.
  function RecordedBy(v: Account, h: Trace<Happening>): seq<Violation> {
    match h
    case Begin => []
    case Then(past, Do(Record(n))) =>
      var t := RunAlone(v, past);
      RecordedBy(v, past) + if n in t.calls && t.calls[n].Recording? then [t.calls[n].entry] else []
    case Then(past, _) => RecordedBy(v, past)
  }

  // The newest recorded ones on top, then those from before, and no more than 1000.
  ghost predicate IsNewest(log: seq<Violation>, recorded: seq<Violation>, before: seq<Violation>) {
    && |log| == (if |recorded| + |before| < 1000 then |recorded| + |before| else 1000)
    && forall i :: 0 <= i < |log| ==> log[i] == if i < |recorded| then recorded[|recorded| - 1 - i] else before[i - |recorded|]
  }

  lemma LogAfterMove(v: Account, move: Move)
    ensures Alone(v, move).violations == if move.Record? && At(v, move.call, move) then Logged(v.violations, v.calls[move.call].entry)
                                         else v.violations
  {
  }

  lemma LoggedIsNewest(log: seq<Violation>, recorded: seq<Violation>, before: seq<Violation>, entry: Violation)
    requires IsNewest(log, recorded, before)
    ensures IsNewest(Logged(log, entry), recorded + [entry], before)
  {
    var pushed, all := Logged(log, entry), recorded + [entry];
    forall i | 0 <= i < |pushed|
      ensures pushed[i] == if i < |all| then all[|all| - 1 - i] else before[i - |all|]
    {
      assert pushed[i] == if i == 0 then entry else log[i - 1];
      assert 0 < i < |all| ==> all[|all| - 1 - i] == recorded[|recorded| - i];
    }
  }

  // After any run, with restarts and calls abandoned anywhere, the account's log holds exactly its newest
  // thousand violations, the newest on top.
  lemma {:induction false} LogHoldsNewest(v: Account, h: Trace<Happening>)
    requires |v.violations| <= 1000
    ensures IsNewest(RunAlone(v, h).violations, RecordedBy(v, h), v.violations)
  {
    if h.Then? {
      LogHoldsNewest(v, h.past);
      var t := RunAlone(v, h.past);
      if h.last.Do? {
        LogAfterMove(t, h.last.move);
        if h.last.move.Record? && At(t, h.last.move.call, h.last.move) {
          LoggedIsNewest(t.violations, RecordedBy(v, h.past), v.violations, t.calls[h.last.move.call].entry);
        }
      }
    }
  }

  /* ------------------------------------------------------- creating the managers */

  // The job that the move does to the account's risk, if it does one.
  function JobDone(v: Account, x: Happening): Option<Job> {
    if x.Reboot? then None
    else match x.move
      case Submit(n, job) =>
        if Starts(v, n, job) && job != CheckPreTrade([]) && v.manager.Some? then Some(job) else None
      case Install(n) => if At(v, n, x.move) then Some(v.calls[n].job) else None
      case _ => None
  }

  // The account's jobs done in order on its first risk: what its risk should be.
  function Followed(v: Account, h: Trace<Happening>): R.Risk {
    match h
    case Begin => Risk(v)
    case Then(past, x) =>
      var job := JobDone(RunAlone(v, past), x);
      if job.None? then Followed(v, past) else Made(job.value, Followed(v, past))
  }

  ghost predicate IsLoading(v: Account, n: nat) {
    n in v.calls && v.calls[n].Loading?
  }

  ghost predicate NoneLoading(v: Account) {
    forall n :: !IsLoading(v, n)
  }

  // What is in memory is what a restart would load, and only one call is creating the manager, from
  // what is stored.
  ghost predicate Settled(v: Account) {
    && (v.manager.Some? ==> v.manager.value == GetOr(v.stored, R.ZERO) && NoneLoading(v))
    && (forall n :: IsLoading(v, n) ==> v.calls[n].loaded == GetOr(v.stored, R.ZERO))
    && (forall n, m :: IsLoading(v, n) && IsLoading(v, m) ==> n == m)
  }

  // The move begins to create the manager.
  predicate BeginsLoading(v: Account, move: Move, n: nat) {
    move.Submit? && move.call == n && Starts(v, n, move.job) && move.job != CheckPreTrade([]) && v.manager.None?
  }

  // A first use of the account does not begin while another is under way.
  ghost predicate FirstUsesApart(v: Account, h: Trace<Happening>) {
    match h
    case Begin => true
    case Then(past, x) =>
      && FirstUsesApart(v, past)
      && var t := RunAlone(v, past);
         x.Do? && x.move.Submit? && BeginsLoading(t, x.move, x.move.call) ==> NoneLoading(t)
  }

  ghost predicate LoadsAfter(v: Account, move: Move, n: nat) {
    && (IsLoading(Alone(v, move), n) <==>
          BeginsLoading(v, move, n) || (IsLoading(v, n) && move != Install(n) && move != Abandon(n)))
    && (IsLoading(Alone(v, move), n) ==>
          Alone(v, move).calls[n].loaded == if IsLoading(v, n) then v.calls[n].loaded else GetOr(v.stored, R.ZERO))
  }

  lemma SubmitLoads(v: Account, call: nat, job: Job, n: nat)
    ensures LoadsAfter(v, Submit(call, job), n)
  {
  }

  lemma InstallLoads(v: Account, call: nat, n: nat)
    ensures LoadsAfter(v, Install(call), n)
  {
  }

  lemma UpdateLoads(v: Account, move: Move, n: nat)
    requires move.Check? || move.SavePause? || move.Record?
    ensures LoadsAfter(v, move, n)
  {
  }

  lemma OtherLoads(v: Account, move: Move, n: nat)
    requires !move.Submit? && !move.Install? && !move.Check? && !move.SavePause? && !move.Record?
    ensures LoadsAfter(v, move, n)
  {
  }

  // Which calls are creating the manager after a move, and from what.
  lemma LoadingAfter(v: Account, move: Move, n: nat)
    ensures LoadsAfter(v, move, n)
  {
    match move
    case Submit(call, job) => SubmitLoads(v, call, job, n);
    case Install(call) => InstallLoads(v, call, n);
    case Check(_) => UpdateLoads(v, move, n);
    case SavePause(_) => UpdateLoads(v, move, n);
    case Record(_) => UpdateLoads(v, move, n);
    case _ => OtherLoads(v, move, n);
  }

  // Manager and store agree.
  predicate Synced(v: Account) {
    v.manager == Some(GetOr(v.stored, R.ZERO))
  }

  ghost predicate ManagesAfter(v: Account, move: Move) {
    var t := Alone(v, move);
    && (t.manager.Some? <==> v.manager.Some? || (move.Install? && IsLoading(v, move.call)))
    && (v.manager.None? && t.manager.None? ==> t.stored == v.stored)
    && (Synced(v) && !(move.Install? && IsLoading(v, move.call)) ==> Synced(t))
    && (move.Install? && IsLoading(v, move.call) && v.calls[move.call].loaded == GetOr(v.stored, R.ZERO) ==> Synced(t))
  }

  lemma SubmitManages(v: Account, call: nat, job: Job)
    ensures ManagesAfter(v, Submit(call, job))
  {
  }

  lemma InstallManages(v: Account, call: nat)
    ensures ManagesAfter(v, Install(call))
  {
  }

  // Every manager that is being created is so for an update, under the account's lock.
  ghost predicate LoadsAreLocked(v: Account) {
    forall n :: IsLoading(v, n) ==> v.calls[n].job.EquityUpdate? || v.calls[n].job.TradeCompleted?
  }

  // Nothing but updates is submitted.
  predicate OnlyUpdates(h: Trace<Happening>) {
    h.Then? ==>
      && OnlyUpdates(h.past)
      && (h.last.Do? && h.last.move.Submit? ==> h.last.move.job.EquityUpdate? || h.last.move.job.TradeCompleted?)
  }

  // An update waits exactly while another one is creating the manager; a reset or a check never does.
  lemma WaitsIffLocked(v: Account, n: nat, job: Job)
    requires Unused(v, n)
    ensures Alone(v, Submit(n, job)) == v <==>
              && (job.EquityUpdate? || job.TradeCompleted?)
              && exists m :: IsLoading(v, m) && (v.calls[m].job.EquityUpdate? || v.calls[m].job.TradeCompleted?)
  {
    var t := Alone(v, Submit(n, job));
    assert t == v || n in t.calls || n in t.results;
    if m :| IsLoading(v, m) && (v.calls[m].job.EquityUpdate? || v.calls[m].job.TradeCompleted?) {
      assert Locked(v.calls[m].job) && LockHeld(v.calls);
    }
  }

  lemma SubmitKeepsJobs(v: Account, move: Move, n: nat)
    requires IsLoading(Alone(v, move), n)
    ensures if IsLoading(v, n) then Alone(v, move).calls[n].job == v.calls[n].job
            else move.Submit? && move.call == n && Alone(v, move).calls[n].job == move.job
  {
    LoadingAfter(v, move, n);
  }

  // Updates alone never create the manager twice: under the lock their first uses do not overlap,
  // whatever is abandoned or restarted between them.
  lemma {:induction false} UpdatesDoNotOverlap(v: Account, h: Trace<Happening>)
    requires LoadsAreLocked(v) && OnlyUpdates(h)
    ensures LoadsAreLocked(RunAlone(v, h)) && FirstUsesApart(v, h)
  {
    if h.Then? {
      UpdatesDoNotOverlap(v, h.past);
      var t := RunAlone(v, h.past);
      if h.last.Do? {
        forall n | IsLoading(Alone(t, h.last.move), n)
          ensures Locked(Alone(t, h.last.move).calls[n].job)
        {
          SubmitKeepsJobs(t, h.last.move, n);
        }
      }
    }
  }

  // All other moves leave manager and store alone.
  lemma OtherKeepsRisk(v: Account, move: Move)
    requires !move.Submit? && !move.Install?
    ensures Alone(v, move).manager == v.manager && Alone(v, move).stored == v.stored
  {
  }

  lemma ManagerAfter(v: Account, move: Move)
    ensures ManagesAfter(v, move)
  {
    match move
    case Submit(call, job) => SubmitManages(v, call, job);
    case Install(call) => InstallManages(v, call);
    case _ => OtherKeepsRisk(v, move);
  }

  lemma MoveKeepsSettled(v: Account, move: Move)
    requires Settled(v)
    requires move.Submit? && BeginsLoading(v, move, move.call) ==> NoneLoading(v)
    ensures Settled(Alone(v, move))
  {
    var t := Alone(v, move);
    ManagerAfter(v, move);
    forall n
      ensures IsLoading(t, n) ==> t.manager.None? && t.calls[n].loaded == GetOr(t.stored, R.ZERO)
    {
      LoadingAfter(v, move, n);
    }
    forall n, m | IsLoading(t, n) && IsLoading(t, m)
      ensures n == m
    {
      LoadingAfter(v, move, n);
      LoadingAfter(v, move, m);
    }
  }

  lemma RestartKeepsSettled(v: Account)
    requires Settled(v)
    ensures Settled(Restarted(v)) && Risk(Restarted(v)) == Risk(v)
  {
  }

  lemma JobIsDone(v: Account, move: Move)
    requires Settled(v)
    ensures Risk(Alone(v, move)) == if JobDone(v, Do(move)).None? then Risk(v) else Made(JobDone(v, Do(move)).value, Risk(v))
  {
  }

  lemma StepKeepsSettled(v: Account, x: Happening)
    requires Settled(v)
    requires x.Do? && x.move.Submit? && BeginsLoading(v, x.move, x.move.call) ==> NoneLoading(v)
    ensures Settled(Happens(v, x))
    ensures Risk(Happens(v, x)) == if JobDone(v, x).None? then Risk(v) else Made(JobDone(v, x).value, Risk(v))
  {
    if x.Do? {
      MoveKeepsSettled(v, x.move);
      JobIsDone(v, x.move);
    } else {
      RestartKeepsSettled(v);
    }
  }

  // When first uses of the account do not overlap, its risk is at every moment that of its jobs in the
  // order they were done, restarts leave no trace, and memory and store agree.
  lemma {:induction false} RiskFollowsJobs(v: Account, h: Trace<Happening>)
    requires Settled(v) && FirstUsesApart(v, h)
    ensures Settled(RunAlone(v, h)) && Risk(RunAlone(v, h)) == Followed(v, h)
  {
    if h.Then? {
      RiskFollowsJobs(v, h.past);
      StepKeepsSettled(RunAlone(v, h.past), h.last);
    }
  }

  // So no equity update and no completed trade is ever lost, however they are interleaved, as long as no
  // reset or check is among the account's calls.
  lemma UpdatesAreNeverLost(v: Account, h: Trace<Happening>)
    requires Settled(v) && LoadsAreLocked(v) && OnlyUpdates(h)
    ensures Risk(RunAlone(v, h)) == Followed(v, h)
  {
    UpdatesDoNotOverlap(v, h);
    RiskFollowsJobs(v, h);
  }

  // In the world of all accounts likewise, whatever the other accounts do.
  lemma RiskIsOfOwnJobs(w: World, h: Trace<Event>, a: string)
    requires Settled(View(w, a)) && FirstUsesApart(View(w, a), Own(h, a))
    ensures Settled(View(Run(w, h), a)) && Risk(View(Run(w, h), a)) == Followed(View(w, a), Own(h, a))
  {
    AccountsDoNotInterfere(w, h, a);
    RiskFollowsJobs(View(w, a), Own(h, a));
  }

  predicate NoReboot(h: Trace<Happening>) {
    h.Then? ==> NoReboot(h.past) && h.last.Do?
  }

  // Whatever calls come next in this process, the account's risk will be that of its jobs in order.
  ghost predicate AlwaysFollows(v: Account) {
    forall h :: NoReboot(h) ==> Risk(RunAlone(v, h)) == Followed(v, h)
  }

  lemma {:induction false} ManagedFollows(v: Account, h: Trace<Happening>)
    requires v.manager.Some? && NoneLoading(v) && NoReboot(h)
    ensures var t := RunAlone(v, h); t.manager.Some? && NoneLoading(t) && Risk(t) == Followed(v, h)
  {
    if h.Then? {
      ManagedFollows(v, h.past);
      ManagedMove(RunAlone(v, h.past), h.last.move);
    }
  }

  lemma ManagedMove(v: Account, move: Move)
    requires v.manager.Some? && NoneLoading(v)
    ensures var t, job := Alone(v, move), JobDone(v, Do(move));
            t.manager.Some? && NoneLoading(t) && Risk(t) == if job.None? then Risk(v) else Made(job.value, Risk(v))
  {
    forall n
      ensures !IsLoading(Alone(v, move), n)
    {
      LoadingAfter(v, move, n);
    }
    assert move.Install? ==> !IsLoading(v, move.call);
  }

  // Call n does its job while call c is creating the manager, which then installs what it loaded.
  function Overtaking(c: nat, n: nat, job: Job): Trace<Happening> {
    Then(Then(Then(Begin, Do(Submit(n, job))), Do(Install(n))), Do(Install(c)))
  }

  lemma OvertakingHasNoReboot(c: nat, n: nat, job: Job)
    ensures NoReboot(Overtaking(c, n, job))
  {
    var h := Overtaking(c, n, job);
    assert NoReboot(h.past.past.past);
    assert NoReboot(h.past.past);
    assert NoReboot(h.past);
  }

  lemma JobIsDoneMeanwhile(v: Account, c: nat, n: nat, job: Job)
    requires IsLoading(v, c) && Unused(v, n) && (Locked(job) ==> !LockHeld(v.calls)) && !job.CheckPreTrade?
    ensures var h := Overtaking(c, n, job).past;
            && Followed(v, h) == Made(job, Risk(v))
            && c in RunAlone(v, h).calls && RunAlone(v, h).calls[c] == v.calls[c]
  {
    var h := Overtaking(c, n, job).past;
    assert RunAlone(v, h.past.past) == v;
    var t := RunAlone(v, h.past);
    assert t == Alone(v, Submit(n, job));
    assert RunAlone(v, h) == Alone(t, Install(n));
    assert Followed(v, h.past) == if v.manager.Some? then Made(job, Risk(v)) else Risk(v);
    if v.manager.None? {
      assert t.calls[n].Loading? && t.calls[n].job == job;
    }
  }

  lemma InstallMakes(v: Account, c: nat)
    requires IsLoading(v, c)
    ensures Risk(Alone(v, Install(c))) == Made(v.calls[c].job, v.calls[c].loaded)
    ensures JobDone(v, Do(Install(c))) == Some(v.calls[c].job)
  {
  }

  lemma OvertakenJobIsLost(v: Account, c: nat, n: nat, job: Job)
    requires IsLoading(v, c) && Unused(v, n) && (Locked(job) ==> !LockHeld(v.calls)) && !job.CheckPreTrade?
    ensures var h := Overtaking(c, n, job);
            && Risk(RunAlone(v, h)) == Made(v.calls[c].job, v.calls[c].loaded)
            && Followed(v, h) == Made(v.calls[c].job, Made(job, Risk(v)))
  {
    JobIsDoneMeanwhile(v, c, n, job);
    var h := Overtaking(c, n, job);
    var t := RunAlone(v, h.past);
    InstallMakes(t, c);
    assert h.last == Do(Install(c));
    assert RunAlone(v, h) == Alone(t, Install(c));
  }

  lemma BoundOf(s: set<nat>) returns (b: nat)
    ensures forall x :: x in s ==> x < b
  {
    if s == {} {
      b := 0;
    } else {
      var y :| y in s;
      var c := BoundOf(s - {y});
      b := if y < c then c else y + 1;
      forall x | x in s
        ensures x < b
      {
        assert x == y || x in s - {y};
      }
    }
  }

  lemma UnusedCall(v: Account) returns (n: nat)
    ensures Unused(v, n)
  {
    n := BoundOf(v.calls.Keys + v.results.Keys);
  }

  // While a call is creating the manager, some other call can have its job forgotten.
  lemma LoadingIsUnsafe(v: Account, c: nat)
    requires IsLoading(v, c)
    ensures !AlwaysFollows(v)
  {
    var n := UnusedCall(v);
    if !v.calls[c].job.ResetDaily? {
      ResetIsLost(v, c, n);
    } else if LockHeld(v.calls) {
      var m :| m in v.calls && v.calls[m].Loading? && Locked(v.calls[m].job);
      ResetIsLost(v, m, n);
    } else {
      var job := EquityUpdate(v.calls[c].loaded.peakEquity + 1.0, 0.0);
      OvertakenJobIsLost(v, c, n, job);
      assert Made(v.calls[c].job, Made(job, Risk(v))).peakEquity > v.calls[c].loaded.peakEquity;
      OvertakingHasNoReboot(c, n, job);
    }
  }

  lemma ResetIsLost(v: Account, c: nat, n: nat)
    requires IsLoading(v, c) && !v.calls[c].job.ResetDaily? && Unused(v, n)
    ensures !AlwaysFollows(v)
  {
    var job := ResetDaily(v.calls[c].loaded.dailyStartingBalance + 1.0);
    OvertakenJobIsLost(v, c, n, job);
    assert Made(v.calls[c].job, Made(job, Risk(v))).dailyStartingBalance != v.calls[c].loaded.dailyStartingBalance;
    OvertakingHasNoReboot(c, n, job);
  }

  function Prepended(x: Happening, h: Trace<Happening>): Trace<Happening> {
    match h
    case Begin => Then(Begin, x)
    case Then(past, y) => Then(Prepended(x, past), y)
  }

  lemma {:induction false} PrependedRuns(v: Account, x: Happening, h: Trace<Happening>)
    requires Followed(v, Then(Begin, x)) == Risk(Happens(v, x)) && x.Do? && NoReboot(h)
    ensures RunAlone(v, Prepended(x, h)) == RunAlone(Happens(v, x), h)
    ensures Followed(v, Prepended(x, h)) == Followed(Happens(v, x), h)
    ensures NoReboot(Prepended(x, h))
  {
    if h.Then? {
      PrependedRuns(v, x, h.past);
    } else {
      assert RunAlone(v, Begin) == v;
    }
  }

  // Without a manager, a check can begin to create one.
  lemma NoManagerIsUnsafe(v: Account)
    requires v.manager.None? && NoneLoading(v)
    ensures !AlwaysFollows(v)
  {
    var n := UnusedCall(v);
    var x := Do(Submit(n, CheckPreTrade([RuleConfig(DailyLoss, 0.0)])));
    var t := Happens(v, x);
    assert RunAlone(v, Begin) == v;
    assert IsLoading(t, n);
    LoadingIsUnsafe(t, n);
    var h :| NoReboot(h) && Risk(RunAlone(t, h)) != Followed(t, h);
    PrependedRuns(v, x, h);
  }

  // Every continuation without a restart keeps an account's risk equal to its jobs in order exactly when
  // the account's manager exists and no call is still creating it.
  lemma CreationIsSafeIff(v: Account)
    ensures AlwaysFollows(v) <==> v.manager.Some? && NoneLoading(v)
  {
    if v.manager.Some? && NoneLoading(v) {
      forall h | NoReboot(h)
        ensures Risk(RunAlone(v, h)) == Followed(v, h)
      {
        ManagedFollows(v, h);
      }
    } else if c :| IsLoading(v, c) {
      LoadingIsUnsafe(v, c);
    } else {
      NoManagerIsUnsafe(v);
    }
  }
}
