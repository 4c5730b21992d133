// The bounded-queue audit writer: many producers, one batching worker, a shutdown that cancels the
// worker and flushes what is left.  Each step below is one stretch of code between two awaits, so
// a run is an arbitrary interleaving of producers, worker, database and shutdown.
module AuditWriter {
  import opened Traces

  datatype AuditEntry = AuditEntry(accountId: string, eventType: string, ruleName: string, ruleResult: string)

  // What became of an entry handed to a database transaction.
  datatype Outcome = Persisted | Failed | Lost

  datatype Settled = Settled(entry: AuditEntry, outcome: Outcome)

  // Where the worker task is suspended.
  datatype Worker = Absent | AwaitingFirst | AwaitingNext | Inserting(batch: seq<AuditEntry>)

  // Where the owner's start()/stop() calls are.  Reclaimed lies between the end of the cancelled
  // worker and the final flush; in Flushing, `fromQueue` entries still owe a task_done.  Orphaned is a
  // worker whose stop() was cancelled in its drain: nothing stops it any more.
  datatype Stage = Stopped | Running | Draining | Orphaned | Reclaimed | Flushing(batch: seq<AuditEntry>, fromQueue: nat)

  // `puts` is the order of completed puts and `settled` the order in which transactions ended; the
  // persisted table is the Persisted part of `settled`.
  datatype Writer = Writer(
    capacity: nat, batchSize: nat,
    queue: seq<AuditEntry>, unfinished: int,
    worker: Worker, pending: seq<AuditEntry>, leftover: seq<AuditEntry>, stage: Stage,
    puts: seq<AuditEntry>, settled: seq<Settled>)

  datatype Step =
    | Put(entry: AuditEntry)
    | Start
    | CollectFirst
    | CollectNext
    | CollectTimeout
    | FinishInsert(ok: bool)
    | BeginStop
    | CancelWorker
    | BeginFlush
    | FinishFlush(ok: bool)
    | CancelStop

  /* ------------------------------------------------------------------ readings */

  function Settle(batch: seq<AuditEntry>, outcome: Outcome): seq<Settled> {
    seq(|batch|, i requires 0 <= i < |batch| => Settled(batch[i], outcome))
  }

  function Entries(log: seq<Settled>): seq<AuditEntry> {
    seq(|log|, i requires 0 <= i < |log| => log[i].entry)
  }

  function With(log: seq<Settled>, outcome: Outcome): seq<AuditEntry> {
    if log == [] then []
    else With(log[..|log| - 1], outcome) +
         (if log[|log| - 1].outcome == outcome then [log[|log| - 1].entry] else [])
  }

  // Entries taken off the queue whose fate is still open, oldest first.
  function Held(s: Writer): seq<AuditEntry> {
    (if s.stage.Flushing? then s.stage.batch else [])
    + s.leftover
    + (if s.worker.Inserting? then s.worker.batch else [])
    + s.pending
  }

  predicate WorkerHoldsNothing(s: Writer) {
    s.pending == [] && !s.worker.Inserting?
  }

  /* --------------------------------------------------------------------- steps */

  function Initial(capacity: nat, batchSize: nat): Writer {
    Writer(capacity, batchSize, [], 0, Absent, [], [], Stopped, [], [])
  }

  // The step can be taken now: the queue has room, or the task is suspended at that await.
  predicate Enabled(s: Writer, step: Step) {
    match step
    case Put(_) => |s.queue| < s.capacity
    case Start => s.stage.Stopped?
    case CollectFirst => s.worker.AwaitingFirst? && s.queue != []
    case CollectNext => s.worker.AwaitingNext? && s.queue != []
    case CollectTimeout => s.worker.AwaitingNext?
    case FinishInsert(_) => s.worker.Inserting?
    case BeginStop => s.stage.Running?
    case CancelWorker => s.stage.Draining?
    case BeginFlush => s.stage.Reclaimed?
    case FinishFlush(_) => s.stage.Flushing?
    case CancelStop => s.stage.Draining? || s.stage.Flushing?
  }

  // The batch is handed to the database as soon as it is full.
  function Collected(s: Writer, batch: seq<AuditEntry>): Writer {
    if |batch| < s.batchSize then s.(worker := AwaitingNext, pending := batch)
    else s.(worker := Inserting(batch), pending := [])
  }

  function Cancelled(s: Writer): Writer {
    match s.worker
    case AwaitingNext =>
      s.(worker := Absent, stage := Reclaimed, pending := [],
         leftover := s.leftover + s.pending, unfinished := s.unfinished - |s.pending|)
    case Inserting(batch) =>
      s.(worker := Absent, stage := Reclaimed,
         settled := s.settled + Settle(batch, Lost), unfinished := s.unfinished - |batch|)
    case _ => s.(worker := Absent, stage := Reclaimed)
  }

  // The task in stop() is cancelled at its drain, or inside the final flush.
  function StopCancelled(s: Writer): Writer {
    match s.stage
    case Flushing(batch, fromQueue) =>
      s.(stage := Stopped, unfinished := s.unfinished - fromQueue, settled := s.settled + Settle(batch, Lost))
    case _ => s.(stage := Orphaned)
  }

  function Apply(s: Writer, step: Step): Writer
  {
    if !Enabled(s, step) then s else
    match step
    case Put(e) => s.(queue := s.queue + [e], unfinished := s.unfinished + 1, puts := s.puts + [e])
    case Start => s.(stage := Running, worker := AwaitingFirst, pending := [])
    case CollectFirst => Collected(s.(queue := s.queue[1..]), [s.queue[0]])
    case CollectNext => Collected(s.(queue := s.queue[1..]), s.pending + [s.queue[0]])
    case CollectTimeout => s.(worker := Inserting(s.pending), pending := [])
    case FinishInsert(ok) =>
      s.(worker := AwaitingFirst, pending := [], unfinished := s.unfinished - |s.worker.batch|,
         settled := s.settled + Settle(s.worker.batch, if ok then Persisted else Failed))
    case BeginStop => s.(stage := Draining)
    case CancelWorker => Cancelled(s)
    case BeginFlush =>
      var batch := s.leftover + s.queue;
      s.(queue := [], leftover := [], stage := if batch == [] then Stopped else Flushing(batch, |s.queue|))
    case FinishFlush(ok) =>
      s.(stage := Stopped, unfinished := s.unfinished - s.stage.fromQueue,
         settled := s.settled + Settle(s.stage.batch, if ok then Persisted else Failed))
    case CancelStop => StopCancelled(s)
  }

  function Run(s: Writer, steps: Trace<Step>): Writer {
    match steps
    case Begin => s
    case Then(past, step) => Apply(Run(s, past), step)
  }

  /* ----------------------------------------------------------------- invariant */

  // Entries that were taken from the queue and still owe their task_done.
  function OwedDone(s: Writer): nat {
    (if s.worker.Inserting? then |s.worker.batch| else 0)
    + |s.pending|
    + (if s.stage.Flushing? then s.stage.fromQueue else 0)
  }

  ghost predicate Valid(s: Writer) {
    && Shaped(s)
    // the task counter balances
    && s.unfinished == |s.queue| + OwedDone(s)
    // nothing vanishes, nothing is duplicated, nothing overtakes
    && s.puts == Entries(s.settled) + Held(s) + s.queue
  }

  // The shape of the worker and of the shutdown.
  ghost predicate Shaped(s: Writer) {
    && 0 < s.capacity && 0 < s.batchSize
    && |s.queue| <= s.capacity
    && (s.worker.Absent? <==> !s.stage.Running? && !s.stage.Draining? && !s.stage.Orphaned?)
    && (s.worker.AwaitingNext? <==> s.pending != [])
    && |s.pending| < s.batchSize
    && (s.worker.Inserting? ==> 0 < |s.worker.batch| <= s.batchSize)
    && (s.leftover != [] ==> s.stage.Reclaimed?)
    && (s.stage.Flushing? ==> s.stage.fromQueue <= |s.stage.batch| && s.stage.batch != [])
  }

  lemma EntriesOfAppend(log: seq<Settled>, batch: seq<AuditEntry>, outcome: Outcome)
    ensures Entries(log + Settle(batch, outcome)) == Entries(log) + batch
  {
  }

  // Sequence facts behind the three ways a step moves the boundary of the order.
  lemma MovesOrder(settled: seq<AuditEntry>, held: seq<AuditEntry>, queue: seq<AuditEntry>, e: AuditEntry)
    ensures settled + held + queue + [e] == settled + held + (queue + [e])
    ensures queue != [] ==> settled + held + queue == settled + (held + [queue[0]]) + queue[1..]
    ensures settled + held + queue == (settled + held) + [] + queue
    ensures settled + held + queue == settled + (held + queue) + []
  {
  }

  lemma HeldAfter(s: Writer, step: Step)
    requires Valid(s) && Enabled(s, step)
    ensures var t := Apply(s, step);
      match step
      case Put(_) => Held(t) == Held(s)
      case Start => Held(t) == Held(s)
      case BeginStop => Held(t) == Held(s)
      case CollectTimeout => Held(t) == Held(s)
      case CollectFirst => Held(t) == Held(s) + [s.queue[0]]
      case CollectNext => Held(t) == Held(s) + [s.queue[0]]
      case FinishInsert(_) => Held(s) == s.worker.batch && Held(t) == []
      case FinishFlush(_) => Held(s) == s.stage.batch && Held(t) == []
      case BeginFlush => Held(t) == Held(s) + s.queue
      case CancelWorker => if s.worker.Inserting? then Held(s) == s.worker.batch && Held(t) == [] else Held(t) == Held(s)
      case CancelStop => if s.stage.Flushing? then Held(s) == s.stage.batch && Held(t) == [] else Held(t) == Held(s)
  {
  }

  lemma StepKeepsOrder(s: Writer, step: Step)
    requires Valid(s) && Enabled(s, step)
    ensures var t := Apply(s, step); t.puts == Entries(t.settled) + Held(t) + t.queue
  {
    HeldAfter(s, step);
    MovesOrder(Entries(s.settled), Held(s), s.queue, if step.Put? then step.entry else AuditEntry("", "", "", ""));
    if Apply(s, step).settled != s.settled {
      forall outcome { EntriesOfAppend(s.settled, Held(s), outcome); }
    }
  }

  lemma StepKeepsShape(s: Writer, step: Step)
    requires Shaped(s) && Enabled(s, step)
    ensures Shaped(Apply(s, step))
  {
  }

  lemma StepKeepsCount(s: Writer, step: Step)
    requires Shaped(s) && Enabled(s, step) && s.unfinished == |s.queue| + OwedDone(s)
    ensures var t := Apply(s, step); t.unfinished == |t.queue| + OwedDone(t)
  {
  }

  lemma StepKeepsValid(s: Writer, step: Step)
    requires Valid(s)
    ensures Valid(Apply(s, step))
  {
    if Enabled(s, step) {
      StepKeepsShape(s, step);
      StepKeepsCount(s, step);
      StepKeepsOrder(s, step);
    }
  }

  // In every interleaving the put order is exactly: settled entries, then held ones, then the queue;
  // and the unfinished-task counter is the number of queued entries plus those still owing a task_done.
  lemma {:induction false} RunConservesEntries(capacity: nat, batchSize: nat, steps: Trace<Step>)
    requires 0 < capacity && 0 < batchSize
    ensures var s := Run(Initial(capacity, batchSize), steps);
            && Valid(s)
            && s.puts == Entries(s.settled) + Held(s) + s.queue
            && s.unfinished == |s.queue| + OwedDone(s)
  {
    if steps.Then? {
      RunConservesEntries(capacity, batchSize, steps.past);
      StepKeepsValid(Run(Initial(capacity, batchSize), steps.past), steps.last);
    }
  }

  /* ------------------------------------------------- what the database receives */

  lemma {:induction false} WithAppend(log: seq<Settled>, more: seq<Settled>, o: Outcome)
    ensures With(log + more, o) == With(log, o) + With(more, o)
  {
    if more == [] {
      assert log + more == log;
    } else {
      var all := log + more;
      assert all[..|all| - 1] == log + more[..|more| - 1];
      WithAppend(log, more[..|more| - 1], o);
    }
  }

  lemma {:induction false} WithSettle(batch: seq<AuditEntry>, o: Outcome, p: Outcome)
    ensures With(Settle(batch, p), o) == if o == p then batch else []
  {
    if batch != [] {
      var n := |batch| - 1;
      var init, log := batch[..n], Settle(batch, p);
      WithSettle(init, o, p);
      assert log[n] == Settled(batch[n], p);
      assert log[..n] == Settle(init, p);
      assert batch == init + [batch[n]];
    }
  }

  // When nothing failed and nothing was lost, the table holds the settled entries in their order.
  lemma {:induction false} AllPersisted(log: seq<Settled>)
    ensures With(log, Failed) == [] && With(log, Lost) == [] <==> With(log, Persisted) == Entries(log)
  {
    if log != [] {
      var n := |log| - 1;
      AllPersisted(log[..n]);
      assert Entries(log) == Entries(log[..n]) + [log[n].entry];
      PersistedIsShort(log[..n]);
    }
  }

  lemma {:induction false} PersistedIsShort(log: seq<Settled>)
    ensures |With(log, Persisted)| + |With(log, Failed)| + |With(log, Lost)| == |log|
  {
    if log != [] { PersistedIsShort(log[..|log| - 1]); }
  }

  lemma SameBefore(a: seq<AuditEntry>, b: seq<AuditEntry>, rest: seq<AuditEntry>)
    ensures a + rest == b + rest <==> a == b
  {
    if a + rest == b + rest {
      assert |a| == |a + rest| - |rest| == |b|;
      assert (a + rest)[..|a|] == a && (b + rest)[..|b|] == b;
    }
  }

  lemma Regroup(a: seq<AuditEntry>, b: seq<AuditEntry>, c: seq<AuditEntry>)
    ensures a + b + c == a + (b + c)
  {
  }

  // After a completed stop() everything that was put before the flush has settled.
  lemma StoppedHoldsNothing(capacity: nat, batchSize: nat, steps: Trace<Step>)
    requires 0 < capacity && 0 < batchSize
    ensures var s := Run(Initial(capacity, batchSize), steps);
            s.stage.Stopped? ==> s.puts == Entries(s.settled) + s.queue && s.unfinished == |s.queue|
  {
    RunConservesEntries(capacity, batchSize, steps);
  }

  /* --------------------------------------------------- the one way to lose entries */

  // The step cancels the worker, or the stop() in its final flush, while a transaction is in flight.
  predicate CutsInsert(s: Writer, step: Step) {
    || (step.CancelWorker? && s.stage.Draining? && s.worker.Inserting?)
    || (step.CancelStop? && s.stage.Flushing?)
  }

  // The batch of that transaction.
  function CutBatch(s: Writer, step: Step): seq<AuditEntry> {
    if !CutsInsert(s, step) then []
    else if step.CancelWorker? then s.worker.batch else s.stage.batch
  }

  ghost predicate CancelsMidInsert(s: Writer, steps: Trace<Step>) {
    match steps
    case Begin => false
    case Then(past, step) => CancelsMidInsert(s, past) || CutsInsert(Run(s, past), step)
  }

  lemma WithAfter(log: seq<Settled>, batch: seq<AuditEntry>, p: Outcome, o: Outcome)
    ensures With(log + Settle(batch, p), o) == With(log, o) + if o == p then batch else []
  {
    WithAppend(log, Settle(batch, p), o);
    WithSettle(batch, o, p);
  }

  lemma StepLoses(s: Writer, step: Step)
    requires Valid(s)
    ensures With(Apply(s, step).settled, Lost) == With(s.settled, Lost) + CutBatch(s, step)
  {
    if Enabled(s, step) {
      match step
      case FinishInsert(ok) => WithAfter(s.settled, s.worker.batch, if ok then Persisted else Failed, Lost);
      case FinishFlush(ok) => WithAfter(s.settled, s.stage.batch, if ok then Persisted else Failed, Lost);
      case CancelWorker => if s.worker.Inserting? { WithAfter(s.settled, s.worker.batch, Lost, Lost); }
      case CancelStop => if s.stage.Flushing? { WithAfter(s.settled, s.stage.batch, Lost, Lost); }
      case _ =>
    }
  }

  // Entries are lost in exactly the runs that cancel the worker inside a transaction, or the stop()
  // inside that of its final flush.
  lemma {:induction false} LosesIffCancelledMidInsert(capacity: nat, batchSize: nat, steps: Trace<Step>)
    requires 0 < capacity && 0 < batchSize
    ensures var s0 := Initial(capacity, batchSize);
            With(Run(s0, steps).settled, Lost) != [] <==> CancelsMidInsert(s0, steps)
  {
    if steps.Then? {
      LosesIffCancelledMidInsert(capacity, batchSize, steps.past);
      RunConservesEntries(capacity, batchSize, steps.past);
      StepLoses(Run(Initial(capacity, batchSize), steps.past), steps.last);
    }
  }

  lemma RunThen(s: Writer, h: Trace<Step>, before: Writer, after: Writer)
    requires h.Then? && Run(s, h.past) == before && Apply(before, h.last) == after
    ensures Run(s, h) == after
  {
  }

  lemma OnlyLost(e: AuditEntry, log: seq<Settled>)
    requires log == [] + Settle([e], Lost)
    ensures With(log, Persisted) == [] && With(log, Failed) == []
  {
    WithAfter([], [e], Lost, Persisted);
    WithAfter([], [e], Lost, Failed);
  }

  // One entry is put, collected, and its insert hangs.
  function HangingInsert(e: AuditEntry): Trace<Step> {
    Then(Then(Then(Then(Begin, Put(e)), Start), CollectFirst), CollectTimeout)
  }

  lemma HangingInsertReached(e: AuditEntry)
    ensures Run(Initial(10000, 100), HangingInsert(e))
            == Initial(10000, 100).(unfinished := 1, worker := Inserting([e]), stage := Running, puts := [e])
  {
    var s0 := Initial(10000, 100);
    assert [] + [e] == [e];
    var s2 := s0.(queue := [e], unfinished := 1, worker := AwaitingFirst, stage := Running, puts := [e]);
    assert Run(s0, Begin) == s0;
    assert Run(s0, HangingInsert(e).past.past) == Apply(Apply(s0, Put(e)), Start) == s2;
    assert Run(s0, HangingInsert(e)) == Apply(Apply(s2, CollectFirst), CollectTimeout);
  }

  // stop() then gives up on its drain and cancels the worker: the counter balances and nothing is
  // held, but the entry is in no table and in no failed-batch report.
  lemma SlowInsertAtShutdownLosesEntry(e: AuditEntry)
    ensures var s := Run(Initial(10000, 100), Then(Then(HangingInsert(e), BeginStop), CancelWorker));
            && s.puts == [e] && s.queue == [] && Held(s) == [] && s.unfinished == 0
            && With(s.settled, Persisted) == [] && With(s.settled, Failed) == []
  {
    HangingInsertReached(e);
    var s0, h := Initial(10000, 100), Then(Then(HangingInsert(e), BeginStop), CancelWorker);
    var hanging := s0.(unfinished := 1, worker := Inserting([e]), stage := Running, puts := [e]);
    var draining := hanging.(stage := Draining);
    RunThen(s0, h.past, hanging, draining);
    RunThen(s0, h, draining, Cancelled(draining));
    OnlyLost(e, Cancelled(draining).settled);
  }

  // An entry is put while stop() winds up, and is in the final flush.
  function LateEntry(e: AuditEntry): Trace<Step> {
    Then(Then(Then(Then(Then(Begin, Start), BeginStop), CancelWorker), Put(e)), BeginFlush)
  }

  lemma LateEntryReached(e: AuditEntry)
    ensures Run(Initial(10000, 100), LateEntry(e)) == Initial(10000, 100).(stage := Flushing([e], 1), unfinished := 1, puts := [e])
  {
    var s0, h := Initial(10000, 100), LateEntry(e);
    assert [] + [e] == [e];
    assert Run(s0, h.past.past.past.past.past) == s0;
    var running := s0.(stage := Running, worker := AwaitingFirst);
    assert Run(s0, h.past.past.past.past) == Apply(s0, Start) == running;
    assert Run(s0, h.past.past.past) == Apply(running, BeginStop) == running.(stage := Draining);
    assert Run(s0, h.past.past) == Apply(running.(stage := Draining), CancelWorker) == s0.(stage := Reclaimed);
    var late := s0.(stage := Reclaimed, queue := [e], unfinished := 1, puts := [e]);
    assert Run(s0, h.past) == Apply(s0.(stage := Reclaimed), Put(e)) == late;
    assert Run(s0, h) == Apply(late, BeginFlush);
  }

  // When the stop() is cancelled there, it is lost in the same way.
  lemma CancelledFlushLosesEntry(e: AuditEntry)
    ensures var s := Run(Initial(10000, 100), Then(LateEntry(e), CancelStop));
            && s.stage.Stopped? && s.puts == [e] && s.queue == [] && Held(s) == [] && s.unfinished == 0
            && With(s.settled, Persisted) == [] && With(s.settled, Failed) == []
  {
    LateEntryReached(e);
    var late := Initial(10000, 100).(stage := Flushing([e], 1), unfinished := 1, puts := [e]);
    var after := StopCancelled(late);
    RunThen(Initial(10000, 100), Then(LateEntry(e), CancelStop), late, after);
    OnlyLost(e, after.settled);
  }

  /* ------------------------------------------------ durability, by the database's answers */

  // The batch that the database answers for in the step, committing it or not.
  function Answered(s: Writer, step: Step, ok: bool): seq<AuditEntry> {
    match step
    case FinishInsert(answer) => if s.worker.Inserting? && answer == ok then s.worker.batch else []
    case FinishFlush(answer) => if s.stage.Flushing? && answer == ok then s.stage.batch else []
    case _ => []
  }

  // All batches of the run that the database has committed, or refused, in the order of its answers.
  function Answers(s: Writer, steps: Trace<Step>, ok: bool): seq<AuditEntry> {
    match steps
    case Begin => []
    case Then(past, step) => Answers(s, past, ok) + Answered(Run(s, past), step, ok)
  }

  // A commit puts exactly its batch behind the rows of the table, and a refusal exactly its batch among
  // the failures.
  lemma StepAnswers(s: Writer, step: Step, ok: bool)
    ensures var o := if ok then Persisted else Failed;
            With(Apply(s, step).settled, o) == With(s.settled, o) + Answered(s, step, ok)
  {
    var o, t := if ok then Persisted else Failed, Apply(s, step);
    if t.settled[|s.settled|..] == [] {
      assert t.settled == s.settled;
    } else {
      var batch := if step.FinishInsert? || step.CancelWorker? then s.worker.batch else s.stage.batch;
      forall p {
        WithAfter(s.settled, batch, p, o);
      }
    }
  }

  // So after any run the table is what the database has committed, row for row.
  lemma {:induction false} TableIsCommitted(s: Writer, steps: Trace<Step>)
    requires s.settled == []
    ensures With(Run(s, steps).settled, Persisted) == Answers(s, steps, true)
    ensures With(Run(s, steps).settled, Failed) == Answers(s, steps, false)
  {
    if steps.Then? {
      TableIsCommitted(s, steps.past);
      StepAnswers(Run(s, steps.past), steps.last, true);
      StepAnswers(Run(s, steps.past), steps.last, false);
    }
  }

  // The database refuses the transaction that the step ends.
  predicate Refuses(s: Writer, step: Step) {
    (step == FinishInsert(false) && s.worker.Inserting?) || (step == FinishFlush(false) && s.stage.Flushing?)
  }

  // Every transaction of the run that has ended was committed.
  ghost predicate AllCommit(s: Writer, steps: Trace<Step>) {
    steps.Then? ==>
      && AllCommit(s, steps.past)
      && !Refuses(Run(s, steps.past), steps.last) && !CutsInsert(Run(s, steps.past), steps.last)
  }

  lemma StepCommitsIff(s: Writer, step: Step)
    requires Valid(s)
    ensures !Refuses(s, step) && !CutsInsert(s, step) <==> Answered(s, step, false) == [] && CutBatch(s, step) == []
  {
  }

  lemma {:induction false} AllCommitIff(capacity: nat, batchSize: nat, steps: Trace<Step>)
    requires 0 < capacity && 0 < batchSize
    ensures var s0 := Initial(capacity, batchSize);
            var log := Run(s0, steps).settled;
            AllCommit(s0, steps) <==> With(log, Failed) == [] && With(log, Lost) == []
  {
    if steps.Then? {
      var s := Run(Initial(capacity, batchSize), steps.past);
      AllCommitIff(capacity, batchSize, steps.past);
      RunConservesEntries(capacity, batchSize, steps.past);
      StepAnswers(s, steps.last, false);
      StepLoses(s, steps.last);
      StepCommitsIff(s, steps.last);
    }
  }

  // FIFO and durability: committed rows ++ held ++ queue is the put order exactly when every transaction
  // that has ended was committed.
  lemma PersistedInPutOrder(capacity: nat, batchSize: nat, steps: Trace<Step>)
    requires 0 < capacity && 0 < batchSize
    ensures var s0 := Initial(capacity, batchSize);
            var s := Run(s0, steps);
            && With(s.settled, Persisted) == Answers(s0, steps, true)
            && (AllCommit(s0, steps) <==> s.puts == Answers(s0, steps, true) + Held(s) + s.queue)
  {
    var s := Run(Initial(capacity, batchSize), steps);
    RunConservesEntries(capacity, batchSize, steps);
    TableIsCommitted(Initial(capacity, batchSize), steps);
    AllCommitIff(capacity, batchSize, steps);
    AllPersisted(s.settled);
    var table, entries := With(s.settled, Persisted), Entries(s.settled);
    Regroup(table, Held(s), s.queue);
    Regroup(entries, Held(s), s.queue);
    SameBefore(entries, table, Held(s) + s.queue);
  }

  // A drain() returns when the counter is zero.  At that instant the queue is empty and the worker
  // holds nothing; every put has been committed exactly when every transaction that has ended was, and
  // no reclaimed entry is still waiting for the final flush.
  lemma DrainReturns(capacity: nat, batchSize: nat, steps: Trace<Step>)
    requires 0 < capacity && 0 < batchSize
    requires Run(Initial(capacity, batchSize), steps).unfinished == 0
    ensures var s0 := Initial(capacity, batchSize);
            var s := Run(s0, steps);
            && s.queue == [] && WorkerHoldsNothing(s)
            && (s.puts == Answers(s0, steps, true) <==> AllCommit(s0, steps) && s.leftover == [] && !s.stage.Flushing?)
  {
    var s := Run(Initial(capacity, batchSize), steps);
    RunConservesEntries(capacity, batchSize, steps);
    PersistedInPutOrder(capacity, batchSize, steps);
    AllCommitIff(capacity, batchSize, steps);
    PersistedIsShort(s.settled);
    assert |s.puts| == |s.settled| + |Held(s)|;
    if s.puts == With(s.settled, Persisted) {
      assert Held(s) == [];
      assert With(s.settled, Failed) == [] && With(s.settled, Lost) == [];
      assert s.leftover == [];
    } else if s.leftover == [] && !s.stage.Flushing? {
      assert Held(s) == [];
      assert With(s.settled, Persisted) + Held(s) + s.queue == With(s.settled, Persisted);
    }
  }

  // The next entry joins the batch behind the ones collected; the batch goes to the database exactly when
  // that makes it full, or at its deadline, and not before.
  lemma HandedOverIff(s: Writer, step: Step)
    requires Valid(s) && Enabled(s, step) && !s.worker.Inserting?
    ensures var t, collects := Apply(s, step), step.CollectFirst? || step.CollectNext?;
            var batch := s.pending + if collects then [s.queue[0]] else [];
            && (t.worker.Inserting? <==> step.CollectTimeout? || (collects && |batch| == s.batchSize))
            && (t.worker.Inserting? ==> t.worker.batch == batch && t.pending == [])
            && (collects && |batch| < s.batchSize ==> t.worker.AwaitingNext? && t.pending == batch)
  {
    assert step.CollectFirst? ==> s.pending + [s.queue[0]] == [s.queue[0]];
    assert s.pending + [] == s.pending;
  }

  // A stop() cancelled in its drain leaves a worker that nothing stops afterwards, whatever happens.
  lemma {:induction false} OrphanRunsOn(s: Writer, h: Trace<Step>)
    requires Valid(s) && s.stage.Draining?
    ensures var t := Run(Apply(s, CancelStop), h); t.stage.Orphaned? && !t.worker.Absent?
  {
    if h.Then? { OrphanRunsOn(s, h.past); }
  }

  /* ------------------------------------------------------------ drain terminates */

  predicate IsWorkerStep(step: Step) {
    step.CollectFirst? || step.CollectNext? || step.CollectTimeout? || step.FinishInsert?
  }

  function Backlog(s: Writer): nat {
    3 * |s.queue| + 2 * |s.pending| + if s.worker.Inserting? then |s.worker.batch| else 0
  }

  // While entries are unfinished and the worker lives, it is never stuck, and whatever it does next
  // brings the drain closer.
  lemma WorkerMakesProgress(s: Writer)
    requires Valid(s) && !s.worker.Absent?
    ensures s.unfinished == 0 <==> Backlog(s) == 0
    ensures s.unfinished != 0 ==> exists step :: IsWorkerStep(step) && Enabled(s, step)
    ensures forall step :: IsWorkerStep(step) && Enabled(s, step) ==> Backlog(Apply(s, step)) < Backlog(s)
  {
    if s.unfinished != 0 {
      var step := if s.worker.Inserting? then FinishInsert(true)
                  else if s.worker.AwaitingNext? then CollectTimeout else CollectFirst;
      assert IsWorkerStep(step) && Enabled(s, step);
    }
  }

  // The worker alone is running, with no puts and no shutdown.
  ghost predicate WorkerOnly(s: Writer, h: Trace<Step>) {
    h.Then? ==> WorkerOnly(s, h.past) && IsWorkerStep(h.last) && Enabled(Run(s, h.past), h.last)
  }

  function Length(h: Trace<Step>): nat {
    if h.Begin? then 0 else Length(h.past) + 1
  }

  ghost predicate Stuck(s: Writer) {
    forall step :: IsWorkerStep(step) ==> !Enabled(s, step)
  }

  lemma WorkerStepTowards(s: Writer, step: Step)
    requires Valid(s) && !s.worker.Absent? && IsWorkerStep(step) && Enabled(s, step)
    ensures var t := Apply(s, step); Valid(t) && !t.worker.Absent? && t.puts == s.puts && Backlog(t) < Backlog(s)
  {
    StepKeepsValid(s, step);
    WorkerMakesProgress(s);
  }

  lemma StuckIsDrained(s: Writer)
    requires Valid(s) && !s.worker.Absent? && Stuck(s)
    ensures s.unfinished == 0
  {
    WorkerMakesProgress(s);
  }

  ghost predicate Towards(s: Writer, t: Writer, steps: nat) {
    Valid(t) && !t.worker.Absent? && t.puts == s.puts && steps + Backlog(t) <= Backlog(s)
  }

  // The worker takes no more steps than its backlog, and when it has nothing left to do the drain is
  // reached: with no further puts drain() returns after a bounded number of steps.
  lemma {:induction false} DrainIsReached(s: Writer, h: Trace<Step>)
    requires Valid(s) && !s.worker.Absent? && WorkerOnly(s, h)
    ensures Towards(s, Run(s, h), Length(h))
    ensures Stuck(Run(s, h)) ==> Run(s, h).unfinished == 0
  {
    var t := Run(s, h);
    if h.Then? {
      DrainIsReached(s, h.past);
      WorkerStepTowards(Run(s, h.past), h.last);
    }
    if Stuck(t) {
      StuckIsDrained(t);
    }
  }

  /* --------------------------------------------------------- the writer as it runs */

  class AuditWriter {
    const capacity: nat
    const batchSize: nat
    var queue: seq<AuditEntry>
    var unfinished: int
    var worker: Worker
    var pendingBatch: seq<AuditEntry>
    var leftover: seq<AuditEntry>
    var stage: Stage
    var puts: seq<AuditEntry>
    var settled: seq<Settled>

    ghost function State(): Writer
      reads this
    {
      Writer(capacity, batchSize, queue, unfinished, worker, pendingBatch, leftover, stage, puts, settled)
    }

    constructor (queueSize: nat, batchSize: nat)
      requires 0 < queueSize && 0 < batchSize
      ensures State() == Initial(queueSize, batchSize)
    {
      this.capacity, this.batchSize := queueSize, batchSize;
      queue, unfinished, worker, pendingBatch, leftover, stage := [], 0, Absent, [], [], Stopped;
      puts, settled := [], [];
    }

    // Raises QueueFull, changing nothing, when the queue is full.
    method EnqueueNowait(entry: AuditEntry) returns (accepted: bool)
      modifies this
      ensures State() == Apply(old(State()), Put(entry))
      ensures accepted <==> old(|queue|) < capacity
    {
      accepted := |queue| < capacity;
      if accepted {
        queue, unfinished, puts := queue + [entry], unfinished + 1, puts + [entry];
      }
    }

    method Start()
      requires stage.Stopped?
      modifies this
      ensures State() == Apply(old(State()), Step.Start)
    {
      stage, worker, pendingBatch := Running, AwaitingFirst, [];
    }

    method CollectFirst()
      requires Valid(State()) && Enabled(State(), Step.CollectFirst)
      modifies this
      ensures State() == Apply(old(State()), Step.CollectFirst)
    {
      var first := queue[0];
      queue := queue[1..];
      pendingBatch := [first];
      HandOverWhenFull();
    }

    method CollectNext()
      requires Valid(State()) && Enabled(State(), Step.CollectNext)
      modifies this
      ensures State() == Apply(old(State()), Step.CollectNext)
    {
      var nxt := queue[0];
      queue := queue[1..];
      pendingBatch := pendingBatch + [nxt];
      HandOverWhenFull();
    }

    method HandOverWhenFull()
      modifies `worker, `pendingBatch
      ensures State() == Collected(old(State()), old(pendingBatch))
    {
      if |pendingBatch| < batchSize {
        worker := AwaitingNext;
      } else {
        worker, pendingBatch := Inserting(pendingBatch), [];
      }
    }

    method CollectTimeout()
      requires Enabled(State(), Step.CollectTimeout)
      modifies this
      ensures State() == Apply(old(State()), Step.CollectTimeout)
    {
      worker, pendingBatch := Inserting(pendingBatch), [];
    }

    // The queue raises when task_done is called more often than put.
    method TaskDone()
      requires 0 < unfinished
      modifies `unfinished
      ensures unfinished == old(unfinished) - 1
    {
      unfinished := unfinished - 1;
    }

    // `ok` is the database's answer.
    method FinishInsert(ok: bool)
      requires Valid(State()) && Enabled(State(), Step.FinishInsert(ok))
      modifies this
      ensures State() == Apply(old(State()), Step.FinishInsert(ok))
    {
      var batch := worker.batch;
      settled := settled + Settle(batch, if ok then Persisted else Failed);
      ghost var before := State();
      for i := 0 to |batch|
        invariant State() == before.(unfinished := before.unfinished - i)
      {
        TaskDone();
      }
      worker, pendingBatch := AwaitingFirst, [];
    }

    method BeginStop()
      requires stage.Running?
      modifies this
      ensures State() == Apply(old(State()), Step.BeginStop)
    {
      stage := Draining;
    }

    // Delivery of the CancelledError at the await where the worker is suspended.
    method CancelWorker()
      requires Valid(State()) && Enabled(State(), Step.CancelWorker)
      modifies this
      ensures State() == Apply(old(State()), Step.CancelWorker)
    {
      if worker.Inserting? {
        // not an Exception: only the finally clause runs
        var batch := worker.batch;
        settled := settled + Settle(batch, Lost);
        ghost var before := State();
        for i := 0 to |batch|
          invariant State() == before.(unfinished := before.unfinished - i)
        {
          TaskDone();
        }
      } else {
        var pending := pendingBatch;
        pendingBatch := [];
        for i := 0 to |pending|
          invariant unfinished == old(unfinished) - i
          invariant leftover == old(leftover) + pending[..i]
          invariant State() == old(State()).(pending := [], leftover := leftover, unfinished := unfinished)
        {
          TaskDone();
          leftover := leftover + [pending[i]];
        }
        assert pending[..|pending|] == pending;
      }
      worker, stage := Absent, Reclaimed;
    }

    // The part of the final flush before its insert.
    method BeginFlush()
      requires stage.Reclaimed?
      modifies this
      ensures State() == Apply(old(State()), Step.BeginFlush)
    {
      var batch := leftover;
      leftover := [];
      var markedDone := 0;
      while queue != []
        invariant batch + queue == old(leftover + queue)
        invariant markedDone + |queue| == old(|queue|)
        invariant State() == old(State()).(queue := queue, leftover := [])
      {
        assert batch + queue == batch + [queue[0]] + queue[1..];
        batch := batch + [queue[0]];
        queue := queue[1..];
        markedDone := markedDone + 1;
      }
      assert batch + queue == batch;
      stage := if batch == [] then Stopped else Flushing(batch, markedDone);
    }

    method FinishFlush(ok: bool)
      requires Valid(State()) && Enabled(State(), Step.FinishFlush(ok))
      modifies this
      ensures State() == Apply(old(State()), Step.FinishFlush(ok))
    {
      settled := settled + Settle(stage.batch, if ok then Persisted else Failed);
      ghost var before := State();
      for i := 0 to stage.fromQueue
        invariant State() == before.(unfinished := before.unfinished - i)
      {
        TaskDone();
      }
      stage := Stopped;
    }

    // Delivery of a CancelledError to stop(): the drain leaves the worker alone; the flush is no
    // Exception's business either, so that only its finally clause runs.
    method CancelStop()
      requires Valid(State()) && Enabled(State(), Step.CancelStop)
      modifies this
      ensures State() == Apply(old(State()), Step.CancelStop)
    {
      if stage.Draining? {
        stage := Orphaned;
        return;
      }
      settled := settled + Settle(stage.batch, Lost);
      ghost var before := State();
      for i := 0 to stage.fromQueue
        invariant State() == before.(unfinished := before.unfinished - i)
      {
        TaskDone();
      }
      stage := Stopped;
    }
  }
}
