# Verified model of the trading platform's core protocols

Dafny models of the parts of the platform whose correctness depends on long runs rather than on one
call, with proofs of what they keep. Each module follows one component:

| module | component |
|---|---|
| `AuditWriter` | the batching audit writer: producers, one worker, cancellation, drain and final flush, as a step machine and as a class whose methods are its steps |
| `SessionClock` | the daily reset boundaries of a firm's local clock, over zones with arbitrary transitions |
| `FetchStitch` | paging a capped history server backward and stitching the overlapping chunks |
| `RiskState`, `PnlTracker` | per-account risk metrics and the P&L ledger that feeds them |
| `RiskIsolation`, `RiskDecisions`, `RiskInterleavings` | the enforcement of limits over many accounts whose calls are interleaved at their awaits, and what that does to statuses and to managers created on first use |
| `ComplianceActor` | the backtest's day, peak and breach bookkeeping |
| `OrderBridge` | the MT5 bridge's bounded order channel and heartbeats |
| `RetryQueue` | the notification queue with exponential backoff |
| `ResumeHandshake` | the Telegram emergency stop and confirmed resume |
| `SignalRouter`, `CalendarIndex`, `BarCache` | indexes and a cache, each against a naive scan of what they index |
| `WalkForward`, `ParameterGrid`, `ParameterSweep` | fold generation, grid expansion, and sequential and parallel sweeps |
| `Traces`, `Options`, `Text`, `Bisect`, `StableSort`, `Arithmetic` | runs, missing values, letter case, bisection, filtering and stable sorting, and products and quotients |

A run is a `Trace` of events of any length. Where the program changes state step by step, a class has
the same fields and its methods are proved to do exactly one step of the model; the theorems are then
about all runs of the model. Code between two awaits is one atomic step; a Redis command takes effect
with the step that issues it. Amounts are reals, times are
whole numbers of the unit the program uses, and Redis and the database are maps.

`dafny verify dfyconfig.toml` checks the project.

## Where the code departs from its documentation

The models follow the code. The theorems say exactly when the documented promise holds.

- The audit writer promises durability for queued entries, but stop() cancels the worker after its
  drain times out, and a batch inside a transaction at that moment is neither persisted nor reported;
  nor is the final flush when stop() itself is cancelled in it (`AuditWriter.LosesIffCancelledMidInsert`).
- `drain` is documented to wait until every entry is persisted. It waits until every entry is marked
  done, which failed and reclaimed entries are too (`AuditWriter.DrainReturns`).
- A reset time that a clock change skips or repeats breaks both reset functions
  (`SessionClock.ExactIffResetsClean`).
- The docstring of `on_tick` has bid and ask swapped; the code marks longs at the bid, shorts at the
  ask. A partial fill adds volume without revaluing the position (`PnlTracker.RefillGoesStale`).
- The transition table is checked against a status read one await before the save, so a pause can undo
  a stop; `set_error`, a failed recovery and the start of a task save without any check
  (`RiskInterleavings.LeavesTableIffOvertaken`).
- An account paused for a violation trades again after a restart of the engine, since starting its task
  saves "active" over "paused" (`RiskInterleavings.RestartUnpauses`).
- A daily reset while a close waits for the account's lock leaves tracker and risk state with different
  P&L of the day (`PnlTracker.DailyPnlAgrees`).
- Isolated risk state assumes one manager per account, but two calls that use an account first at the
  same time, one of them a reset or a check, each create one, and the later forgets what the earlier
  recorded (`RiskInterleavings.CreationIsSafeIff`); updates alone are safe
  (`RiskInterleavings.UpdatesAreNeverLost`).
- The rules' daily P&L is documented to count from the trading session's start; the code counts from
  the UTC date (`ComplianceActor.DailyPnlIsSessionPnlIff`).
- The 101st queued order suspends the bridge's loop for good, since the loop is the channel's only
  reader (`OrderBridge.FullChannelStopsBridge`), and put-backs can starve accounts and reorder their
  orders (`OrderBridge.RunInOrderIff`).
- Retry delays double only while they fit 64 bits (`RetryQueue.DelayDoublesIffInRange`), and count from
  the start of a pass, not from the failed send (`RetryQueue.BackoffHoldsIff`).
- Adding a routed account again merges its filters (`SignalRouter.ReAddMergesFilters`).
- A bar corrected in place is served stale under an unchanged fingerprint, and so are rows whose edits
  lead back to an earlier fingerprint (`BarCache.AlwaysCoherentIff`).
- "Non-overlapping test windows" needs a step of at least the test window
  (`WalkForward.DisjointIffStepCoversTest`).
- An exception of the objective or the early-stop metric is not caught, and a parallel sweep raises
  the one that finishes first (`ParameterSweep.EveryOrderAgreesIff`).

## Model

| member | source | states |
|---|---|---|
| `AuditWriter.RunConservesEntries` | services/trading-engine/src/audit/audit_writer.py:181-285 | in every interleaving of puts, collection, timeouts, inserts, cancellation and flush, the put order is exactly settled ++ held ++ queued, each entry in one place; the unfinished-task counter is queued + pending + being inserted + flushed from the queue |
| `AuditWriter.StepKeepsOrder` | services/trading-engine/src/audit/audit_writer.py:196-285 | no single step loses, repeats or overtakes an entry |
| `AuditWriter.StepKeepsValid` | services/trading-engine/src/audit/audit_writer.py:196-285 | every step keeps the counter balanced, the order exact, the queue bounded and the batches within the batch size |
| `AuditWriter.AllPersisted` | services/trading-engine/src/audit/audit_writer.py:249-256 | the table holds the settled entries in settling order if and only if no transaction failed or was cancelled |
| `AuditWriter.StepAnswers` | services/trading-engine/src/audit/audit_writer.py:215-285 | a commit puts exactly its batch behind the rows of the table, a refusal exactly its batch among the failures, and no other step touches either |
| `AuditWriter.TableIsCommitted` | services/trading-engine/src/audit/audit_writer.py:215-285 | after any run the table is, row for row, what the database has committed, and the failures what it has refused |
| `AuditWriter.AllCommitIff` | services/trading-engine/src/audit/audit_writer.py:196-285 | nothing failed and nothing was lost in exactly the runs in which every transaction that has ended was committed |
| `AuditWriter.PersistedInPutOrder` | services/trading-engine/src/audit/audit_writer.py:196-285 | the table is what the database has committed, and table ++ held ++ queued is the put order if and only if every transaction that has ended was committed |
| `AuditWriter.DrainReturns` | services/trading-engine/src/audit/audit_writer.py:181-194 | when the counter is zero the queue is empty and the worker holds nothing; all puts have been committed at that instant if and only if every transaction that has ended was committed and no reclaimed entry waits for the flush |
| `AuditWriter.StoppedHoldsNothing` | services/trading-engine/src/audit/audit_writer.py:101-128 | once stop() has finished, all that was put before its flush has settled |
| `AuditWriter.LosesIffCancelledMidInsert` | services/trading-engine/src/audit/audit_writer.py:101-285 | entries are lost without a trace in exactly the runs that cancel the worker inside a transaction, or the stop() inside that of its final flush |
| `AuditWriter.StepLoses` | services/trading-engine/src/audit/audit_writer.py:196-285 | a step loses exactly the batch in flight, and only when it is one of those cancellations |
| `AuditWriter.SlowInsertAtShutdownLosesEntry` | services/trading-engine/src/audit/audit_writer.py:101-128 | a concrete run: a hanging insert at shutdown leaves its entry in no table and no failure report, with a balanced counter |
| `AuditWriter.CancelledFlushLosesEntry` | services/trading-engine/src/audit/audit_writer.py:273-285 | a concrete run: a stop() cancelled inside its final flush loses an entry in the same way |
| `AuditWriter.DrainIsReached` | services/trading-engine/src/audit/audit_writer.py:181-247 | with no further puts the worker takes at most its backlog in steps, and when it can take no more the counter is zero |
| `AuditWriter.WorkerMakesProgress` | services/trading-engine/src/audit/audit_writer.py:196-247 | while entries are unfinished a live worker is never stuck, and each of its steps brings the drain closer |
| `AuditWriter.HandedOverIff` | services/trading-engine/src/audit/audit_writer.py:227-247 | the next entry joins the batch behind those collected; the batch goes to the database exactly when that makes it full, or at its deadline |
| `AuditWriter.OrphanRunsOn` | services/trading-engine/src/audit/audit_writer.py:101-128 | a stop() cancelled in its drain leaves a worker that nothing stops afterwards, in every continuation |
| `AuditWriter.AuditWriter.constructor` | services/trading-engine/src/audit/audit_writer.py:63-76 | a new writer is empty and stopped |
| `AuditWriter.AuditWriter.EnqueueNowait` | services/trading-engine/src/audit/audit_writer.py:155-179 | accepts exactly when the queue has room, and counts the task |
| `AuditWriter.AuditWriter.Start` | services/trading-engine/src/audit/audit_writer.py:86-99 | starts a worker that waits for its first entry |
| `AuditWriter.AuditWriter.CollectFirst` | services/trading-engine/src/audit/audit_writer.py:229-231 | the first entry opens a new pending batch |
| `AuditWriter.AuditWriter.CollectNext` | services/trading-engine/src/audit/audit_writer.py:235-243 | a further entry joins the pending batch, which is handed over when full |
| `AuditWriter.AuditWriter.CollectTimeout` | services/trading-engine/src/audit/audit_writer.py:236-247 | at the deadline the partial batch is handed over |
| `AuditWriter.AuditWriter.FinishInsert` | services/trading-engine/src/audit/audit_writer.py:215-225 | the batch settles as persisted or failed and is marked done entry by entry in either case |
| `AuditWriter.AuditWriter.BeginStop` | services/trading-engine/src/audit/audit_writer.py:101-114 | stop() begins to drain |
| `AuditWriter.AuditWriter.CancelWorker` | services/trading-engine/src/audit/audit_writer.py:202-225 | cancellation while collecting reclaims the pending entries and marks them done; cancellation inside the insert marks the batch done without persisting it |
| `AuditWriter.AuditWriter.BeginFlush` | services/trading-engine/src/audit/audit_writer.py:258-272 | the flush takes the reclaimed entries and then the queue, in order |
| `AuditWriter.AuditWriter.FinishFlush` | services/trading-engine/src/audit/audit_writer.py:273-285 | only the entries the flush took from the queue are marked done by it |
| `AuditWriter.AuditWriter.CancelStop` | services/trading-engine/src/audit/audit_writer.py:101-128 | cancelled in its drain, stop() leaves a worker that nothing stops; cancelled in its flush, it marks the batch done without persisting it |
| `SessionClock.WallOrderIsUtcOrder` | services/trading-engine/src/config/session_clock.py:50-60 | for a wall reading no transition skips or repeats, the fold does not matter, the resolved instant shows that reading, and comparing wall readings with it decides UTC order across all jumps |
| `SessionClock.ResolveInverts` | services/trading-engine/src/config/session_clock.py:50-60 | an instant is found again from its wall reading and its fold, through every gap and repetition |
| `SessionClock.FoldIsSecond` | services/trading-engine/src/config/session_clock.py:50-60 | the fold marks exactly the instants whose wall reading was shown before |
| `SessionClock.ShowsHourAndMinute` | services/trading-engine/src/config/session_clock.py:54-57 | a reading shows the reset time of the settings if and only if its hour and minute are theirs and nothing is left over |
| `SessionClock.CleanResetsAreExact` | services/trading-engine/src/config/session_clock.py:33-89 | when no day's reset is skipped or repeated: previous <= now < next, both show the reset time, no reset lies between, and their distance is 24 hours less the change of offset |
| `SessionClock.TradingDayIsStable` | services/trading-engine/src/config/session_clock.py:33-89 | every instant of [previous, next) sees the same two resets, and next(previous(now)) = next(now) |
| `SessionClock.ExactIffResetsClean` | services/trading-engine/src/config/session_clock.py:33-89 | for transitions under a day and three days apart, the functions are exact at every instant if and only if no reset reading is skipped or repeated |
| `SessionClock.SkippedResetIsMissed` | services/trading-engine/src/config/session_clock.py:63-89 | at a jump over a reset time previous_reset_at answers an instant that is no reset |
| `SessionClock.RepeatedResetIsMissed` | services/trading-engine/src/config/session_clock.py:33-60 | from the first of two occurrences of a reset time next_reset_at jumps over the second |
| `SessionClock.RepeatedResetKeepsSide` | services/trading-engine/src/config/session_clock.py:33-89 | of a repeated reset of the same local day, each occurrence is the one that the functions answer on its own side of the transition |
| `SessionClock.PreviousResetAfterNow` | services/trading-engine/src/config/session_clock.py:63-89 | a concrete zone and time for which the previous reset lies in the future |
| `FetchStitch.FetchShard` | services/trading-engine/scripts/fetch_campaign.py:185-257 | the anchor loop computes the backward paging, for any anchor limit |
| `FetchStitch.StoppedCovers` | services/trading-engine/scripts/fetch_campaign.py:185-252 | when the paging stops by itself its chunks hold exactly one gapless stretch of the server's history, from the anchor down to the window start or the oldest bar |
| `FetchStitch.CampaignCovers` | services/trading-engine/scripts/fetch_campaign.py:185-252 | a campaign that stops by itself holds every server bar of its window |
| `FetchStitch.CoversIffTwoBarAnswers` | services/trading-engine/scripts/fetch_campaign.py:247-250 | that holds on every history and window if and only if the server answers at least two bars at a time |
| `FetchStitch.OneBarPagesMissBars` | services/trading-engine/scripts/fetch_campaign.py:247-250 | a concrete history on which one-bar answers miss a bar |
| `FetchStitch.AnchorsMoveBack` | services/trading-engine/scripts/fetch_campaign.py:242-252 | the oldest bar strictly moves back on every page but the last |
| `FetchStitch.CampaignExceedsLimit` | services/trading-engine/scripts/fetch_campaign.py:187-257 | the campaign raises for too many anchors if and only if the bars of the window exceed anchors times (answer size - 1), with the exact bound for both ways of stopping |
| `FetchStitch.DropDuplicatesKeepsFirsts` | services/trading-engine/scripts/stitch_chunks_to_window.py:52-75 | deduplication keeps exactly the first row of each time |
| `FetchStitch.StitchedIsExact` | services/trading-engine/scripts/stitch_chunks_to_window.py:52-75 | the stitched table has strictly increasing times and holds for each time exactly the first row of the first chunk that has one; without chunks it is an error |
| `FetchStitch.FetchThenStitch` | services/trading-engine/scripts/fetch_campaign.py:185-263 | fetch then stitch reproduces a contiguous stretch of the server's history row for row, covering the window |
| `RiskState.RunKeepsMetrics` | services/trading-engine/src/accounts/risk_state.py:37-84 | after any run equity is the last reported, the peak the running maximum, the day's P&L the sum since the last reset and its percentage the share of that reset's balance, and the stored drawdown the non-negative formula on current peak and equity |
| `RiskState.PeakIsMaximum` | services/trading-engine/src/accounts/risk_state.py:48-58 | that running maximum bounds every reported equity and is the start value or one of them |
| `RiskState.DailyLossInAmounts` | services/trading-engine/src/accounts/risk_manager.py:76-87 | the daily-loss check is exactly a loss of at least the limit's share of the day's starting balance |
| `RiskState.DrawdownInAmounts` | services/trading-engine/src/accounts/risk_manager.py:89-100 | the drawdown check is exactly a distance from the peak of at least the limit's share of the peak |
| `RiskState.FreshStateHitsIff` | services/trading-engine/src/accounts/risk_manager.py:76-100 | an account without a stored state hits the drawdown limit if and only if the limit is not positive, and the daily limit never |
| `RiskState.RiskState.UpdateEquity` | services/trading-engine/src/accounts/risk_state.py:48-58 | sets equity, raises the peak, recomputes the drawdown |
| `RiskState.RiskState.RecordTrade` | services/trading-engine/src/accounts/risk_state.py:60-69 | adds to the day's P&L; the percentage only with a positive starting balance |
| `RiskState.RiskState.ResetDaily` | services/trading-engine/src/accounts/risk_state.py:71-84 | clears the day and keeps equity, peak and drawdown |
| `PnlTracker.RunTracksOpenIds` | services/trading-engine/src/accounts/pnl_tracker.py:289-384 | the positions are exactly the ids filled and not closed since, each once |
| `PnlTracker.EquityIsRecomputed` | services/trading-engine/src/accounts/pnl_tracker.py:219-384 | after any run, at every await, the balance is the last reset's or the initial one plus the realized P&L of the closes since that met a position, that P&L is the tracker's day, and equity is off balance + sum of unrealized by exactly the drift; with no close in flight and no reset unseen it is not off |
| `PnlTracker.DriftIsInFlight` | services/trading-engine/src/accounts/pnl_tracker.py:359-379 | with no close between its booking and its recomputation, and the equity recomputed since the last reset, there is no drift |
| `PnlTracker.DayCountsFromReset` | services/trading-engine/src/accounts/pnl_tracker.py:419-430 | after any run, the tracker's balance and day's P&L and the risk state's starting balance count from the last reset |
| `PnlTracker.PositionsMatchHistory` | services/trading-engine/src/accounts/pnl_tracker.py:239-280 | with fresh order ids each open position's unrealized P&L is the signed distance from its fill to the last matching bid or ask since, times volume |
| `PnlTracker.PnlIsSaleLessPurchase` | services/trading-engine/src/accounts/pnl_tracker.py:194-217 | the unrealized P&L is the value sold less the value bought, for either side |
| `PnlTracker.MarkIsWorstExit` | services/trading-engine/src/accounts/pnl_tracker.py:263-272 | the mark is the worse of the two quotes for the holder |
| `PnlTracker.GainsWithItsSide` | services/trading-engine/src/accounts/pnl_tracker.py:194-217 | a long position gains exactly above its entry, a short one exactly below |
| `PnlTracker.RefillGoesStale` | services/trading-engine/src/accounts/pnl_tracker.py:309-316 | adding to an open position leaves its unrealized P&L right if and only if the added volume or the price distance is zero |
| `PnlTracker.DailyPnlAgrees` | services/trading-engine/src/accounts/pnl_tracker.py:359-379 | in every interleaving, tracker and risk state agree on the day's realized P&L if and only if the P&L that waits to be recorded sums to what the last reset cut off from its recording; so with nothing waiting, if and only if the closes it cut off sum to zero |
| `PnlTracker.LedgersDifferByCut` | services/trading-engine/src/accounts/pnl_tracker.py:359-379 | the two differ by exactly what waits less what was cut off |
| `PnlTracker.ResetCutsClose` | services/trading-engine/src/accounts/pnl_tracker.py:359-379 | a concrete run: behind a report that holds the lock a close books its P&L, both ledgers are reset, and when all has finished the tracker shows nothing for the day and the risk state that P&L |
| `PnlTracker.UncutClose` | services/trading-engine/src/accounts/pnl_tracker.py:343-384 | after any run, a close into which nothing cuts books its P&L in both ledgers and reports the equity without its position |
| `PnlTracker.RiskShowsEquity` | services/trading-engine/src/accounts/pnl_tracker.py:274-278 | from its first report on, also across resets, the risk state shows the tracker's equity whenever no report waits for the lock; until then the newest that waits is that equity |
| `PnlTracker.PnLTracker.RecalculateEquity` | services/trading-engine/src/accounts/pnl_tracker.py:219-229 | sums the unrealized P&L onto the balance |
| `PnlTracker.PnLTracker.OnTick` | services/trading-engine/src/accounts/pnl_tracker.py:239-278 | marks every position of the symbol, longs at the bid and shorts at the ask, recomputes equity and waits for the lock to report it; nothing without such a position |
| `PnlTracker.PnLTracker.OnTradeExecuted` | services/trading-engine/src/accounts/pnl_tracker.py:289-335 | opens a position at the fill or adds volume to it, recomputes equity and waits for the lock to report it |
| `PnlTracker.PnLTracker.OnPositionClosed` | services/trading-engine/src/accounts/pnl_tracker.py:343-371 | up to its first wait: removes the position, books its realized P&L in the tracker and queues for the lock; nothing for an unknown id |
| `PnlTracker.PnLTracker.ServeFirst` | services/trading-engine/src/accounts/risk_registry.py:92-116 | the handler that is first at the lock makes its change to the risk state |
| `PnlTracker.PnLTracker.AfterRecord` | services/trading-engine/src/accounts/pnl_tracker.py:377-379 | after its trade is recorded a close recomputes the equity and waits to report it |
| `PnlTracker.PnLTracker.ResetDaily` | services/trading-engine/src/accounts/pnl_tracker.py:419-430 | resets the day and replaces the balance, without recomputing equity |
| `PnlTracker.PnLTrackerRegistry.OnTickAll` | services/trading-engine/src/accounts/pnl_registry.py:131-150 | skipping trackers without a position in the symbol gives the same state as ticking every tracker |
| `RiskIsolation.AccountsDoNotInterfere` | services/trading-engine/src/accounts/risk_isolation.py:76-190 | however the stretches of all calls between their awaits are interleaved over all accounts, with calls abandoned and restarts anywhere, one account's risk, status, violation log, suspended calls and results are those of its own stretches run alone |
| `RiskIsolation.OutcomeIsOwn` | services/trading-engine/src/accounts/risk_isolation.py:76-190 | and every call comes to the same result |
| `RiskDecisions.BreachPausesOrRaises` | services/trading-engine/src/accounts/risk_isolation.py:76-103 | an equity update that no other call of its account cuts into, whatever other accounts do meanwhile: it raises if and only if the limit is hit on an account that is not active; returning with the limit hit means active became paused with the violation on top of the log |
| `RiskDecisions.LossPausesOrRaises` | services/trading-engine/src/accounts/risk_isolation.py:105-132 | the same for a completed trade and the daily loss limit |
| `RiskDecisions.ChecksKeepManager` | services/trading-engine/src/accounts/risk_registry.py:118-141 | an update always finds its account's manager at its check |
| `RiskDecisions.PreTradeDecides` | services/trading-engine/src/accounts/risk_isolation.py:134-158 | a trade is allowed if and only if every daily-loss rule is kept by the day's loss and every drawdown rule by the drawdown, with no unknown rule; refused if and only if a broken rule precedes any unknown one, and raising if and only if an unknown one precedes any broken one |
| `RiskDecisions.AllowedInAmounts` | services/trading-engine/src/accounts/risk_isolation.py:134-158 | in amounts: allowed if and only if the day's loss is below each daily limit's share of the starting balance and the distance from the peak below each drawdown limit's share of the peak |
| `RiskDecisions.CheckDecides` | services/trading-engine/src/accounts/risk_isolation.py:134-158 | a whole pre-trade check amid other accounts comes to that decision on its account's risk, and changes nothing but to create the manager |
| `RiskDecisions.RequestTakesEffectIff` | services/trading-engine/src/accounts/account_manager.py:381-545 | a whole lifecycle request amid other accounts: the exact statuses it starts from, the status it leaves, and that it raises and changes nothing otherwise |
| `RiskIsolation.ResetAllIsRun` | services/trading-engine/src/accounts/risk_registry.py:155-167 | resetting all accounts, with no other call cutting in, equals a run of one reset after the other |
| `RiskInterleavings.LeavesTableIffOvertaken` | services/trading-engine/src/accounts/account_manager.py:278-557 | a change of status leaves the transition table in exactly these cases: a pause saved over a stop or an error that came since its read, a start or resume saved over an error that came since, and, of the saves that read nothing, set_error and a failed recovery over a stop, and the start of a task over an error; a stop or an acknowledgement never does |
| `RiskInterleavings.LeavingIsOvertaken` | services/trading-engine/src/accounts/account_manager.py:381-526 | a request whose save leaves the table has been overtaken: the status is no longer the one it read |
| `RiskInterleavings.LifecycleFollowsTable` | services/trading-engine/src/accounts/account_manager.py:278-557 | while no request has been overtaken between its read and its save, a change of status leaves the table if and only if it is one of those saves that read nothing |
| `RiskInterleavings.PauseUndoesStop` | services/trading-engine/src/accounts/account_manager.py:407-474 | a pause and a stop that both read an active account: the stop is saved first, the pause undoes it, and both return normally |
| `RiskInterleavings.PausedStaysInactive` | services/trading-engine/src/accounts/account_manager.py:278-526 | an account that is not active stays so until a start or resume is requested or its task is started, in every interleaving and across restarts |
| `RiskInterleavings.ActivatedIff` | services/trading-engine/src/accounts/account_manager.py:278-526 | such an account becomes active exactly by the save of a start or resume that its read allowed, or by the start of a task it did not have |
| `RiskInterleavings.RestartUnpauses` | services/trading-engine/src/accounts/account_manager.py:260-293 | a concrete run: an account paused for a violation is active again after a restart that starts the accounts' tasks, without a request and with the violation on its log |
| `RiskInterleavings.LogHoldsNewest` | services/trading-engine/src/state/redis_state.py:255-279 | over every run an account's log holds exactly its newest thousand violations, the newest on top |
| `RiskInterleavings.RiskFollowsJobs` | services/trading-engine/src/accounts/risk_registry.py:69-116 | when first uses of an account do not overlap, its risk is at every moment that of its jobs in order, memory agrees with the store, and restarts leave no trace |
| `RiskInterleavings.UpdatesAreNeverLost` | services/trading-engine/src/accounts/risk_registry.py:92-116 | with only equity updates and trades submitted, no interleaving, abandonment or restart ever loses one: under the lock first uses do not overlap |
| `RiskInterleavings.UpdatesDoNotOverlap` | services/trading-engine/src/accounts/risk_registry.py:92-116 | the invariant behind it |
| `RiskInterleavings.WaitsIffLocked` | services/trading-engine/src/accounts/risk_registry.py:92-167 | an update waits exactly while another one is creating the manager; resets and checks never wait |
| `RiskInterleavings.RiskIsOfOwnJobs` | services/trading-engine/src/accounts/risk_registry.py:69-116 | the same in the world of all accounts, for the account's own jobs |
| `RiskInterleavings.OvertakenJobIsLost` | services/trading-engine/src/accounts/risk_registry.py:78-90 | a job done while another call is creating the manager is forgotten when that call installs what it loaded |
| `RiskInterleavings.CreationIsSafeIff` | services/trading-engine/src/accounts/risk_registry.py:69-90 | every continuation without a restart keeps the account's risk equal to its jobs in order if and only if its manager exists and no call is still creating it |
| `RiskIsolation.RiskStateRegistry.GetOrLoad` | services/trading-engine/src/accounts/risk_registry.py:78-80 | up to its await get_or_create finds the manager or loads the stored state, else zeros |
| `RiskIsolation.RiskStateRegistry.InstallManager` | services/trading-engine/src/accounts/risk_registry.py:82-90 | after its await it stores the new manager without looking again |
| `RiskIsolation.RiskStateRegistry.ResetDailyAll` | services/trading-engine/src/accounts/risk_registry.py:155-167 | the loop equals resetting the given accounts one by one, with no other call cutting in |
| `RiskIsolation.AccountManager.ReadStatus` | services/trading-engine/src/accounts/account_manager.py:390-391 | the first stretch of every request: an unknown account raises, else the status is read and kept |
| `RiskIsolation.AccountManager.PauseAccount` | services/trading-engine/src/accounts/account_manager.py:463-474 | the stretch after the read: checks what was read and saves over what is there |
| `RiskIsolation.AccountManager.StartAccount` | services/trading-engine/src/accounts/account_manager.py:394-405 | likewise; an account without a status starts |
| `RiskIsolation.AccountManager.StopAccount` | services/trading-engine/src/accounts/account_manager.py:441-448 | likewise; an account read as stopped is not saved again |
| `RiskIsolation.AccountManager.ResumeAccount` | services/trading-engine/src/accounts/account_manager.py:521-526 | likewise, only from a status read as paused |
| `RiskIsolation.AccountManager.AcknowledgeError` | services/trading-engine/src/accounts/account_manager.py:540-545 | likewise, only from a status read as error |
| `RiskIsolation.AccountManager.SetError` | services/trading-engine/src/accounts/account_manager.py:547-557 | saves error for a known account without reading |
| `RiskIsolation.AccountManager.SpawnAccountTask` | services/trading-engine/src/accounts/account_manager.py:278-293 | saves active without reading for any account without a task, and leaves a running task alone |
| `RiskIsolation.AccountManager.EndTask` | services/trading-engine/src/accounts/account_manager.py:326-328 | a loop that ends, for whatever reason, takes its task out |
| `RiskIsolation.AccountManager.AddAccount` | services/trading-engine/src/accounts/account_manager.py:632-637 | a new account becomes known; raises for one that is loaded |
| `RiskIsolation.AccountManager.BlockAfterRecovery` | services/trading-engine/src/state/trading_resumer.py:340-352 | saves error without reading, known account or not |
| `RiskIsolation.RiskIsolationService.Submit` | services/trading-engine/src/accounts/risk_isolation.py:76-132 | a call begins: with a manager it does its job and issues the save, without one it loads |
| `RiskIsolation.RiskIsolationService.Install` | services/trading-engine/src/accounts/risk_registry.py:82-90 | the loaded state is installed and the job done on it |
| `RiskIsolation.RiskIsolationService.Perform` | services/trading-engine/src/accounts/risk_manager.py:58-74 | each job makes its change to the manager and saves it |
| `RiskIsolation.RiskIsolationService.Check` | services/trading-engine/src/accounts/risk_isolation.py:91-103 | the check of an update: returns, raises for an unknown account, or reads the status to pause |
| `RiskIsolation.RiskIsolationService.PauseForViolation` | services/trading-engine/src/accounts/risk_isolation.py:160-190 | pauses by the status read, and only then goes on to record |
| `RiskIsolation.RiskIsolationService.RecordViolation` | services/trading-engine/src/accounts/risk_isolation.py:187-190 | pushes the violation on top of the trimmed log |
| `RiskIsolation.RiskIsolationService.Decide` | services/trading-engine/src/accounts/risk_isolation.py:134-158 | the early-return loop computes the decision on the account's own risk state |
| `ComplianceActor.StopRegistersEveryDay` | services/trading-engine/src/backtesting/prop_firm_actor.py:221-269 | after on_stop the registered days are one per maximal run of equal-date bars, in order, each with last minus first equity of its run |
| `ComplianceActor.RunIsMaximal` | services/trading-engine/src/backtesting/prop_firm_actor.py:231-269 | those runs are maximal and have one date |
| `ComplianceActor.DatesAreUtcDays` | services/trading-engine/src/backtesting/prop_firm_actor.py:239-253 | two moments have one date if and only if no UTC midnight lies between them, and the date counts days since the epoch |
| `ComplianceActor.SessionsAreLocalDays` | services/trading-engine/src/backtesting/prop_firm_actor.py:193-199 | two bars are in one session if and only if no local midnight lies between what the zone's clock shows at them |
| `ComplianceActor.CompletedDaysAreRegistered` | services/trading-engine/src/backtesting/prop_firm_actor.py:126-133 | the history handed to the rules holds the last P&L registered for each date |
| `ComplianceActor.PeakIsMaxEquity` | services/trading-engine/src/backtesting/prop_firm_actor.py:120-124 | the peak is the maximum of the initial balance and all equities |
| `ComplianceActor.CurveIsReadings` | services/trading-engine/src/backtesting/prop_firm_actor.py:120-124 | the equity curve is every reading, in order |
| `ComplianceActor.MaxEquityIsMaximum` | services/trading-engine/src/backtesting/prop_firm_actor.py:120-124 | that maximum bounds every sample and is attained |
| `ComplianceActor.ContextIsRecomputed` | services/trading-engine/src/backtesting/account_state_builder.py:41-63 | everything the rules see on a bar equals its recomputation from the equity samples, and the drawdown is the one the live risk state would store |
| `ComplianceActor.BreachesAreFirsts` | services/trading-engine/src/backtesting/prop_firm_actor.py:181-199 | recorded breaches are the raw breach stream without those that repeat a rule with no local midnight in between, in order |
| `ComplianceActor.DailyPnlIsSessionPnlIff` | services/trading-engine/src/backtesting/prop_firm_actor.py:239-253 | the day's P&L counts from the bar that begins the current local day, for all equities, if and only if that bar begins the UTC day too |
| `ComplianceActor.PercentIsShareOfInitial` | services/trading-engine/src/backtesting/account_state_builder.py:44-47 | the day's percentage is its P&L as a share of the initial balance, zero without one |
| `ComplianceActor.BlockedAreBlocking` | services/trading-engine/src/backtesting/prop_firm_actor.py:142-179 | a check breaches exactly for the blocking results, with their figures |
| `ComplianceActor.BlockedInOrder` | services/trading-engine/src/backtesting/prop_firm_actor.py:142-179 | they stand in rule order |
| `ComplianceActor.PropFirmComplianceActor.RecordEquity` | services/trading-engine/src/backtesting/prop_firm_actor.py:120-124 | appends to the curve and raises the peak |
| `ComplianceActor.PropFirmComplianceActor.RecordComplianceCheck` | services/trading-engine/src/backtesting/prop_firm_actor.py:181-199 | collects the blocking results and appends those with a new key |
| `ComplianceActor.PropFirmComplianceActor.OnBar` | services/trading-engine/src/backtesting/prop_firm_actor.py:231-269 | rolls the day over, then builds the context and records the check; nothing without an equity |
| `ComplianceActor.PropFirmComplianceActor.OnStop` | services/trading-engine/src/backtesting/prop_firm_actor.py:208-229 | registers the open day once |
| `OrderBridge.OrdersAreConserved` | services/mt5-bridge/src/zmq_server.rs:222-305 | accepted orders are as a multiset the queued plus the delivered ones, each order goes to its own account only, and the channel keeps its bound of 100 |
| `OrderBridge.AnswersSay` | services/mt5-bridge/src/zmq_server.rs:222-252 | an unreadable heartbeat is answered by an error, one that is handed an order by that order, and any other by a plain acknowledgement |
| `OrderBridge.HeartbeatsAreNoted` | services/mt5-bridge/src/zmq_server.rs:225-230 | the bridge has noted exactly the accounts that sent a heartbeat |
| `OrderBridge.HeartbeatsMoveUp` | services/mt5-bridge/src/zmq_server.rs:232-243 | every heartbeat, whoever sends it, moves a queued order up by one |
| `OrderBridge.DeliveredWithItsTurn` | services/mt5-bridge/src/zmq_server.rs:232-243 | the order at index i is delivered at the (i+1)-th heartbeat if and only if that one is its own account's; otherwise it goes to the end |
| `OrderBridge.AlternatingHeartbeatsStarve` | services/mt5-bridge/src/zmq_server.rs:238-242 | two accounts whose heartbeats always meet the other's order are never served |
| `OrderBridge.HeartbeatKeepsLinesIff` | services/mt5-bridge/src/zmq_server.rs:232-243 | a heartbeat keeps the order of every account's orders if and only if it does not put back an order that has a different one of the same account behind it |
| `OrderBridge.RunInOrderIff` | services/mt5-bridge/src/zmq_server.rs:222-305 | over every run each account's orders leave, or are queued, in the order they were accepted, at every moment, if and only if no heartbeat of the run does that |
| `OrderBridge.DeliveredIsPrefix` | services/mt5-bridge/src/zmq_server.rs:232-243 | then what an account has been handed is a prefix of what was accepted for it |
| `OrderBridge.OrdersOvertake` | services/mt5-bridge/src/zmq_server.rs:238-242 | a concrete queue on which a put-back reorders one account's orders |
| `OrderBridge.PutBackNeverWaits` | services/mt5-bridge/src/zmq_server.rs:238-242 | the put-back of a heartbeat always finds room |
| `OrderBridge.FullChannelStopsBridge` | services/mt5-bridge/src/zmq_server.rs:110-149 | after that the bridge never does anything again |
| `OrderBridge.RunningIffAllAccepted` | services/mt5-bridge/src/zmq_server.rs:110-149 | the bridge still runs if and only if every order that arrived was accepted |
| `OrderBridge.ZmqServer.GetPendingOrder` | services/mt5-bridge/src/zmq_server.rs:337-339 | pops the oldest order without waiting |
| `OrderBridge.ZmqServer.HandleOrderCommand` | services/mt5-bridge/src/zmq_server.rs:279-305 | queues a parsed order, waits on a full channel, ignores the rest |
| `OrderBridge.ZmqServer.HandleHeartbeat` | services/mt5-bridge/src/zmq_server.rs:222-252 | delivers the oldest order to its own account or puts it back; an invalid payload is an error |
| `RetryQueue.EveryMessageHasOneFate` | services/notification/internal/queue/message_queue.go:62-147 | over every run each message is waiting, delivered by one success and never sent again, or dropped after its limit of failures; survivors keep their order and attempts count failures |
| `RetryQueue.DroppedAfterMaxRetries` | services/notification/internal/queue/message_queue.go:117-127 | an undelivered message has left after exactly maxRetries failures if and only if maxRetries >= 1, else after one |
| `RetryQueue.AttemptsAreSpaced` | services/notification/internal/queue/message_queue.go:110-135 | the passes of attempts k and k+1 of a message start at least the backoff of attempt k apart, and nothing follows a success |
| `RetryQueue.CalledIffDue` | services/notification/internal/queue/message_queue.go:103-135 | after any run the next pass sends a waiting message if and only if it starts no earlier than the message arrived and its last failure's backoff allows: neither early nor late |
| `RetryQueue.WaitingAreTracked` | services/notification/internal/queue/message_queue.go:62-135 | a waiting message has the text it arrived with and the number of sends made for it, and is due exactly then |
| `RetryQueue.CallsAreSpaced` | services/notification/internal/queue/message_queue.go:110-135 | the calls themselves are the backoff apart, less the time the pass had taken when the first was made |
| `RetryQueue.CallsAreInTime` | services/notification/internal/queue/message_queue.go:103-147 | calls are made one after the other, none before its pass starts |
| `RetryQueue.BackoffHoldsIff` | services/notification/internal/queue/message_queue.go:110-135 | the backoff of a waiting message's last call holds in every continuation if and only if that call was made as its pass started, or the pass outlasted the backoff |
| `RetryQueue.SlowSenderBreaksBackoff` | services/notification/internal/queue/message_queue.go:110-135 | a concrete run: behind a slow send a failed message is sent again within its backoff |
| `RetryQueue.DelayDoublesIffInRange` | services/notification/internal/queue/message_queue.go:130 | the delay is base * 2^(k-1) if and only if that fits a 64-bit duration |
| `RetryQueue.HugeDelayWrapsNegative` | services/notification/internal/queue/message_queue.go:130 | beyond that it can turn negative, so the retry is due at once |
| `RetryQueue.PassSpendsBudget` | services/notification/internal/queue/message_queue.go:103-147 | every send of a pass uses up one of the sends its message had left |
| `RetryQueue.SendsAreBounded` | services/notification/internal/queue/message_queue.go:103-147 | the sender is never called more than the limit times the number of messages |
| `RetryQueue.MessageQueue.Enqueue` | services/notification/internal/queue/message_queue.go:62-71 | appends a message that is due at once |
| `RetryQueue.MessageQueue.ProcessMessages` | services/notification/internal/queue/message_queue.go:103-147 | the loop over the queue computes the pass |
| `ResumeHandshake.StopsAndResumesAlternate` | services/notification/internal/telegram/commands.go:190-272 | for all commands, publish failures and clocks, published stops and resumes strictly alternate from a stop, each resume is backed by a request made after its stop that is at most 60 s old at the check and 60.5 s at the publish, and no request backs two |
| `ResumeHandshake.RunIsValid` | services/notification/internal/telegram/commands.go:190-272 | the inductive invariant, with a pending request only while stopped |
| `ResumeHandshake.BeliefMatchesPublished` | services/notification/internal/telegram/bot.go:265-274 | the bot believes trading is stopped if and only if the last thing published is a stop |
| `ResumeHandshake.ConfirmResumesIffBacked` | services/notification/internal/telegram/commands.go:246-272 | a confirmation publishes if and only if a request is pending and in time and the publish succeeds; a failed publish changes nothing |
| `ResumeHandshake.ConfirmsOpenRequest` | services/notification/internal/telegram/commands.go:246-272 | in terms of the commands so far: it publishes, in the name of who asked, if and only if the last request made while stopped is unused and at most 60 s old, and the publish takes at most half a second |
| `ResumeHandshake.HoldsOpenRequest` | services/notification/internal/telegram/bot.go:331-344 | after every command sequence the bot holds exactly that request |
| `ResumeHandshake.CommandsTakeEffect` | services/notification/internal/telegram/commands.go:190-274 | a stop that goes out stops and one that does not changes nothing, a request is accepted if and only if stopped, and resuming one account touches neither |
| `ResumeHandshake.NewStopNeedsNewRequest` | services/notification/internal/telegram/commands.go:246-272 | after a resume and a new stop, confirming without a new request does nothing |
| `ResumeHandshake.TelegramBot.GetPendingResume` | services/notification/internal/telegram/bot.go:331-344 | an expired request is dropped when read |
| `ResumeHandshake.TelegramBot.HandleStopAll` | services/notification/internal/telegram/commands.go:190-220 | publishes a stop unless stopped, and believes it only if it went out |
| `ResumeHandshake.TelegramBot.HandleResumeAll` | services/notification/internal/telegram/commands.go:223-243 | records a request only while stopped |
| `ResumeHandshake.TelegramBot.HandleConfirmResume` | services/notification/internal/telegram/commands.go:246-272 | publishes the resume of a valid request and clears it |
| `SignalRouter.RoutesLikeScan` | services/trading-engine/src/accounts/signal_router.py:99-124 | after any run of builds, adds and removes, routing equals a scan over the routed accounts, and is the same for all ways of writing a symbol that differ in letter case |
| `SignalRouter.RoutesToSubscribers` | services/trading-engine/src/accounts/signal_router.py:99-124 | a symbol reaches exactly the routed accounts whose filter is empty or lists it, in whatever letter case either is written |
| `Text.UpperIs` | services/trading-engine/src/accounts/signal_router.py:110-113 | two texts have one upper case if and only if they differ in letter case only |
| `SignalRouter.RunIndexes` | services/trading-engine/src/accounts/signal_router.py:174-259 | the index is the inverted filter table without empty buckets |
| `SignalRouter.IncrementalIsRebuild` | services/trading-engine/src/accounts/signal_router.py:174-259 | however it was reached, the index equals a rebuild on the accounts it routes |
| `SignalRouter.IndexIsUnique` | services/trading-engine/src/accounts/signal_router.py:64-97 | a filter table has only one index |
| `SignalRouter.RemoveLeavesNothing` | services/trading-engine/src/accounts/signal_router.py:239-259 | removal takes the account out of every route, leaves all others and no empty bucket |
| `SignalRouter.ReAddMergesFilters` | services/trading-engine/src/accounts/signal_router.py:213-237 | adding a routed account again is correct if and only if both filters are empty or the new one is non-empty and contains the old |
| `SignalRouter.SymbolRouter.RebuildMapping` | services/trading-engine/src/accounts/signal_router.py:174-211 | builds the index of the active accounts and swaps it in |
| `SignalRouter.SymbolRouter.AddAccount` | services/trading-engine/src/accounts/signal_router.py:213-237 | adds an active account to its buckets or the wildcards |
| `SignalRouter.SymbolRouter.RemoveAccount` | services/trading-engine/src/accounts/signal_router.py:239-259 | removes the account and the buckets it emptied |
| `SignalRouter.SymbolRouter.RouteSymbol` | services/trading-engine/src/accounts/signal_router.py:99-124 | the bucket of the upper-case symbol plus the wildcards |
| `CalendarIndex.EventIndex.constructor` | services/trading-engine/src/calendar/calendar_models.py:95-99 | stores the events in stable order of start |
| `CalendarIndex.EventIndex.ActiveEventsAt` | services/trading-engine/src/calendar/calendar_models.py:108-156 | the slice between two bisections, filtered, is what a scan of all events for start-before <= now <= start+after, impact and symbol gives; exact error cases |
| `CalendarIndex.ActiveIsLinearScan` | services/trading-engine/src/calendar/calendar_models.py:95-156 | and that is the linear filter of the events as given, stably sorted by start |
| `CalendarIndex.EventIndex.NextEventAfter` | services/trading-engine/src/calendar/calendar_models.py:158-179 | the first selected event after the bisection is the first one a scan finds; exact error case |
| `CalendarIndex.NextIsEarliest` | services/trading-engine/src/calendar/calendar_models.py:158-179 | it is the earliest selected event strictly after the time, the first given of several, and none if and only if there is none |
| `CalendarIndex.AffectsAsConstructed` | services/trading-engine/src/calendar/calendar_models.py:60-84 | an event affects exactly the non-blank symbols it was made with, in any case and with outer blanks, or without any those containing its country code |
| `CalendarIndex.NewEventKeeps` | services/trading-engine/src/calendar/calendar_models.py:56-70 | an event is made exactly of an aware start, which it keeps; its impact loses outer blanks and capitals |
| `Text.StripTrims` | services/trading-engine/src/calendar/calendar_models.py:65-84 | stripping takes off exactly the outer blanks |
| `StableSort.SortSorts` | services/trading-engine/src/calendar/calendar_models.py:96-98 | the sort is an ordered permutation |
| `StableSort.SortIsStable` | services/trading-engine/src/calendar/calendar_models.py:96-98 | elements that compare equal keep their order |
| `StableSort.FilterSort` | services/trading-engine/src/calendar/calendar_models.py:95-156 | filtering and stable sorting commute for every condition and order |
| `BarCache.FreshLoadIsCoherent` | services/trading-engine/src/backtesting/data_loader.py:271-297 | over any inserts and loads whose fingerprints may have been overtaken, a load of whole-second bounds with the current fingerprint returns exactly the rows now in the range |
| `BarCache.FreshLoadsAreCoherent` | services/trading-engine/src/backtesting/data_loader.py:271-297 | when all loads take their fingerprint just before, the same holds for any bounds, although file names keep whole seconds only |
| `BarCache.LoadAnswers` | services/trading-engine/src/backtesting/data_loader.py:271-297 | over every history and fingerprint a load answers what the last query under its key found, and one that skips the cache or finds no shard the rows now in the range |
| `BarCache.ShardIsLastQuery` | services/trading-engine/src/backtesting/data_loader.py:284-297 | a shard is what the last forced query under its key found, or the first |
| `BarCache.ForcedLoadRepairs` | services/trading-engine/src/backtesting/data_loader.py:281-297 | one load with no_cache repairs a stale range: it and every later load under its key answer the current rows until a bar of the range is edited |
| `BarCache.RangesTile` | services/trading-engine/src/backtesting/data_loader.py:159-178 | ranges include their start and not their end: adjacent ones share no bar and miss none |
| `BarCache.StampsAreSeconds` | services/trading-engine/src/backtesting/data_cache.py:93-95 | two bounds share a file name if and only if they fall in the same second |
| `BarCache.FingerprintSeparates` | services/trading-engine/src/backtesting/data_cache.py:40-57 | first time, last time and count tell apart any two stretches of a series that only grew |
| `BarCache.FingerprintSeesInsertsAndDeletesOnly` | services/trading-engine/src/backtesting/data_loader.py:150-169 | inserting or deleting one bar always changes the fingerprint, correcting one in place never does |
| `BarCache.EditsCanCancel` | services/trading-engine/src/backtesting/data_loader.py:150-169 | a deletion and an insertion together can leave it as it was |
| `BarCache.AlwaysCoherentIff` | services/trading-engine/src/backtesting/data_loader.py:271-297 | over every history of inserts, corrections, deletions and loads with fresh fingerprints, no fresh load is ever stale if and only if no edit gives a range the fingerprint of a shard filed for it with other rows |
| `BarCache.CorrectionHarmsIff` | services/trading-engine/src/backtesting/data_loader.py:271-297 | a correction makes a fresh load stale if and only if it changes the bar and some range over the bar is cached under its current fingerprint |
| `BarCache.StaleNeedsBothKinds` | services/trading-engine/src/backtesting/data_loader.py:271-297 | the first fresh load of a history to be stale needs, since the last load under its key, a correction in its range, or both an insertion into it and a deletion from it |
| `BarCache.OneKindIsCoherent` | services/trading-engine/src/backtesting/data_loader.py:271-297 | so histories whose edits, from the first load on, are only insertions of new bars or only deletions never serve a stale range |
| `BarCache.CorrectedBarIsServedStale` | services/trading-engine/src/backtesting/data_loader.py:284-291 | a concrete history after which a corrected bar is still served from the old shard |
| `BarCache.CachedBarLoader.Load` | services/trading-engine/src/backtesting/data_loader.py:271-297 | a hit returns the shard and writes nothing; a miss or no_cache queries the database and writes the shard |
| `WalkForward.Generate` | services/trading-engine/src/backtesting/walk_forward.py:80-124 | the loop returns exactly floor((total - train - test) / step) + 1 folds in closed form, or an error for an unknown mode, a short range or a non-positive step or test window |
| `WalkForward.AcceptedIffFirstFits` | services/trading-engine/src/backtesting/walk_forward.py:95-108 | folds are generated if and only if the mode is known, the step positive and the first fold's test window not empty and inside the range, exactly filling it included |
| `WalkForward.FitsIffCounted` | services/trading-engine/src/backtesting/walk_forward.py:106-121 | a fold fits the range if and only if its number is below that count |
| `WalkForward.FoldsFillTheRange` | services/trading-engine/src/backtesting/walk_forward.py:106-121 | training ends where testing starts, all folds stay inside the range, no further fold fits, rolling training keeps its length and anchored training its start |
| `WalkForward.TrainsForwardIffNotNegative` | services/trading-engine/src/backtesting/walk_forward.py:46-54 | training windows run forwards if and only if the training length is not negative |
| `WalkForward.DisjointIffStepCoversTest` | services/trading-engine/src/backtesting/walk_forward.py:90-121 | test windows are disjoint if and only if step >= test window or there is one fold |
| `WalkForward.CoverIffTestCoversStep` | services/trading-engine/src/backtesting/walk_forward.py:106-121 | test windows leave no gap if and only if step <= test window or there is one fold |
| `WalkForward.TileIffStepIsTest` | services/trading-engine/src/backtesting/walk_forward.py:106-121 | they tile their span if and only if step = test window or there is one fold |
| `ParameterGrid.ProductCount` | services/trading-engine/src/backtesting/parameter_sweep.py:47-53 | there are as many combinations as the product of the axis lengths |
| `ParameterGrid.ProductIsMixedRadix` | services/trading-engine/src/backtesting/parameter_sweep.py:47-53 | combination i is i in mixed radix, the last axis fastest |
| `ParameterGrid.ExpansionDecodes` | services/trading-engine/src/backtesting/parameter_sweep.py:47-53 | the i-th dict has exactly the axis keys, each with its mixed-radix digit |
| `ParameterGrid.ProductHoldsAllChoices` | services/trading-engine/src/backtesting/parameter_sweep.py:47-53 | the product holds every choice of one value per axis and nothing else |
| `ParameterGrid.ProductDistinctIff` | services/trading-engine/src/backtesting/parameter_sweep.py:47-53 | unless an axis is empty, no combination repeats if and only if no axis repeats a value |
| `ParameterGrid.ExpansionDistinctIff` | services/trading-engine/src/backtesting/parameter_sweep.py:47-53 | the same for the dicts |
| `ParameterSweep.RunSequential` | services/trading-engine/src/backtesting/parameter_sweep.py:188-192 | the loop returns all results or the first exception of scoring |
| `ParameterSweep.RunParallel` | services/trading-engine/src/backtesting/parameter_sweep.py:194-211 | results are put by number in completion order and returned in combination order |
| `ParameterSweep.Run` | services/trading-engine/src/backtesting/parameter_sweep.py:175-186 | dispatch on max_workers, with the error for fewer than one |
| `ParameterSweep.ParallelIsSequential` | services/trading-engine/src/backtesting/parameter_sweep.py:188-211 | for every completion order the parallel run returns exactly when the sequential one does, and then the same list |
| `ParameterSweep.EveryOrderAgreesIff` | services/trading-engine/src/backtesting/parameter_sweep.py:188-257 | even exceptions agree for every completion order if and only if all combinations whose scoring raises raise alike |
| `ParameterSweep.SequentialIs` | services/trading-engine/src/backtesting/parameter_sweep.py:188-257 | each result is that of its combination; an exception is that of the first combination whose scoring raises |
| `ParameterSweep.OutcomeIs` | services/trading-engine/src/backtesting/parameter_sweep.py:213-257 | a combination fails, is stopped or is okay exactly by its backtest raising, its metric crossing the threshold in the configured direction, or neither; what else raises is passed on |
| `ParameterSweep.RankedIsBestFirst` | services/trading-engine/src/backtesting/parameter_sweep.py:96-99 | the ranking is a stable, descending permutation of the ok combinations |
| `ParameterSweep.BestIsFirstHighest` | services/trading-engine/src/backtesting/parameter_sweep.py:101-106 | best is the first of the highest scores, and raises if and only if nothing succeeded |
| `ParameterSweep.GridSweepFindsTheBest` | services/trading-engine/src/backtesting/parameter_sweep.py:175-257 | a grid sweep finished in any order ends with a point of the grid that has the score its backtest earns and is beaten by no point of the grid |

## Left out

- Audit writer: start() during a stop() that has not finished or was cancelled in its drain (two workers would share one buffer); log_sync; the failure of a timed-out queue read to return its entry (Python 3.12 returns it); a cancelled transaction is taken as rolled back; a put that waits is modelled at the moment it completes.
- Session clock: naive datetimes (ValueError), parsing of the HH:MM setting, the default for now. Resolution of wall readings follows PEP 495 and zoneinfo.
- SessionClock.ExactIffResetsClean: its converse is stated for transitions of less than a day that are at least three days apart, which excludes zones that skipped or repeated a whole calendar day; the direction that clean resets are exact (SessionClock.CleanResetsAreExact) needs neither.
- Fetch and stitch: subprocess failures, timeouts and dry runs, chunk files left by earlier runs, gap detection and the manifest entry. The server's answer of the newest bars at or before the anchor is an assumption.
- FetchStitch.AnchorsMoveBack: states progress of the pages; the bound on their number is FetchStitch.CampaignExceedsLimit.
- P&L tracker: both ledgers are reset in one step; a handler cancelled while it waits for the lock; a free lock may let its next handler wait, which only adds runs; the risk manager is taken as loaded; positions are values in an ordered sequence, so aliasing of position objects is not captured; Decimal rounding; Redis persistence of balances; metrics snapshots; the creation of trackers in the registry.
- PnlTracker.PnLTrackerRegistry.OnTickAll: trackers are ledgers by value, and nothing else runs while the loop awaits between them.
- Risk isolation: alerts, key expiry, MT5 connections; what an account's loop does between its start and its end, and that a stop cancels it first (EndTask may happen at any time); unknown status strings in the store; error counts; warning levels.
- RiskIsolation.AccountsDoNotInterfere: a Redis command takes effect with the step that issues it, so commands reordered on their way and a crash between a change in memory and its save are not modelled; the account's lock is modelled as excluding a second load under it.
- Compliance actor: the rule engine is an arbitrary function of the context; messages; float conversion of percentages.
- ComplianceActor.StopRegistersEveryDay: for runs with one on_stop, at the end.
- Order bridge: ticks, order results, sockets, heartbeat times (a set of accounts is kept) and the timeout monitor; senders other than the event loop.
- Retry queue: messages carry their arrival number; overflow of the wall clock itself; the ticker and shutdown.
- Resume handshake: chat ids and message texts; a publish that arrived but was reported as failed; restarts, which forget the state.
- Signal router: upper-casing outside ASCII; statistics; routing of bars and ticks, which only read the symbol.
- SignalRouter.RunIndexes: accounts are added while they are not routed, which is what the account manager does; the other case is SignalRouter.ReAddMergesFilters.
- Calendar index: times near the ends of the datetime range; upper- and lower-casing outside ASCII; refreshing the calendar.
- Bar cache: frames are maps from time to values; range bounds are UTC (strftime would print a bound in its own zone, so that two instants could share a file name); path validation; times before 1970; two fingerprints with one hash.
- BarCache.FreshLoadIsCoherent: for histories that only insert bars; with corrections and deletions BarCache.AlwaysCoherentIff says when it holds, for loads with fresh fingerprints.
- Walk-forward: running the folds and combining their results.
- Parameter sweep: random sampling, the JSON copy of the job that workers rebuild, broken pools, scores that are not numbers; the backtest is a deterministic function.
- Rule engine, regime classifier, strategies, crash recovery, Nautilus glue, CLI, reports and configuration schemas.
