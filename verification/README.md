# Verified model of LoadCoach

LoadCoach is a single-node inference router with a durable job queue. This project models the parts of it
that carry the correctness burden and proves what they promise, over every input and every run:

- the durable queue as a labelled transition system, with its lease fencing, attempt numbering, event
  history, ageing, claim order, reaping, recovery and idempotency keys
  (`QueueState`, `Priority`, `Queue`, `QueueRows`, `QueueRuns`, `QueueOrder`, `Overtaking`, `LeaseRuns`,
  `KeyRuns`, `IdempotencyRace`);
- the event sink, whose one counter per job is shared by stored and live frames, and the merged, paged
  replay (`JobEvents`, `EventSink`);
- the per-model circuit breaker (`CircuitBreaker`, `BreakerOutcomes`, `BreakerRuns`);
- evidence: binding identities to the registry, the re-binding pass that upgrades the registry while it
  runs, bundle import, and the signals routing sees
  (`EvidenceBinding`, `EvidenceStore`, `RebindOrder`, `EvidenceSources`, `EvidenceImport`, `EvidenceOutcomes`,
  `EvidenceSignals`, `EvidenceChoice`);
- four self-contained algorithms: the JSON Schema subset checker (`Validation`, `ValidDocuments`), the
  reliability ledger, factor and regression test (`Reliability`, `ReliabilityCounts`, `Percentiles`), tool-call
  reassembly (`ToolCalls`) and LRU residency (`Residency`).

`Wrappers`, `Orders` and `Sweeps` hold what several modules share.

`dafny verify dfyconfig.toml` checks everything.

## How the model is built

Code that updates rows, dictionaries or lists in place is a class whose methods have loops and invariants
(`JobStore`, `JobEventSink`, `CircuitBreakers`, `EvidenceDatabase`, `ProblemList`, `ResidencyService`). Each
method is proved equal to a function of the old state, and the lemmas speak of those functions: what they keep
over runs, and what they do to each column, said without them (such as the lemmas named `InColumns` and `InWords`).
Each `sink.write` or `database.write` block is one atomic step that an error rolls back; recovery's release and its
sweep are two. An `EventTable` is shared by the sinks of several processes.

A run is a sequence of states linked by steps (`QueueRuns.Behavior`, `BreakerRuns.Behavior`); any number of
workers, reapers, schedulers and restarts may take the steps in any order. A claim step carries the job it
returned, because the claim order leaves ties open.

Times, rates and thresholds are real numbers, instants are seconds. Identifiers that the code generates, the
provider's answers, regular-expression matching and JSON parsing are parameters. A query that returns rows in
no stated order is an arbitrary order.

## What was found

Some statements one would expect are false of the code. For each there is a failing input and the exact
condition under which it does hold, in terms of what is known before the step.

- **A job can be overtaken although one sweep found both waiting.** A sweep that finds the earlier job leased
  ages the later one alone (`Overtaking.OvertakingAtOnePointAMinute`). That happens at every positive rate
  (where one source may hold only one active job, by a race between the depth check and the insert),
  so over all runs the plain bound holds exactly when nothing ages
  (`PlainBoundHoldsExactlyWithoutAgeing`); it holds of a run whose sweeps age the earlier job whenever they
  age the later one (`QueueOrder.NeverOvertaken`).
- **Two updates do not always clear a breaker.** With nothing sampled or probed since an instant, two updates
  at least a cool-down later leave a model excluded exactly when it was closed or had no verdict yet, the first
  update's window does not trip it, and the second's, out of which successes have slid, does
  (`BreakerRuns.TwoQuietUpdates`, `TwoQuietUpdatesCanExclude`). It never happens twice (`ExcludedAtMostOnce`).
- **An open verdict can have no failure rate,** and formatting its reason then raises. Over all runs with a
  clock that does not step back and a source that keeps in-window samples, that is impossible exactly when
  the cool-down is no longer than the window (`BreakerRuns.NeverRaisesExactlyWhenCoolDownFits`; the failing
  run is `LongCoolDownRaises`).
- **One re-binding pass is not a fixpoint** (`EvidenceStore.OnePassIsNotAFixpoint`); two are. One is enough
  exactly when it visits no name-only evidence of a name-only model before the first evidence that brings
  that model a digest (`RebindOrder.OnePassSufficesExactlyWhen`).
- **The retry after losing the unique index can find nothing,** although `src/loadcoach/services/queue.py:581`
  calls that impossible: exactly when some submission's instant is not before the end of another's
  reservation (`IdempotencyRace.RaisesExactlyWhenLate`; the failing run is `LateSubmissionCanRaise`).
- **A trimmed ledger does not equal the full history "at every instant"**
  (`src/loadcoach/domain/reliability.py:534-545`), but it does at every instant no earlier than its trims;
  for every bounded window and any earlier instant it can fail (`Reliability.LedgerRefinesRecomputation`,
  `TrimmedLedgerForgetsThePast`). A trim goes unnoticed by every ledger of a window if and only if the window is
  unbounded or the trim is no later than the question (`TrimUnnoticedExactlyWhen`).
- **A live frame can be hidden from the replay by a stored one with its number.** There are two ways, and each
  has its condition.
  - At publication: the frame is hidden if and only if the counter's next number is stored already
    (`EventSink.JobEventSink.PublishLive`). After `forget` or a restart the counter starts over, until this
    process's next stored event (`RestartedSinkHidesALiveFrame`).
  - Afterwards: a row that another process appends, such as a CLI cancellation
    (`src/loadcoach/cli/commands/job.py:285`), takes the number after the table's last. It hides a streamed
    frame if and only if that number was streamed and is still ahead of the client, then that frame alone; and
    a client past that number never gets the row (`ForeignRowHidesOne`,
    `ForeignRowHidesExactlyWhenStreaming`; the failing run of two sinks is `ForeignCancelHidesAToken`).
    `src/loadcoach/services/job_events.py:18-20` documents the row that is missed, not the frame that is hidden.

  A row of the same process hides nothing (`OwnRowHidesNothing`). As long as no other process writes a job's
  events, and nothing of the job is live before its first stored event in this process, its numbers stay safe
  from that event on (`AppendRow`, `Write`, `PublishLive`).
- **The sequence is gap-free only as long as writes commit.** A committed write continues the numbers without a
  gap; a rolled-back one keeps a job's numbers gap-free if and only if it appended nothing for the job
  (`EventSink.JobEventSink.Write`; the failing run is `RolledBackWriteLeavesAGap`).

Two descriptions in the code say less or other than it does, and the model follows the code:

- The breaker's documentation speaks of the first sample after the opening
  (`src/loadcoach/domain/circuit_breaker.py:128-160`); the latest decides.
- `ReapSummary.failed` also lists the jobs whose cancellation completed (`Queue.JobStore.ReapExpiredLeases`).

## Model

| member | source | states |
|---|---|---|
| `QueueState.RecoveryTarget` | src/loadcoach/domain/queue_state.py:171-190 | reaping and recovery have a target for exactly the in-flight states, and every target is a legal edge |
| `QueueState.CancelTarget` | src/loadcoach/domain/queue_state.py:193-209 | cancelling has a target for exactly the active states other than `cancelling`, and it is a legal edge into `cancelling` or `cancelled` |
| `QueueState.AfterCancelling` | src/loadcoach/domain/queue_state.py:89-125 | along legal edges nothing but `cancelled` ever follows `cancelling` |
| `QueueState.TerminalIsLast` | src/loadcoach/domain/queue_state.py:55-58 | a path along legal edges ends at its first terminal state |
| `Priority.BasePriority` | src/loadcoach/domain/priority.py:74-103 | a number inside the band is taken as it is, one outside is refused; no request means the least of the band |
| `Priority.SweepMatchesDefinition` | src/loadcoach/services/queue.py:1065-1113 | the set-based sweep's expression, which clamps points and has literal band tops, computes the per-row definition for every instant, clock steps back included |
| `Priority.PointsInWords` | src/loadcoach/domain/priority.py:106-145 | a waiting job has k points exactly from the instant its minutes at the rate come to k, up to a millionth; the cap cuts the rest off |
| `Priority.SweepStaysInRange` | src/loadcoach/domain/priority.py:106-145 | ageing stays within [base, cap] |
| `Priority.SweepIsMonotone` | src/loadcoach/domain/priority.py:118-145 | a later sweep never lowers a priority |
| `Priority.SweepOrdersByWaiting` | src/loadcoach/domain/priority.py:118-145 | extra waiting worth at least the other's head start ranks a job no lower, caps included |
| `Queue.JobStore.TransitionRow` | src/loadcoach/services/queue.py:762-817 | the compare-and-set on (state, lease owner): which error, or exactly which row and event; refused means unchanged |
| `Queue.JobStore.WriteAttemptRow` | src/loadcoach/services/execution.py:1667-1756 | an attempt is written exactly when the fence holds and the number is the counter's next |
| `Queue.JobStore.Transact` | src/loadcoach/services/execution.py:1667-1756 | a worker's write scope does all of its operations or leaves every row unchanged |
| `Queue.JobStore.Move` | src/loadcoach/services/queue.py:820-860 | one transition and its event, committed or refused as one |
| `Queue.JobStore.ClaimMatching` | src/loadcoach/services/queue.py:696-724 | a claim takes the first candidate by effective priority, then age, sets both lease columns and appends `leased`; nothing else changes |
| `Queue.JobStore.Claim` | src/loadcoach/services/queue.py:624-693 | affinity is a tier within top priority and falls back to the plain order; an empty claim means an empty queue |
| `Queue.FirstExists` | src/loadcoach/services/queue.py:696-724 | a non-empty candidate set has a first job, so a claim fails only on an empty queue |
| `Queue.JobStore.CancelJob` | src/loadcoach/services/queue.py:866-934 | accepted from every non-terminal state, idempotent in `cancelling`, refused for terminal and unknown jobs; no transition it makes is refused |
| `Queue.JobStore.RenewLeases` | src/loadcoach/services/queue.py:965-998 | exactly the owner's in-flight leases among the ids are extended; the rest are reported lost |
| `Queue.JobStore.ReapExpiredLeases` | src/loadcoach/services/queue.py:1001-1052 | row by row, in any order, the table ends as `Reap` says and no transition is refused; the two lists are told on the columns: expiry before now, state, idempotence |
| `Queue.JobStore.AgeingSweep` | src/loadcoach/services/queue.py:1065-1113 | the update touches exactly the rows whose priority differs and counts them |
| `Queue.JobStore.ExpireMaxWait` | src/loadcoach/services/queue.py:1116-1158 | exactly the waiting rows beyond their maximum wait fail |
| `Queue.JobStore.ReleaseForeignLeases` | src/loadcoach/services/recovery.py:100-140 | every in-flight job not held by this process moves to its recovery target; the three lists are exact |
| `Queue.JobStore.RecoverJobs` | src/loadcoach/services/recovery.py:80-165 | recovery is release followed by one ageing sweep, which counts exactly the released table's rows that it changes |
| `Queue.JobStore.ExistingJobForKey` | src/loadcoach/services/execution.py:1351-1377 | an expired reservation is released and an unexpired holder found; afterwards exactly the found job holds the key |
| `Queue.JobStore.Insert` | src/loadcoach/services/queue.py:538-576 | the insert is refused exactly when the unique index holds the key |
| `Queue.JobStore.Enqueue` | src/loadcoach/services/queue.py:467-585 | the whole outcome of a submission: bad priority, replayed key (before the depth is looked at), full queue, or exactly one new row |
| `QueueRows.TransitionInColumns` | src/loadcoach/services/queue.py:762-817 | a caller's transition happens exactly when state, fence and edge allow it, and what it writes in every column |
| `QueueRows.ReapInColumns` | src/loadcoach/services/queue.py:1001-1052 | a row is taken away if and only if it is in flight with an expiry before now: to `cancelled`, `queued` or `failed`, with which reason, code and columns; every other row is unchanged |
| `QueueRows.ReleaseInColumns` | src/loadcoach/services/recovery.py:100-140 | the same of recovery: exactly the in-flight rows whose owner is no `prefix/...` of this process |
| `QueueRows.CancelInColumns` | src/loadcoach/services/queue.py:866-934 | a waiting job is cancelled at once, a held one keeps its lease and is asked to stop, any other row is unchanged |
| `QueueRows.RenewInColumns` | src/loadcoach/services/queue.py:965-998 | the expiry moves exactly on the named rows that the worker holds in flight, and nothing else does |
| `QueueRows.ExpireInColumns` | src/loadcoach/services/queue.py:1116-1158 | a job fails if and only if it is waiting and its bound after queueing has passed |
| `QueueRows.ClaimInColumns` | src/loadcoach/services/queue.py:624-724 | a claimed job is queued and due; no due job has a higher priority; a loaded model wins within that priority while the streak may go on, and otherwise the earliest creation |
| `QueueRows.AdmissionKeepsTheCaps` | src/loadcoach/services/queue.py:489-520 | a new job is admitted if and only if it fits under the depth and, when there is one, the cap of its source |
| `LeaseRuns.ReapedExactlyAfterItsLease` | src/loadcoach/services/queue.py:1001-1052 | over any run: a job claimed or last renewed at some instant is untouched by every reaping up to a lease later, and the first reaping after that takes it if it is still held |
| `LeaseRuns.AddedRow` | src/loadcoach/services/queue.py:536-565 | the columns a submission gives its row |
| `LeaseRuns.ExpiresExactlyAfterItsBound` | src/loadcoach/services/queue.py:1116-1158 | over any run: a check fails a job if and only if it is waiting and its bound after its submission, or the configured one for none or zero, has passed |
| `LeaseRuns.RequeuedExactlyWhenIdempotent` | src/loadcoach/services/queue.py:1001-1052 | over any run: a job that is taken from its worker is queued again exactly when its submission said it is idempotent |
| `KeyRuns.ReplayedWhileReserved` | src/loadcoach/services/queue.py:467-585 | over any run: a second submission of a source's key before the first one's time to live has passed gets the first job and adds no row, whatever has happened in between |
| `KeyRuns.RenewedAfterReservation` | src/loadcoach/services/execution.py:1351-1377 | one at or after that takes the key from the first job and starts a new one, reserved anew, unless the queue is full; no other row changes |
| `KeyRuns.KeylessIsNew` | src/loadcoach/services/queue.py:467-585 | a submission without a key is always a new job and reserves nothing |
| `QueueRuns.TransitionKeepsLeaseIff` | src/loadcoach/services/queue.py:789-806 | a legal transition keeps the lease columns in order exactly when it is not into `leased` |
| `QueueRuns.ReachableRowsAreWellFormed` | src/loadcoach/services/queue.py:762-817 | in every reachable state: lease columns both set exactly in flight; attempts numbered 1..counter, each once; events start with queued, follow legal edges and end in the current state; a row is due from its last queueing on and completed exactly at its terminal event; priorities within base and cap; no idempotency key held twice |
| `QueueRuns.StepKeepsKeysUnique` | src/loadcoach/services/queue.py:577-585 | every kind of step keeps the unique index on (source, key) |
| `QueueRuns.StepKeepsWf` | src/loadcoach/services/queue.py:624-860 | the inductive step of the above for every kind of step |
| `QueueRuns.RowsEvolve` | src/loadcoach/services/queue.py:840-860 | over any stretch of a run a row's events and attempts only grow, its counter never falls, its key is kept or released, and a cancel request is not taken back |
| `QueueRuns.OwnerIsLastClaimer` | src/loadcoach/services/queue.py:696-724 | whoever owns a row is the worker of the latest claim that returned it |
| `QueueRuns.FencedWorkIsByTheLastClaimer` | src/loadcoach/services/execution.py:1698-1715 | every attempt and transition under a fence, in any interleaving, is by the job's most recent claimer, while the job is in flight |
| `QueueRuns.RefusedUntilReclaimed` | src/loadcoach/services/queue.py:789-817 | a worker that lost its job commits nothing on it until it has claimed it again |
| `QueueRuns.SweptJobsHaveNoOwner` | src/loadcoach/services/recovery.py:100-140 | reaping and the release of foreign leases take the job from whoever held it |
| `QueueRuns.TerminalIsFinal` | src/loadcoach/domain/queue_state.py:55-58 | a terminal row's state, lease and events never change again in any run |
| `QueueRuns.NoFencedAttemptAfterTerminal` | src/loadcoach/services/execution.py:1698-1715 | no fenced attempt is written once a job is terminal |
| `QueueRuns.AcceptedCancelOnlyCancels` | src/loadcoach/services/queue.py:899-934 | after an accepted cancel the job is cancelling or cancelled for ever, and cancelled at once when it was waiting |
| `QueueRuns.ReapIsComplete` | src/loadcoach/services/queue.py:1001-1052 | in a well-formed table reaping changes exactly the rows whose expiry is before now, and leaves no such expiry |
| `QueueRuns.RecoveryIsComplete` | src/loadcoach/services/recovery.py:80-165 | recovery, its two transactions with nothing in between, keeps ids, attempts and queued_at, leaves no foreign job in flight and does not touch this process's jobs |
| `QueueRuns.RecoveryIsIdempotent` | src/loadcoach/services/recovery.py:80-165 | recovery twice at one instant changes no row and appends no event |
| `QueueRuns.SweepIsExactAndIdempotent` | src/loadcoach/services/queue.py:1065-1113 | a sweep writes `effective_priority` on every waiting row, and twice at one instant is once |
| `QueueOrder.ClaimTakesTopPriority` | src/loadcoach/services/queue.py:654-693 | any claim, with affinity or without, takes a job of maximal stored priority |
| `QueueOrder.NeverOvertaken` | src/loadcoach/services/queue.py:654-711 | the overtaking bound over runs: once swept together, and while sweeps age the earlier job whenever they age the later, an affinity-free claim never takes the later one while the earlier is eligible and its extra waiting is worth the head start |
| `Overtaking.OvertakingAtOnePointAMinute` | src/loadcoach/services/queue.py:1065-1113 | a concrete run without that hypothesis: a job ten points behind and ten minutes older is passed at 20 to 21 after a sweep that found it leased |
| `Overtaking.OvertakingAtEveryRate` | src/loadcoach/services/queue.py:1065-1113 | at every positive ageing rate some run that violates the hypothesis is overtaken, so it cannot be dropped; its two submissions pass the depth check if and only if the settings let one source hold two active jobs |
| `Overtaking.PlainBoundHoldsExactlyWithoutAgeing` | src/loadcoach/services/queue.py:654-711 | the bound without the hypothesis holds over all runs if and only if the ageing rate is zero |
| `QueueOrder.PriorityStep` | src/loadcoach/services/queue.py:1065-1113 | over any step only a sweep that finds the row waiting writes its priority, and what it writes is the aged one |
| `IdempotencyRace.OneJobPerReservation` | src/loadcoach/services/execution.py:1389-1462 | under any interleaving of lookups, inserts and key releases, all submissions that end in one reservation period get one job id and exactly one created it |
| `IdempotencyRace.EnqueueSubmitsUnder` | src/loadcoach/services/queue.py:538-576 | what `enqueue` inserts reserves the key from the submission's instant for the configured time, as the race assumes |
| `IdempotencyRace.OverlappingSubmissionsNeverRaise` | src/loadcoach/services/queue.py:577-585 | when no submission's instant reaches the end of another's reservation the loser always finds the winner, and all get the same job |
| `IdempotencyRace.RaisesExactlyWhenLate` | src/loadcoach/services/queue.py:577-585 | some interleaving makes the second lookup find nothing if and only if some submission comes a whole reservation or more after another |
| `JobEvents.StreamIsTheUnion` | src/loadcoach/services/job_events.py:226-268 | the stream ascends and is exactly the union of stored and live frames above the position, stored ones winning a tie |
| `JobEvents.TruncatedPage` | src/loadcoach/services/job_events.py:226-268 | cutting the table to `limit` rows before merging, as the code does, gives the page of the whole merged stream |
| `JobEvents.NextPage` | src/loadcoach/services/job_events.py:226-268 | a page is followed by exactly the stream after its last frame |
| `JobEvents.PagesReproduceTheStream` | src/loadcoach/services/job_events.py:226-268 | for every positive page size, paging ends and reproduces the stream without gap or duplicate |
| `JobEvents.OrderSplits` | src/loadcoach/services/job_events.py:266-268 | the sorted order splits at any number |
| `EventSink.JobEventSink.NextSequence` | src/loadcoach/services/job_events.py:196-204 | the next number is one more than the larger of the stored maximum and the counter, and above every stored and live frame |
| `EventSink.JobEventSink.PublishLive` | src/loadcoach/services/job_events.py:210-218 | one live frame under the counter's next number, the buffer bounded; it is hidden from the start if and only if that number is stored, and above the stored frames if and only if the counter has caught up; safe numbering is kept, and gap-free numbering while the buffer has room |
| `EventSink.JobEventSink.Forget` | src/loadcoach/services/job_events.py:220-224 | counter and buffer of the finished job are dropped, nothing else |
| `EventSink.JobEventSink.AppendRow` | src/loadcoach/services/job_events.py:124-168 | the row is appended under one more than the larger of the table's maximum and the counter; numbering is safe from a job's first row on while nothing is live |
| `EventSink.JobEventSink.Write` | src/loadcoach/services/job_events.py:182-194 | a committed write extends each job's rows by its staged frames under the numbers that follow, without a gap, and forgets finished jobs; a rolled-back one leaves the rows but uses up the numbers asked for; safe numbering of every unfinished job stays safe, and gap-free numbering stays gap-free on commit always, on rollback if and only if nothing was asked for the job |
| `EventSink.JobEventSink.Publish` | src/loadcoach/services/job_events.py:191-194 | publishing forgets exactly the jobs with a terminal frame |
| `EventSink.JobEventSink.Replay` | src/loadcoach/services/job_events.py:226-268 | a replay is a page of the one merged stream |
| `EventSink.NothingIsHidden` | src/loadcoach/services/job_events.py:196-218 | with safe numbering the merge loses no stored and no live frame |
| `EventSink.GapFreeStream` | src/loadcoach/services/job_events.py:7-20 | the stream of a gap-free job carries exactly the numbers after the position, up to the counter |
| `EventSink.CountingLeavesAGap` | src/loadcoach/services/job_events.py:196-204 | a counter that has gone on without frames leaves a gap, and one that has not does not |
| `EventSink.RowTakesItsPlace` | src/loadcoach/services/job_events.py:226-268 | a row above the table's others takes its number's place in the stream, and nothing else changes, whoever appends it |
| `EventSink.OwnRowHidesNothing` | src/loadcoach/services/job_events.py:196-204 | a row of this process hides no frame and reaches every client below its number |
| `EventSink.ForeignRowHidesOne` | src/loadcoach/services/job_events.py:8-20 | a row of another process hides a live frame from a client if and only if the number after the table's last was streamed and is ahead of the client, one frame at most, and a client past that number never gets the row |
| `EventSink.ForeignRowHidesExactlyWhenStreaming` | src/loadcoach/services/job_events.py:8-20 | in a gap-free job that is exactly when something was streamed since the last stored event and the client has not got past it: the documented gap of a single event |
| `EventSink.RestartedSinkHidesALiveFrame` | src/loadcoach/services/job_events.py:210-218 | a concrete sink after a restart, whose first live frame takes a stored number and is hidden by the replay |
| `EventSink.RolledBackWriteLeavesAGap` | src/loadcoach/services/job_events.py:182-204 | a concrete job whose first write is rolled back: done again it takes number 2 |
| `EventSink.ForeignCancelHidesAToken` | src/loadcoach/services/job_events.py:196-268 | two sinks over one table: the server streams a token under number 2, a second process's cancellation takes 2 as well; the token leaves the replay, and a client that has it never gets the cancellation |
| `CircuitBreaker.EvaluateCounted` | src/loadcoach/domain/circuit_breaker.py:174-244 | the branch-by-branch reassignment computes the staged verdict, or raises exactly when an open verdict has no rate |
| `CircuitBreaker.Evaluate` | src/loadcoach/domain/circuit_breaker.py:128-244 | evaluation is the next verdict of the in-window samples newer than the last close |
| `CircuitBreaker.NextVerdictWf` | src/loadcoach/domain/circuit_breaker.py:161-244 | an evaluation keeps opening, expiry, close and probe columns consistent with the state |
| `CircuitBreaker.ClosesAdvance` | src/loadcoach/domain/circuit_breaker.py:189-205 | each close is later than the opening it ends and than the close before it |
| `CircuitBreaker.ClosedOpensExactlyWhenTripped` | src/loadcoach/domain/circuit_breaker.py:206-218 | a closed breaker opens if and only if enough samples newer than the last close reach the failure rate |
| `CircuitBreaker.OrderOfSamplesIsIrrelevant` | src/loadcoach/domain/circuit_breaker.py:161-174 | the verdict does not depend on the order of samples with distinct instants |
| `BreakerOutcomes.ReportDecides` | src/loadcoach/domain/circuit_breaker.py:189-205 | half-open, or open with its cool-down over: the latest counted sample after the opening closes the breaker at its instant if it succeeded and opens it again from its instant if it failed; of several at one instant the last supplied decides |
| `BreakerOutcomes.NoReportHalfOpens` | src/loadcoach/domain/circuit_breaker.py:174-189 | without such a sample it is half-open under its old opening, and a probe is still out exactly when it was granted less than a cool-down ago |
| `BreakerOutcomes.OpenWaits` | src/loadcoach/domain/circuit_breaker.py:174-180 | until the cool-down is over an open breaker stays as it was opened, whatever is sampled |
| `BreakerOutcomes.ClosedDecides` | src/loadcoach/domain/circuit_breaker.py:206-218 | a closed breaker opens at the latest sample if and only if enough samples count and the share of failures among them reaches the rate, both counted over the samples given |
| `BreakerOutcomes.StatisticsAreReported` | src/loadcoach/domain/circuit_breaker.py:161-173 | unless it closes, a verdict reports how many samples counted and the share of failures |
| `BreakerRuns.CircuitBreakers.Update` | src/loadcoach/domain/circuit_breaker.py:270-287 | every named and known model is re-evaluated; when one raises, those visited keep their new verdicts and the others their old ones |
| `BreakerRuns.UpdatedInWords` | src/loadcoach/domain/circuit_breaker.py:270-287 | each model is evaluated on its own samples, or on none, against its own verdict, or none |
| `BreakerRuns.CircuitBreakers.AllowProbe` | src/loadcoach/domain/circuit_breaker.py:294-313 | a probe is granted exactly on an idle half-open breaker, and recorded |
| `BreakerRuns.CircuitBreakers.ReleaseProbe` | src/loadcoach/domain/circuit_breaker.py:332-348 | a release succeeds exactly when a probe is in flight, and clears it |
| `BreakerRuns.CircuitBreakers.Excluded` | src/loadcoach/domain/circuit_breaker.py:289-292 | excluded are exactly the open models and the half-open ones with a probe out; none of them can be granted a probe, and every other known model is closed or can |
| `BreakerRuns.ReachableVerdictsAreConsistent` | src/loadcoach/domain/circuit_breaker.py:161-244 | the verdict invariants hold in every reachable state |
| `BreakerRuns.OneProbeAtATime` | src/loadcoach/domain/circuit_breaker.py:294-348 | between two grants on one model there is a release, an update that counts a sample newer than the opening, or an update one cool-down after the grant |
| `BreakerRuns.OpenVerdictsHaveARate` | src/loadcoach/domain/circuit_breaker.py:219-244 | with the cool-down no longer than the window an open verdict always has a counted sample |
| `BreakerRuns.NeverRaisesExactlyWhenCoolDownFits` | src/loadcoach/domain/circuit_breaker.py:219-244 | the reason can never raise if and only if the cool-down is no longer than the window |
| `BreakerRuns.TwoQuietUpdates` | src/loadcoach/domain/circuit_breaker.py:174-218 | after two updates a cool-down into the quiet a model, known or not, is excluded if and only if it was closed or had no verdict to begin with, the first update's window does not trip it and the second's does |
| `BreakerRuns.TwoQuietUpdatesSuffice` | src/loadcoach/domain/circuit_breaker.py:174-218 | two are enough when the window is no longer than the cool-down, or both come at one instant |
| `BreakerRuns.TwoQuietUpdatesCanExclude` | src/loadcoach/domain/circuit_breaker.py:174-218 | a concrete history that two quiet updates leave excluded |
| `BreakerRuns.ExcludedAtMostOnce` | src/loadcoach/domain/circuit_breaker.py:174-218 | in the quiet, once some update has excluded the model no later one does: nothing is excluded for ever |
| `EvidenceBinding.OrderDoesNotMatter` | src/loadcoach/domain/evidence_policy.py:239-387 | over unique triples the binding does not depend on the order in which the registry is read |
| `EvidenceOutcomes.StateInWords` | src/loadcoach/domain/evidence_policy.py:239-387 | bound, ambiguous or unmatched: the exact condition of each on the rows of the registry, the digest and the adapter |
| `EvidenceOutcomes.PointersInWords` | src/loadcoach/domain/evidence_policy.py:239-387 | what a binding points at, and when it asks for an upgrade |
| `EvidenceBinding.UpgradeKeepsUnique` | src/loadcoach/services/evidence.py:893-905 | an in-place identity upgrade keeps every (kind, name, digest) unique |
| `EvidenceBinding.BindAfterUpgrade` | src/loadcoach/domain/evidence_policy.py:323-387 | an upgrade satisfies the binding that asked for it and disturbs only name-only evidence of that model |
| `EvidenceBinding.BoundExactlyWhenHeld` | src/loadcoach/domain/evidence_policy.py:239-387 | with no upgrade to make, evidence is bound if and only if the registry holds its exact triple and, if it bears one, its adapter's digest |
| `EvidenceBinding.UpsertKeepsUnique` | src/loadcoach/services/models.py:102-194 | discovery keeps the triples unique, loses no row and no digest, and leaves the sighting's triple held |
| `EvidenceStore.EvidenceDatabase.UpsertModel` | src/loadcoach/services/models.py:102-194 | exact triple, else name-only sibling of a digest, else a new row; no other row changes |
| `EvidenceStore.EvidenceDatabase.Rebind` | src/loadcoach/services/evidence.py:865-915 | the pass over the rows in query order, re-reading the registry after each upgrade, with its three counts |
| `EvidenceStore.VisitedRowIsCurrent` | src/loadcoach/services/evidence.py:889-911 | visiting a row makes it say what its identity binds to, after the upgrade it asked for |
| `EvidenceStore.OnePass` | src/loadcoach/services/evidence.py:865-915 | one pass leaves no upgrade to make, and rows wrong only where a later row gave their model a digest |
| `EvidenceStore.RebindingConverges` | src/loadcoach/services/evidence.py:865-915 | for any three visiting orders: the second pass upgrades nothing, and the third changes nothing |
| `RebindOrder.OnePassSufficesExactlyWhen` | src/loadcoach/services/evidence.py:865-915 | told from the table, the registry and the order alone: a second pass is idle if and only if no name-only evidence of a name-only model is visited before the first evidence that brings that model a digest |
| `RebindOrder.OutrunExactlyWhenReadTooEarly` | src/loadcoach/services/evidence.py:889-911 | which rows a pass leaves bound to weights they never named: exactly those it reads too early |
| `RebindOrder.HoldersInPass` | src/loadcoach/services/evidence.py:892-898 | during a pass a name's holders are the initial ones until the first row that brings it a digest, and afterwards nobody holds it by name only |
| `EvidenceStore.OnePassByItsResult` | src/loadcoach/services/evidence.py:865-915 | the same told from the pass's result: no row bound by name alone points at a model that now has a digest |
| `EvidenceStore.OnePassIsNotAFixpoint` | src/loadcoach/services/evidence.py:865-915 | a concrete registry and order for which one pass is not enough |
| `EvidenceStore.FixpointBindings` | src/loadcoach/services/evidence.py:865-915 | at the fixpoint a row is bound if and only if its exact triple and adapter are held, and to their holders |
| `EvidenceOutcomes.FixpointStates` | src/loadcoach/domain/evidence_policy.py:366-387 | at the fixpoint a row is ambiguous if and only if it has no digest, its name is held under digests only and its adapter is absent or held; otherwise an unbound row is unmatched |
| `EvidenceOutcomes.PassCountsItsChanges` | src/loadcoach/services/evidence.py:865-915 | a pass that visits no row twice counts exactly the rows it bound and the rows it unbound |
| `EvidenceOutcomes.DigestsComeFromEvidence` | src/loadcoach/services/evidence.py:865-915 | a model that a pass changes had no digest, and gets digest, canonical id and confirmation from a visited row of its name |
| `EvidenceStore.UpgradesAreCounted` | src/loadcoach/services/evidence.py:892-898 | the upgrade count is the number of name-only models that got a digest; no other model changes |
| `EvidenceStore.DiscoveredEvidenceBinds` | src/loadcoach/services/evidence.py:868-872 | once discovery has seen a digest, one pass in any order binds all evidence of that triple to it, with no re-import |
| `EvidenceImport.Write` | src/loadcoach/services/evidence.py:639-801 | the transaction record by record: the source row with its record count, stored rows, registry upgrades, refreshed badges, superseded rows and the outcome |
| `EvidenceSources.UpsertKeepsUniqueKeys` | src/loadcoach/services/evidence.py:435-477 | a bundle belongs to exactly one source row: that of its key, else the placeholder of its URL, which it adopts, else a new one; keys stay unique and no row is lost |
| `EvidenceSources.OriginRowInWords` | src/loadcoach/services/evidence.py:435-477 | which row a bundle belongs to: its key's, else the one whose key and address are the bundle's address, else a new one |
| `EvidenceSources.RefreshedSource` | src/loadcoach/services/evidence.py:435-477 | what a successful import writes to its source row, and that no other row changes |
| `EvidenceImport.ImportConserves` | src/loadcoach/services/evidence.py:639-801 | total = imported + updated + rejected, and imported + updated = bound + unmatched + ambiguous |
| `EvidenceImport.CountsMatchTheTable` | src/loadcoach/services/evidence.py:639-801 | the counts are the table's: new rows, and the seen keys' rows by stored state; no row is deleted |
| `EvidenceImport.FirstRecordIsStored` | src/loadcoach/services/evidence.py:684-735 | of several records with one seven-part key the first is stored and no later one overwrites it |
| `EvidenceOutcomes.StoredRowInWords` | src/loadcoach/services/evidence.py:684-862 | the columns of the stored row, its state and what it points at, on the registry as the records before left it |
| `EvidenceOutcomes.FreshnessInWords` | src/loadcoach/domain/evidence_policy.py:596-650 | a stored row is stale by drift first, else by age: more than thirty days under a performance root, ninety under any other |
| `EvidenceOutcomes.KeysAgreeInEveryColumn` | src/loadcoach/services/evidence.py:360-376 | two records have one key if and only if they agree in every column of it |
| `EvidenceImport.SeenKeys` | src/loadcoach/services/evidence.py:360-376 | the seen keys are exactly the keys of the bundle's records |
| `EvidenceImport.OnlySeenRowsChange` | src/loadcoach/services/evidence.py:684-735 | only rows of this source are written, under the seen keys |
| `EvidenceImport.SupersessionIsExact` | src/loadcoach/services/evidence.py:751-784 | after a complete bundle a row of its source is superseded if and only if the bundle left it out; an incomplete one supersedes nothing; other sources' rows are untouched |
| `EvidenceImport.ImportKeepsUnique` | src/loadcoach/services/evidence.py:702-709 | an import keeps the triples unique and counts its upgrades |
| `EvidenceImport.ClearBadges` | src/loadcoach/services/evidence.py:753-761 | a reachable source's badges fall back to each row's own age |
| `EvidenceOutcomes.LeftOutRowInWords` | src/loadcoach/services/evidence.py:753-761 | a row that an incomplete bundle leaves out keeps its badge, except that an unreachable one falls back to its own age |
| `EvidenceOutcomes.ImportKeepsFlags` | src/loadcoach/services/evidence.py:684-784 | a row is flagged stale exactly when it has a reason, before and after |
| `EvidenceOutcomes.SupersededAreCounted` | src/loadcoach/services/evidence.py:763-784 | the outcome counts exactly the rows newly marked |
| `EvidenceImport.Supersede` | src/loadcoach/services/evidence.py:763-784 | exactly the rows left out are marked, and those not marked before are counted |
| `EvidenceImport.HalfLifeByRoot` | src/loadcoach/domain/evidence_policy.py:440-466 | a performance root and all its specializations decay by the shorter half-life, every other term by the longer |
| `EvidenceSignals.NumericVersionsRankAbove` | src/loadcoach/domain/evidence_policy.py:693-711 | an unrecognized policy version never displaces a dotted-integer one |
| `EvidenceSignals.PreferenceIsTotal` | src/loadcoach/domain/evidence_policy.py:930-943 | of two rows with different ULIDs exactly one is preferred |
| `EvidenceSignals.PreferenceIsTransitive` | src/loadcoach/domain/evidence_policy.py:930-943 | the selection order is transitive |
| `EvidenceSignals.BestOf` | src/loadcoach/domain/evidence_policy.py:924-925 | the selected row is one of the group, and none of the group is preferred to it |
| `EvidenceSignals.CollapseEvidence` | src/loadcoach/domain/evidence_policy.py:889-927 | one row of every capability and profile, the best of it, in the order of the groups |
| `EvidenceChoice.SelectionInWords` | src/loadcoach/domain/evidence_policy.py:889-943 | the selected row of a group was measured here if any was; among rows equal in that none has a higher version, among those none is later, among those none has a larger id |
| `EvidenceChoice.GroupsInWords` | src/loadcoach/domain/evidence_policy.py:889-927 | every capability and profile with a candidate is selected for, in ascending order of capability, then profile |
| `EvidenceChoice.VersionsInWords` | src/loadcoach/domain/evidence_policy.py:693-711 | the version order at its first difference: dotted integers above anything else, by number, then by text |
| `EvidenceChoice.DottedVersionsCompareByNumbers` | src/loadcoach/domain/evidence_policy.py:693-711 | for the decimal text of any two lists of numbers the version order is the order of the numbers |
| `EvidenceChoice.NineBeforeTen` | src/loadcoach/domain/evidence_policy.py:693-711 | 1.9 comes before 1.10, although its text does not |
| `EvidenceSignals.OneCollapse` | src/loadcoach/domain/evidence_policy.py:889-927 | the same candidates always collapse to the same rows, whatever their order |
| `EvidenceSignals.BoundSignals` | src/loadcoach/services/evidence.py:1320-1420 | every subject with admitted evidence, and no other, has what its rows collapse to |
| `EvidenceSignals.SignalsAreIsolated` | src/loadcoach/services/evidence.py:1366-1420 | a subject's signals depend on its admitted rows and on nothing else in the table or the weights |
| `EvidenceSignals.UnrelatedRowsDoNotMatter` | src/loadcoach/domain/evidence_policy.py:418-437 | order, unbound rows, unnamed `user.*` rows and other subjects' rows do not change a subject's evidence |
| `EvidenceSignals.NamingAdmits` | src/loadcoach/domain/evidence_policy.py:418-437 | naming a capability admits its rows and changes nothing else |
| `EvidenceSignals.SignalsAreStoredRows` | src/loadcoach/services/evidence.py:1395-1419 | every signal is one stored row, preferred to every other of its capability and profile |
| `EvidenceChoice.SubjectRowsInWords` | src/loadcoach/domain/evidence_policy.py:390-437 | a subject's evidence: the bound rows of its model and adapter whose capability is no unnamed `user.<slug>` |
| `EvidenceChoice.SignalsInWords` | src/loadcoach/services/evidence.py:1395-1419 | every number of a signal is its row's, and its age is in whole days |
| `Validation.CheckNode` | src/loadcoach/domain/validation.py:188-259 | the shared list grows by exactly the problems of the document, in the checker's order |
| `Validation.ProblemsAreExact` | src/loadcoach/domain/validation.py:188-259 | nothing is reported if and only if the document is valid by the supported keywords, with Python's equality and types |
| `Validation.EveryProblemIsReported` | src/loadcoach/domain/validation.py:262-282 | whatever is wrong at any node the checker comes to is in the root's report under that node's path: all problems, not the first |
| `Validation.EverySchemaVisitedWasVetted` | src/loadcoach/domain/validation.py:155-170 | in a vetted schema every sub-schema the checker visits was vetted |
| `ValidDocuments.VettedExactlyWhen` | src/loadcoach/domain/validation.py:155-170 | a schema is refused if and only if a keyword that is neither supported nor an annotation stands anywhere inside it, visited or not |
| `Validation.EveryValueHasOneKind` | src/loadcoach/domain/validation.py:173-185 | a value has exactly one kind; a boolean is no number, and 1.0 no integer |
| `ValidDocuments.EqualityInWords` | src/loadcoach/domain/validation.py:188-259 | only numbers are equal across kinds: `true`, 1 and 1.0 |
| `ValidDocuments.ObjectsAreEqualByName` | src/loadcoach/domain/validation.py:188-259 | objects are equal if and only if they have the same names and equal values under them, in any order |
| `ValidDocuments.ObjectNodeInWords` | src/loadcoach/domain/validation.py:188-259 | an object has its required names, and no other than the described ones where those are forbidden |
| `Validation.ValidateSchema` | src/loadcoach/domain/validation.py:262-282 | an unsupported keyword anywhere refuses the schema; otherwise the check passes if and only if the document is valid |
| `Percentiles.PercentileHasItsRank` | src/loadcoach/domain/reliability.py:253-270 | a percentile is a value that happened, with fewer than its rank below it and at least its rank not above it |
| `Percentiles.RankIsUnique` | src/loadcoach/domain/reliability.py:253-270 | no two values have one rank, so the percentile is the exact order statistic |
| `Percentiles.Percentile` | src/loadcoach/domain/reliability.py:253-270 | it fails exactly on no values or a `q` outside (0, 1] |
| `ReliabilityCounts.PercentilesInWords` | src/loadcoach/domain/reliability.py:463-530 | from twenty latencies on, the median and the 95th percentile are latencies at those shares |
| `ReliabilityCounts.LatenciesInWords` | src/loadcoach/domain/reliability.py:463-530 | the latencies are those of the window's attempts: as many lie above any value as attempts of the window were slower |
| `ReliabilityCounts.CountsInWords` | src/loadcoach/domain/reliability.py:463-530 | each count is the number of attempts of the window with those outcomes |
| `ReliabilityCounts.ThroughputInWords` | src/loadcoach/domain/reliability.py:463-530 | tokens per second, for answers with tokens and a positive latency only |
| `ReliabilityCounts.AcceptanceInWords` | src/loadcoach/domain/reliability.py:243-250 | from five verdicts on, the share of usable answers, an edited one counting half |
| `ReliabilityCounts.MeansInWords` | src/loadcoach/domain/reliability.py:463-530 | from five values on, the means are those of the window's tokens, throughputs and grades, over the attempts and verdicts that carry one |
| `Reliability.LedgerRefinesRecomputation` | src/loadcoach/domain/reliability.py:534-574 | any interleaving of folds and trims gives, in every field and for every window, the statistics of the full history at every instant no earlier than the trims |
| `Reliability.TrimmedLedgerForgetsThePast` | src/loadcoach/domain/reliability.py:557-570 | for every bounded window and every instant before a trim there is a ledger whose statistics the trim changes |
| `Reliability.TrimUnnoticedExactlyWhen` | src/loadcoach/domain/reliability.py:534-574 | a trim changes no ledger's statistics at an instant if and only if the window is unbounded or the trim was no later than the instant |
| `Reliability.CountsAreSound` | src/loadcoach/domain/reliability.py:463-530 | every attempt is counted once, and the errors are exactly the provider errors and the exceeded contexts |
| `Reliability.ComputedStatsAreConsistent` | src/loadcoach/domain/reliability.py:463-530 | passes, successes and counted attempts nest, and an acceptance rate is in [0, 1] |
| `Reliability.FactorIsBounded` | src/loadcoach/domain/reliability.py:654-706 | the factor is in [0.5, 1], neutral exactly when no window qualifies, and 1 in a live window only with nothing against it |
| `Reliability.FactorOfOneHistory` | src/loadcoach/domain/reliability.py:654-706 | on one history the factor is in [0.5, 1] and neutral if and only if the last 30 days have too few counted attempts |
| `ReliabilityCounts.FactorInWords` | src/loadcoach/domain/reliability.py:654-706 | a live factor is one half and half the share of counted attempts that passed, damped by up to a half by acceptance |
| `ReliabilityCounts.FreshestWindowDecides` | src/loadcoach/domain/reliability.py:654-706 | the last week decides when it has twenty counted attempts, else the last month when that has |
| `Reliability.BaselineIsTheOlderAttempts` | src/loadcoach/domain/reliability.py:758-780 | all time minus the recent window is exactly the attempts before it |
| `Reliability.NoVarianceNoDrop` | src/loadcoach/domain/reliability.py:790-798 | with no variance there is no drop, so the guard against dividing by it hides nothing |
| `Reliability.RegressionIsExact` | src/loadcoach/domain/reliability.py:758-812 | on one history: a regression if and only if both sides have enough samples, the drop is at least 0.15 and its square at least four variances |
| `ReliabilityCounts.RegressionInCounts` | src/loadcoach/domain/reliability.py:758-812 | the same on the counts of the last seven days and of everything before them |
| `ToolCalls.GroupFragments` | src/loadcoach/services/execution.py:301-311 | one entry per index, with the first id and name that are not empty and the concatenated text |
| `ToolCalls.AssembleToolCalls` | src/loadcoach/services/execution.py:284-319 | exactly one call per index, in strictly ascending order, made of that index's deltas in their order |
| `ToolCalls.CallsInWords` | src/loadcoach/services/execution.py:301-319 | id and name are the first that any delta of the call carries; the arguments are what the joined text parses to, the text where it does not, and none where there is none |
| `ToolCalls.JoinedInWords` | src/loadcoach/services/execution.py:301-311 | the joined text is the pieces one after the other |
| `ToolCalls.InterleavingDoesNotMatter` | src/loadcoach/services/execution.py:284-319 | two interleavings of the same per-index deltas assemble to the same calls |
| `Residency.ResidencyService.EnsureLoaded` | src/loadcoach/services/residency.py:187-290 | which outcome, which evictions and exactly which rows; at most one open episode per model and device is kept, and a load leaves at most max(limit, in use or refused + 1) on the device |
| `Residency.ResidencyService.MakeRoom` | src/loadcoach/services/residency.py:239-256 | the loop evicts exactly `Evictions` and closes exactly those episodes |
| `Residency.EvictionsAreExact` | src/loadcoach/services/residency.py:239-256 | evictions are the shortest beginning of the idle models, oldest use first, that clears both conditions, or all of them |
| `Residency.EvictionsInWords` | src/loadcoach/services/residency.py:239-256 | the same on the numbers: a model goes while the device holds the limit or more, or its reported memory and what is known to have come free is less than required plus headroom |
| `Residency.LeastRecentlyUsedGoesFirst` | src/loadcoach/services/residency.py:239-256 | a model that may go is never passed over for one used more recently |
| `Residency.HeldAfterLoad` | src/loadcoach/services/residency.py:239-290 | after a load at most max(limit, in use or refused + 1) episodes are open on the device |
| `Residency.ClosedInWords` | src/loadcoach/services/residency.py:239-256 | closing dates an episode and says why, and changes nothing else |
| `Residency.LruOrderIsByUse` | src/loadcoach/services/residency.py:134-141 | the listing is strictly by last use, then id |
| `Residency.ResidencyService.RecordUse` | src/loadcoach/services/residency.py:304-341 | the one open episode of the model on the device is touched; no other row changes |
| `Residency.TouchingKeepsOneOpen` | src/loadcoach/services/residency.py:304-341 | an adapter switch opens and closes no episode |
| `Residency.UsedGoesLast` | src/loadcoach/services/residency.py:304-341 | a use puts a model behind every other of its device in the order of eviction |
| `Residency.LoadingKeepsOneOpen` | src/loadcoach/services/residency.py:257-283 | a load keeps one open episode per model and device |
| `Residency.ResidencyService.EvictIdle` | src/loadcoach/services/residency.py:367-380 | exactly the open episodes not in use, not refused and unused for the idle time or longer are closed |

## Left out

- The synchronous execution path as a state machine: it sets a job's state without `transition`, and its reserved row has no lease and no queued_at; only its race on the idempotency key is modelled.
- QueueRuns.ReachableRowsAreWellFormed: is stated for rows created by `enqueue`, and for callers that obey what the code relies on: `transition` enters `leased` only through the claim and its extra values never touch the lease columns.
- QueueOrder.NeverOvertaken: keeps its hypothesis that sweeps age both jobs, because the bound is false without it at every positive rate.
- IdempotencyRace.OneJobPerReservation: leaves out the depth check between lookup and insert, which refuses a submission before the race; `active <= max_depth` is no invariant, because the check and the insert are separate transactions.
- Queue.JobStore.ReapExpiredLeases: reports sets; the order of ids in summaries is not captured.
- EventSink.JobEventSink.Write: is one step; live frames that another thread publishes between two appends of one open transaction are not interleaved with it, and another process's rows come before or after it.
- EventSink.JobEventSink.PublishLive: keeps gap-free numbering only while the buffer has room, because a full buffer drops its oldest frame.
- JobEvents: frames carry number, kind and payload; timestamps, messages, event ids and the broker's subscribers are not modelled.
- CircuitBreaker.OrderOfSamplesIsIrrelevant: needs distinct instants; samples that share one are ordered as supplied.
- EvidenceImport.Write: the version negotiation, the per-record validation and the drift comparison are not modelled; records arrive validated, with their drift and the number of invalid ones.
- EvidenceBinding: the explanatory notes of a binding are left out; a scan of the adapters for a digest is a lookup, because that column is unique.
- EvidenceSignals: a version part is a number when it is ASCII digits; benchmark versions and calibration are carried along by the source and left out here.
- Validation: malformed schemas (a `properties` that is no object, a bound that is no number) and patterns that do not compile raise in the source and are not represented; problems carry structured paths instead of rendered ones; `additionalProperties` given as a schema is vetted and never applied, as in the source.
- Reliability: means, rates and percentile ranks are exact reals; the explanation texts are left out.
- ToolCalls: a missing field is an empty one; JSON parsing is a parameter.
- Residency: `sync`, the estimate of evictable memory and the provider's capability declaration are left out; the provider's refusals are a set fixed for one call, because it is asked at most once per episode.
- Times, rates and thresholds are reals: floating-point rounding is not modelled.
- Configuration layering, routing's scoring and ranking, retention, HTTP fetching, provider calls, SQL dialects, migrations, the CLI, web, logging, health and telemetry: input and output, or thin reporting.
- Authorization, settings coercion, admission arithmetic, task-profile checks and manual scores: checks of one request or one row at a time, with no state of their own.
