# A verified model of s5lb

s5lb is a SOCKS5 load balancer: it accepts clients, admits or sheds them, gives each
session a slot on one of several upstream proxies, and reloads its configuration while
sessions are live. This project models the parts of it that carry hard invariants and
proves those invariants in Dafny 4.11. `dafny verify dfyconfig.toml` checks everything.

How the model is built:

- Code that updates fields in place is a class whose methods are proved against functions
  on a plain value (`View()`); what the source promises is then proved about those functions.
- Concurrent protocols are transition systems. One step is one critical section, one channel
  operation or one atomic counter update, steps of different threads interleave freely, and
  the theorems quantify over every run (`IsRun`) and every state in it.
- The clock, random draws, hash functions, the printed form of an IP address, the outcome of
  a `select`, and the answers of validation, builders and dialers are parameters, so every
  theorem holds for all of them. "Uniform" and "proportional" are counting theorems over all
  possible draws.

| file | what it models |
|---|---|
| `Upstream.dfy`, `Breaker.dfy` | active counter and circuit breaker of one upstream, over whole histories |
| `WaitQueue.dfy`, `SlotProtocol.dfy` | slot reservation and the waiter queue as an interleaved protocol |
| `PoolSlots.dfy` | slots in the air across hot reloads of the pool |
| `Wrr.dfy`, `WrrFairness.dfy`, `WrrMachine.dfy`, `Sums.dfy` | smooth weighted round-robin, its exact fairness, and when int64 arithmetic keeps it |
| `Tracker.dfy`, `Gate.dfy`, `Admission.dfy` | session list, token gates, admission across gate swaps |
| `Pool.dfy`, `StableSort.dfy`, `Reload.dfy` | the upstream pool and hot reload of one group |
| `Overlap.dfy` | reloads of one group that overlap |
| `Manager.dfy`, `GroupHistory.dfy`, `Supervisor.dfy` | reconciliation, life and supervision of groups |
| `Stream.dfy` | the byte stream adapter |
| `LeastActive.dfy`, `WeightedRandom.dfy`, `Rendezvous.dfy`, `Selection.dfy`, `Counting.dfy` | randomised and hash selectors |
| `Socks5.dfy` | the codecs of sections 4, 6 and 7 of RFC 1928 |
| `Int64.dfy`, `Common.dfy` | arithmetic that wraps around, and small shared definitions |

Where the code does less than its own text or its obvious reading promises, the model follows the
code and says exactly when the promise holds:

- `internal/balancer/manager.go:255-267`: `Start` publishes the result channel before it takes the
  lock, so a reload that holds the lock at that moment starts its new groups, and `Start` then starts
  them again. A group in service after the launch was started exactly once if and only if no reload
  started it in between (`StartedOnceIff`, `EarlyIff`); `ReloadDuringStart` shows, for any two
  configurations, that exactly the groups added in between are started twice. `cmd/s5lb/main.go:220-237`
  runs `Start` and reloads concurrently.
- `internal/admission/gate.go:173-174` says that evictions never pick and close the same session
  twice. They do: picking a victim does not take it out of the list. `VictimRepeatsIff`,
  `OldestVictimRepeatsIff` and `WorstVictimRepeatsIff` say when, for both kinds of eviction, and
  `SameVictimTwice` is a run of the accept loop, one client at a time, in which it happens.
- `internal/balancer/manager.go:405-406` drains a removed group before a new one takes its listen
  address. That holds within the reload that removes the group (`StartWaits`). For later starts it is a
  promise, whatever happens in between, if and only if that reload added a group on the address and so
  waited for the teardown (`AlwaysWaitsIff`, `ShutBeforeIff`). A group left to a goroutine
  (`internal/balancer/manager.go:426-429`) may or may not be shut down by then: `EitherMayWin` gives a
  run of each kind from every such moment, and `LaterStartMayNotWait` both from any three configurations.
- `Manager.Shutdown` (`internal/balancer/manager.go:317-336`) shuts down a snapshot of the groups and
  leaves the list alone, so a reload that follows shuts down again what it removes. A removed group is
  shut down exactly once, after having been retired, if and only if no such call found it in the list
  (`OneShutdownIff`, `ShutdownsCounted`); `ReloadAfterShutdown` runs it from any two configurations.
- `internal/balancer/reload.go:66-67` promises that nothing is updated in part. The gate is kept in an
  `atomic.Value` (`internal/balancer/balancer.go:45`), which panics when a value of another concrete type
  is stored, and `internal/admission/gate.go:56-64` builds three types of gates. A reload that changes the
  type of gate commits pool, configuration and dialer and then panics with the old gate in place
  (`ReloadFromConfig`, and from every state `OneReloadDisagrees`); an admin handler survives that
  (`internal/admin/server.go:162`). In every run of reloads that do not overlap, a balancer at rest has the
  gate its configuration names if and only if that is of the type the first configuration named
  (`SerialAgreesIff`); no run at all gives it a gate of another type (`OtherKindDisagrees`). A panic also
  ends `Manager.Reload` before any group goes, comes or is retired (`Reload`).
- `internal/balancer/manager.go:470-477` reloads a single group without the lock, and the admin server
  calls it from concurrent handlers. Fixed fields, states and the type of the gate survive any overlap
  (`SurvivesOverlap`, `StatesSurvive`), and reloads that do not overlap leave the pool and, within its
  type, the gate in agreement with the configuration (`SerialAgreesIff`, `GateAgreesIff`); overlapping
  ones may not (`GateDisagrees`, `PoolDisagrees`).
- The threshold of the circuit breaker is a parameter of every failure, and a reload may lower it. A trip
  comes at exactly the threshold if and only if the counter was below it before (`TripMeansBurst`); after
  a reload it may come later (`LoweredThreshold`).
- `internal/strategy/wrr.go:11` says that int64 prevents overflow. Validation bounds no weight. The
  machine picks exactly like exact arithmetic for ever while (W-1)(n-1) + W is below 2^63
  (`MachineIsExact`); two upstreams of equal weight take turns if and only if it is below 2^62
  (`TwinsTakeTurnsIff`). Weighted random is proportional if and only if the weights add up to less than
  2^63, apart from equal weights (`ProportionalIff`, `HugeWeights`).
- A read that ends with a closed connection may leave accepted bytes unread (`ClosedReadIff`), and the
  remote end alone can bring that about (`RemoteEndMayTruncate`); only a read that reports the end of
  the remote stream promises that everything was returned (`EndMeansComplete`).
- `cmd/s5lb/main.go:243` calls `Shutdown` without ending the context of `Start`, which then sees a
  report that is not retired although nothing failed (`OutsideStopAlarms`).

Facts about callers that appear as preconditions: upstream IDs are non-empty and unique, which
`setUpstreams` establishes (`internal/balancer/balancer.go:150-162`); every upstream built for a
reload comes with a state of its own (`internal/upstream/upstream.go:57-69`); thresholds and
windows are positive, which validation requires.

## Model

| member | source | states |
|---|---|---|
| `Upstream.State.constructor` | internal/upstream/state.go:34-36 | a new state is idle, healthy, not draining, has no failure on record and has counted nothing |
| `Upstream.State.IncActive` | internal/upstream/state.go:80-92 | takes a slot and counts a session if and only if the upstream is healthy, not draining and below the cap; otherwise changes nothing |
| `Upstream.State.DecActive` | internal/upstream/state.go:95-101 | gives a slot back and never goes below zero |
| `Upstream.State.MarkHealthy` | internal/upstream/state.go:128-138 | the upstream is healthy afterwards; the failure counters are cleared only when that flips the flag, and the flip is reported |
| `Upstream.State.MarkUnhealthy` | internal/upstream/state.go:142-151 | the upstream is out of rotation afterwards; the failure counters stay, the time is taken only on a flip, and the flip is reported |
| `Upstream.State.RecordSuccess` | internal/upstream/state.go:154-161 | clears the failure counters and leaves the health flag alone |
| `Upstream.State.RecordFailure` | internal/upstream/state.go:165-186 | in place: counts the failure in the current window or starts a new one, trips a healthy upstream at the threshold, and always adds to the 64-bit total |
| `Upstream.State.SetDrain` | internal/upstream/state.go:192-196 | sets the drain flag and nothing else |
| `Breaker.HistoryTells` | internal/upstream/state.go:128-186 | what flag and counters mean after every history, told by the events alone: out of rotation if and only if some event forced it out or was a failure that reached its threshold in its window, with no recovery after; the counter is the number of failures in the current window, which starts at the first of them |
| `Breaker.OtherEvents` | internal/upstream/state.go:80-101 | after every history, taking and freeing a slot move the active count only, under their guards, and draining sets its flag only |
| `Breaker.CountersMeanBurst` | internal/upstream/state.go:128-186 | after every history, on any clock and with threshold and window changing from failure to failure, the counter is the length of a burst of failures since the last success or recovery, all within the windows they were recorded with, and a healthy upstream is below the threshold of the last of them |
| `Breaker.HealthyBelowThreshold` | internal/upstream/state.go:165-186 | while the configuration stays the same, a healthy upstream always has between zero and threshold minus one failures on its counter |
| `Breaker.TripMeansBurst` | internal/upstream/state.go:165-186 | soundness: a trip is the last of at least threshold failures of such a burst, and of exactly threshold if and only if the counter was below the threshold before or its window was over |
| `Breaker.LoweredThreshold` | internal/upstream/state.go:165-186 | a history after which a lowered threshold is overshot |
| `Breaker.TripAtThreshold` | internal/upstream/state.go:165-186 | while the configuration stays the same, a trip is the last of exactly threshold failures within the window of the first of them |
| `Breaker.FailInsideWindow` | internal/upstream/state.go:172-184 | inside the anchor's window every failure counts towards the trip |
| `Breaker.FailFromRestart` | internal/upstream/state.go:172-184 | a burst that starts a new window trips after threshold failures |
| `Breaker.EnoughFailuresTrip` | internal/upstream/state.go:165-186 | completeness by state: how many failures in a tight burst always trip, from any counter and any earlier anchor |
| `Breaker.BoundFailuresTrip` | internal/upstream/state.go:165-186 | completeness from every state: 2T-2 tight failures trip (one when T is 1), which is at most 2T-1 |
| `Breaker.StraddleStaysHealthy` | internal/upstream/state.go:165-186 | a tight burst of 2T-3 failures astride the end of a window leaves the upstream healthy |
| `Breaker.StraddlePrefix` | internal/upstream/state.go:165-186 | so does every shorter start of that burst |
| `Breaker.FewerMayNotTrip` | internal/upstream/state.go:165-186 | no smaller number of failures trips the breaker after every history |
| `Breaker.AlwaysTripsIff` | internal/upstream/state.go:165-186 | the bound is exact: n tight failures trip after every history if and only if n is at least the bound |
| `WaitQueue.LockedQueue.constructor` | internal/balancer/balancer.go:42-62 | an empty queue with no ticket and no cancelled waiter |
| `WaitQueue.LockedQueue.Join` | internal/balancer/queue.go:56-60 | the waiter goes to the end of the queue |
| `WaitQueue.LockedQueue.Cancel` | internal/balancer/queue.go:105-129 | in place: a queued waiter leaves the queue, any other gives back the ticket in its channel, and the mark stays |
| `WaitQueue.LockedQueue.Inspect` | internal/balancer/queue.go:139-152 | reports the head, drops a cancelled one, changes nothing else |
| `WaitQueue.LockedQueue.Deliver` | internal/balancer/queue.go:161-173 | hands the slot over exactly when the head is still the same waiter, not cancelled and without a ticket |
| `SlotProtocol.WaiterInvStep` | internal/balancer/queue.go:38-180 | every step of every thread keeps the place of each waiter (queued, ticketed, served or cancelled) and the arrival order of queue and deliveries |
| `SlotProtocol.QuietStep` | internal/balancer/queue.go:12-36 | steps outside the queue keep the waiter invariant |
| `SlotProtocol.EnqueueStep` | internal/balancer/queue.go:56-60 | joining keeps the waiter invariant |
| `SlotProtocol.TicketGone` | internal/balancer/queue.go:73-84 | a ticket read by its waiter, or taken back by its cancellation, keeps the waiter invariant |
| `SlotProtocol.GiveUpStep` | internal/balancer/queue.go:105-129 | cancelling keeps the waiter invariant, queued or ticketed |
| `SlotProtocol.LookAtHeadStep` | internal/balancer/queue.go:139-152 | inspecting the head keeps the waiter invariant |
| `SlotProtocol.HandOverStep` | internal/balancer/queue.go:161-179 | delivering, or failing to, keeps the waiter invariant |
| `SlotProtocol.CountStep` | internal/upstream/state.go:80-101 | a counter moves exactly with the acting thread's hold on a slot |
| `SlotProtocol.TicketStep` | internal/balancer/queue.go:105-173 | a slot that moves between a thread and a ticket channel leaves the books balanced |
| `SlotProtocol.SlotInvStep` | internal/balancer/queue.go:12-180 | every step keeps every counter equal to the slots in the air |
| `SlotProtocol.CappedStep` | internal/upstream/state.go:80-92 | every step keeps every counter below the greatest cap configured so far |
| `SlotProtocol.RunInv` | internal/balancer/queue.go:12-180 | all of this holds in every state of every interleaving, with caps and upstreams changing meanwhile |
| `SlotProtocol.SlotConservation` | internal/balancer/queue.go:12-180 | active equals slots returned and not released, plus tickets in channels, plus picks held by a dispatch, plus retracted tickets; hence it lies between zero and the cap |
| `SlotProtocol.ReleaseNeverClamps` | internal/upstream/state.go:95-101 | no release ever meets a counter at zero |
| `SlotProtocol.AllDoneMeansIdle` | internal/balancer/queue.go:131-135 | when every caller is done no slot, ticket or waiter is left |
| `SlotProtocol.DeadBranches` | internal/balancer/queue.go:105-173 | the cancelled-head, full-ticket and empty-ticket branches are unreachable |
| `SlotProtocol.ExactlyOnce` | internal/balancer/queue.go:51-129 | a waiter that left its select read the one ticket ever sent to it, or was cancelled, read none and was handed no slot |
| `SlotProtocol.HistoryGrows` | internal/balancer/queue.go:38-180 | what was delivered, received or cancelled stays so along a run |
| `SlotProtocol.Fifo` | internal/balancer/queue.go:56-60 | whoever got a ticket, everybody who joined earlier had one or was cancelled, and tickets were sent in joining order |
| `SlotProtocol.DeliveryIsFifo` | internal/balancer/queue.go:137-180 | the same at the moment of delivery, however many dispatches hold the same head |
| `SlotProtocol.PickIff` | internal/balancer/queue.go:12-36 | a thread leaves a pick, its own or the one for the head, with a slot if and only if its choice is in the pool, healthy, not draining and below the cap |
| `SlotProtocol.CounterMovesIff` | internal/upstream/state.go:80-101 | over every run a counter goes up by one exactly in the steps that pick such an upstream, down by one exactly in the steps that give its slot back, and moves in no other step |
| `SlotProtocol.NeverRaisedWhenDown` | internal/upstream/state.go:80-92 | no step of any run raises the counter of an unhealthy or draining upstream |
| `SlotProtocol.OnlyCounts` | internal/upstream/state.go:80-101 | the protocol changes nothing else of an upstream |
| `SlotProtocol.HeadIsEarliest` | internal/balancer/queue.go:139-152 | the waiter a dispatch sees is queued and everybody who joined before it has had a ticket or been cancelled; it sees none only if none is queued |
| `SlotProtocol.DispatchGoesOn` | internal/balancer/queue.go:131-180 | every release is followed by a dispatch, and a dispatch returns only after an empty queue or a failed pick, to the call suspended below it |
| `SlotProtocol.NeverStuck` | internal/balancer/queue.go:38-180 | in every phase a thread has a step it can take |
| `SlotProtocol.Beginnings` | internal/balancer/queue.go:12-60 | how callers, probes and upstreams start out, and what reloads may change |
| `PoolSlots.SlotStep` | internal/balancer/queue.go:12-180 | every step of the slot protocol keeps each slot in the air at the state its upstream pointer points at |
| `PoolSlots.SetPoolStep` | internal/balancer/balancer.go:171-205 | replacing the pool changes nothing for the pointers sessions hold |
| `PoolSlots.RunInv` | internal/balancer/queue.go:12-180 | that holds in every state of every run with reloads at any moment |
| `PoolSlots.StalePointerIff` | internal/balancer/balancer.go:174-187 | an old upstream pointer leads to the state that new picks of an ID see if and only if it is a pointer of that ID and the ID stayed in every pool since |
| `PoolSlots.CounterCountsStayers` | internal/balancer/balancer.go:174-187 | the counter that new picks of an ID see is the number of slots in the air picked under that ID, through whatever pointer, since the ID is in the pool |
| `PoolSlots.StaleReleaseBalances` | internal/balancer/queue.go:131-135 | a release through an old pointer lowers that counter by one, never from zero, if and only if the ID stayed; otherwise it leaves it alone |
| `PoolSlots.NewPicksSee` | internal/balancer/balancer.go:174-205 | after a reload new picks see kept states for the IDs that stay and new ones for the others, and no slot moves |
| `Wrr.WRRSelector.constructor` | internal/strategy/wrr.go:17 | a new selector has no credits |
| `Wrr.WRRSelector.DropStale` | internal/strategy/wrr.go:24-35 | in place, in any map order: exactly the credits of IDs outside the pool are deleted |
| `Wrr.MachineScanFinds` | internal/strategy/wrr.go:37-58 | the scan ends on a healthy upstream below the cap, and on none only if there is none |
| `Wrr.WRRSelector.Pick` | internal/strategy/wrr.go:20-61 | the in-place loop computes the credits and the ID of the specification in wrapping int64 arithmetic; on a valid pool it returns the ID of a healthy upstream below the cap, and none only if there is none |
| `Wrr.WRRSelector.Look` | internal/strategy/wrr.go:40-55 | the body of the scan: an unhealthy or full upstream changes nothing; any other gains its weight, one if that is not positive, and is the best so far if it is the first or richer |
| `WrrMachine.ScanWraps` | internal/strategy/wrr.go:40-50 | what is stored for an eligible upstream is its exact credit wrapped around, and nothing else changes |
| `WrrMachine.ScanFitsIff` | internal/strategy/wrr.go:40-50 | the scan stores the exact credits if and only if they all fit 64 bits |
| `WrrMachine.PickFits` | internal/strategy/wrr.go:20-61 | when the credits fit, a pick is the same as in exact arithmetic, even if the total wraps around |
| `WrrMachine.MachineIsExact` | internal/strategy/wrr.go:9-61 | from zero credits, with steady eligible weights such that (W-1)(n-1) + W is below 2^63, the machine makes the same picks as exact arithmetic for ever |
| `WrrMachine.MachineShare` | internal/strategy/wrr.go:37-60 | so the code's own arithmetic gives each upstream exactly its share after whole cycles |
| `WrrMachine.TwinsTakeTurnsIff` | internal/strategy/wrr.go:9-61 | two eligible upstreams of equal weight take turns if and only if the weight is below 2^62; otherwise the first is picked twice |
| `WrrFairness.WeightsMean` | internal/strategy/wrr.go:40-47 | the weights that take part are those of the healthy upstreams below the cap, one each if not positive |
| `WrrFairness.ScanAdds` | internal/strategy/wrr.go:37-50 | the scan adds each eligible weight to its own credit, and the total is what was added |
| `WrrFairness.ScanFindsRichest` | internal/strategy/wrr.go:51-54 | the scan ends on the richest eligible upstream, the first in pool order on a tie, and on none only if none is eligible |
| `WrrFairness.PickMeans` | internal/strategy/wrr.go:20-61 | one pick: every kept credit gains its weight, the chosen one is charged the total, and it was the richest |
| `WrrFairness.PruneRemoves` | internal/strategy/wrr.go:24-35 | pruning changes the sum of credits by exactly the removed ones |
| `WrrFairness.ScanTotals` | internal/strategy/wrr.go:40-50 | the scan raises the sum of credits by exactly the total weight it saw |
| `WrrFairness.ChargeUndoesGain` | internal/strategy/wrr.go:56-60 | the charge takes away exactly what the scan added |
| `WrrFairness.PickConserves` | internal/strategy/wrr.go:20-61 | in exact arithmetic a pick changes the sum of all credits by exactly the pruned credits, whatever health, load and weights it sees |
| `WrrFairness.PlayConserves` | internal/strategy/wrr.go:20-61 | in exact arithmetic, over any sequence of picks, the sum never changes while the pool keeps its IDs |
| `WrrMachine.MachinePickMeans` | internal/strategy/wrr.go:20-61 | in wrapping arithmetic, for any weights: up to multiples of 2^64 every kept credit gains its weight and the chosen one is charged the total |
| `WrrMachine.MachineConserves` | internal/strategy/wrr.go:20-61 | so a pick of the code changes the sum of all credits by the pruned credits, up to a multiple of 2^64, whatever it sees |
| `WrrMachine.MachinePlayConserves` | internal/strategy/wrr.go:20-61 | and over any sequence of picks of the code the sum stays the same up to a multiple of 2^64 while the pool keeps its IDs |
| `WrrFairness.SteadyPick` | internal/strategy/wrr.go:37-60 | with zero-sum credits a pick keeps the sum at zero and the chosen credit above minus W |
| `WrrFairness.BooksAfterPick` | internal/strategy/wrr.go:37-60 | one more pick keeps everybody's account: times chosen times W plus credit is picks times weight |
| `WrrFairness.PlayKeepsBooks` | internal/strategy/wrr.go:37-60 | those accounts hold after every number of picks with the same eligible weights |
| `WrrFairness.CreditBounds` | internal/strategy/wrr.go:37-60 | credits sum to zero and stay in (-W, (W-1)(n-1)], tighter than (n-1)W |
| `WrrFairness.ShareBounds` | internal/strategy/wrr.go:37-60 | after t picks every upstream's share is within those bounds of t times its weight over W |
| `WrrFairness.ExactShare` | internal/strategy/wrr.go:37-60 | after k cycles of W picks each upstream was chosen exactly k times its weight and all credits are zero again |
| `Tracker.AddKeepsOrder` | internal/admission/tracker.go:42-56 | adding keeps the live sessions in admission order |
| `Tracker.ReleaseKeepsOrder` | internal/admission/tracker.go:59-83 | releasing keeps the others in admission order |
| `Tracker.LiveInAdmissionOrder` | internal/admission/tracker.go:42-83 | after every legal run the live sessions are exactly those added and not released since, each once, oldest first |
| `Tracker.ReleaseIdempotent` | internal/admission/tracker.go:59-83 | releasing twice is releasing once |
| `Tracker.WorstExists` | internal/admission/tracker.go:160-183 | there is a drop-lowest-priority victim whenever anybody is listed |
| `Tracker.WorstIsUnique` | internal/admission/tracker.go:160-183 | the drop-lowest-priority victim is determined by the list |
| `Tracker.WorstIffUnbeaten` | internal/admission/tracker.go:160-183 | the victim is the session that no other one goes before: assigned first, by priority number, then by age |
| `Tracker.SkipsIsLinked` | internal/admission/tracker.go:71-81 | a list whose pointers skip one session is a properly linked list of the others, with its head and tail |
| `Tracker.AfterRemoval` | internal/admission/tracker.go:59-83 | after the surgery the list holds the other sessions, each once, and not the released one |
| `Tracker.Tracker.constructor` | internal/admission/tracker.go:39 | an empty, well-formed list |
| `Tracker.Tracker.Add` | internal/admission/tracker.go:42-56 | the pointers stay mutually inverse and acyclic, count equals the length, and the session goes last |
| `Tracker.Tracker.Unlink` | internal/admission/tracker.go:71-81 | the surgery makes every other session point past the one removed and clears its own links |
| `Tracker.Tracker.Remove` | internal/admission/tracker.go:70-82 | exactly that session leaves and the list stays well-formed |
| `Tracker.Tracker.Release` | internal/admission/tracker.go:59-83 | the same, also for a session released before and for an empty tracker, where nothing changes |
| `Tracker.Tracker.Update` | internal/admission/tracker.go:86-91 | reassigns one session and leaves the list alone |
| `Tracker.Tracker.Sessions` | internal/admission/tracker.go:109-128 | the walk along next returns every live session once, in admission order, with its own connection, admission time and assignment |
| `Tracker.Tracker.PickOldestVictim` | internal/admission/tracker.go:151-158 | the connection, admission time and assignment of the first live session, or none if there is none |
| `Tracker.Tracker.PickLowestPriorityVictim` | internal/admission/tracker.go:164-183 | those of the earliest session of the greatest priority number among assigned ones, else of the oldest; none only if there is none |
| `Gate.TokenGate.constructor` | internal/admission/gate.go:46-65 | a new gate holds no token and counts nobody |
| `Gate.TokenGate.TryAcquire` | internal/admission/gate.go:77-85 | takes a token and counts it exactly when the channel has room; a refusal takes none |
| `Gate.TokenGate.Release` | internal/admission/gate.go:110-117 | gives one token back and uncounts it; with no token held it changes nothing |
| `Admission.TokenStep` | internal/admission/gate.go:77-117 | a token moves exactly with the session's hold on it |
| `Admission.CountStep` | internal/admission/gate.go:77-117 | inflight moves exactly with the session's count |
| `Admission.TrackerStep` | internal/balancer/balancer.go:339-350 | every step keeps the tracker equal to the sessions being served, and only sessions that were tracked have an assignment |
| `Admission.InvStep` | internal/admission/gate.go:77-207 | every step of every session, and every gate swap, keeps the books of every gate |
| `Admission.RunInv` | internal/balancer/balancer.go:323-355 | those books balance in every state of every run |
| `Admission.GateConservation` | internal/admission/gate.go:77-117 | for every gate ever installed: tokens are exactly the sessions it admitted that have not released it, at most its cap, and inflight differs only by operations mid-step |
| `Admission.NeverOverReleased` | internal/admission/gate.go:110-117 | the over-release branch is never taken |
| `Admission.AllOverMeansEmpty` | internal/balancer/balancer.go:346-355 | when every session was refused or has ended, every gate and the tracker are empty |
| `Admission.TrackedHoldTokens` | internal/balancer/balancer.go:339-350 | the tracker lists exactly the sessions being served, each holding a token of the gate it captured |
| `Admission.SessionKeepsGate` | internal/balancer/balancer.go:323-355 | a session deals with the gate it captured to its end, whatever is installed meanwhile |
| `Admission.SwapInstalls` | internal/balancer/reload.go:78-79 | a swap installs an empty gate of the cap and kind asked for and leaves the others |
| `Admission.AssignIsSeen` | internal/admission/tracker.go:86-91 | the tracker's list shows each session with the upstream it was given last |
| `Admission.NeverStuck` | internal/admission/gate.go:77-207 | no session is stuck, and one that waits can take a token if and only if fewer sessions than the cap hold one |
| `Admission.CapturesCurrent` | internal/balancer/balancer.go:323-330 | a session deals with the gate installed last when it asked |
| `Admission.FirstTryIff` | internal/admission/gate.go:77-166 | over every run the first try succeeds if and only if fewer sessions than the cap hold a token; otherwise a rejecting gate refuses, a waiting gate waits and an evicting gate looks for a victim |
| `Admission.VictimIff` | internal/admission/gate.go:173-207 | an evicting gate closes one tracked session if there is one, the oldest under drop-oldest, and waits either way |
| `Admission.WaitEndsIff` | internal/admission/gate.go:87-207 | a wait ends with a token within the cap or with the refusal that its gate gives for a timeout, a cancellation or a missing victim |
| `Admission.EvictionIsRecorded` | internal/admission/gate.go:180-201 | an eviction closes a tracked session and is what the history of victims records |
| `Admission.WorstIsUnmatched` | internal/admission/tracker.go:160-183 | in the running system the drop-lowest-priority victim is the tracked session that nobody goes before |
| `Admission.EldersBefore` | internal/admission/tracker.go:42-83 | over any stretch of a run, whoever comes before a session that stays came before it already |
| `Admission.OldestVictimRepeatsIff` | internal/admission/gate.go:173-185 | of two drop-oldest evictions in a run the second closes the same session if and only if it is still tracked |
| `Admission.WorstVictimRepeatsIff` | internal/admission/gate.go:173-185 | a drop-lowest-priority eviction closes an earlier victim again if and only if it is still tracked and no session that changed its upstream since, or any if the victim did, goes before it now |
| `Admission.VictimRepeatsIff` | internal/admission/gate.go:173-185 | under either kind, while no session is given another upstream in between, a victim is closed again if and only if it is still tracked |
| `Admission.SameVictimTwice` | internal/admission/gate.go:159-207 | a run from the start, under either kind of eviction and with one client at a time in the accept loop, in which two clients have the same session closed |
| `StableSort.StableSortedIsStable` | internal/balancer/balancer.go:165-169 | the sort orders by key, keeps equal keys in their order and moves elements only |
| `StableSort.StableSortIsUnique` | internal/balancer/balancer.go:165-169 | there is only one stable sort, so the algorithm does not matter |
| `Pool.StableMeansByPriority` | internal/balancer/balancer.go:164-169 | the pool is in order of the priority field, upstreams of the same priority in their configured order |
| `Pool.StateNeverShared` | internal/balancer/balancer.go:174-187 | over any sequence of reloads two pools show the same state only under the same ID |
| `Pool.StateKeptIff` | internal/balancer/balancer.go:174-187 | an ID has the same state in two pools if and only if it was in every pool between them |
| `Pool.BirthThroughout` | internal/balancer/balancer.go:174-187 | an ID's state was built by the same reload in two pools if and only if the ID stayed throughout |
| `Pool.BuiltOnce` | internal/upstream/upstream.go:57-69 | a state determines the reload that built it and the ID it was built for |
| `Pool.Record` | internal/balancer/balancer.go:171-205 | a reload with newly built states extends the history of pools by one generation |
| `Pool.Balancer.constructor` | internal/balancer/balancer.go:66-115 | an empty pool whose list and index agree |
| `Pool.Balancer.NormalizeAll` | internal/upstream/upstream.go:48-54 | every upstream keeps a configured ID and gets the one derived from its address only if it has none, also when listed twice |
| `Pool.Balancer.HasDuplicate` | internal/balancer/balancer.go:155-162 | reports a duplicate exactly when two places carry the same ID |
| `Pool.Balancer.AdoptState` | internal/balancer/balancer.go:176-181 | a known ID takes over its state; a new one keeps its own or gets a new one; the old pool's states stay put |
| `Pool.Balancer.Adopt` | internal/balancer/balancer.go:174-187 | the loop indexes every upstream under its ID and hands over exactly the states of IDs that stay |
| `Pool.Balancer.SortByPriority` | internal/balancer/balancer.go:164-169 | a stable sort by priority of the same upstreams |
| `Pool.Balancer.Install` | internal/balancer/balancer.go:164-205 | list and index agree on the stable sort, with states following their IDs |
| `Pool.Balancer.SetUpstreams` | internal/balancer/balancer.go:149-206 | succeeds exactly on unique IDs; then the pool is the stable sort with states following IDs; on failure pool and states are untouched |
| `Pool.Balancer.Replace` | internal/balancer/balancer.go:149-206 | the same as one step between generations of states, so the history theorems apply to it |
| `Reload.TrackedPool.Set` | internal/balancer/balancer.go:149-206 | the pool stays the last generation of its recorded history, which a failure leaves alone |
| `Reload.LoadBalancer.constructor` | internal/balancer/balancer.go:86-103 | before the first pool: the given configuration and dialer, a gate of the type the configuration names, and an empty history |
| `Reload.LoadBalancer.New` | internal/balancer/balancer.go:66-115 | succeeds exactly when the upstream IDs are unique, and then has the stable sort of the upstreams as its first generation and a gate of the type the configuration names |
| `Reload.Kinds` | internal/admission/gate.go:56-64 | the four ways of backpressure have three types of gates, both ways of evicting the same |
| `Reload.LoadBalancer.Prepare` | internal/balancer/reload.go:27-59 | fixed fields are kept, everything else is taken over, except that backpressure fields change, and a gate is built, only when no session is active |
| `Reload.LoadBalancer.SetGate` | internal/balancer/balancer.go:143-145 | the gate is replaced by one of the same type; storing one of another type panics and leaves it |
| `Reload.LoadBalancer.Commit` | internal/balancer/reload.go:73-85 | configuration and dialer are replaced in any case, and the gate unless storing it panics |
| `Reload.LoadBalancer.ReloadFromConfig` | internal/balancer/reload.go:14-90 | a reload that no other overlaps: an error, exactly when some artefact is missing, leaves pool, states, configuration, dialer and gate unchanged; otherwise pool, configuration and dialer are committed, and it panics with the old gate in place exactly when it replaces the gate by one of another type; the type of the gate never changes |
| `Reload.FixedForever` | internal/balancer/reload.go:27-59 | no reload of any sequence changes a fixed field, and the backpressure fields move in exactly those reloads that ask for it and see no session (reloads one after the other; Overlap has the rest) |
| `Reload.MovedWhenIdle` | internal/balancer/reload.go:43-59 | if they differ after a sequence of reloads, some reload saw no session |
| `Overlap.SurvivesOverlap` | internal/balancer/reload.go:14-90 | in every run of overlapping reloads no fixed field changes, no upstream state is built twice and the gate stays of the type it was built with |
| `Overlap.StatesSurvive` | internal/balancer/balancer.go:174-187 | in such a run an ID has the same state in two pools if and only if it was in every pool set between them |
| `Overlap.GateAgreesIff` | internal/balancer/reload.go:43-87 | while a reload that brings a gate overlaps no other, and whenever no such reload is under way, the gate is the one the configuration names if and only if that is of the type the first configuration named |
| `Overlap.SerialAgreesIff` | internal/balancer/reload.go:14-90 | when no two reloads overlap, a balancer at rest has the pool that its configuration names, and the gate if and only if that is of the type the first configuration named |
| `Overlap.OtherKindDisagrees` | internal/balancer/balancer.go:143-145 | in every run, overlapping or not, a configuration that names another type of gate than the first one does not have its gate |
| `Overlap.OneReloadDisagrees` | internal/balancer/reload.go:43-87 | from every state: one reload that sees no session and asks for another type of gate leaves its pool and configuration with the old gate, and no reload with the same backpressure fields builds the missing gate |
| `Overlap.GateDisagrees` | internal/balancer/manager.go:470-477 | from every state: a reload that keeps the backpressure fields, overlapped by one that changes them, ends with the old fields in the configuration and, if it is of the type in place, the new gate |
| `Overlap.PoolDisagrees` | internal/balancer/manager.go:470-477 | from every state: two overlapping reloads may leave the pool of the one and the configuration of the other |
| `Overlap.BusyKeepsGate` | internal/balancer/reload.go:43-59 | a reload that sees a session builds no gate and keeps the fields of the old one |
| `Overlap.FailedPoolChangesNothing` | internal/balancer/reload.go:68-70 | a pool that cannot be set ends the call with everything as it was |
| `Stream.RunInv` | internal/transport/stream_conn.go:151-390 | in every run both directions keep their byte order and the channels their bound |
| `Stream.ReadInvStep` | internal/transport/stream_conn.go:151-203 | every step keeps returned, pending and queued bytes equal to the accepted ones |
| `Stream.WriteInvStep` | internal/transport/stream_conn.go:205-334 | every step keeps sent bytes a prefix of written ones |
| `Stream.ReadOrder` | internal/transport/stream_conn.go:151-203 | for any read sizes, bytes returned, then pending, then queued chunks are exactly the bytes accepted |
| `Stream.WriteOrder` | internal/transport/stream_conn.go:205-334 | bytes sent are a prefix of bytes written, and while the pump runs sent bytes, the chunk in its hand and the queued chunks are exactly the bytes written |
| `Stream.HistoriesAreAnswers` | internal/transport/stream_conn.go:151-368 | over every run, with the answers of its steps: the bytes written are those of exactly the writes answered with their number, the bytes accepted likewise, the bytes returned are those that reads answered, and the bytes sent those that send took |
| `Stream.AnswersInOrder` | internal/transport/stream_conn.go:151-368 | so in terms of answers only: what reads returned is a prefix of what was taken from the remote end, and what was sent a prefix of what writes took |
| `Stream.ReadAnswersData` | internal/transport/stream_conn.go:151-203 | a read answers data if and only if bytes are pending or it takes a chunk |
| `Stream.WriteAnswers` | internal/transport/stream_conn.go:205-368 | a write or enqueue is answered with its number of bytes if and only if it takes the channel, and otherwise changes nothing |
| `Stream.ReadBlocksIff` | internal/transport/stream_conn.go:166-200 | a read waits if and only if nothing is queued and the connection is open at both ends and not cancelled |
| `Stream.SendBlocksIff` | internal/transport/stream_conn.go:220-246 | a sender waits if and only if the channel holds 64 chunks and the connection is open |
| `Stream.PumpBlocksIff` | internal/transport/stream_conn.go:306-334 | the pump waits if and only if nothing is queued and the connection is open |
| `Stream.EndCanBeReported` | internal/transport/stream_conn.go:174-179 | once the remote end has finished and everything was returned, a read can report it with the remote's own error |
| `Stream.EndIsFirst` | internal/transport/stream_conn.go:250-390 | the first end of the remote stream is the one reported; a local close or the end of the context is none |
| `Stream.ReadProgress` | internal/transport/stream_conn.go:151-203 | a read with data returns the next bytes, at least one and at most its buffer; any other read changes nothing |
| `Stream.EndMeansComplete` | internal/transport/stream_conn.go:174-179 | when a read reports the remote end, every byte accepted, then or later, has been returned |
| `Stream.ReturnedGrows` | internal/transport/stream_conn.go:151-203 | what a read returned is never taken back |
| `Stream.ClosedReadIff` | internal/transport/stream_conn.go:151-203 | exactly when a read can report a closed connection, and exactly when it then leaves accepted bytes unread |
| `Stream.RemoteEndMayTruncate` | internal/transport/stream_conn.go:194-200 | for all bytes sent and any buffer, a run in which the remote end alone makes the next read report a closed connection with every byte unread |
| `Stream.StreamConn.constructor` | internal/transport/stream_conn.go:98-125 | a new connection is open, empty and pumping |
| `Stream.StreamConn.Read` | internal/transport/stream_conn.go:151-203 | in place, with any number of deadline changes: pending bytes first, else the next chunk, as far as the buffer reaches; any other branch changes nothing and answers its error |
| `Stream.StreamConn.Write` | internal/transport/stream_conn.go:205-248 | in place, with any number of deadline changes: all bytes are queued and their number is answered, or none and the error of the branch taken |
| `Stream.StreamConn.EnqueueRead` | internal/transport/stream_conn.go:336-368 | in place: all bytes are accepted or none |
| `Stream.StreamConn.Close` | internal/transport/stream_conn.go:250-262 | closes the local end and cancels |
| `Stream.StreamConn.FinishRemote` | internal/transport/stream_conn.go:370-390 | only the first end of the remote stream counts |
| `Stream.StreamConn.PumpTake` | internal/transport/stream_conn.go:306-333 | takes the oldest chunk into the pump's hand, or ends the pump |
| `Stream.StreamConn.PumpSend` | internal/transport/stream_conn.go:314-322 | sends that chunk, or on an error drops it and ends the remote stream |
| `Stream.StreamConn.PumpOnce` | internal/transport/stream_conn.go:306-334 | one iteration when nothing comes between: sends the oldest chunk, or ends the pump on an error or a closed end |
| `Stream.LimitedBuffer.constructor` | internal/transport/stream_conn.go:419-423 | an empty buffer of the given limit |
| `Stream.LimitedBuffer.Write` | internal/transport/stream_conn.go:425-445 | the buffer is the longest prefix of all bytes ever written that fits the limit, and every write reports full success |
| `Manager.StagesInOrder` | internal/balancer/manager.go:391-434 | retiring comes before tearing down, tearing down before the goroutines, all of it before starting |
| `Manager.PlaceIsUnique` | internal/balancer/manager.go:391-434 | each event of a reload has at most one place |
| `Manager.PlacedOnce` | internal/balancer/manager.go:391-434 | each planned event happens exactly once |
| `Manager.RemovedLaws` | internal/balancer/manager.go:391-430 | a removed group is retired once, before its one teardown, by the reload or by a goroutine and never by both |
| `Manager.ShutdownBeforeUnregister` | internal/balancer/manager.go:414-418 | a group is shut down before it is unregistered |
| `Manager.AddedLaws` | internal/balancer/manager.go:405-434 | a new group that is started is started once, after every removed group on its address was shut down and unregistered |
| `Manager.NewOnesDistinct` | internal/balancer/manager.go:377-388 | the groups to start are exactly those that did not exist before, each once |
| `Manager.LiveNamesAre` | internal/balancer/manager.go:366-388 | a group exists after a reload exactly if it is in the configuration and was running, even if its own reload failed, or could be built |
| `Manager.LiveNamesInOrder` | internal/balancer/manager.go:366-388 | groups come in the order of the configuration |
| `Manager.AppliedNames` | internal/balancer/manager.go:366-440 | the same of the index that a reload leaves |
| `Manager.Manager.constructor` | internal/balancer/manager.go:179-188 | no groups and no goroutines, nothing published or launched, and list and index agree |
| `Manager.Manager.Publish` | internal/balancer/manager.go:255-260 | the first half of what Start does once: the result channel exists, and nothing is started |
| `Manager.Manager.Launch` | internal/balancer/manager.go:262-266 | the second half, under the lock: every group in the list is started in order |
| `Manager.Manager.Stop` | internal/balancer/manager.go:317-336 | a Shutdown call leaves one goroutine for every group in the list at that moment and changes nothing else |
| `Manager.Manager.RunStop` | internal/balancer/manager.go:330-333 | any of those goroutines may be next: it shuts its group down, whatever became of the group meanwhile |
| `Manager.Manager.RunTeardown` | internal/balancer/manager.go:426-429 | any goroutine that a reload left behind may be next: it shuts its group down and unregisters it |
| `Manager.Manager.EntryFor` | internal/balancer/manager.go:366-388 | a running group keeps its entry by identity; a new one gets a new entry with the configured address exactly if it can be built |
| `Manager.Manager.ReconcileOne` | internal/balancer/manager.go:366-388 | one effective group is enlisted with the right entry or left out, and reports its own success |
| `Manager.Manager.Reconcile` | internal/balancer/manager.go:362-389 | the new list and index agree, follow the order of the configuration, keep surviving entries, name exactly the new ones, and success means every group reloaded or was built; it panics exactly when reloading some running group does |
| `Manager.Manager.RetireRemoved` | internal/balancer/manager.go:391-403 | in any map order: exactly the groups that disappear are retired and filed under their address |
| `Manager.Manager.DrainFor` | internal/balancer/manager.go:405-420 | exactly the removed groups whose address a new group needs are torn down, each once |
| `Manager.Manager.DrainOne` | internal/balancer/manager.go:408-420 | all removed groups on one address are torn down and the address is struck off |
| `Manager.Manager.SpawnRest` | internal/balancer/manager.go:422-430 | exactly the other removed groups are left to goroutines, one each |
| `Manager.Manager.StartAll` | internal/balancer/manager.go:432-434 | groups are started in order from the moment the result channel exists, which may be in the middle of the loop |
| `Manager.Manager.TakeDown` | internal/balancer/manager.go:391-430 | the removed groups are retired, split into those torn down and those left to goroutines, in the planned order |
| `Manager.Manager.CarryOut` | internal/balancer/manager.go:391-434 | everything that happens is the script of a well-formed plan |
| `Manager.Manager.Apply` | internal/balancer/manager.go:358-440 | list and index agree, survivors keep their identity, new entries have the configured address, exactly the removed groups are retired, and the events are the plan's script; or reloading a group panics, and nothing of this changes |
| `Manager.Manager.Reload` | internal/balancer/manager.go:341-440 | the same with the error paths: a file that does not load, or has no group, an unnamed or invalid one, or two of the same name or address, changes nothing, nor does a panic while a group is reloaded; success is reported exactly when every group reloaded or was built |
| `GroupHistory.ReloadSpares` | internal/balancer/manager.go:341-440 | nothing happens to a group that a reload neither removes nor adds |
| `GroupHistory.ReloadRemoves` | internal/balancer/manager.go:391-430 | a removed group is retired once and torn down or handed over once, in order, and not started |
| `GroupHistory.ReloadAdds` | internal/balancer/manager.go:432-434 | an added group is started once if the result channel exists by its turn, else not at all |
| `GroupHistory.LaunchStarts` | internal/balancer/manager.go:262-266 | the launch starts each group in the list once and removes none |
| `GroupHistory.LifeStep` | internal/balancer/manager.go:250-440 | one more step, whether publication, launch, reload, Shutdown call or the end of a goroutine, keeps the life story of every group |
| `GroupHistory.EveryLife` | internal/balancer/manager.go:250-440 | over every run everything that happens to a group is counted: starts by the two ways of starting, one retirement, hand-over and unregistration at most, shutdowns by its teardown and by Shutdown calls; the parts of a removal are in order after all starts, with a shutdown before the unregistration, and all shutdowns too unless a Shutdown call got to the group |
| `GroupHistory.StopsAreListings` | internal/balancer/manager.go:317-336 | the goroutines of Shutdown calls for a group, finished and not, are as many as the calls that found it in the list |
| `GroupHistory.ShutdownsCounted` | internal/balancer/manager.go:317-430 | how often a group is shut down, exactly: once by its teardown and once for every Shutdown call that found it and has got to it |
| `GroupHistory.OneShutdownIff` | internal/balancer/manager.go:317-430 | a removed group whose teardown is over was shut down once, after being retired, if and only if no Shutdown call got to it, which once all is done means that none found it in the list |
| `GroupHistory.HandedOver` | internal/balancer/manager.go:422-430 | a group left to a goroutine is torn down at most once, after the hand-over, and shut down before it is unregistered; unless a Shutdown call got to it, that is its one shutdown |
| `GroupHistory.StartedOnceIff` | internal/balancer/manager.go:255-267 | a group in service after the launch was started exactly once if and only if no reload started it before the launch; otherwise twice |
| `GroupHistory.EarlyIff` | internal/balancer/manager.go:255-267 | a group is started early if and only if some reload starts it after the publication of the result channel and before the launch |
| `GroupHistory.AroundLaunch` | internal/balancer/manager.go:255-267 | of the groups in the list at the launch, exactly those added by a reload between the two halves of Start are started twice |
| `GroupHistory.ReloadDuringStart` | internal/balancer/manager.go:255-267 | the same from configurations: for any two that build, with a reload in between that does not panic, exactly the groups the second adds are started twice |
| `GroupHistory.WaitedForIff` | internal/balancer/manager.go:405-430 | when the reload that removes a group is over, the group has been shut down if and only if that reload added a group on its address or a Shutdown call had got to it before |
| `GroupHistory.StartWaits` | internal/balancer/manager.go:405-434 | over every run a reload shuts down the groups it removes from an address before it starts one there; unless a Shutdown call got to them, that is their one shutdown and all starts of the new group come after it |
| `GroupHistory.ShutBeforeIff` | internal/balancer/manager.go:405-434 | from every moment of every run: a group has been shut down before every later start on its address, however the run goes on, if and only if it has been shut down already |
| `GroupHistory.AlwaysWaitsIff` | internal/balancer/manager.go:405-434 | from the end of the reload that removes a group: however the run goes on, it has been shut down before every later start on its address, if and only if that reload added a group there and so waited, or a Shutdown call had got to it before |
| `GroupHistory.EitherMayWin` | internal/balancer/manager.go:422-430 | a group left to a goroutine: from every moment before the goroutine is done, a run in which a group starts on its address too soon, and one in which the goroutine is done before |
| `GroupHistory.LaterStartMayNotWait` | internal/balancer/manager.go:341-440 | both runs from any three configurations that build and reload without a panic: when the third starts its groups, a group the second left out has been shut down if and only if the goroutines of the second reload have finished or the second added a group on its address, whatever the third adds there |
| `GroupHistory.LateConfigs` | internal/config/multiconfig.go:214-243 | valid configurations in which the third takes the address of a group that the second left out while another stays |
| `GroupHistory.FinishAll` | internal/balancer/manager.go:426-429 | all goroutines of reloads finish: every group handed over is torn down and nothing else changes |
| `GroupHistory.StopAll` | internal/balancer/manager.go:323-335 | all goroutines of Shutdown calls finish, each shutting its group down once |
| `GroupHistory.ReloadAfterShutdown` | cmd/s5lb/main.go:241-249 | from any two configurations that build, Shutdown and then a reload that does not panic: the groups left out are shut down twice, those that stay once, new ones not at all |
| `GroupHistory.RecordedManager.constructor` | internal/balancer/manager.go:179-188 | an empty manager with an empty history |
| `GroupHistory.RecordedManager.Publish` | internal/balancer/manager.go:255-260 | publishing the channel is one legal step of the history |
| `GroupHistory.RecordedManager.Launch` | internal/balancer/manager.go:262-266 | starting the groups found is another, whatever came in between |
| `GroupHistory.RecordedManager.Stop` | internal/balancer/manager.go:317-336 | a Shutdown call is a legal step at any time, with the list at that moment as its snapshot |
| `GroupHistory.RecordedManager.RunStop` | internal/balancer/manager.go:330-333 | so is the end of any of its goroutines |
| `GroupHistory.RecordedManager.RunTeardown` | internal/balancer/manager.go:426-429 | so is the end of any goroutine of a reload, which is a group handed over and not yet torn down |
| `GroupHistory.RecordedManager.Reload` | internal/balancer/manager.go:341-440 | every reload that validates and does not panic is one legal step of the history, also with the channel published in its middle, so the run theorems apply; any other leaves it alone |
| `GroupHistory.RecordedManager.New` | internal/balancer/manager.go:167-201 | succeeds exactly when names and addresses are unique, every group is valid and every group builds; then it has the groups in order with their addresses, not yet started |
| `Supervisor.RunInv` | internal/balancer/manager.go:245-336 | in every interleaving of reloads, exits, reports and outside calls of Shutdown, causes, reasons and retired marks agree, also when a group is served twice |
| `Supervisor.RemovalReportedRetired` | internal/balancer/manager.go:305-313 | an exit caused by a removal is always reported as retired |
| `Supervisor.RemovalNeverStopsAll` | internal/balancer/manager.go:269-336 | a global shutdown means the context ended, Shutdown was called from outside, or some Serve returned on its own, never a removal |
| `Supervisor.AlarmNeverFromRemoval` | internal/balancer/manager.go:276-290 | a report that is not retired comes from a failure or a global stop, never from a removal, and a global stop has a reason |
| `Supervisor.OutsideStopAlarms` | cmd/s5lb/main.go:241-249 | a run in which only an outside call of Shutdown makes Start see a report that is not retired |
| `Supervisor.ReportIff` | internal/balancer/manager.go:305-313 | a server reports its group as retired if and only if that was marked by then, and every other report alarms |
| `Supervisor.AlarmStopsAll` | internal/balancer/manager.go:269-290 | a report that is not retired, or the end of the context, lets Start stop everything, and then every server may stop |
| `Supervisor.MarksStay` | internal/balancer/manager.go:245-336 | what launches, reloads and callers leave behind |
| `LeastActive.Pick` | internal/strategy/least_active.go:16-38 | the loop returns the specified winner for every vector of draws: a healthy upstream below the cap with the fewest sessions, and none only if there is none |
| `LeastActive.BestIsLeast` | internal/strategy/least_active.go:21-36 | the count kept is the least of an eligible upstream, and is reached |
| `LeastActive.TiesCountMinima` | internal/strategy/least_active.go:25-35 | the tie counter is the number of minima |
| `LeastActive.AtBestIsMinimum` | internal/strategy/least_active.go:21-36 | having that count is the same as being an eligible minimum |
| `LeastActive.WinnerIsMinimum` | internal/strategy/least_active.go:16-38 | whatever is drawn, the pick is a minimum, and empty only if nothing is eligible |
| `LeastActive.HitsOfTying` | internal/strategy/least_active.go:30-35 | a tying upstream takes over exactly the vectors that draw zero |
| `LeastActive.HitsOfOthers` | internal/strategy/least_active.go:30-35 | it leaves all other vectors to the winner so far |
| `LeastActive.TiesBrokenUniformly` | internal/strategy/least_active.go:16-38 | for every pool the same number of draw vectors selects each tied minimum: all of them divided by the number of minima |
| `LeastActive.TiedShares` | internal/strategy/least_active.go:16-38 | for every pool with k tied minima, whatever came before them in the scan: each is the result for (k-1)! of the k! ways to answer the draws among them |
| `LeastActive.AllTiedShares` | internal/strategy/least_active.go:16-38 | when all eligible upstreams tie, no draw comes before, and each is the result for (k-1)! of the k! vectors |
| `WeightedRandom.EligibleOf` | internal/strategy/base.go:53-61 | the loop keeps exactly the healthy upstreams below the cap, in pool order |
| `WeightedRandom.CandidatesAreEligible` | internal/strategy/base.go:53-61 | an upstream is a candidate if and only if it is in the pool, healthy and below the cap |
| `WeightedRandom.CandidatesInOrder` | internal/strategy/base.go:53-61 | candidates keep the order of the pool |
| `WeightedRandom.Pick` | internal/strategy/weighted_random.go:16-44 | with the total in wrapping int64 arithmetic: the draw decides the candidate whose stretch of the weights it falls in, or, when the total is not positive, the candidate of that number, in any case a healthy upstream below the cap and none only if there is none; the trailing fallback is unreachable |
| `WeightedRandom.FallsOnOne` | internal/strategy/weighted_random.go:32-42 | a draw falls on one candidate only |
| `WeightedRandom.DrawsCounted` | internal/strategy/weighted_random.go:16-44 | how many draws select each candidate, wrapped or not: its stretch of the weights as far as the wrapped total reaches, or one |
| `WeightedRandom.ExactlyProportional` | internal/strategy/weighted_random.go:21-43 | while the weights add up to less than 2^63, of the total possible draws exactly max(1, weight) select each candidate |
| `WeightedRandom.UniformIff` | internal/strategy/weighted_random.go:21-31 | when the total has wrapped to a value that is not positive, the shares are right if and only if all weights are equal |
| `WeightedRandom.ProportionalIff` | internal/strategy/weighted_random.go:16-44 | every share of the draws is the share of the weight if and only if the weights add up to less than 2^63, or the wrapped total is not positive and all weights are equal |
| `WeightedRandom.HugeWeights` | internal/strategy/weighted_random.go:21-31 | positive weights for which it fails: 2^63 - 1 and 1 are drawn equally often |
| `Rendezvous.Pick` | internal/strategy/consistent_hash.go:17-37 | the loop returns the specified choice, for any hash function; on a valid pool that is a healthy upstream below the cap, and none only if there is none |
| `Rendezvous.ScanFindsTop` | internal/strategy/consistent_hash.go:17-37 | the scan returns the first eligible upstream of greatest hash, and none only if none is eligible |
| `Rendezvous.TopIsChosen` | internal/strategy/consistent_hash.go:17-37 | having the greatest hash is what makes an upstream the pick |
| `Rendezvous.RemoveKeepsPick` | internal/strategy/consistent_hash.go:17-37 | removing an upstream that is not the pick changes nothing |
| `Rendezvous.DisableIsRemove` | internal/strategy/consistent_hash.go:26-29 | turning ineligible has the effect of being removed |
| `Rendezvous.AddKeepsOrTakes` | internal/strategy/consistent_hash.go:17-37 | adding an upstream anywhere keeps the pick or moves it to the new one |
| `Rendezvous.OrderIrrelevant` | internal/strategy/consistent_hash.go:17-37 | without collisions the pick depends only on the set of eligible IDs |
| `Wire.PortBytes` | internal/socks5/udp.go:86-87 | a port is two bytes, the high one first |
| `Wire.PortRoundTrip` | internal/socks5/udp.go:86-87 | writing a port that was read gives the same two bytes |
| `Wire.Canonical` | internal/socks5/udp.go:99-109 | only addresses of 4 or 16 bytes have a wire form, and a 16-byte form is never an IPv4-mapped one |
| `Wire.CanonicalForm` | internal/socks5/udp.go:99-109 | which address type and bytes each address is written with, in numbers, and that an IPv4-mapped one is written as IPv4 |
| `Wire.Reader.ReadFull` | internal/socks5/protocol.go:313-316 | reads exactly the next bytes or fails |
| `UdpCodec.DecodeUDPDatagram` | internal/socks5/udp.go:41-91 | the decoder computes the specified datagram or the specified error for every packet |
| `UdpCodec.EncodeUDPDatagram` | internal/socks5/udp.go:95-133 | the encoder computes the specified packet or error for every destination |
| `UdpCodec.EncodedForm` | internal/socks5/udp.go:95-133 | the bytes of every packet, in numbers, and which error every other destination gives |
| `UdpCodec.DecodedForm` | internal/socks5/udp.go:41-91 | which packets are accepted, by their bytes, what is read from them, and which error each of the others gives |
| `UdpCodec.ShortPackets` | internal/socks5/udp.go:42-44 | an encoded packet is under ten bytes if and only if it carries a domain name with domain and payload under three bytes together |
| `UdpCodec.DecodeEncoded` | internal/socks5/udp.go:41-133 | decoding an encoded packet succeeds if and only if it has ten bytes, and then recovers destination, port and payload |
| `UdpCodec.EncodeDecoded` | internal/socks5/udp.go:41-133 | encoding what was decoded rebuilds the packet if and only if it carries no IPv4-mapped IPv6 address |
| `RequestCodec.ReadAddr` | internal/socks5/protocol.go:152-184 | reads the address field with its length byte, or fails on an unknown type, an empty name or a short input |
| `RequestCodec.ReadDest` | internal/socks5/protocol.go:152-190 | reads the address field and the port and stops right after them |
| `RequestCodec.ReadRequest` | internal/socks5/protocol.go:126-150 | computes the specified request or reply code and stops right after the request |
| `RequestCodec.ParsedForm` | internal/socks5/protocol.go:126-190 | which inputs are requests, by their bytes, what is read from them, and which reply code each of the others is answered with |
| `RequestCodec.PrintedForm` | internal/socks5/protocol.go:303-308 | the bytes of a request, in numbers |
| `RequestCodec.ForwardedIsConsumed` | internal/socks5/protocol.go:303-308 | the request written upstream is byte for byte what was consumed from the client |
| `RequestCodec.ParsePrinted` | internal/socks5/protocol.go:126-190 | parsing a printed request recovers it, whatever follows |
| `RequestCodec.SelfDelimiting` | internal/socks5/protocol.go:126-190 | the outcome depends on the consumed bytes only, and no proper prefix of them is a request |
| `ReplyCodec.BuildReply` | internal/socks5/protocol.go:49-76 | computes the specified reply, with the zero address when there is no usable one |
| `ReplyCodec.ReadReply` | internal/socks5/protocol.go:313-357 | reads the specified reply field by field and stops right after it |
| `ReplyCodec.BuiltForm` | internal/socks5/protocol.go:49-76 | the bytes of every reply, in numbers |
| `ReplyCodec.ParsedForm` | internal/socks5/protocol.go:313-357 | which replies are accepted, by their bytes, what is read from them, and which error each of the others gives |
| `ReplyCodec.ParseBuilt` | internal/socks5/protocol.go:49-76 | parsing a built reply recovers code, address and port, whatever follows; without a usable address, zero and zero |

## Left out

- Work conservation of the queue: a slot freed between the failed pick and the enqueue is not dispatched again, and selectors ignore draining, so it is not a law of this code.
- FIFO against newcomers: a new caller tries to pick before it queues.
- A bound on clients across two gates: the session count is read well before the gate is swapped.
- Tracker.Tracker.Add: adding a session that is already in the list is outside the contract.
- Tracker.Tracker.Release: releasing a session that was never added while others are live is outside the contract.
- Stream.StreamConn.EnqueueRead: the closed check and the send are one step, so nothing is said about sending on a closed channel.
- Stream.StreamConn.Close: cancelling and closing are one step, and the connection below is not modelled.
- Stream.StreamConn.FinishRemote: closing the two channels and cancelling the context are one step; the translation of the remote error in `remoteReadErr` is a parameter.
- The EWMA latency of an upstream (floating point).
- WrrMachine.MachineIsExact: one way only; beyond the bound it depends on the credits actually reached, for which ScanFitsIff gives the exact condition scan by scan, and TwinsTakeTurnsIff the exact bound for two equal weights.
- UdpCodec.DecodeUDPDatagram: the checks for a truncated IPv4 address and a missing length byte are not written out, because no packet of ten bytes reaches them; results are copies, so aliasing with the packet is not modelled.
- LeastActive.Pick: pools with empty IDs are excluded, as `setUpstreams` does.
- Admission.GateConservation: the branches for a missing gate and a missing tracker are left out, because construction rules them out; any number of clients may be inside `Acquire`, while the accept loop has one at a time.
- Admission.InvStep: a swap may install a gate of any type, also one that the code could not store; the laws hold of all such runs.
- Manager.Manager.Reload: what `reloadFromConfig`, `buildGroup` and the validation of one group do inside is a parameter here (Reload.dfy and Overlap.dfy model the first, also for single-group reloads); the check for a missing file path is left out, and so is what becomes of a group that was built before another one panics.
- GroupHistory.LifeStep: the goroutines of reloads and of Shutdown calls finish between reloads, not in the middle of one, and a teardown goroutine makes its two calls in one step. For the goroutines of a reload nothing is lost by that: what they do commutes with the starts that are left of that reload, because a group is handed over only if none of those is on its address.
- GroupHistory.StartWaits: that the shutdown has returned, not that the address is free; the listener is closed by a goroutine that `Shutdown` does not wait for (`internal/balancer/balancer.go:285-288`), so binding the address can still fail for a moment.
- GroupHistory.RecordedManager.Publish: a second call of `Start`, which skips this part, is not modelled; nor is the race on reading the channel variable itself, whose read sees the publication or does not.
- Distinct listen addresses after a reload that moves a group's address: the old address is kept.
- End-to-end transparency of a tunnel: bytes buffered by the reader are not handed on.
- The selectors random, round-robin, power-of-two-choices, priority and least-latency, which would only add easy members or floating point.
- Greeting and authentication, label functions, `HashInput` and the hash itself.
- Metrics, logging, tracing, the admin server, configuration loading and parsing, Kubernetes and WebSocket dialing, real sockets and timers; timeouts and cancellations are nondeterministic steps.
