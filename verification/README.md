# JoinQuest matchmaking: models and proofs

JoinQuest's backend seats players into matches. This project models the parts of it that are
hardest to get right by reading — protocols between goroutines, timers that may already have fired,
and small pieces of statistics that decide who plays whom — and proves what they promise.

`dafny verify dfyconfig.toml` checks everything. Each file is one module:

| file | models |
|---|---|
| `debounce.dfy`, `provision.dfy`, `worker.dfy`, `timers.dfy` | the forming worker: debounced reconciles, drain and shutdown, provision retries; and the timers under both |
| `presence.dfy`, `tracker.dfy` | presence windows: socket counts, armed deadlines, stamp-guarded evictions |
| `dispersion.dfy` | the skill-dispersion fire decision |
| `moments.dfy`, `errors.dfy`, `folds.dfy`, `recompute.dfy`, `seeding.dfy` | cold-start fitting, cross-validation and seeding |
| `writer.dfy`, `sanitize.dfy` | the bounded activity writer and its payload keys |
| `prequeue.dfy`, `resolve.dfy` | pre-queue declarations, validation, and the stored form of a selection |
| `cache.dfy` | the two token-guarded caches |
| `session.dfy` | sliding session cookies |
| `order.dfy`, `reals.dfy`, `rating.dfy`, `common.dfy` | string order and sorting, sums of squares, the rating prior, shared datatypes |

## How to read the models

**Protocols** (`Debounce`, `Provision`, `Presence`, `ActivityWriter`, `TokenCache`) are transition
systems. A label is one critical section, one atomic store write, or one thing the Go runtime does to
a timer. `Next` is total: a label that is not enabled changes nothing, so the interleavings of any
number of goroutines are exactly the sequences of labels, and a lemma about every `seq<Label>` is a
lemma about every interleaving. The objects (`Worker`, `PresenceTracker`, `Store`, `Writer`, `Cache`)
are classes whose methods change fields as the Go methods do, and whose contracts say which steps of
the transition system they take. A timer's index in its pool stands for the Go pointer, which is what
the identity checks compare. Where a method waits, what the rest of the process does meanwhile is a
parameter.

**Arithmetic** is over exact reals. `math.Sqrt` is a parameter assumed only to satisfy `IsSqrt`: a
non-negative root of every non-negative number. Durations are whole nanoseconds, and truncation is
written out where the code truncates.

**Loops** are methods with invariants, proved equal to a recursive function; the lemmas are about that
function.

## Where the code and what is said of it differ

- `Shutdown` is documented to stop all pending timers (`worker.go:117`). A provision-retry callback
  deletes by session id without checking which timer is mapped, so a newer retry can be orphaned; it
  outlives `Shutdown` exactly if it has not fired by then: `Provision.ShutdownStopsAllExactly`,
  `Provision.ShutdownMissesAnOrphan`.
- A transient provision failure schedules a retry and returns nil, and `ProvisionNow` then clears the
  session. Undisturbed that stops the retry, and the backoff never climbs on that path. The retry
  survives only if it fires before the clear or another retry's callback orphans it:
  `Provision.DeferredRetryIsLost`, `Provision.DeferredRetrySurvives`.
- A slow arm or cancel left over from an earlier edge stops the windows of the disconnect now standing.
  No removal happens too early, but this one never takes effect from the tracker:
  `Presence.LostExactly`, `Presence.StaleArmLosesTheStandingWindows`.
- `constants.go:53-54` says the band and the cap reject different lobbies. With these constants the
  band rejects nothing the cap accepts: `Dispersion.BandTestRedundant`.
- `writer.go:185-187` says arrivals after `Close` are not waited for. They are, while the queue does not
  run empty: `ActivityWriter.DrainHeldOpenAfterClose`. `ActivityWriter.HandedOverExactly` says which
  events are handed over, `ActivityWriter.DrainBounded` how long that takes.
- Without a database the writer counts what it hands over neither as written nor as dropped:
  `ActivityWriter.Conservation`.
- `sanitize.go:73-75` says snake_case, kebab-case and camelCase keys reduce to the same tokens. Camel
  case does so exactly under the condition of `PayloadKeys.CamelRoundTripExactly`, and an acronym in
  capitals runs into the next word: `PayloadKeys.AcronymMerges`, `PayloadKeys.AcronymEscapes`.
- `validate.go:150` says the same picks always store as the same JSON. An optional group answered
  with nothing is stored, and one left out is not: `StoredSelections.EmptyPickShows`;
  `StoredSelections.CanonicalExactly` says when two forms agree.
- `cookie.go:97-98` calls `SESSION_TTL` the single source of truth. The cookie's age is seven days
  whatever it says, so a session configured longer can lapse on an active player, and so can one under two
  seconds: `SlidingSession.ReliableExactly`, `SlidingSession.SevenDays`.

## Model

| member | source | states |
|---|---|---|
| Debounce.InvAlways | backend/internal/formingworker/worker.go:100-175 | in every interleaving the map holds only wanted timers, every armed timer is the map's for its queue (so at most one is), and `running[q]` is the number of callbacks between `beginRunLocked` and `endRun`, with no zero entries |
| Debounce.DrainSafety | backend/internal/formingworker/worker.go:72-98 | when the drain finds `running[q]` at zero, after any interleaving during its wait, nothing of `q` is in flight and no timer made before it can begin a run then or ever after, fired or not |
| Debounce.ShutdownSafety | backend/internal/formingworker/worker.go:117-138 | the same for `Shutdown` and every queue at once |
| Debounce.NoLostWakeup | backend/internal/formingworker/worker.go:141-175 | after `Schedule(q)`, until a run of `q` begins or a drain or shutdown clears it, a timer no older than that call is armed or waiting for the lock |
| Debounce.RunEnds | backend/internal/formingworker/worker.go:105-115 | a run that ends is one fewer of its queue and of no other, and the queue's entry goes with the last |
| Debounce.WakeupRuns | backend/internal/formingworker/worker.go:153-168 | letting a pending wake-up fire and take the lock begins exactly one more run |
| FormingWorker.Worker.Schedule | backend/internal/formingworker/worker.go:141-175 | stops the superseded timer and maps a new one: the `Schedule` step |
| FormingWorker.Worker.Callback | backend/internal/formingworker/worker.go:153-166 | wanted exactly when the map still holds this very timer, and then marked running in the same critical section |
| FormingWorker.Worker.EndRun | backend/internal/formingworker/worker.go:105-115 | the counted decrement, dropping the entry at one |
| FormingWorker.Worker.DrainPending | backend/internal/formingworker/worker.go:72-98 | returns nil at the first look that finds nothing running, an error only when the waits end with a run in flight, and reaches exactly the state of its steps interleaved with the others' |
| FormingWorker.Worker.Shutdown | backend/internal/formingworker/worker.go:117-138 | stops what both maps hold, then waits until no run is in flight |
| FormingWorker.Worker.ScheduleProvisionRetry | backend/internal/formingworker/worker.go:178-212 | arms the next rung of the ladder in place of the timer before it |
| FormingWorker.Worker.ClearProvisionRetry | backend/internal/formingworker/worker.go:215-226 | forgets the attempts and stops the mapped timer |
| FormingWorker.Worker.RetryCallback | backend/internal/formingworker/worker.go:194-197 | deletes by session id, whichever timer the map holds by then |
| FormingWorker.Worker.ProvisionNow | backend/internal/formingworker/worker.go:229-253 | goes through the critical sections of its outcome, whatever other goroutines do before the last of them, and fails exactly when the store or the hook did |
| Provision.TrackedExactly | backend/internal/formingworker/worker.go:190-204 | a step breaks "every armed retry timer can still be stopped" exactly when it is a callback that meets a newer armed timer |
| Provision.TrackedAlways | backend/internal/formingworker/worker.go:178-226 | over any run without such a callback every armed retry stays stoppable |
| Provision.Fate | backend/internal/formingworker/worker.go:178-226 | over any run an armed retry timer has escaped to its callback exactly if it fired, and is armed out of the map's reach exactly if it did not and some step orphaned it or it was out of reach before |
| Provision.ShutdownStopsAllExactly | backend/internal/formingworker/worker.go:117-138 | for every run from the start: `Shutdown` leaves some retry timer armed if and only if a step of the run orphaned a timer that has not fired since |
| Provision.ShutdownMissesAnOrphan | backend/internal/formingworker/worker.go:190-204 | a five-step run after which a retry timer outlives `Shutdown` |
| Provision.RetryPendingExactly | backend/internal/formingworker/worker.go:229-253 | whatever interleaves, a retry is pending when a `ProvisionNow` returns exactly when the hook returned an error, or the store did and one is pending anyway, so that an error other than the store's means a retry; and the attempt count, which a hook that cleared the retry before failing has started over |
| Provision.PendingRetryRuns | backend/internal/formingworker/worker.go:229-253 | whatever interleaves, a retry pending when `ProvisionNow` is called still runs exactly if it fires while the store or the hook is busy and the hook had not begun by clearing or replacing it |
| Provision.DeferredRetryIsLost | backend/graph/forming_reconcile.go:104-113 | from every state and whatever runs before `ProvisionNow` clears the session: the retry a transient failure schedules has escaped to its callback iff it fired, is still armed iff a callback orphaned it and it did not fire, and is stopped otherwise; the attempt count restarts in any case |
| Provision.DeferredRetrySurvives | backend/internal/formingworker/worker.go:190-204 | a run in which an older retry's callback comes in between and the deferred retry survives, armed and unmapped |
| Provision.LadderClimbs | backend/internal/formingworker/worker.go:178-212 | in every run, as long as nothing resets the session, the call after k others arms and maps a timer with the delay of attempt k counted from where the session stood |
| Provision.LadderSpan | backend/internal/formingworker/provision_backoff.go:6-21 | the first five delays come to 0.1, 0.6, 2.6, 7.6 and 22.6 seconds, and every further one adds thirty |
| Provision.LadderNeverEases | backend/internal/formingworker/provision_backoff.go:6-21 | of two rungs of a climb the later never has the shorter delay, and from the sixth on it is thirty seconds |
| Presence.BooksAlways | backend/graph/queue_presence.go:229-292 | in every reachable state `pending` counts the callbacks still to decrement, is positive while mapped, and every unfired unstopped window is in a mapped set |
| Presence.CancelLeavesNoneLive | backend/graph/queue_presence.go:274-292 | after a cancel no window of the player is live |
| Presence.RegisteredAlways | backend/graph/queue_presence.go:229-271 | in every reachable state each set has one window per registered expiry, with that expiry's grace |
| Presence.ArmsEveryWindow | backend/graph/queue_presence.go:229-271 | an arm maps one new set for the user, with every registered window live at its own grace |
| Presence.LastCallbackExactly | backend/graph/queue_presence.go:252-261 | a callback removes an entry exactly when it is the last of the set mapped now, so an older set never removes a newer one and a mapped set always has a callback to come |
| Presence.GraceSafety | backend/graph/queue_presence.go:155-271 | in every interleaving, arm-after-cancel races included, a removing expiry takes effect only if the last socket closed at the very stamp it was armed with, none has been open since, and the grace registered for that expiry has passed since the arming |
| Presence.StandingWindowActs | backend/graph/queue_presence.go:229-271 | in every run a live window of the standing disconnect does act, once its own grace has passed and its callback has run |
| Presence.AtMostOncePerStamp | backend/graph/queue_presence.go:222-271 | no two removals of a run are for one window of one stamp of one user |
| Presence.LostExactly | backend/graph/queue_presence.go:229-292 | a step stops a window of the standing disconnect exactly when it is a leftover arm or cancel of an earlier edge running after the standing one was armed |
| Presence.StandingExactly | backend/internal/store/queue_disconnect.go:98-119 | in every run the store's guard holds for a stamp exactly when the user's last socket closed at it and none has been open since |
| Presence.SocketCount | backend/internal/store/presence.go:26-87 | in every run a row's count is the sockets opened less those closed |
| Presence.EdgesOwe | backend/graph/queue_presence.go:155-220 | only the first socket owes a cancel and only the close of the last an arm, for the stamp it wrote, and a call whose store reported an error owes nothing |
| Presence.StaleArmLosesTheStandingWindows | backend/graph/queue_presence.go:186-271 | a run in which that happens, after which in no continuation does a removal for the standing disconnect take effect |
| PresenceTracking.Store.Connected | backend/internal/store/presence.go:26-42 | one socket more and no stamp; the edge is 0 to 1 |
| PresenceTracking.Store.Disconnected | backend/internal/store/presence.go:50-87 | one socket fewer, never below zero; the stamp is written when the count reaches zero and kept if one stands; the edge is 1 to 0 |
| PresenceTracking.Store.Evictable | backend/internal/store/queue_disconnect.go:89-119 | acts exactly for the expiries that take effect in the protocol, and over every run leading to these rows exactly when the user's last socket closed at the stamp and none has been open since |
| PresenceTracking.PresenceTracker.StopLocked | backend/graph/queue_presence.go:274-283 | every armed window of the mapped set stopped, the entry gone, the rest untouched |
| PresenceTracking.PresenceTracker.ArmTimer | backend/graph/queue_presence.go:229-271 | one live window per registered expiry with a handler, each with its own expiry's grace, in place of the set before it |
| PresenceTracking.PresenceTracker.Callback | backend/graph/queue_presence.go:252-261 | the decrement and the identity-checked delete |
| PresenceTracking.PresenceTracker.Track | backend/graph/queue_presence.go:155-184 | cancels on the first socket's edge only |
| PresenceTracking.PresenceTracker.Release | backend/graph/queue_presence.go:186-220 | arms on the last socket's edge only, for the stamp the store wrote |
| Dispersion.Of | backend/internal/dispersion/spread.go:26-47 | the loops compute the population standard deviation and the range |
| Dispersion.DeviationExactly | backend/internal/dispersion/spread.go:26-47 | the deviation is the population's: its square times the number of players is the sum of squared distances from the mean |
| Dispersion.WidestGap | backend/internal/dispersion/spread.go:26-47 | the range is a gap two players have, and no two are further apart |
| Dispersion.Popoviciu | backend/internal/dispersion/spread.go:26-47 | four times the variance of ratings in an interval is at most its squared width |
| Dispersion.SdAtMostHalfRange | backend/internal/dispersion/spread.go:26-47 | for every lobby the standard deviation is at most half the range |
| Dispersion.TwoSeats | backend/internal/dispersion/spread.go:26-47 | the bound is met: any two players deviate by exactly half the gap between them |
| Dispersion.BandBounds | backend/internal/dispersion/band.go:38-57 | the band is never below `Beta` nor above the population spread |
| Dispersion.BandExactly | backend/internal/dispersion/band.go:38-57 | the whole population spread without arrivals, without budget or while no more are expected than wanted, and otherwise k in the number expected of it, down to `Beta` and no further |
| Dispersion.BandOrder | backend/internal/dispersion/band.go:38-57 | the band opens as arrivals thin out, the budget runs down or more candidates are wanted |
| Dispersion.BandTestRedundant | backend/internal/dispersion/constants.go:51-57 | for every lobby, arrival rate, budget and k, `Acceptable(Band(...))` holds exactly when the range is within `HardCap` |
| Dispersion.FireMonotone | backend/internal/dispersion/decide.go:74-106 | firing survives any longer wait, lower arrival rate, larger lobby and pointwise smaller spread, all at once |
| Dispersion.NeededExactly | backend/internal/dispersion/decide.go:90-95 | the candidates wanted take as long as k arrivals at the rate do, to the nanosecond, or a tick if that is less |
| Dispersion.ReasonsExactly | backend/internal/dispersion/decide.go:74-106 | each outcome and the reason reported with it, exactly when, in terms of the oldest wait, the rate, the arrivals the budget pays for and the spread |
| Dispersion.WaitsExactly | backend/internal/dispersion/decide.go:74-106 | on measured lobbies a full map waits exactly when matching is on, the budget is at least a tick and longer than k arrivals at this rate take, and the range is past the cap |
| Dispersion.MeasureOldestWait | backend/internal/store/forming_skill.go:106-114 | the loop over the waiting players |
| Dispersion.OldestWaitCovers | backend/internal/store/forming_skill.go:92-114 | no waiting player has waited longer |
| Dispersion.OldestWaitAttained | backend/internal/store/forming_skill.go:106-114 | the oldest wait is some waiting player's own, or zero |
| Dispersion.DeferralWithinCeiling | backend/internal/dispersion/decide.go:74-106 | a map is held only while every waiting player has a tick of the ceiling left |
| Dispersion.DeferralsBounded | backend/internal/dispersion/constants.go:33-48 | over any run of solves a tick or more apart one waiting player sees at most `TCeiling / Tick` deferrals |
| Dispersion.DeferralBoundMet | backend/internal/dispersion/constants.go:33-48 | and two players too far apart are held exactly that often |
| PairMoments.ComputeMoments | backend/internal/coldstart/fit.go:165-202 | the two loops compute means, population spreads and Pearson's correlation, or nothing without two players or without spread |
| PairMoments.NoMomentsExactly | backend/internal/coldstart/fit.go:161-202 | no moments exactly with fewer than two players or with all of them at one rating in one of the modes |
| PairMoments.MomentsExactly | backend/internal/coldstart/fit.go:165-202 | n times each mean is the sum and n times each squared spread the scatter; the squared correlation times both scatters is the squared co-scatter, and its sign is the co-scatter's |
| PairMoments.CorrelationBounded | backend/internal/coldstart/fit.go:186-202 | a measured correlation is within one in size, and both spreads are positive |
| PairMoments.MomentsSwapped | backend/internal/coldstart/fit.go:165-202 | measured the other way round the correlation is the same and the modes' own moments change places |
| ErrorSummary.ComputeRms | backend/internal/coldstart/fit.go:206-215 | the loop computes the root mean square, zero for no errors |
| ErrorSummary.ComputeMean | backend/internal/coldstart/fit.go:217-226 | the loop computes the mean |
| ErrorSummary.ComputeAbsQuantile | backend/internal/coldstart/fit.go:232-250 | nearest rank in the sorted absolute errors, clamped |
| ErrorSummary.QuantileOrder | backend/internal/coldstart/fit.go:228-250 | a higher quantile is never smaller, so `AbsErrorP50 <= AbsErrorP90` |
| ErrorSummary.QuantileIsAnError | backend/internal/coldstart/fit.go:228-250 | a reported quantile is some player's own error |
| ErrorSummary.ResidualSplits | backend/internal/coldstart/fit.go:95-97 | `ResidualSD^2` is the errors' variance plus `Bias^2`, so `|Bias| <= ResidualSD` |
| ErrorSummary.TailWeighsOnResidual | backend/internal/coldstart/fit.go:95-99 | the players from a quantile up, each as wrong as it, fit inside n residual squares |
| ErrorSummary.ReportedRanks | backend/internal/coldstart/fit.go:98-99 | the two reported ranks are ceil(n/2) and ceil(9n/10) |
| CrossValidation.HeldOutErrors | backend/internal/coldstart/fit.go:113-152 | the fold loop, against its specification |
| CrossValidation.ErrorsAligned | backend/internal/coldstart/fit.go:103-152 | position by position both error lists are about the same player, the seeding error in terms of the moments of everyone outside that player's fold |
| CrossValidation.HeldOutExactly | backend/internal/coldstart/fit.go:113-152 | every held-out error is that of predicting its player, by the least-squares line with caution above the mean, from the moments of everyone outside the player's fold and nothing else |
| CrossValidation.HeldOutIgnoresFull | backend/internal/coldstart/fit.go:103-152 | the errors are the same for any two rows fitted over the whole population |
| CrossValidation.PredictionBlind | backend/internal/coldstart/fit.go:114-147 | replacing a player's target rating changes that player's held-out error by exactly the difference: their prediction never saw it |
| CrossValidation.ScoredOnce | backend/internal/coldstart/fit.go:113-152 | a player is scored exactly once if their fold has moments and never otherwise |
| CrossValidation.AllScored | backend/internal/coldstart/fit.go:113-152 | with moments in every fold the whole population is scored, each player once |
| CrossValidation.NeverTrainsOwnFold | backend/internal/coldstart/fit.go:114-127 | nothing about a player reaches the training set of their own fold |
| CrossValidation.FoldSplits | backend/internal/coldstart/fit.go:114-122 | each fold's training and test sets together are the population |
| CrossValidation.FoldSizes | backend/internal/coldstart/fit.go:114-122 | the folds are dealt in turn over the sorted keys: every fifth player from the f-th on, so sizes differ by one at most |
| CrossValidation.Fit | backend/internal/coldstart/fit.go:63-101 | the struct filled step by step, against its specification |
| CrossValidation.FitExactly | backend/internal/coldstart/fit.go:63-101 | what a row reports, number by number: the moments of all its players, and root mean squares, bias and quantiles of the held-out errors of those scored; zeroes where nothing could be measured |
| CrossValidation.FitOrderFree | backend/internal/coldstart/fit.go:70-71 | permuting players with distinct keys leaves the fit unchanged |
| CrossValidation.FitCoherent | backend/internal/coldstart/fit.go:35-101 | every row has a correlation within one, a bias within the residual, ordered quantiles, its own labels and the player count |
| CrossValidation.FitSwapped | backend/internal/coldstart/fit.go:63-101 | the other direction reports the same players and correlation, with the modes' moments exchanged |
| Recompute.PairedObservations | backend/internal/coldstart/recompute.go:171-186 | the shared players in key order, whatever order the map is walked in |
| Recompute.ByModeExactly | backend/internal/coldstart/recompute.go:134-141 | a mode is grouped exactly when somebody holds a rating in it, a player in it exactly when that player does |
| Recompute.LastRatingCounts | backend/internal/coldstart/recompute.go:134-141 | of several ratings of one player in one mode the last counts |
| Recompute.FitPairs | backend/internal/coldstart/recompute.go:134-163 | the loops over sorted modes, against their specification |
| Recompute.PairsExactly | backend/internal/coldstart/recompute.go:134-163 | a row for an ordered pair exactly when the two modes are different and share a player, each once, in mode order, holding that pair's fit |
| Recompute.PairsSymmetric | backend/internal/coldstart/recompute.go:117-163 | (a,b) is measured exactly when (b,a) is, with the same players and the same correlation |
| Seeding.PredictMonotone | backend/internal/coldstart/coldstart.go:305-311 | a better source rating never seeds lower |
| Seeding.RegressionExactly | backend/internal/coldstart/coldstart.go:292-311 | before caution a player stands, in target spreads from the target mean, the correlation times where they stand in source spreads from the source mean |
| Seeding.CautionOnlyUpward | backend/internal/coldstart/coldstart.go:303-311 | never above the regression, equal to it exactly up to the mean, and above the mean four fifths of the way up |
| Seeding.SeedSigmaRange | backend/internal/coldstart/coldstart.go:313-324 | the sigma is in `[UnratedSigma/2, UnratedSigma]`, is the residual exactly when that is in this range, and for a usable pair is below the prior's and at least the residual |
| Seeding.SeedFor | backend/internal/coldstart/coldstart.go:258-290 | no seed exactly when every source is unsettled or its pair unmeasured, too small, unrelated or no better than the prior, and otherwise one from the least residual, ties to the smallest mode key, reporting that source and pair |
| Seeding.BestUnique | backend/internal/coldstart/coldstart.go:243-250 | with one rating per mode that source does not depend on the order of the sources |
| ActivityWriter.PrepareClean | backend/internal/activity/writer.go:100-121 | what the caller said is kept, what it left out is filled in, and of the payload exactly the allowed keys go on |
| ActivityWriter.RecordExactly | backend/internal/activity/writer.go:100-123 | in every run a typed event is dropped exactly when 4096 are queued, and is otherwise the next accepted; nothing in hand or handed over changes |
| ActivityWriter.Conservation | backend/internal/activity/writer.go:100-304 | in every interleaving, typed `Record` calls = dropped + written + queued + in hand, if and only if there is a database or nothing has been handed over |
| ActivityWriter.OrderKept | backend/internal/activity/writer.go:160-304 | accepted events are, in order, those handed over, those in the batch and those queued; what is stored is a subsequence as long as the counter says, encodable and free of forbidden keys |
| ActivityWriter.StoredExactly | backend/internal/activity/writer.go:209-304 | in every run in which no insert fails, what is stored is exactly the encodable events of the finished batches, in order |
| ActivityWriter.Bounded | backend/internal/activity/writer.go:160-202 | batch and queue never exceed their sizes, and the goroutine returns only with an empty batch after `Close` |
| ActivityWriter.ReceiveExactly | backend/internal/activity/writer.go:177-181 | a received event is the oldest queued; it joins the batch, which is handed over as the sixty-fourth joins and not before |
| ActivityWriter.TickFlushes | backend/internal/activity/writer.go:182-183 | from every state that keeps the invariant, a tick taken while waiting hands over the whole batch in hand, however small, so that all that is undelivered is queued |
| ActivityWriter.ReceivedByTick | backend/internal/activity/writer.go:174-183 | in every run, what had been received by any step has been handed over by the first tick taken after it while the goroutine is not draining, and then only the queue is undelivered |
| ActivityWriter.LeavesEmpty | backend/internal/activity/writer.go:184-200 | the way out starts with an empty queue observed, everything accepted by then handed over |
| ActivityWriter.CloseDrains | backend/internal/activity/writer.go:148-202 | once the goroutine has returned, every event accepted before `Close` has been handed to `writeBatch` |
| ActivityWriter.HandedOverExactly | backend/internal/activity/writer.go:184-200 | of all events, recorded before `Close` or after, exactly those accepted before the queue was last observed empty are handed over, and nothing is afterwards |
| ActivityWriter.DrainHeldOpenAfterClose | backend/internal/activity/writer.go:184-200 | for every n there is a run in which n events recorded after `Close` are all received, the queue is empty again and the drain still goes on |
| ActivityWriter.DrainBounded | backend/internal/activity/writer.go:184-200 | with a given number of new arrivals the drain takes a bounded number of steps, and until it has returned it can always take one |
| ActivityWriter.WriteRun | backend/internal/activity/writer.go:209-304 | a whole `writeBatch` drops the unencodable events one by one and writes or drops all the others together |
| ActivityWriter.Writer.Record | backend/internal/activity/writer.go:100-123 | source, time and payload filled in, then queued, or dropped and counted when the buffer is full |
| ActivityWriter.Writer.WriteBatch | backend/internal/activity/writer.go:209-304 | the loop and the insert, by what they count |
| ActivityWriter.Writer.Take | backend/internal/activity/writer.go:174-200 | one arrival or one arm of the `select`, with the write it leads to: the labels of that turn, and after the ticker's arm an empty batch, all of it handed over |
| ActivityWriter.Writer.Run | backend/internal/activity/writer.go:160-202 | under every script of arrivals and selected arms the goroutine goes through one of the interleavings above |
| PayloadKeys.PayloadKeyTokens | backend/internal/activity/sanitize.go:76-104 | the loop over the runes, against its specification |
| PayloadKeys.TokensAreContent | backend/internal/activity/sanitize.go:73-104 | tokens are non-empty lowercase letters and digits, together exactly those of the key, lowercased |
| PayloadKeys.SeparatorSplits | backend/internal/activity/sanitize.go:90-101 | for any two strings and any character between them that is no ASCII letter or digit, the tokens are those of the first and then those of the second |
| PayloadKeys.CapitalSplits | backend/internal/activity/sanitize.go:92-96 | the same where the second string starts with a capital and the first ends in anything else |
| PayloadKeys.GapRoundTrip | backend/internal/activity/sanitize.go:73-104 | any tokens joined by any runs of separators, kebab-case, dotted or spaced, split into themselves again |
| PayloadKeys.JoinRoundTrip | backend/internal/activity/sanitize.go:73-104 | any tokens joined with underscores split into themselves again |
| PayloadKeys.ForbiddenPayloadKey | backend/internal/activity/sanitize.go:64-71 | the search finds a listed token exactly when there is one |
| PayloadKeys.ForbiddenOnNormalForm | backend/internal/activity/sanitize.go:64-104 | a key is forbidden exactly when its snake_case form is, and that form is its own |
| PayloadKeys.ForbiddenBySeparator | backend/internal/activity/sanitize.go:64-71 | a key is forbidden exactly when what stands on one side of any separator in it is |
| PayloadKeys.CamelRoundTripExactly | backend/internal/activity/sanitize.go:73-75 | a camelCase key splits into its words if and only if every word after the first starts with a letter and no single-letter one stands before another |
| PayloadKeys.AcronymMerges | backend/internal/activity/sanitize.go:92-96 | whatever follows an acronym in capitals runs into it, for every acronym and word |
| PayloadKeys.AcronymEscapes | backend/internal/activity/sanitize.go:13-36 | when such a key is forbidden, against when its snake_case spelling is; `IPAddress` is not |
| PayloadKeys.SanitizePayload | backend/internal/activity/sanitize.go:45-61 | the loop in any map order |
| PayloadKeys.SanitizedExactly | backend/internal/activity/sanitize.go:38-61 | exactly the allowed keys survive with their values, never as an empty map, and cleaning twice is cleaning once |
| PreQueue.Parse | backend/internal/prequeue/declaration.go:53-99 | accepts exactly the blocks whose normalised groups are well formed and returns those; an error names the first group at fault and a fault it has |
| PreQueue.ReadGroup | backend/internal/prequeue/declaration.go:66-96 | one group normalised and checked against the keys before it |
| PreQueue.NormalsOfWellFormed | backend/internal/prequeue/declaration.go:65-97 | normalising a declaration a second time changes nothing |
| PreQueue.TrimExactly | backend/internal/prequeue/declaration.go:68-69 | trimming takes white space off both ends and nothing else |
| PreQueue.ValidateDeclared | backend/internal/prequeue/validate.go:88-137 | no refusal exactly when the declaration allows the selections; a refusal is true, the first there is, and every selection before it was in order |
| PreQueue.Validate | backend/internal/prequeue/validate.go:39-74 | no refusal exactly when, besides, the roster offers every pick unlocked; a refusal is true |
| StoredSelections.Resolve | backend/internal/prequeue/validate.go:153-192 | the loops, against their specification |
| StoredSelections.CanonicalExactly | backend/internal/prequeue/validate.go:146-192 | two allowed selections are stored alike if and only if they answer the same groups with the same picks |
| StoredSelections.ReorderedAlike | backend/internal/prequeue/validate.go:146-152 | reordering selections or ids and changing captions keeps a selection allowed and its stored form the same |
| StoredSelections.EntriesExactly | backend/internal/prequeue/validate.go:172-190 | the stored entries are the chosen declared groups, with their picks and the captions the roster gives |
| StoredSelections.EntriesInOrder | backend/internal/prequeue/validate.go:172-190 | the k-th entry is that of the k-th chosen group in declaration order, with its picks and beside every id that id's own caption |
| Order.LessExactly | backend/internal/prequeue/validate.go:165-171 | the sorted order: one string is before another exactly when, up to some place, they agree, and there it ends or has the smaller character |
| StoredSelections.CaptionsFromRoster | backend/internal/prequeue/validate.go:154-189 | a served choice is captioned with the game's own title unless it is blank, anything else with its id; nothing a client sends is read |
| StoredSelections.CaptionsUnserved | backend/internal/prequeue/validate.go:154-189 | where the game served no such group an id is its own caption |
| StoredSelections.ResolvedKeepsPicks | backend/internal/prequeue/validate.go:153-192 | the stored form answers the same groups with the same picks |
| StoredSelections.ResolvedValid | backend/internal/prequeue/validate.go:153-192 | for a parsed declaration and a valid selection the stored form passes both validations again and resolves to itself |
| StoredSelections.EmptyPickShows | backend/internal/prequeue/validate.go:172-177 | an optional group answered with nothing and one left out are the same picks stored differently |
| TokenCache.AnswersAgree | backend/internal/gameclient/queueoptions_cache.go:43-72 | every answer, hit or miss, was fetched for a request with the caller's own key: its own, or that of the call whose entry it hit |
| TokenCache.OneEvictionEach | backend/internal/gameclient/queueoptions_cache.go:58-69 | every entry was fetched for a request with its key, carries the largest token stored for it, and has exactly one eviction pending that can remove it |
| TokenCache.OlderSparesNewer | backend/internal/gameclient/eligibility_cache.go:56-67 | a timer removes an entry only if it is its own and `ttl` old |
| TokenCache.LivesForTtl | backend/internal/gameclient/queueoptions_cache.go:58-69 | for `ttl` after it was stored an entry, or a later one for its key, is there, whatever else runs |
| TokenCache.EvictionComes | backend/internal/gameclient/queueoptions_cache.go:58-69 | in every run, wherever an entry is found, its owner's own timer rids the cache of it within another `ttl` |
| TokenCache.NothingOutlivesItsEviction | backend/internal/gameclient/eligibility_cache.go:56-67 | when every eviction has had its turn the cache is empty |
| TokenCache.PlainKeysApart | backend/internal/gameclient/queueoptions_cache.go:38-40 | ids without a bar give different requests different keys, in both caches |
| TokenCache.BarredKeyShared | backend/internal/gameclient/queueoptions_cache.go:38-40 | a bar in either id and a request for another game or user has the same key, in both caches |
| TokenCache.AnsweredForOwnRequest | backend/internal/gameclient/queueoptions_cache.go:43-72 | where ids are plain every answer was fetched for the very request asked; from the eligibility cache, for the same game and user |
| TokenCache.Cache.Get | backend/internal/gameclient/queueoptions_cache.go:43-72 | a hit is the entry's value, a miss the fetched one, stored under a fresh token with every other entry kept; a failed fetch changes nothing |
| TokenCache.Cache.EvictEntry | backend/internal/gameclient/eligibility_cache.go:61-67 | the token-guarded delete |
| SlidingSession.SlideSessionCookie | backend/internal/auth/cookie.go:99-113 | renews exactly with a response to write, a cookie holding this token, past half-life, and a signature; otherwise the old token is carried |
| SlidingSession.RenewalKeepsLifetime | backend/internal/auth/jwt.go:207-238 | a token minted for another's lifetime has exactly that lifetime, at most a second of which is already gone |
| SlidingSession.LifetimeFixed | backend/internal/auth/cookie.go:90-113 | the lifetime is identical after any number of renewals, with signing failures anywhere |
| SlidingSession.LeftAlone | backend/internal/auth/jwt.go:235-247 | a token is left alone by any number of requests up to half its life, and for good if its lifetime is not positive |
| SlidingSession.NeverLapses | backend/internal/auth/cookie.go:90-113 | requests less than half a lifetime apart each find a token before `exp` and leave at least half the lifetime, for a lifetime between two seconds and the cookie's age |
| SlidingSession.ReliableExactly | backend/internal/auth/cookie.go:90-113 | for every `SESSION_TTL`, whole seconds or not: an active player's session never lapses if and only if it lives at least two seconds and at most as long as the cookie, or is not positive and no player can be active |
| SlidingSession.SevenDays | backend/internal/auth/cookie.go:32-37 | with the fixed seven-day cookie: if and only if the configured lifetime is between two seconds and seven days, or not positive |

## Left out

- Nil receivers, a nil store and a nil broker: each returns at once.
- The periodic sweep: `reconcileAll` calls `ReconcileNow` without marking `running`, so the drain results are about debounced reconciles only.
- What a reconcile or a provision does in the store, all SQL text, rollbacks and publishes; the store appears as a socket count, an edge and a stamp, and as the outcomes of `ProvisionNow`.
- `EvictDisconnectedWaitingEntry` beyond its guard: the queue row's own status and the slots released with it; `ReleaseFormingSlot` on the way to an arm.
- `ResetPresenceOnBoot`, reconnect hooks, and the idempotence of a release, which `sync.Once` gives.
- FormingWorker.Worker.Shutdown: the wait has no deadline in the code; here the waits given may run out, and `done` says whether they did.
- PresenceTracking.PresenceTracker.Track: run without interruption; the races between the store write and the cancel are the subject of `Presence`. The same holds for `Release`.
- TokenCache.Cache.Get: run without interruption; concurrent misses are the subject of the transition system. The wrap-around of the 64-bit token is not modelled.
- ActivityWriter.Writer.Run: each batch is written without interruption; arrivals during a write are in the transition system. The five-second limit of `Close` only bounds its caller's wait and is left out.
- `Spread.Tighter`, `boundsPhrase` and the wording of error messages: single expressions.
- Floating-point rounding, NaN, and the duration conversion's overflow for a vanishing arrival rate.
- The order `sort.Slice` gives tied elements: results about order ask for distinct keys.
- JSON decoding and encoding: a declaration block is absent, undecodable or decoded, and a payload value encodes or does not.
- Map iteration order is any order; the loops over maps are proved for all of them.
- Signatures, key rotation, JWKS, token parsing and tokens without `iat` or `exp`; a token is its times and its id.
- The stamp of a disconnect is the database's clock and the timers run on the process's; here there is one clock, so "its grace has passed" is by that clock.
- The service address and the fallback group a cached fetch also takes: the keys leave them out, and so does the model.
- A browser's clock and the time a response takes to reach it: the cookie is set at the instant of the request.
- Configuration from the environment, the scheduler around `Recomputer`, GraphQL resolvers, HTTP clients, avatars, the frontend, migrations and command-line tools.
