# Webhook delivery: a model of the pipeline and its guarantees

A Dafny model of a fair-drain event delivery system: a provider ingests events and fans them out to subscribers, a
conductor decides which pending deliveries become ready, workers claim, attempt and complete them, a reaper takes back
leases that ran out, and a chart is derived from the resulting rows. One simulation is modelled, with any number of
workers, consumers, deliveries and successive conductors. All instants are virtual seconds, as reals.

`dafny verify dfyconfig.toml` checks the whole project.

## How the model is laid out

| file | models |
|---|---|
| Model.dfy, Sets.dfy | the tables, enumerations and settings; cardinalities and sums |
| Clock.dfy | the derived clock and its rewrites, against an accumulator of running time |
| Policy.dfy | staleness and latest-by-key coalescing: definition, table implementation, and their equivalence |
| Allocator.dfy, Admission.dfy, Dispatch.dfy | the weighted loop, budget, headroom, candidate queries and rationing |
| Lifecycle.dfy | what each transaction does to the tables, as a relation between before and after, and column by column |
| Store.dfy | the tables as mutable state, with the source's loops and statements, each method meeting its relation |
| Machine.dfy | every process as steps of one machine, in any interleaving: a claim is a lock step and a commit step, and a conductor's pass is split at each of its statements |
| Fences.dfy, Runs.dfy | what each transaction, then each step, then each run keeps |
| Caps.dfy, Gate.dfy | the sliding-window caps over whole runs, and the lag of the concurrency gate |
| Lifetimes.dfy, Backoff.dfy, Ledger.dfy, Retirement.dfy, Progress.dfy | retries, leases, backoff, coalescing, conservation, retirement, progress and outages over whole runs |
| Service.dfy | a conductor's pass and a worker's iteration as methods over the store, whose trace is a run of the machine |
| Metrics.dfy, Charts.dfy, Totals.dfy | the cursor writer, the chart over runs with any succession of leaders, and what its columns add up to |
| Series.dfy, EndToEnd.dfy | paging, polling, merging and share windows, and conservation from attempt rows to the chart |
| Overshoot.dfy, Races.dfy, Stall.dfy | complete runs at which the code falls short of its description |

The machine's conductor statements read the tables as they are when each is reached, so a property of every run covers
a pass with claims, completions and ingests committed anywhere inside it. `Service.Conductor.Pass` is the same pass
taken without interruption.

## Where the code is narrower than its description

- **Reopening a finished run.** Status done to running without a new speed is not rebased (`resume` returns early
  unless paused), so the clock jumps by the time spent stopped. `Clock.PatchIsContinuous` gives the exact condition;
  the whole-history clock theorems take done as final.
- **Retiring sets the clock back.** The conductor freezes a run at the instant its pass read, whatever was rewritten
  since, so virtual time steps back by whatever ran in between (`Clock.RetireStepsBack`). The machine's finish step
  does the same, so every theorem over runs covers what comes after; `Machine.Horizon` is the instant that never
  falls.
- **A straggling batch outlives retirement.** The producer tests the script's end when it ticks and commits later. A
  batch ticked in time can land after a pass has read an empty backlog (`Races.RetiredWithWork`), and the run is over
  if and only if nothing landed since that read (`Retirement.RetiredIffNothingAdded`).
- **Chart gaps.** A gap longer than the backfill bound is skipped rather than caught up over several passes, because
  the cursor moves to the end of what was written; likewise a cache left ahead of the table by a rolled-back pass.
  `Metrics.WriteExtendsWhole` is the exact condition, and `Metrics.HolesStay` says the hole is not gone back to.
- **Late commits.** Two buckets of lag make the counters exact if and only if no claim lands on a slot already written
  (`Charts.ChartIsExactIff`), which claims that commit by the bucket after their stamp never do. A later one is lost:
  its attempts, and its expiries, which carry the claim's stamp too (`Charts.CommitAdds`, `Races.LateClaimIsLost`).
- **Coalescing looks at pending and ready rows only.** A retry that comes due after a newer delivery of its
  key has left the queue is not superseded, so an older event can be sent after a newer one
  (`Policies.OlderMayFollowNewer`; `Policies.VerdictMeans` is the exact condition). What holds is that the
  newest delivery of a key is never superseded, and nothing is superseded without a newer one that is kept.
- **The concurrency cap is a gate.** In flight plus ready can pass the cap by one buffer target, less one, plus what
  goes in flight between a pass's gauge read and its ready count; `Overshoot.OneBufferIsNotEnough` is a run that
  reaches two buffer targets.
- **The first-come arm can stall** behind a consumer at its rate cap (`Stall.FirstComeStalls`);
  `Progress.NothingDecidedIff` is the exact condition.
- **A worker whose iteration raises keeps its id and goes on claiming** (app/core/runner.py:191-202), with its batch
  unanswered. The machine lets it; the fences hold because a new claim never names the old attempts.

## Model

| member | source | states |
|---|---|---|
| Clock.PatchIsContinuous | app/api/routes.py:158-189 | A PATCH is refused exactly when its speed is not positive; an accepted one leaves the clock reading the same at its own instant if and only if it does not reopen a finished run at its old speed, or does so at the very instant the run stopped. |
| Clock.RetireStepsBack | app/conductor/service.py:111-126 | A run frozen at the instant its pass read, after any rewrites committed in between, reads that instant, never a later one; and the clock is left where it was if and only if no wall time passed while the run was running between the read and the write. |
| Clock.RunsForward | app/core/clock.py:287-310 | Between rewrites a running clock advances by real time times the speed and any other clock stands still. |
| Clock.AgreeStep | app/core/clock.py:215-284 | Each rewrite keeps the epoch form and a plain accumulator of running time in agreement, and does not move the reading. |
| Clock.ClockIsAnIntegral | app/core/clock.py:204-310 | After any sequence of PATCH requests, and retirements at the instant they are written, at non-decreasing wall times, with done final, the clock reads the sum of running real time times the speed then in force. |
| Clock.ClockNeverGoesBack | app/core/clock.py:215-310 | A reading is never later than one taken after any further such rewrites. |
| Policies.StaleMeans | app/conductor/policy.py:114-130 | An event is stale if and only if a policy row sets a bound and its age is past it; staleness persists as time goes on and holds of every older event of the stream. |
| Policies.NewestByKey | app/conductor/policy.py:198-238 | The table has, for each asked-for key with a pending or ready row, the row of greatest (creation time, id), and no other entry. |
| Policies.TableDecides | app/conductor/policy.py:174-193 | Looking a fresh candidate up in that table decides whether a strictly newer pending or ready row of its key exists. |
| Policies.SplitStale | app/conductor/policy.py:156-172 | The stale candidates are dropped in order, and what survives and what is set aside to coalesce are exactly the fresh and the fresh latest-by-key ones. |
| Policies.Evaluate | app/conductor/policy.py:138-195 | The verdict, over candidates of distinct rows, in the tables' columns: a candidate expires if and only if its stream's policy row has a bound and its age is past it; it is superseded if and only if not, that row asks for latest-by-key, and a pending or ready row of its consumer, type and entity has a greater (created_at, id); and the drops and the kept are in order. |
| Policies.CoalescesMeans | app/conductor/policy.py:171-177 | A stream coalesces if and only if it has a policy row that says so, whether or not that row also sets a bound. |
| Policies.NewerMeans | app/conductor/policy.py:198-238 | What replaces a candidate: a row pending or ready, of its consumer, type and entity, with a later creation time or the same and a greater id. |
| Policies.VerdictMeans | app/conductor/policy.py:138-195 | The same of any verdict the definition allows, and a candidate goes on to rationing if and only if it neither expired nor was superseded. |
| Policies.VerdictLosesNothing | app/conductor/policy.py:138-195 | Admitted, expired and superseded candidates add up to the candidates. |
| Policies.CoalescingKeepsAWinner | app/conductor/policy.py:179-238 | Whenever a candidate is superseded, a newer queued delivery of its key exists that the same pass would neither expire nor supersede. |
| Policies.OlderMayFollowNewer | app/conductor/policy.py:198-238 | A table in which a retry of the older event of a key is admitted while the newer one is already in flight, under latest-by-key. |
| Allocator.PickWinner | app/conductor/admission.py:203-205 | The chosen consumer still has room; any other that has has the greater granted / weight, or the same and the greater id. |
| Allocator.Allocate | app/conductor/admission.py:173-209 | The grants total min(budget, sum of headroom), each within its headroom. Whoever is left wanting, anybody else served was, before its last slot, further behind in granted / weight, or level and of the smaller id. |
| Allocator.LastSlot | app/conductor/admission.py:195-209 | In any fair share, (g_j - 1) / w_j < g_i / w_i, or they are equal and j < i, for i with room left and every other j served. |
| Allocator.EqualWeightsInOrder | app/conductor/admission.py:202-204 | Of two consumers of equal weight, one with room left has at least what a later one has, and one less than an earlier one at worst. |
| Allocator.FairShareIsUnique | app/conductor/admission.py:195-209 | At most one allocation has those properties, so the split depends on neither the order of consumers nor the loop. |
| Allocator.BudgetGrowsBySlots | app/conductor/admission.py:200-208 | One more slot of budget either goes to one consumer, every other grant unchanged, or changes nothing because all are at their headroom. |
| Allocator.Isolation | app/conductor/admission.py:173-209 | A consumer left below its headroom has at least weight x (budget - (n - 1)) / total weight, whatever the others asked for. |
| Allocator.EqualWeightsNeverStarve | app/conductor/admission.py:173-209 | With equal weights and a slot each to give, nobody with headroom is left with nothing. |
| Admission.CapsAreTight | app/conductor/admission.py:98-170 | A rate cap is the largest whole number of attempts the rate allows in a window, the buffer target the smallest whole number reaching the multiple. |
| Admission.RateCapIs | app/conductor/admission.py:110-170 | n attempts fit the cap if and only if n is at most the global rate times the window, and for a consumer its own rate times the window. |
| Admission.BufferTargetIs | app/conductor/admission.py:136-158 | n ready rows reach the buffer target if and only if they reach the multiplier times the sum of the concurrency caps. |
| Admission.DueIs | app/conductor/admission.py:232-236 | Due is every pending row whose next_attempt_at has come, per consumer and overall, and no other row. |
| Admission.WindowIs | app/conductor/admission.py:251-260 | The window is every attempt started at its lower end or later, per consumer and overall, and no other. |
| Admission.GaugesAre | app/conductor/metrics.py:86-108 | The gauges of a consumer are its pending, ready and in-flight rows, in that order. |
| Admission.SlotsAreTight | app/conductor/admission.py:43-58 | n slots are available if and only if n - 1 more ready rows fall short of the multiple of the summed caps and n more attempts stay within the global rate times the window. |
| Admission.HeadroomIsTight | app/conductor/admission.py:89-117 | A consumer has headroom for n if and only if its gate is open or pooled, n are due, and n more attempts stay within its own rate times the window. |
| Admission.Ration | app/conductor/admission.py:325-342 | Survivors are taken first come, first served within each consumer's allowance, stopping only once every slot is gone. |
| Admission.RationStep | app/conductor/admission.py:328-338 | Passing over a full consumer or taking a candidate keeps each consumer at exactly its first few survivors. |
| Admission.FairArmRationsInFull | app/conductor/admission.py:309-342 | On the fair arm every consumer is admitted exactly min(allowance, surviving fetched candidates), its oldest, and the early stop costs nobody. |
| Admission.CountsFitAllowances | app/conductor/admission.py:328-338 | Admissions by consumer stay within the allowances, and reach their total only if everyone reached theirs. |
| Admission.RationEmptyIff | app/conductor/admission.py:325-342 | With slots to give, nothing is admitted if and only if no survivor belongs to a consumer allowed anything. |
| Dispatch.TakeOldest | app/conductor/admission.py:363-380 | Returns the due rows with the earliest due times, as many as asked for or there are, in order, each once and with its own columns. |
| Dispatch.FairCandidates | app/conductor/admission.py:383-428 | Returns for each allowed consumer, in id order, its own oldest due rows up to the largest allowance times the over-fetch, no row twice. |
| Dispatch.FifoCandidates | app/conductor/admission.py:363-380 | Returns the oldest due rows overall, up to the limit, no row twice. |
| Dispatch.FairFetchMeans | app/conductor/admission.py:383-428 | Whatever the fair query brings is a pending row whose time has come, of a consumer allowed something, with that row's own columns. |
| Dispatch.FairFetchLeaves | app/conductor/admission.py:383-428 | A due row of an allowed consumer is left behind only if that consumer's part of the fetch is full, the largest allowance times the over-fetch, of rows due no later. |
| Dispatch.FifoFetchLeaves | app/conductor/admission.py:363-380 | The first-come query leaves a due row behind only if it is full, the slots times the over-fetch, of rows due no later. |
| Dispatch.SetAllowances | app/conductor/admission.py:298-313 | Fair arm: the weighted fair share of the slots within each headroom read from the tables; pooled arm: each consumer up to its own headroom. |
| Dispatch.ReadConsumerStates | app/conductor/admission.py:212-274 | One state for every consumer, column by column: its knobs, its pending rows whose time has come, its attempts since the start of the window, and its gauges. |
| Lifecycle.BackoffDoubles | app/worker/claim.py:358-362 | The backoff starts at the base, doubles with each attempt, and never passes the cap. |
| Lifecycle.IngestMeans | app/api/ingest.py:79-104 | A new delivery has its event's type and entity, is created and due at its event's time, and is pending with every other column empty. |
| Lifecycle.ClaimMeans | app/worker/claim.py:114-241 | A claimed row past its policy's bound expires; any other is in flight, leased to the worker until the claim plus the lease, counted once more, with one open attempt of its consumer by that worker at that instant. |
| Lifecycle.CompletionMeans | app/worker/claim.py:281-355 | A completion moves the row in flight under its worker's lease: ok delivers it, else the retry cap fails it or the backoff requeues it; and it closes its attempt if that has no end. |
| Lifecycle.ReclaimMeans | app/conductor/reaper.py:95-160 | A reclaimed row has an expired lease; it loses it, failed at the retry cap or requeued after its backoff, and its attempt without an end is closed as lease-expired. |
| Lifecycle.DropMeans | app/conductor/policy.py:241-271 | A drop changes the state and the completion time of its row and nothing else. |
| Lifecycle.AdmissionMeans | app/conductor/admission.py:431-444 | An admission changes the state and ready_at of its row and nothing else. |
| Store.SubscribersByType | app/api/ingest.py:107-124 | For each asked-for type, each subscriber exactly once. |
| Store.Store.IngestEvents | app/api/ingest.py:46-104 | Every event is ledgered under the next ids, with its own type and entity, at its own time or now, and each subscriber of each gets exactly one pending delivery, created and due at the event's time; nothing else changes. |
| Store.Store.FanOut | app/api/ingest.py:79-104 | The nested loops leave one delivery for each new event and subscriber and no other. |
| Store.Store.SelectReady | app/worker/claim.py:76-113 | Picks ready rows nobody else holds, as many as asked for or there are; one is left behind only for rows whose ready_at is no later than its own. |
| Store.Store.SplitStale | app/worker/claim.py:162-187 | Partitions the claimed rows by the conductor's own staleness test. |
| Store.Store.Expire | app/worker/claim.py:190-210 | The stale rows, and only they, become expired with a completion time. |
| Store.Store.InsertAttempts | app/worker/claim.py:213-241 | One open attempt for each live row, each under its own id later than every earlier attempt's; attempts already there are untouched. |
| Store.Store.ClaimBatch | app/worker/claim.py:57-159 | The claim transaction: the oldest unlocked ready rows, stale ones expired without an attempt, the others leased, counted and opened, and the batch names each with its new attempt and ordinal. |
| Store.Store.CloseAttempts | app/worker/claim.py:281-306 | Each completion's attempt is closed with its outcome if it was still open, and left alone otherwise. |
| Store.SplitByOutcome | app/worker/claim.py:308-333 | Completions are split into delivered, out of retries and retried, by outcome and attempt number, in order. |
| Store.Store.CompleteBatch | app/worker/claim.py:250-355 | The completion transaction: every attempt and every row moves as its outcome says where its fence holds, and nothing moves where it does not. |
| Store.Store.ReclaimExpiredLeases | app/conductor/reaper.py:66-160 | Every unlocked row in flight whose lease_expires_at lies strictly before now, and no other, leaves flight with its lease cleared, requeued or failed at the retry cap; every attempt at it without an end, and no other, is closed as lease-expired; the two counts are the sizes of those sets. |
| Store.Store.ApplyDrops | app/conductor/policy.py:241-271 | Each condemned row takes its terminal state and a completion time, whatever state it was in; the other rows keep theirs. |
| Store.Store.MarkReady | app/conductor/admission.py:431-444 | The admitted rows, and only they, become ready as of now; the count is how many there were. |
| Store.ClaimWritten | app/worker/claim.py:114-159 | The statements of a claim, taken in order, add up to the claim as one transaction. |
| Store.AnsweredJoin | app/worker/claim.py:338-355 | Updates for disjoint sets of completions commute into the update for their union. |
| Fences.InFlightIffOneOpenAttempt | app/worker/claim.py:281-355 | In sound tables a delivery is in flight if and only if it has an open attempt; it has at most one, by the worker on the lease, and its ordinal is attempt_count. |
| Fences.FencesAgree | app/worker/claim.py:281-355 | For a batch in hand, the attempt fence and the lease fence of a completion accept or reject together; accepted, the worker's attempt number is the row's count. |
| Fences.OneLiveClaim | app/worker/claim.py:264-276 | No delivery is held under two live claims. |
| Fences.DeliveredIffLastOk | app/worker/claim.py:281-345 | A delivery is delivered if and only if its last attempt, and only that one, is recorded ok. |
| Fences.ClaimKeeps | app/worker/claim.py:114-159 | A claim of ready rows keeps the tables sound. |
| Fences.ClaimAddsOne | app/worker/claim.py:213-241 | After a claim a leased row has exactly one more attempt, its last; other rows have what they had. |
| Fences.ClaimIsHeld | app/worker/claim.py:138-159 | What a claim returns, the worker holds. |
| Fences.CompleteKeeps | app/worker/claim.py:250-355 | A completion, late or not, keeps the tables sound. |
| Fences.ReclaimKeeps | app/conductor/reaper.py:66-160 | A sweep keeps the tables sound. |
| Fences.ClaimKeepsOthers | app/worker/claim.py:57-159 | A claim takes nothing from another worker's batch. |
| Fences.CompleteKeepsOthers | app/worker/claim.py:250-355 | Nor does a completion. |
| Fences.ReclaimKeepsHolds | app/conductor/reaper.py:66-160 | What a batch in hand says of its rows stays right across a sweep. |
| Fences.DropsKeep | app/conductor/policy.py:241-271 | Unguarded drops keep the tables sound if they land on pending rows. |
| Fences.MarksKeep | app/conductor/admission.py:431-444 | Unguarded admissions keep the tables sound if they land on pending rows. |
| Fences.IngestKeeps | app/api/ingest.py:46-104 | An ingest keeps the tables sound. |
| Machine.TimeGoesForward | app/core/clock.py:287-310 | Wall time moves the clock forward; the one step that moves it back is a retirement, to the instant its pass read; the earliest instant the clock can still be made to read never falls. |
| Machine.PassTurns | app/core/scenario.py:87-113 | Past its gauges a pass can retire the run if and only if 1800 s have gone by, or 900 s have and the backlog is zero; it can go on to admit if and only if not, and it is outside 120 to 420 s or overridden. |
| Machine.BacklogIs | app/conductor/metrics.py:106-108 | The backlog over the gauges is the number of rows pending, ready or in flight. |
| Runs.FetchedAreDue | app/conductor/admission.py:345-428 | Every fetched candidate is pending, due, and carries its row's own columns. |
| Runs.DecideStep | app/conductor/service.py:172-183 | What a pass decides to drop and to admit are disjoint sets of rows still pending, and whatever it supersedes has a newer queued row of its key. |
| Runs.DropStep | app/conductor/policy.py:241-271 | With anything committed since the decision, the unguarded drop still changes pending rows only. |
| Runs.AdmitStep | app/conductor/admission.py:431-444 | With anything committed since the decision, the unguarded admission still changes pending rows only. |
| Runs.CommitStep | app/worker/claim.py:76-159 | A claim commits on rows only it had locked, and moves no pending row. |
| Runs.NextKeepsInv | app/conductor/service.py:132-207 | Every step of ingest, workers, conductor and clock keeps the fences, the disjoint locks, and the pass's ownership of the rows it is about to write. |
| Runs.RunKeepsInv | app/conductor/service.py:132-207 | So every reachable state has them, whatever is committed between the statements of a pass. |
| Runs.HorizonNeverFalls | app/conductor/service.py:111-126 | Through any run, retirements included, the earliest instant the clock can still read never falls. |
| Runs.FencesInEveryState | app/worker/claim.py:281-355 | In every state of every run a delivery is in flight if and only if it has an open attempt, at most one, by the worker on the lease and numbered attempt_count; and it is delivered if and only if its last attempt, and only that one, is ok. |
| Runs.ClaimsInEveryState | app/worker/claim.py:264-306 | In every state of every run, for every claim in any worker's hands, the attempt fence and the lease fence agree, an open one carries the row's own count, and no two claims hold one delivery's open attempt. |
| Caps.ClaimSpends | app/worker/claim.py:57-159 | A claim starts no more attempts than the ready rows it takes out of the buffer, all at the stamp of its lock. |
| Caps.PassStillFits | app/conductor/service.py:159-196 | Nothing committed between the statements of a pass makes what it has read an underestimate: ready rows are read before attempts. |
| Caps.AllowanceFits | app/conductor/admission.py:89-117 | A positive allowance on either arm fits the consumer's rate cap over what the pass read, and on the fair arm its concurrency gate was open. |
| Caps.CommitSpan | app/worker/claim.py:57-159 | A commit turns locked rows into starts carrying the lock's stamp, never more of them. |
| Caps.NextKeepsRate | app/conductor/service.py:159-196 | Every step keeps the caps and the pass's claim to room under them. |
| Caps.RateCapsHold | app/conductor/admission.py:114-170 | In every state of every run, on either arm and under any toggling: in any window of the fairness length, wherever it ends, no more attempts have started than the global rate times the window, and for each consumer than its own rate times the window. |
| Caps.LoadsFit | app/conductor/admission.py:114-170 | In every state of every run the starts of the present window and the ready rows together stay within the same products, overall and for each consumer. |
| Caps.BufferFits | app/conductor/admission.py:136-158 | In every state of every run one ready row fewer falls short of the multiplier times the summed concurrency caps, or there is none. |
| Caps.ScopesStayCapped | app/conductor/admission.py:114-170 | The three of them in terms of the caps and the target, for any scope. |
| Gate.GateLagIsBounded | app/conductor/admission.py:89-117 | While fair drain stays on, in flight plus ready of each consumer stays within cap - 1 + buffer target + the most of its rows that went in flight, on balance, between any pass's gauge read and its ready count. |
| Gate.GateLagIsTwoBuffers | app/conductor/admission.py:89-117 | Hence within cap - 1 plus two buffer targets in every fair run. |
| Gate.NextKeepsGate | app/conductor/admission.py:98-117 | Every step keeps that bound and the room the pass counts on under it. |
| Overshoot.OneBufferIsNotEnough | app/conductor/admission.py:98-117 | A concrete fair run that ends at cap - 1 plus two buffer targets, so one buffer target is not a bound for every run. |
| Progress.FairPassesProgress | app/conductor/admission.py:301-342 | In any run, a fair pass surveyed with headroom anywhere allows somebody something, and one that decides admits or drops at least one delivery, whatever policy condemns. |
| Progress.SomeoneIsAllowed | app/conductor/admission.py:195-209 | With a slot to give and somebody with room, somebody is given one. |
| Progress.NothingDecidedIff | app/conductor/admission.py:301-342 | With slots to give, on either arm, a decision comes to nothing if and only if no candidate is condemned and none belongs to a consumer allowed anything. |
| Stall.FirstComeStalls | app/conductor/admission.py:363-380 | A run of the first-come arm whose pass decides nothing while a consumer allowed a slot has a due row behind what was fetched. |
| Progress.OutageStopsAdmission | app/conductor/service.py:174-180 | A pass that drops or admits began outside the outage, by the script's times or by an override. |
| Lifetimes.NextMoves | app/worker/claim.py:306-355 | Every step moves a delivery only along its lifecycle; the worker's cap test on its own number and the reaper's on the row's count decide alike. |
| Lifetimes.SettledForGood | app/conductor/policy.py:241-271 | A terminal row is never written again, in any run. |
| Lifetimes.RetriesRunOut | app/worker/claim.py:306-322 | In every state of every run a delivery has exactly attempt_count attempts, at most max_attempts, and has moved at most three times for each it may have. |
| Lifetimes.ReclaimLeases | app/conductor/reaper.py:81-91 | The reaper closes an attempt only strictly after its start plus the lease. |
| Lifetimes.LeaseProtectsCompletion | app/conductor/reaper.py:81-91 | A completion no later than claim plus lease always takes full effect on the attempt and the row, for any pauses, resumes and speed changes between. |
| Backoff.NewAttemptIsSpaced | app/worker/claim.py:347-355 | An attempt opened on a row that came due starts after the last attempt at it ended and its backoff passed, and after every earlier one ended. |
| Backoff.SpacedThroughout | app/worker/claim.py:347-355 | Where attempts end after they start, spacing between successive attempts is spacing between any two. |
| Backoff.RetriesWait | app/worker/claim.py:322-362 | In every state of every run, of two attempts at a delivery the earlier has ended; the next starts once the backoff for its ordinal has passed, whether worker or reaper ended it; and so, until a retirement sets the clock back, does every later one. |
| Ledger.RunKeepsCoalesced | app/conductor/policy.py:179-193 | In every run each superseded delivery has a strictly newer sibling of its key. |
| Ledger.NewestIsNeverSuperseded | app/conductor/policy.py:179-193 | The newest delivery ever ingested for a key is never superseded. |
| Ledger.SupersededForSomethingKept | app/conductor/policy.py:179-193 | Behind each superseded delivery stands a newer one of the same consumer, type and entity that was not superseded. |
| Ledger.RunKeepsFanned | app/api/ingest.py:79-104 | In every state of every run each event and subscriber pair has exactly one delivery, and no delivery is outside such a pair. |
| Ledger.RowsCopyTheirEvents | app/api/ingest.py:79-104 | In every state of every run a delivery has the type, the entity and the time of its event. |
| Ledger.FanOutIsConserved | app/api/ingest.py:79-104 | Fan-out owed in total equals pending, ready, in flight, delivered, expired, superseded and failed together. |
| Retirement.EmptyBacklogIsDrained | app/conductor/metrics.py:86-108 | A backlog of zero over the gauges means every delivery is settled. |
| Retirement.RetiredIffNothingAdded | app/core/scenario.py:87-102 | When a run is retired before the 1800 s backstop every delivery is settled if and only if none was added since that pass read its gauges; and then they stay settled for as long as none is added. |
| Retirement.RetirementIsStable | app/core/scenario.py:87-102 | With the producer as sole source, and no batch ticked before the script's end landing once a pass could read past it, a retired run has no active delivery at retirement or ever after. |
| Races.RetiredWithWork | app/api/producer.py:81-114 | A run in which every batch was ticked before the script's end and the run is retired with two deliveries pending. |
| Metrics.WindowIsBuckets | app/conductor/metrics.py:151-152 | A half-open window of instants between bucket edges is exactly a closed range of bucket indexes. |
| Metrics.CountStarted | app/conductor/metrics.py:206-224 | The grouped query counts, for each consumer and bucket, the attempts started in the window. |
| Metrics.CountSettled | app/conductor/metrics.py:226-248 | The grouped query counts, for each consumer, bucket and terminal state, the rows completed in the window. |
| Metrics.GroupedIsRecount | app/conductor/metrics.py:154-182 | Inside the window a grouped row equals a recount of the bucket over the whole tables. |
| Metrics.CountedMeans | app/conductor/metrics.py:154-182 | A recount, column by column: attempts by started_at and each terminal state by completed_at within the bucket, the gauges as given. |
| Metrics.BuildRows | app/conductor/metrics.py:157-182 | The rows are the full consumer by bucket cross product; in each, attempts are those started in the bucket, delivered, expired, superseded and failed the rows of that state completed in it, and the gauges the ones sampled now. |
| Metrics.Snapshots.Upsert | app/conductor/metrics.py:271-295 | The written rows replace or join what is there; the rest of the table stands. |
| Metrics.Snapshots.RecoverCursor | app/conductor/metrics.py:192-198 | The highest bucket in the table, or none. |
| Metrics.MetricsWriter.Write | app/conductor/metrics.py:124-188 | Buckets from the cursor, or the backfill bound, to two behind the present are written for everyone and the cache moves to the last; otherwise nothing changes. Whatever row changes is of a bucket at least two behind the present and right column by column. |
| Metrics.WriteExtendsWhole | app/conductor/metrics.py:135-188 | A write extends a series without holes to one without holes if and only if its cache is not ahead of the last committed bucket and the gap since then fits the backfill bound. |
| Metrics.HolesStay | app/conductor/metrics.py:135-145 | A write leaves every bucket up to its cursor as it was, so a bucket skipped behind it stays missing. |
| Charts.ChartIsWhole | app/conductor/metrics.py:116-145 | For any sequence of leaders, fresh or remembering, with gaps within the bound, the written buckets are 0 to the last, for every consumer, with no hole. |
| Charts.RecountKept | app/conductor/metrics.py:43-52 | No step but a claim changes a recount of a bucket behind the earliest instant the clock can still read. |
| Charts.CommitAdds | app/worker/claim.py:190-241 | What a claim adds to a bucket's counts, exactly: an attempt for each live row it stamped there, an expiry for each stale one, and nothing else. |
| Charts.StepRecounts | app/conductor/metrics.py:43-52 | A step leaves the recount of a bucket two behind the present as it was if and only if it is not a claim stamped in that bucket with a row of that consumer locked. |
| Charts.EveryCounterIsARecount | app/conductor/metrics.py:16-23 | For any leaders, every counter in the chart is a recount of its bucket as of the state it was written at. |
| Charts.CounterIsExactIff | app/conductor/metrics.py:43-52 | A written counter equals its recount now if and only if no claim has landed in its bucket since it was written. |
| Charts.ChartIsExactIff | app/conductor/metrics.py:43-52 | Every written counter equals its recount at every state of a run, for any leaders, if and only if no claim lands on a slot already written. |
| Charts.PromptIsNeverLate | app/conductor/metrics.py:43-52 | A claim that commits by the bucket after its stamp never lands on a slot already written. |
| Charts.CountersStayExact | app/conductor/metrics.py:16-23 | So when every claim commits by the bucket after its stamp, every written counter is exact at every state. |
| Races.LateClaimIsLost | app/conductor/metrics.py:43-52 | A run whose claim, stamped in bucket 0 and committed in bucket 2, leaves an attempt that no row of the chart counts. |
| Totals.SettledAreCharted | app/conductor/metrics.py:174-182 | With gaps within the bound, for any leaders and however late any claim: the delivered, superseded and failed columns, summed over the whole chart, are the rows in those states completed before the end of its last bucket. |
| Totals.ExpiredAreCharted | app/conductor/metrics.py:174-182 | The expired column, summed likewise, is never more than the rows that expired in its buckets, and is all of them if and only if no claim has expired a row in a slot since that slot was counted. |
| Series.ReadPage | app/api/routes.py:307-348 | The page is every row past the cursor with its own snapshot, by bucket and then consumer; the next cursor is its last bucket, or the one given when it is empty. |
| Series.MergeBuckets | frontend/src/transform/series.ts:51-63 | The merge is keyed on bucket and consumer, incoming rows win, and the result is in order; an empty page changes nothing. |
| Series.OrderedIsUnique | frontend/src/transform/series.ts:51-59 | Ordered rows are determined by what they say of each slot. |
| Series.RereadingChangesNothing | frontend/src/transform/series.ts:43-50 | Merging a page that says nothing new gives back the same buffer. |
| Series.Viewer.Poll | frontend/src/hooks/useRun.ts:212-218 | One poll replaces every bucket past two behind the cursor by the table's, leaves every earlier one, never moves the cursor back, and moves it to the last bucket there is. |
| Series.PollCoversWhole | frontend/src/hooks/useRun.ts:33-46 | Following a series without holes, a poll brings the buffer to every bucket up to the table's last. |
| Series.WindowSpans | frontend/src/transform/series.ts:109-111 | A bucket's window is the one aligned on a multiple of the width that spans it. |
| Series.CountWindows | frontend/src/transform/series.ts:109-118 | The map of maps holds, for each window and consumer, the attempts of exactly their buckets. |
| Series.ToShareWindows | frontend/src/transform/series.ts:104-130 | One point for each window with a row, in order, with its attempts in total and each consumer's share of them, or no share when there were none. |
| Series.WindowsConserve | frontend/src/transform/series.ts:104-130 | The windows' totals add up to the attempts of the buckets. |
| Series.SharesFillTheWindow | frontend/src/transform/series.ts:120-129 | In a window anyone used, the shares of the consumers in it add up to one. |
| EndToEnd.ViewIsWhole | frontend/src/hooks/useRun.ts:212-218 | With gaps within the bound, at any point of any run the client's buffer holds each consumer's buckets from zero to its cursor, in order. |
| EndToEnd.RowIsExactIff | frontend/src/hooks/useRun.ts:212-218 | A row the client holds equals a recount of the tables now if and only if no claim has landed in its bucket since it was counted, however many polls and leaders ago. |
| EndToEnd.ShareChartConservesIff | frontend/src/transform/series.ts:51-130 | With gaps within the bound, whoever led and however pages overlapped, the share windows over what has been fetched count no attempt twice, and total exactly the attempts started in those buckets if and only if none was committed late into one of them. |
| EndToEnd.ViewIsExact | frontend/src/hooks/useRun.ts:212-218 | So with prompt claims every row held is exact. |
| EndToEnd.ShareChartConservesAttempts | frontend/src/transform/series.ts:51-130 | And with prompt claims the share windows total exactly the attempts started in those buckets. |
| Service.Conductor.Pass | app/conductor/service.py:132-207 | A pass over the store is a run of the machine in the order reclaim, gauges, chart, retire, outage, budget, selection, drops, admissions, and the chart write it makes is the writer's. Its sweep leaves no unlocked row in flight past its lease; it retires the run if and only if 1800 s have gone by, or 900 s have and no row is pending, ready or in flight; retired or in the outage it writes no more. |
| Service.Conductor.Dispense | app/conductor/service.py:182-196 | The admitting half of a pass, with each of its early returns, is a run of the machine. |
| Service.VerdictDropsOnce | app/conductor/policy.py:160-195 | A verdict condemns each row at most once, to a terminal state. |
| Service.ComputeBudget | app/conductor/admission.py:120-170 | Given the ready rows and the attempts since the start of the window: the rate slots are the most that keep them within the global rate times the window, the buffer slots the fewest that bring the ready rows to the multiplier times the summed caps. |
| Service.TotalBacklog | app/conductor/metrics.py:106-108 | The sum of every consumer's gauges. |
| Service.Worker.Drain | app/worker/service.py:113-147 | An iteration of a running worker is a run of the machine: lock, commit, then either dropped with the batch in hand or completed later, and it ends with nothing in hand. |
| Service.AnswersAreDistinct | app/worker/service.py:136-147 | One answer for each claim makes completions that name no delivery or attempt twice. |

## Left out

- SQL, sessions, engines and isolation: each statement or transaction is one step on in-memory tables. Row locks held by a claim are modelled; those of a completion and of a sweep are not, both being single steps, so deadlock handling between them is not modelled.
- Visibility of a pass's own writes before it commits, and its rollback: the machine shows each write of a pass at once. Nobody else reads pending rows, and a completion that meets a reclaimed row writes nothing either way. A pass cut short is modelled (it quits at any statement).
- Leadership: one conductor acts at a time, and which process it is changes freely between passes. Taking and releasing the lock is not modelled.
- Process registry, heartbeats, signals, crash grace: only a worker dropping its batch or its locks at any point.
- The transport and the producer's randomness: outcomes and event batches are arbitrary.
- Stale clock snapshots inside one worker iteration: a worker reads the clock as it stands at each step. The separate clock reads a pass makes for its instant and its elapsed time are one, and a pass reads the clock as it stands when it begins; the conductor reads its row before the passes of other simulations (app/conductor/service.py:84-86), so a PATCH committed in between can make the pass's instant differ.
- Changes to weights, rates, caps, policies and subscriptions during a run: they are fixed for a run, while the fair-drain toggle and the outage override are free at every pass.
- Which ready rows a claim picks in the machine: any unlocked ones; the order and the limit are in `Store.Store.SelectReady`.
- Reason strings, status codes and payloads, phase labels, consumer names.
- Gauges in backfilled buckets: sampled at the write, as in the source, with nothing said of the past.
- Floating-point rounding: weights, rates and times are reals, with floor and ceiling where the source has them.
- `caught up after`, backlog series and the other chart transforms, the decision feed, and every HTTP route but the two cited.
- Service.Worker.Drain: states the iteration without other processes in between; the machine's theorems cover the interleavings.
- Charts.CountersStayExact: a corollary for claims that commit by the bucket after their stamp, and of the counters only, not the gauges; Charts.ChartIsExactIff is the exact condition.
- EndToEnd.ViewIsExact: a corollary for such claims; EndToEnd.RowIsExactIff is the exact condition.
- EndToEnd.ShareChartConservesAttempts: a corollary for such claims; EndToEnd.ShareChartConservesIff is the exact condition.
- Retirement.RetirementIsStable: a corollary for runs without a straggling batch; Retirement.RetiredIffNothingAdded is the exact condition.
