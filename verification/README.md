# Speculative decoding on a hybrid model: a verified model

The runtime serves a hybrid model (attention plus recurrent GDN layers) with multi-token
speculative decoding. A round verifies a pending anchor and K drafts per slot in one batch,
accepts a prefix of each, and makes every slot look as if only the accepted tokens had ever
been read. The attention cache is addressed by position, so stale entries past the length
are harmless; the recurrent state is not, and has to be put back or chosen among per-position
rows. On top of that sit drivers that admit requests as slots free up, replay every request
on a reference slot in lockstep, and pass or fail the run.

This project models those pieces step by step and proves what they are for. The target model,
the draft model and the tokenizer are arbitrary functions; logits are real numbers. The
single-request and batched paths have separate models (`single`, `batch`), because they are
different kernels; a result that needs them equal says so.

Run `dafny verify dfyconfig.toml` in this directory.

## Layout

| files | subject |
|---|---|
| Network, Batches, AcceptReject, Speculation | the two models as functions, ragged row slicing, the accept rule, one round seen from a history alone |
| Drafting, PriorKvLen | the draft model's cache and propose loop, correct and frozen |
| Slots, Runner, Backend | what a slot keeps, the runner's forwards, the production verify-and-commit round |
| InlineRound, Transcript, Runs, Rollback, TraceProbe, Accounting | the snapshot-and-recompute round, what a record of rounds must say, whole runs of either mechanism, rollback twins, dictated traces, token accounting |
| Roster, Ledger, Occupancy, Serving, AsyncArrival, Sustained | the continuous-batching core, what its log accounts for, who was in a slot when, and its two drivers |
| Sorting, Repetition, Verdict, Window, Checks | the verdict pass, the text window it reads, and the end-to-end checks |
| FreeQueue, BlockStates, BlockPool | the linked free queue, the block pool and the fragmentation recipes |
| PromptSizing | the binary search for a prompt length |

## What the proofs found

The model follows the code. Where the code and what is written about it disagree, the exact
condition is proved.

1. The fragmentation recipes do not fragment. Releasing a slot frees its blocks last to first
   and an unpublished block goes to the front of the queue, so serving a request and releasing
   it is the identity on the queue (`ChurnIsIdentity`). The table built afterwards is contiguous
   exactly when that stretch of the queue was before (`ProbeFragmentation`), and inside a
   never-used tail it always is (`ProbeVirginTail`). The documented rotation would need release
   to the back; for that discipline `RotationFragmentsIff` gives the exact condition and
   `ShippedRotation` the shipped numbers.
2. The repetition detector misses repeats in texts shorter than twice the minimum length and
   with a minimum above 48 (`DetectorIsExact`, `OverlapIsMissed`).
3. The text window the verdict reads is the recent served text only if every served token it
   reaches is the pending anchor (`TailIsServedIff`): from a request's second round on it holds
   the anchor twice. A long anchor text alone then satisfies the pattern test
   (`LongAnchorLooksRepetitive`), and `PatternCanBeWrong` is a round that both text tests accept
   although the text served holds no repeat of the required length.
4. A decoy is rejected "at exactly this position" only if nothing was wrong earlier and the
   decoy is not what the target wanted (`ForcedReject`, `DecoyCanBeRight`).
5. A batched prefill in which every prompt is one token takes the single-token decode path and
   resumes from the released slot's old row 0 (`DecodePrefillReadsOldRow`). `Admit` needs only
   one longer prompt in the batch, or blank rows. The drivers never get there: which requests
   are admitted together depends on timing, so they are stated for prompts of two tokens or more.
6. After a speculative round column 0, which snapshots copy, is the slot's state only if the
   accepted drafts did not change it (`RowZeroAfterRound`); for a model whose state counts
   tokens, only if one token was committed (`RowZeroCounting`).
7. Sharing a block that nobody holds is documented to be refused; it revives the block
   (`AddReference`). Publishing a second hash for a block strands the first
   (`PublishKeepsIndexIff`).
8. The repair loop of the prompt sizing never runs (`MakePrompt`).
9. The sustained check can pass with requests left in the pool. It drains exactly when the whole
   pool had arrived by a pass before closing; otherwise it leaves through the safety valve, with
   the requests that had arrived served and the rest untouched, and passes all the same
   (`RunSustained`, `SustainedCheck`). `PassesWithLeftOver` is such a run.
10. The inline round of the profiling driver is described as the production round's own body;
    production has since moved to per-position rows. The two are proved to agree
    (`CompareMechanisms`, `TogetherOrAlone`).

## Model

| member | source | states |
|---|---|---|
| `AcceptReject.VerdictIsTheOnlyObedient` | runtime/mtp_accept.py:29-59 | a decision obeys the documented rule (longest matching prefix, one recovery or bonus token, reject position) if and only if it is the verdict |
| `AcceptReject.VerdictReadsOnlyItsPrefix` | benchmarks/mtp_accept_reject_check.py:13-20 | no token or prediction after the position a verdict ends on can change it |
| `AcceptReject.DetermineFromPredictions` | runtime/mtp_accept.py:29-59 | the sequential loop returns the verdict, and the two input complaints exactly when they apply |
| `AcceptReject.DetermineAcceptReject` | runtime/mtp_accept.py:62-74 | the logits form truncates to the draft and agrees with the verdict on the greedy choices of all rows |
| `AcceptReject.DecideRow` | runtime/mtp_accept.py:77-227 | summing the running AND of the matches gives the same decision as stopping at the first mismatch |
| `AcceptReject.DetermineBatch` | runtime/mtp_accept.py:77-227 | every request of the vectorised form gets the verdict on its own block of rows |
| `AcceptReject.DecoyAt` | benchmarks/mtp_ragged_recompute_verify_check.py:111-121 | terminates for every draft list and replaces only the chosen position, by the first value from 100 + position on that no draft uses |
| `AcceptReject.ForcedReject` | benchmarks/mtp_ragged_recompute_verify_check.py:111-121 | all cases of a forced reject: stops exactly at p iff nothing was wrong earlier and the decoy is not the prediction; a draft fine through p commits exactly its first p + 1 tokens; an earlier reject stands |
| `AcceptReject.DecoyCanBeRight` | benchmarks/mtp_verify_cudagraph_check.py:169-180 | a concrete draft on which the decoy is accepted, against the documented guarantee |
| `Network.GreedyIsUnique` | benchmarks/mtp_accept_reject_check.py:13-20 | a sequence is greedy position by position iff it is what one-token-at-a-time decoding generates |
| `Network.GreedyAppend` | benchmarks/mtp_accept_reject_check.py:13-20 | a greedy continuation of a greedy continuation is greedy |
| `Network.FeedFollowsHistory` | benchmarks/mtp_gdn_rollback_check.py:4-12 | feeding tokens on the right state and cache gives, at every position, the state, cache entry and output of the full history |
| `Batches.RaggedSlice` | benchmarks/phase0_nsys_gap_ledger_diag.py:101-196 | a running offset cuts each request's own rows out of a ragged concatenation |
| `Batches.UniformSlice` | oracle/qwen36_vllm/backends/qwen36.py:2060-2159 | row i * (K + 1) + j of a uniform concatenation is row j of request i |
| `Batches.CutRows` | oracle/qwen36_vllm/backends/qwen36.py:2060-2159 | cutting each request's first n_i rows from the uniform verify output gives exactly the ragged input of the resync |
| `Speculation.DecisionIsLossless` | benchmarks/mtp_accept_reject_check.py:106-128 | whatever was drafted, a decision commits the target's own greedy tokens, accepts exactly the greedy prefix of the draft, and leaves the target's own choice as next anchor |
| `Speculation.ForcedRejectCommits` | benchmarks/mtp_ragged_recompute_verify_check.py:154-249 | after a decoy the committed tokens are still the greedy ones, through the decoy position exactly when the draft was right there |
| `Slots.InPlaceFollowsHistory` | oracle/qwen36_vllm/direct_model_runner.py:1087-1139 | an in-place forward on a slot holding h leaves it holding h plus the tokens, or ahead of h if it does not commit |
| `Slots.SelectedFollowsHistory` | oracle/qwen36_vllm/metadata_builders.py:524-596 | a speculative verify leaves the state after every candidate position in that position's own row |
| `Slots.SelectRow` | oracle/qwen36_vllm/backends/qwen36.py:1985-2159 | committing n of the verified tokens by length and row selection alone holds exactly those n |
| `Slots.UndoAll` | benchmarks/phase0_nsys_gap_ledger_diag.py:118-133 | restoring the recurrent row and rewinding the length undoes a verify; stale cache entries need nothing |
| `Slots.RowZeroAfterRound` | oracle/qwen36_vllm/gdn_state.py:287-384 | for every model, after a speculative round column 0, which a snapshot copies, is the live state iff reading the accepted drafts left the state after the anchor unchanged; always after one token |
| `Slots.RowZeroCounting` | oracle/qwen36_vllm/gdn_state.py:287-384 | for a model whose state counts what it read that means: iff one token was committed |
| `Slots.DecodePrefillReadsOldRow` | oracle/qwen36_vllm/metadata_builders.py:387-521 | prefilling a released slot through the decode path is right iff the model cannot tell the old row from the blank one |
| `Slots.DecodePrefillCanBeWrong` | oracle/qwen36_vllm/gdn_state.py:228-286 | a concrete released slot on which it is wrong |
| `Slots.RowsAreDisjoint` | runtime/block_pool.py:45-79 | no two candidate columns of any two slots share a physical row |
| `Slots.ExtraColumnCollides` | runtime/block_pool.py:45-79 | one column more than configured is the next slot's row |
| `Runners.Runner.Forward` | oracle/qwen36_vllm/direct_model_runner.py:1087-1139 | the single-request forward, whole new state |
| `Runners.Runner.ForwardBatch` | oracle/qwen36_vllm/direct_model_runner.py:1219-1494 | each listed slot changes exactly as if fed alone with its own tokens, the others not at all, and the rows come back in request-then-position order |
| `Runners.Runner.VerifyBatch` | oracle/qwen36_vllm/direct_model_runner.py:1544-1579 | verify writes but commits nothing |
| `Runners.Runner.VerifyBatchSpec` | oracle/qwen36_vllm/backends/qwen36.py:48-89 | the same through per-position rows |
| `Runners.Runner.Prefill` | oracle/qwen36_vllm/direct_model_runner.py:1141-1146 | a fresh slot ends up holding the prompt whatever its last occupant left, and the result is the greedy next token |
| `Runners.Runner.ResetSlot` | oracle/qwen36_vllm/gdn_state.py:228-286 | clears the bookkeeping and no tensor |
| `Runners.Runner.SnapshotState` | oracle/qwen36_vllm/gdn_state.py:287-384 | copies row 0 into the slot's one buffer under a new generation |
| `Runners.Runner.RestoreState` | oracle/qwen36_vllm/gdn_state.py:385-466 | without cross-slot restores: accepted iff the snapshot is this slot's, unused and current, and refused otherwise with no change; with them: the source slot's buffer is copied in whatever the snapshot's age, and nothing is marked used |
| `Drafting.PriorMatchesStart` | benchmarks/mtp_prior_kv_len_fix_check.py:54-95 | for every k, all k draft forwards have prior equal to start iff the caller's did; in the frozen variant exploratory step j is behind by exactly j - 1 |
| `Drafting.FrozenFirstTwoAgree` | benchmarks/mtp_prior_kv_len_fix_check.py:97-152 | the frozen loop's first two drafts are right for every model |
| `Drafting.FrozenThirdCanDiffer` | benchmarks/mtp_prior_kv_len_fix_check.py:97-152 | for every k >= 3 some model drafts a different third token |
| `Drafting.StaleEntriesAreNeverRead` | oracle/qwen36_vllm/backends/qwen36.py:598-669 | proposals do not depend on draft-cache entries at or past the synced length |
| `Drafting.ProposeFollowsHistory` | oracle/qwen36_vllm/backends/qwen36.py:671-902 | on an aligned draft cache a resync leaves it aligned with the longer history, and the drafts are a function of that history |
| `Drafting.DraftsAreDrafted` | oracle/qwen36_vllm/backends/qwen36.py:598-669 | position by position, with nothing left of the loop, the cache overlay or earlier proposals: k tokens are the proposal of a history iff each is the draft model's first choice over the entries of the history and of the drafts before it, and there is only one such choice |
| `PriorKvLens.CheckInvariantForK` | benchmarks/mtp_prior_kv_len_fix_check.py:54-95 | the instrumented check passes for every k: the prompt first, then one row at a time at the next position, each claiming exactly the history before it; the drafts are those of the prompt, and both the synced length and the slot's own length end at the prompt's |
| `PriorKvLens.DemonstrateOldBug` | benchmarks/mtp_prior_kv_len_fix_check.py:97-152 | the two variants run from the same prefill: the fixed one proposes what the prompt deserves, the other what the frozen history length makes of the cache it found; the first two drafts always agree |
| `Backends.Backend.SyncAndPropose` | oracle/qwen36_vllm/backends/qwen36.py:203-260 | the single-slot propose loop is the specification function, call by call |
| `Backends.Backend.DraftForwardBatch` | oracle/qwen36_vllm/backends/qwen36.py:453-596 | each slot's draft forward is its own, rows cut by ragged offsets |
| `Backends.Backend.ContinuationSteps` | oracle/qwen36_vllm/backends/qwen36.py:598-669 | the batched exploratory steps follow each slot's own trail |
| `Backends.Backend.SyncAndProposeBatch` | oracle/qwen36_vllm/backends/qwen36.py:671-902 | each slot's drafts and draft cache are those of the single-slot funnel |
| `Backends.Backend.PrefillBatch` | oracle/qwen36_vllm/backends/qwen36.py:904-1316 | every prompt of a ragged batch ends up held and drafted for, except that a batch of one-token prompts reads the old row 0: exactly when it is right |
| `Backends.Backend.VerifyAndCommitBatch` | oracle/qwen36_vllm/backends/qwen36.py:1985-2159 | the production round over any distinct slots: each slot's decision, new history, next anchor and next drafts are functions of its own history, and state and draft cache stay aligned |
| `Runs.AdvancedIsUnique` | benchmarks/phase0_nsys_gap_ledger_diag.py:101-196 | a round's report is determined by history, anchor and drafts |
| `Runs.TogetherOrAlone` | benchmarks/phase0_nsys_gap_ledger_diag.py:101-196 | a slot verified with any others, by either mechanism, reports exactly what it reports alone |
| `InlineRounds.Split` | benchmarks/phase0_nsys_gap_ledger_diag.py:101-117 | each group is exactly the slots of its kind, in the batch's order, and the two partition the batch |
| `InlineRounds.RecomputeGroup` | benchmarks/phase0_nsys_gap_ledger_diag.py:118-151 | restore, rewind and ragged recompute leave each slot holding exactly its committed history |
| `InlineRounds.RunOneRoundInline` | benchmarks/phase0_nsys_gap_ledger_diag.py:73-204 | the snapshot-and-recompute round, with any mix of full accepts and rejects, computes the same function of each slot's history as the production round |
| `Runs.LiveRound` | benchmarks/phase0_nsys_gap_ledger_diag.py:259-271 | every round keeps the run invariant: output greedy, state and both caches those of prompt plus output |
| `Runs.LiveLengths` | benchmarks/phase0_nsys_gap_ledger_diag.py:153-192 | at every point of a run both lengths equal prompt plus output less one, and the output is the greedy continuation |
| `Transcripts.TranscriptSnoc` | benchmarks/phase0_nsys_gap_ledger_diag.py:207-271 | one more round continues a transcript: every round is the decision at the history its predecessors left, for their next anchor, on the changed form of the drafts they proposed |
| `Runs.ReplayRounds` | benchmarks/phase0_nsys_gap_ledger_diag.py:207-271 | runs exactly n rounds and returns them: each slot's rounds are its transcript over the model's own drafts, its output is the first token and what they committed, greedily generated |
| `Runs.CompareMechanisms` | benchmarks/mtp_ragged_recompute_verify_check.py:149-265 | runs exactly n rounds on each side and returns them: in each, every slot's decision is that of its own history, for its own anchor, on `change(t, i, ..)` of its own proposal; the verdict is the comparison of exactly those rounds, and it is always agreement, in commitments, lengths, recurrent state, live cache entries of either model, next anchors and next drafts; both sides are lossless |
| `Rollbacks.RollbackIsPerfect` | benchmarks/mtp_gdn_rollback_check.py:45-126 | after a detour of any length, restore plus length rewind gives every later output of a twin that never took it |
| `Rollbacks.RewindAloneIsNotEnough` | benchmarks/mtp_gdn_rollback_check.py:4-12 | rewinding the length without restoring the recurrent state is observably wrong |
| `Rollbacks.TwinCheck` | benchmarks/mtp_gdn_rollback_check.py:45-126 | the whole two-slot check comes out equal, for any detour and continuation, and both slots end holding the prompt, the first token and the one generated after it, one of them through a snapshot, the detour and a restore |
| `TraceProbes.Settle` | benchmarks/mtp_trace_driven_probe.py:136-161 | one slot settled as the trace says holds exactly the committed tokens |
| `TraceProbes.RunConfig` | benchmarks/mtp_trace_driven_probe.py:96-175 | for every accept trace, and whichever model each path runs, each slot ends in the state and at the length of feeding the committed tokens on top of the prefilled prompt, after one snapshot a round and a verify that really wrote k + 1 entries past each round's start |
| `TraceProbes.ReachedByOneModel` | benchmarks/mtp_trace_driven_probe.py:96-175 | with one model on both paths that is the slot holding the prompt and the committed tokens |
| `Accounting.Tally` | benchmarks/mtp_w1s_our_runtime_perf.py:134-155 | one round counted: one entry a slot is added to the record, the counters stay those of the record, and exactly the slots short of their length stay, in order |
| `Accounting.RunBatch` | benchmarks/mtp_w1s_our_runtime_perf.py:66-165 | terminates and returns the record of its rounds, each slot's own part a transcript over the model's own drafts: the accepted count is the sum over the record, the draft rounds its length, the drafts K times that, and every count what that slot's rounds committed; each request gets its length and at most K over, and no round it did not need; each slot's length is prompt plus count |
| `ServingCores.ExactIsOk` | benchmarks/mtp_async_arrival_check.py:223-243 | the reference never flags the choice it would have made |
| `ServingCores.JudgeMeans` | benchmarks/mtp_async_arrival_check.py:223-243 | on the reference's own row of logits: the report is exact iff the choice is the first largest position, its margin is the least amount that would make the choice a largest one, and it is ok iff exact or no logit is ahead of the choice by 2.0 or more |
| `ServingCores.CheckAgainstReference` | benchmarks/mtp_async_arrival_check.py:223-243 | the reference is back in lockstep with the served slot and judges exactly its next anchor at exactly its history |
| `ServingCores.AdmitOne` | benchmarks/mtp_async_arrival_check.py:357-372 | a newly admitted request starts in lockstep, and its first token is judged at its prompt |
| `ServingCores.VerifyActive` | benchmarks/mtp_async_arrival_check.py:393-403 | one batched round over everything active touches only the served slots |
| `ServingCores.CheckAll` | benchmarks/mtp_async_arrival_check.py:404-431 | every active request is logged once with the true verdict, all are in lockstep again, and a row out of tolerance, and no other, carries the last min(40, all there is) of the tokens committed before the round, the anchor and the accepted drafts, in order |
| `ServingCores.RowWindow` | benchmarks/mtp_async_arrival_check.py:407-431 | a true row's window is that end of the text, told index by index |
| `ServingCores.EndedIsServed` | benchmarks/mtp_async_arrival_check.py:432-455 | a finished request has between max_tokens and max_tokens + K tokens (K + 1 when max_tokens is 0), greedily generated |
| `ServingCores.ServingCore.Admit` | benchmarks/mtp_async_arrival_check.py:339-386 | slots handed out from the front, requests in order, partition of the slots and lockstep kept, first-token verdicts recorded, stays opened in the order of the batch, occupancy of earlier rounds untouched; asks only that some prompt of the batch has two tokens or that nothing is left in the slots' row 0 |
| `ServingCores.ServingCore.ServeRound` | benchmarks/mtp_async_arrival_check.py:393-462 | one round of the scheduler: who goes on and who finishes, slots and requests conserved, remaining work strictly smaller, one true log row per active request, as many in this round's slots as were active |
| `Ledgers.ToldStep` | benchmarks/mtp_async_arrival_check.py:393-462 | a round keeps the ledger: for every request, active or finished, its tokens are what the rounds logged for its stay committed, in order, and no two stays are confused |
| `Occupancies.AttendedStep` | benchmarks/mtp_async_arrival_check.py:393-462 | nobody in a slot sits a round out: every stay has a logged round for each round from its admission to its last |
| `Occupancies.EntryBookStep` | benchmarks/mtp_async_arrival_check.py:432-462 | the stays ever opened, in order of admission, are exactly those active or finished |
| `Occupancies.RoundKeepsPresent` | benchmarks/mtp_async_arrival_check.py:432-462 | serving a round changes nothing about how many requests were in a slot in it or in any earlier one |
| `ServingCores.FinishedIsRecorded` | benchmarks/mtp_async_arrival_check.py:393-462 | every token of every finished request was committed by a round that has its own row in the log, and that row is the reference's judgement at that point of the output |
| `Rosters.RequestsSplit` | benchmarks/mtp_async_arrival_check.py:432-462 | no request is lost or doubled when finished ones leave |
| `Rosters.RoundShrinksWork` | benchmarks/mtp_async_arrival_check.py:432-462 | every active request brings the total remaining work down by at least one per round |
| `AsyncArrivals.ScanEligible` | benchmarks/mtp_async_arrival_check.py:326-337 | the admission scan takes a prefix of the sorted list and stops short only of requests not yet due or for want of slots |
| `AsyncArrivals.AdmitEligible` | benchmarks/mtp_async_arrival_check.py:326-386 | order-preserving, work-conserving admission; nobody early; reference slots never shared; no earlier round becomes one in which somebody waited beside a free slot |
| `AsyncArrivals.IdleMeansEarly` | benchmarks/mtp_async_arrival_check.py:389-391 | a round is idle only before the last arrival |
| `AsyncArrivals.EagerStep` | benchmarks/mtp_async_arrival_check.py:326-391 | after a served round the only new wait there can be is in that round, and then every slot was taken |
| `AsyncArrivals.RunAsyncArrival` | benchmarks/mtp_async_arrival_check.py:302-465 | admission in stable arrival order; every request pending, active or finished exactly once; in every round that a request already due was kept out of, admitted later or still pending, every production slot was taken; rounds bounded by the last arrival plus all requested tokens |
| `AsyncArrivals.ShippedRunFits` | benchmarks/mtp_async_arrival_check.py:182-189 | the bound is 263 on the shipped table, so its 500-round cap is never reached |
| `AsyncArrivals.SameModelsNeverFlag` | benchmarks/mtp_async_arrival_check.py:223-243 | when both paths run the same model no round and no first token is ever flagged |
| `Checks.AsyncArrivalCheck` | benchmarks/mtp_async_arrival_check.py:302-560 | passes iff everyone finished under the round cap, the reference accepted every first token, and every round of every request was within tolerance or forgiven; on a table that fits the cap the first condition drops out; nobody due waited beside a free slot; passing vouches for every served token; with one model on both paths it does pass |
| `Checks.RunOnce` | benchmarks/mtp_async_arrival_check.py:566-588 | the same from a newly built and warmed-up runner; everything finished was served in full and losslessly, and is recorded in full; when it passes, nobody due ever waited beside a free slot |
| `Checks.ExcusedVouches` | benchmarks/mtp_async_arrival_check.py:489-546 | with no failure reported, every served token was committed by a round whose own row is within tolerance or forgiven |
| `Windows.TailIsServedIff` | benchmarks/mtp_async_arrival_check.py:407-431 | the recorded window is the end of the text really served iff every served token it reaches is the pending anchor |
| `Windows.TailDoublesAnchor` | benchmarks/mtp_async_arrival_check.py:407-431 | from the second round on, the window the pattern test reads holds the pending anchor twice |
| `Windows.LongAnchorLooksRepetitive` | benchmarks/mtp_async_arrival_check.py:507-514 | so an anchor whose text has twelve characters passes the pattern test whatever was served |
| `Windows.PatternCanBeWrong` | benchmarks/mtp_async_arrival_check.py:507-514 | a concrete request in lockstep and a concrete round out of tolerance that both text tests accept, although the text served holds no repeat of twelve characters |
| `SustainedRuns.PullArrived` | benchmarks/mtp_sustained_realistic_workload_check.py:424-427 | arrivals are pulled in pool order up to the first not yet due |
| `SustainedRuns.AdmitWaiting` | benchmarks/mtp_sustained_realistic_workload_check.py:435-481 | first come first served, min(free, waiting) at a time, newcomers last and in their own order |
| `SustainedRuns.QueueEmptyWhenIdle` | benchmarks/mtp_sustained_realistic_workload_check.py:483-506 | the queue is empty whenever nothing is active |
| `SustainedRuns.PulledMeans` | benchmarks/mtp_sustained_realistic_workload_check.py:417-427 | once the driver has closed, what was pulled is exactly what had arrived by some pass before it closed |
| `SustainedRuns.TimelyServed` | benchmarks/mtp_sustained_realistic_workload_check.py:412-596 | a round served in some pass keeps the record of the run: who was due by then and not yet admitted found every slot taken, and nobody was carried through a pass without a round |
| `SustainedRuns.RunSustained` | benchmarks/mtp_sustained_realistic_workload_check.py:412-596 | for any nondecreasing clock: requests are pulled, in pool order, only before closing, and those waiting are still admitted afterwards; rounds never exceed the tokens asked for; short of the round cap exactly the requests that had arrived by a pass before closing were served; it drains iff that is the whole pool and otherwise leaves through the valve; bounded passes once the valve time is past; and with the pass that served each round: requests enter in pool order, a request due by a round's pass is in by that round or else every slot was taken in it, and consecutive rounds of anybody being served are consecutive passes |
| `Checks.SustainedCheck` | benchmarks/mtp_sustained_realistic_workload_check.py:359-700 | from the clock alone, on a pool asking for fewer tokens than the round cap: which exit is taken, exactly which requests are served, and that the check passes iff the reference accepted every first token served and every round was within tolerance or forgiven, the rest of the pool notwithstanding; nobody due waited beside a free slot |
| `Checks.PassesWithLeftOver` | benchmarks/mtp_sustained_realistic_workload_check.py:483-506 | a concrete run, for every model and decoder, that passes with one of two requests left in the pool |
| `Verdicts.InOneStreak` | benchmarks/mtp_async_arrival_check.py:495-504 | every round out of tolerance lies in exactly one maximal streak |
| `Verdicts.ScanRows` | benchmarks/mtp_async_arrival_check.py:489-546 | the scan reports exactly the forgiven streaks and the rounds of the others, each with the checks of its streak |
| `Verdicts.EveryRoundOnce` | benchmarks/mtp_async_arrival_check.py:489-546 | rounds in forgiven streaks plus failing rounds are the rounds out of tolerance: none lost, none twice |
| `Verdicts.PassesIff` | benchmarks/mtp_async_arrival_check.py:489-546 | a request passes iff each of its rounds is within tolerance or forgiven |
| `Verdicts.NothingFailsIff` | benchmarks/mtp_async_arrival_check.py:489-546 | the whole pass reports no failure iff every round of every request is within tolerance or forgiven |
| `Verdicts.ExcusedRow` | benchmarks/mtp_async_arrival_check.py:489-546 | and then no row of the log is left out: each is within tolerance or forgiven among its request's rows |
| `Verdicts.ForgivenIff` | benchmarks/mtp_async_arrival_check.py:489-546 | a round is forgiven iff it is one of at most two consecutive benign rounds, the one before them absent or within tolerance and the one after them there and within tolerance; benign on the row itself: out of tolerance, not exact, both choices readable as text, and twelve characters said twice in a text at least twice as long |
| `Verdicts.FailureSaysWhy` | benchmarks/mtp_async_arrival_check.py:489-546 | a failing round's report says whether anything follows its streak, whether the streak is one or two rounds long, and whether all its windows and all its tokens pass, each told on the rows |
| `Verdicts.LongOrFinalStreakFails` | benchmarks/mtp_async_arrival_check.py:466-488 | a streak longer than the cap or at the end of a request always fails |
| `Verdicts.GroupByRequest` | benchmarks/mtp_async_arrival_check.py:490-492 | grouping keeps each request's rows in order and every request once |
| `Verdicts.ClassifyLog` | benchmarks/mtp_async_arrival_check.py:489-546 | for every request the report restricted to it is the scan of its own rows in round order |
| `Verdicts.VerdictIgnoresOthers` | benchmarks/mtp_sustained_realistic_workload_check.py:610-663 | a request's verdict does not depend on how other requests' rows interleave |
| `Sorting.SortBy` | benchmarks/mtp_async_arrival_check.py:303-303 | the stable sort |
| `Sorting.SortedIsUnique` | benchmarks/mtp_async_arrival_check.py:494-494 | a stable sort has only one possible outcome |
| `Repetition.RepeatsAt` | benchmarks/mtp_async_arrival_check.py:284-289 | the set of substrings met finds a repeat of one length iff there is one |
| `Repetition.LooksRepetitive` | benchmarks/mtp_async_arrival_check.py:270-290 | the capped descending scan answers yes iff the text is at least twice min_len long, min_len is within the cap, and some substring of length min_len starts at two places |
| `Repetition.DetectorIsExact` | benchmarks/mtp_async_arrival_check.py:270-290 | it agrees with its documentation iff those guards hold or there is no repeat; repeats of any longer length reduce to min_len |
| `Repetition.OverlapIsMissed` | benchmarks/mtp_async_arrival_check.py:281-283 | a concrete text with a repeat that the guard hides |
| `FreeQueues.FreeBlockQueue.Append` | runtime/block_pool.py:225-236 | links at the back, refusing a linked block |
| `FreeQueues.FreeBlockQueue.AppendLeft` | runtime/block_pool.py:238-249 | links at the front, refusing a linked block |
| `FreeQueues.FreeBlockQueue.PopLeft` | runtime/block_pool.py:251-257 | takes the front block or reports an empty queue |
| `FreeQueues.FreeBlockQueue.Remove` | runtime/block_pool.py:259-263 | takes any queued block out in place |
| `FreeQueues.FreeBlockQueue.Contains` | runtime/block_pool.py:221-223 | both links set iff queued |
| `FreeQueues.Spliced` | runtime/block_pool.py:225-249 | a block spliced between neighbours keeps the chain |
| `FreeQueues.Cut` | runtime/block_pool.py:265-271 | so does one unlinked |
| `BlockPools.BlockPool.constructor` | runtime/block_pool.py:309-330 | all but the reserved blocks queued in ascending order |
| `BlockPools.BlockPool.TakeFront` | runtime/block_pool.py:347-366 | the front block leaves unpublished |
| `BlockPools.BlockPool.Allocate` | runtime/block_pool.py:368-408 | the first n of the queue in order, or refused with no change |
| `BlockPools.BlockPool.Release` | runtime/block_pool.py:417-434 | drops one reference, nothing else held changes; the last one re-queues at the back if published, in front if not |
| `BlockPools.BlockPool.Free` | runtime/block_pool.py:410-434 | releases in order up to the first bad block |
| `BlockPools.BlockPool.AddReference` | runtime/block_pool.py:436-522 | one more reference on that block alone, out of the queue if it was in it, for sharing as for hits |
| `BlockPools.BlockPool.CacheBlock` | runtime/block_pool.py:476-491 | an unknown hash ends up indexed at the block and carried by it; a known one changes nothing |
| `BlockStates.TakeKeepsTidy` | runtime/block_pool.py:368-408 | a queued block is one nobody refers to; reserved blocks never leave |
| `BlockStates.TakeKeepsIndex` | runtime/block_pool.py:347-366 | a block handed out is no longer indexed as its old content |
| `BlockStates.PublishKeepsIndexIff` | runtime/block_pool.py:476-491 | publishing keeps the index true iff the hash was known or the block had none |
| `BlockStates.TouchThenFree` | runtime/block_pool.py:410-522 | a reference added and given up again leaves every count as it was, and the queue too unless the block was queued: then it has moved to the end its hash decides |
| `BlockStates.ChurnIsIdentity` | benchmarks/cudagraph_decode_regression.py:84-131 | serve and release leaves queue and counts as they were, and the whole pool if nothing was published |
| `BlockPools.BlockPool.ChurnSlot` | oracle/qwen36_vllm/gdn_state.py:259-267 | allocate, then free in reverse: the blocks served are the front of the queue and the queue is unchanged |
| `BlockPools.SpongeAndChurn` | benchmarks/mtp_verify_cudagraph_check.py:132-163 | any number of cycles over any scratch slots hands out the very same blocks every time and leaves just the sponge taken from the front |
| `BlockPools.IsContiguous` | benchmarks/mtp_verify_cudagraph_check.py:165-166 | consecutive ids |
| `BlockPools.ProbeFragmentation` | benchmarks/cudagraph_decode_regression.py:236-275 | the long request's table is contiguous iff that stretch of the queue was before the recipe, and the sponge is back in front of the rest, in reverse |
| `BlockStates.VirginTailIsContiguous` | benchmarks/cudagraph_decode_regression.py:84-131 | on any pool whose last v queued blocks are consecutive, a working set inside them gives a contiguous table |
| `BlockPools.ProbeVirginTail` | benchmarks/cudagraph_decode_regression.py:84-131 | and the recipe run on it says so, against the documented guarantee |
| `BlockStates.InitialTail` | runtime/block_pool.py:309-330 | a new pool is such a tail from end to end |
| `BlockStates.TailSurvivesTake` | runtime/block_pool.py:368-408 | taking blocks in front of the tail leaves it |
| `BlockStates.TailSurvivesFree` | runtime/block_pool.py:410-434 | so does releasing an unpublished block |
| `BlockStates.RotationFragmentsIff` | benchmarks/cudagraph_decode_regression.py:98-110 | for any queue: had blocks gone to the back, the next allocation would be contiguous iff its stretch of the queue is or, across the wrap, iff both parts are and the two ends are neighbours |
| `BlockStates.ConsecutiveFragmentsIff` | benchmarks/cudagraph_decode_regression.py:98-110 | so a consecutive working set would fragment exactly at the wrap |
| `BlockStates.ShippedRotation` | benchmarks/cudagraph_decode_regression.py:98-110 | and the shipped nine rotations with a margin of eight would fragment every request of two blocks or more unless the two ends are neighbours |
| `PromptSizing.MakePrompt` | benchmarks/laguna_vllm_dflash_baseline.py:57-71 | for any tokenizer a crossing point, or the whole text if it is too short; the repair loop never adds a word |
| `PromptSizing.CrossingIsLeast` | benchmarks/laguna_vllm_dflash_baseline.py:57-71 | for a monotone count it is the least reaching prefix |
| `PromptSizing.DipsCanMislead` | benchmarks/laguna_vllm_dflash_baseline.py:57-71 | a count that dips has several crossing points, so the search need not find the least |
| `PromptSizing.TextIsLongEnough` | benchmarks/laguna_vllm_dflash_baseline.py:57-58 | ten words and a token per word are enough for the target |

## Left out

- GPU kernels, streams, CUDA-graph capture, padded replay and bit-level numerics: a forward is a deterministic function, so the near-tie margin matters only where the two paths' models differ.
- Capacity limits of a slot and of the pool under the runner: forwards here always have room.
- Chunked prefill, prefix-cache hits and recurrent-state checkpoints: prefill is one forward; the pool's content index is modelled, the checkpoint store keyed with it is not.
- The single-slot `mtp_verify_and_commit`: the same snapshot-and-recompute steps as the inline round for a batch of one.
- Sampling acceptance (residual distributions): the drivers modelled here are greedy.
- Tokenizers and text: a decoder from tokens to text is a parameter; identity and marker signals, which are informational, are not modelled.
- Wall-clock, memory, profiler and report output.
- RunSustained: takes a number of passes as a parameter, because a clock that never advances would let the loop idle forever; the last clause says how many passes are always enough.
- RunAsyncArrival: asks for prompts of two tokens or more, as do RunSustained and both checks, see finding 5.
- MarginDiag: resets its slot only if it was used, where one driver never resets it and the other always does; on slots kept as the drivers keep them the three are the same.
- Drafting.FrozenThirdCanDiffer: exhibits one model for every k >= 3; for a given model the frozen drafts may happen to agree.
- The block objects behind a slot's table: the runner's attention cache is addressed by logical position, and the pool is proved separately.
