# Gateway verification

A Dafny model of the stateful cores of the engine gateway, with proofs. `dafny verify dfyconfig.toml`
checks the whole project.

Each module follows one component.

- `IndependentReview` and `OrchestrationCapabilities`: the augmenting-path matching that decides how many
  independent reviewers the live routes offer, and the capability report built on it. The count is proved
  maximal by a vertex cover: failed searches leave a closed residue that later searches never enter.
- `ChannelResult`, `DurableTurn` and `DurableClaims`: the durable channel turn. Many workers act on an outer ledger (a
  fenced claim with a provider-phase bit) and an inner one (the turn receipt), each operation atomic but
  free to fail or to lose its response, with arbitrary clock readings, crashes, heartbeats, pruning and
  receipt expiry between any two steps. `DurableClaims` says what single claims, leases and receipts
  promise.
- `AssetAuthority` and `AssetControl` (one file, `AssetInstallation.dfy`): the commit between the local
  asset store and the installation Root. The first module has the durable steps and what holds in every
  durable state; the second has the controller's methods, facing a Root that other parties may
  change before any call and whose answers may be lost.
- `BridgeRateLimiter`, `AdmissionGate`, `AdmissionCalls`, `DailyCounter`, `LeasePool` and `VideoCapacity`: the
  sliding windows, the concurrency limits and the middleware calls around them, the daily counter shared by
  processes, the two-way lease index, and the reconciler and settlement that use it.
- `ConnectLocks`: reference-counted per-provider locks under every interleaving of tasks.
- `AgentContract`: validation and sealing of terminal agent results.
- `FramedIo`: length-prefixed frames over short reads.
- `StreamingAsr`: framing, chunking and greedy decoding of speech.

Objects the code mutates are classes; each method is tied to a function of the old state, and the
properties are lemmas about that function, about runs of operations, or about all interleavings of steps.

Some expectations are false of the code as written; the project says when they hold.

- A turn's agent is called at most once, and its answers agree, as long as no committed receipt has been
  removed after its retention period. The bound with expiries is exact (`DurableTurn.CallsBoundTight`,
  `DurableTurn.AnswersMayDifferAfterExpiry`).
- The bridge rate limiter reads its clock before it takes its lock, although its comment says the whole
  decision is serialised. A call stays within the budget after all runs exactly when no earlier reading was
  ahead of its own; only the limiter of one hit and one user does without that
  (`BridgeRateLimiter.OrderedReadingsNeeded`, with the failing runs in
  `BridgeRateLimiter.StaleReadingOverAdmits` and `BridgeRateLimiter.StaleReadingOverAdmitsOne`).
- Reconciling the video leases from two snapshots keeps a lease for a live task exactly when the pool had
  not bound it together with a finished one (`VideoCapacity.Reconciled`, `VideoCapacity.SharedLeaseIsLost`).
  On the success path the ids of the answer are rewritten to the task's own alias
  (gateway/durable_media_requests.py:1023-1040, 4677-4708). One lease comes to stand for two tasks only where
  a provider's raw ids are bound and name another task's alias: when persisting the answer fails
  (gateway/app.py:10258-10261) and for a lease the provider adapter owns
  (gateway/providers/openai_compat.py:1393-1402).
- A restore racing with the settlement of a create request leaves the task's alias with exactly one lease in
  either order, but the job may hold a second one until its time to live ends. That happens exactly if the
  answer is not terminal and names neither the task nor an id already bound, as when persisting the answer
  fails and its raw ids are bound (`VideoCapacity.OrderDoesNotMatter`, `VideoCapacity.RawAnswerHoldsTwoSlots`).
- The commit hook observes Root before each of four writes but not after the last. With nobody interfering
  beyond revision bumps it fuses over a Root at the new proof exactly when the fourth write is the first to take effect and its
  answer is lost (`AssetControl.AssetControl.RootCommitHook`, `AssetControl.FusesOverSettledRoot`).

The daily counter is modelled over any store, including one that loses the response of a commit and reports
a lock instead; SQLite's commit does not, as a busy commit has not taken effect and is rolled back. How often
a request is counted is stated for both (`DailyCounter.CountedOncePlusLost`, `DailyCounter.CountedOnce`).

## Model

| member | source | states |
|---|---|---|
| IndependentReview.AugmentingSearch.Claim | gateway/app.py:2678-2686 | one augmenting search: success gives the family one more domain by moving earlier owners along and touches nothing in `kept`; failure leaves the ownership map alone and leaves visited domains that are all owned and closed under their owners' edges; it terminates because the unvisited domains shrink |
| IndependentReview.AugmentingSearch.ClaimFromScratch | gateway/app.py:2688-2693 | after every top-level claim the ownership map is an injective matching along graph edges, and every family tried is matched or has all its domains in the closed residue |
| IndependentReview.Reroute | gateway/app.py:2683-2685 | handing an owned domain over after its owner found another keeps the ownership injective and adds exactly one domain |
| IndependentReview.CoverBounds | gateway/app.py:2667-2693 | the residue and the families outside it form a vertex cover no larger than the matching, so no independent set is larger |
| IndependentReview.MatchingRealised | gateway/app.py:2667-2693 | every matching is realised by that many identities with pairwise distinct families and domains |
| IndependentReview.ProgressComplete | gateway/app.py:2688-2693 | once every family has been tried the matching size is the size of a largest independent set |
| IndependentReview.BuildGraph | gateway/app.py:2672-2674 | the graph has exactly the (family, domain) pairs of the identities as edges |
| IndependentReview.MaximumIndependentIdentityCount | gateway/app.py:2667-2693 | the returned count is attained by some set of identities with pairwise distinct families and domains and exceeded by none |
| IndependentReview.CanScheduleIndependentReviews | gateway/app.py:2696-2714 | ready exactly when some initiator and that many reviewers exist, pairwise distinct in family and domain and differing from the initiator in model too |
| IndependentReview.PanelIsIndependent | gateway/app.py:2696-2714 | a panel is a choice of that many reviewers that together with the initiator is pairwise distinct in family and domain, and in which nobody runs the initiator's model |
| IndependentReview.SchedulableMonotone | gateway/app.py:2696-2714 | what can be scheduled for k reviewers can be scheduled for fewer |
| OrchestrationCapabilities.TallyRows | gateway/app.py:2736-2781 | the three tables hold exactly the usable models listed once, their trusted identities, and the strong candidates among them |
| OrchestrationCapabilities.DeriveCapabilities | gateway/app.py:2717-2820 | unreadable, malformed or oversized snapshots give the closed report; any other gives the counts, the three readiness answers and the reason their definitions demand |
| OrchestrationCapabilities.ReadinessNested | gateway/app.py:2786-2795 | four-vendor readiness implies two-reviewer readiness implies single-review readiness |
| OrchestrationCapabilities.ReasonAbsentIffAllReady | gateway/app.py:2797-2810 | no reason is given exactly when all three review kinds are ready |
| OrchestrationCapabilities.ReasonMeans | gateway/app.py:2797-2810 | each reason is given exactly when the reported figures reach up to it and no further |
| OrchestrationCapabilities.RowIgnored | gateway/app.py:2736-2753 | a row that is not for chat, lacks a name, or is the echo model's changes none of the tables |
| OrchestrationCapabilities.RowListed | gateway/app.py:2736-2781 | any other row for a model not yet named lists the model; an identity only with a family the registry derives too and a domain; a reviewer only if also a strong candidate |
| OrchestrationCapabilities.PermutationInvariant | gateway/app.py:2717-2820 | permuting the route rows leaves the whole report unchanged |
| OrchestrationCapabilities.DuplicateRevokes | gateway/app.py:2754-2762 | a second row for a listed model removes that model from all three tables and changes nothing else |
| OrchestrationCapabilities.DuplicateGrantsNothing | gateway/app.py:2754-2762 | appending a duplicate raises no count and makes nothing ready that was not |
| ChannelResult.SanitizeClosesRoute | gateway/app.py:3766-3803 | a sanitised result carries a route that sanitising again leaves alone |
| ChannelResult.SanitizeRouteKeeps | gateway/app.py:3766-3790 | the route keeps, unchanged, exactly its public scalar fields, and of its orchestration exactly the public scalar or null ones |
| ChannelResult.MintReplayable | gateway/app.py:3858-3876 | every minted response is a replayable document |
| ChannelResult.MintSurvives | gateway/app.py:3858-3876 | minting keeps every public field as it was but the author's, and the author where it is attested |
| ChannelResult.NoticeReplayable | gateway/app.py:4580-4597 | the recovery notice is replayable for any turn and trace; it is the engine's own blocked and unverified answer, and names the turn and the trace |
| ChannelResult.ProjectReplayable | gateway/app.py:3806-3855 | whatever was stored, its replay is replayable |
| ChannelResult.ReplySurvives | gateway/app.py:3832-3836 | a stored reply that is a text is replayed, whatever else was stored |
| ChannelResult.ConsistentSurvives | gateway/app.py:3806-3855 | with consistent version 2 metadata every public field but the route is replayed as it was stored, and no other field is |
| ChannelResult.LegacySurvives | gateway/app.py:3840-3850 | without it bounded turns, short mode and outcome texts and the four flags are replayed as stored, and nothing else beside the reply and the engine's metadata |
| ChannelResult.LegacyIsLocal | gateway/app.py:3831-3855 | without it a reply that is no text becomes the unreadable notice, and the replay is the local engine's with no usage |
| ChannelResult.ProjectFixes | gateway/app.py:3806-3855 | the projection leaves a stored result alone exactly when it is replayable |
| ChannelResult.ProjectIdempotent | gateway/app.py:3806-3855 | replaying a replay changes nothing |
| ChannelResult.ProjectAttribution | gateway/app.py:3806-3855 | a replay attests a provider exactly when the stored result did in version 2 metadata for a non-blank model other than the local engine, and then for the same model; otherwise the local engine is the author |
| ChannelResult.MintAttribution | gateway/app.py:3858-3876 | minting attests a provider exactly for a non-blank model, not the local engine, equal to the confirmed actual model |
| DurableTurn.StepSound | gateway/app.py:4341-5004 | every worker step, under any fault and clock reading, keeps the ledgers' and the worker's invariant and takes nothing from other workers |
| DurableTurn.NextKeeps | gateway/app.py:4310-5004 | arrivals, steps, heartbeats, crashes, pruning and receipt expiry all keep the invariant |
| DurableTurn.Reachable | gateway/app.py:4310-5004 | the invariant holds after every run |
| DurableTurn.ProviderCallsBounded | gateway/app.py:4459-4747 | over all interleavings the agent is called at most once per receipt: at most once plus the number of retention expiries, and exactly once at most while no receipt has expired |
| DurableClaims.CallsBoundedByRows | gateway/weixin_idempotency.py:1611-1652 | and at most once for each row: over any run there is at most one call more than there were rows removed, whatever becomes of the receipts |
| DurableTurn.CallsBoundTight | orchestrator/agent.py:1900-2130 | the bound is met: for every n a run with n expiries and n + 1 calls |
| DurableTurn.AnswersRecorded | gateway/app.py:4859-4890 | every success a worker answers is a result some receipt committed first for the very request the worker brought |
| DurableTurn.AnswersAgree | gateway/app.py:4388-4417 | while no receipt has expired, all workers answered with success brought the same request, their answers are equal, and equal to the committed result |
| DurableTurn.ForeignNeverAnswered | gateway/weixin_idempotency.py:1528-1530 | a worker whose turn's row or receipt belongs to another request calls nobody and changes no receipt, under any faults and readings; it is answered only if the row is its own, and then with the success stored there |
| DurableTurn.AnswersMayDifferAfterExpiry | orchestrator/agent.py:1900-2130 | one expiry suffices for two successful answers to differ |
| DurableTurn.SuccessAfterCommit | gateway/app.py:4859-4890 | outer success is recorded only after the inner commit, with its result, and that result is its own replay |
| DurableTurn.RetryAnswers | gateway/app.py:4341-4656 | from every reachable state an undisturbed retry is answered: with the stored or committed result, with the recovery notice and no call if provider work may have begun, otherwise by one call |
| DurableTurn.WholeTurnRuns | gateway/app.py:4341-4890 | a first request runs to a committed receipt, a recorded success and the minted answer |
| DurableTurn.CommitSound | orchestrator/agent.py:2434-2500 | a commit, whatever its fault, keeps the ledgers' invariant and all recorded results and leaves its worker sound |
| DurableTurn.FirstResultStands | orchestrator/agent.py:2434-2500 | over every run each receipt keeps the result it committed first; nothing replaces it |
| DurableClaims.HeldForNinetySeconds | gateway/weixin_idempotency.py:1455-1652 | a claim granted, a lease renewed and a phase entered each hold the row for ninety seconds: until then every other claim is told it is in progress and only the token updates the row; from then on the next claim is granted and the token is worth nothing |
| DurableClaims.HeartbeatHolds | gateway/app.py:3894-3935 | so does a heartbeat while the lease is live; it changes nothing else, and nothing once the lease is lost |
| DurableClaims.UpdatesTake | gateway/weixin_idempotency.py:1575-1758 | a success is what every later claim of the request is told; a failure lets the next claim in at once, warned if the phase was entered; the phase is entered once |
| DurableClaims.ReceiptOrder | orchestrator/agent.py:1900-2500 | a receipt is reserved, abandoned and reserved anew, started, committed, and removed, in this order and for one request |
| DurableClaims.LostLooksLikeNothing | gateway/app.py:4341-5004 | a failed ledger operation changes nothing, one whose response is lost has its effect, and the worker takes the same turn after either |
| DurableClaims.DeadlineGivesBack | gateway/app.py:4664-4692 | out of time before the provider was started, a worker gives back its reservation and the row |
| DurableClaims.LostLeaseGivesBackReservation | gateway/app.py:4958-4995 | having lost its lease before that, it gives back the reservation and leaves the row to its lease |
| DurableClaims.FailureGivesBack | gateway/app.py:4420-4450 | out of time or let down by the agent later, or told that the provider's ledger is down earlier, it gives back the row alone |
| DurableClaims.RecoveryNeverCalls | gateway/app.py:4374-4619 | a worker whose claim meets a row whose provider phase was entered, or that the provider's ledger tells to recover, never calls the agent, whatever happens after |
| AssetAuthority.StepKeepsLockstep | gateway/installation_root.py:2220-2640 | each bind, local commit, advance, fence, manual-only record and acknowledgement keeps Root and the store in lockstep |
| AssetAuthority.LostAnswersCanBeAskedAgain | gateway/installation_root.py:2220-2613 | whoever lost the answer of a successful transaction may ask again with any revision: Root answers the same and changes nothing |
| AssetAuthority.HistoryLockstep | gateway/asset_installation_control.py:846-1106 | every durable state of every history is in lockstep: a level normal store is a confirmed one, a fence names Root's own floor |
| AssetAuthority.NeverFarAhead | gateway/asset_installation_control.py:846-1106 | the local sequence equals Root's floor or is exactly one ahead |
| AssetAuthority.ManualOnlyIsFinal | gateway/paid_media_asset_store.py:1985-2110 | a manual-only record never changes again |
| AssetAuthority.FencedNeverNormalAgain | gateway/asset_installation_control.py:919-1030 | a mutation Root closed by a fence is never confirmed; from the fence only the manual-only record leads on |
| AssetControl.AssetControl.EnsureRootRecoveryFence | gateway/asset_installation_control.py:919-969 | at most four writes; exact is reported only for a Root that was level and unfenced, recovery only with the fence on the local proof; under four calm reads with one effective write it gives an answer |
| AssetControl.AssetControl.EnterAuthorityManualOnly | gateway/paid_media_asset_store.py:1985-2110 | the record names the fenced proof and the next sequence, repeats for the same proof, refuses any other, and leaves Root alone |
| AssetControl.AssetControl.AcknowledgeManualOnly | gateway/asset_installation_control.py:971-1030 | at most four writes; success means Root is level with the manual-only store and unfenced, whatever responses were lost |
| AssetControl.AssetControl.ReconcileNormal | gateway/asset_installation_control.py:846-917 | a normal store becomes ready exactly if it was level and unfenced, otherwise manual-only with Root level, or the controller fuses |
| AssetControl.AssetControl.ReconcileActive | gateway/asset_installation_control.py:865-917 | over an active Root: ready exactly if the store was level and unfenced, manual-only otherwise, always over a serving Root, with nothing left pending, or fused |
| AssetControl.AssetControl.ReconcileStartup | gateway/asset_installation_control.py:846-917 | in at most eight writes it publishes ready only for a confirmed level store over an active Root, provisioned-not-active only for one over a provisioning Root, manual-only only for a store that was not level and that an active Root has caught up with, or fuses; fused is never left; in favourable circumstances it succeeds; a level store over a serving Root comes up ready, and one over a provisioning Root provisioned-not-active, without a write |
| AssetControl.AssetControl.AssertLocalMutationReady | gateway/asset_installation_control.py:1032-1056 | a mutation is let through exactly when ready, idle and, as freshly read, level with an active, unfenced Root |
| AssetControl.AssetControl.ConfirmOnce | gateway/asset_installation_control.py:1069-1094 | one reread and at most one write; only a reread or an answered write at the new proof counts as confirmation |
| AssetControl.AssetControl.RootCommitHook | gateway/asset_installation_control.py:1058-1106 | Root ends at the old or the new proof; the hook returns only after the new one was seen, and otherwise fuses; at most four writes; over a serving Root that others at most bump, and for a mutation that changes the digest, it confirms if and only if one of its first three writes takes effect or the fourth does and is answered, and fuses over a Root at the new proof if and only if the fourth is the first to take effect and its answer is lost |
| AssetControl.FusesOverSettledRoot | gateway/asset_installation_control.py:1058-1106 | a level store starts up ready, its next mutation commits on both sides, the fourth answer of the hook alone is lost, and the controller ends fused |
| AssetControl.AssetControl.Mutate | gateway/paid_media_asset_store.py:1235-1345 | a confirmed mutation is the next sequence, settled with Root; an unconfirmed one that changed the store leaves it pending and the controller fused; one the gate refuses or that rolls back changes nothing; in calm weather it is confirmed, or fused over a settled Root, exactly as the weather of the hook's writes says |
| AssetControl.AssetControl.BindAssetComponent | gateway/asset_installation_control.py:693-749 | at most four writes; success means Root is bound at the store's proof; an already bound component is never changed; over a provisioning Root others at most bump it succeeds if and only if one of the first three writes takes effect or the fourth does and is answered |
| AssetControl.OpenBound | gateway/asset_installation_control.py:359-407 | from any crash point of any history: ready only for an exact confirmed store over an active Root, provisioned-not-active exactly over a provisioning one, manual-only only otherwise, and with a serving Root and one write in four getting through it does open |
| BridgeRateLimiter.RateLimiter.Admit | bridge/policy.py:32-61 | the method does to the table, in place, what the specification of one call says, and answers as it does |
| BridgeRateLimiter.RateLimiter.MakeRoom | bridge/policy.py:45-52 | reclaiming removes only users without a live hit, from the least recently touched end |
| BridgeRateLimiter.CallFaithful | bridge/policy.py:32-61 | whatever the readings, what the table forgot of a user has expired; a tracked user is decided by the pruned hits, a newcomer by room in the table |
| BridgeRateLimiter.AdmitsWithinBudget | bridge/policy.py:35-61 | a call whose reading is not behind earlier ones is allowed only if fewer than `per_min` of the user's whole history are live |
| BridgeRateLimiter.StaleReadingOverAdmits | bridge/policy.py:35-61 | the reading is taken before the lock: for every limit of two or more and every stale reading there are calls, none read later than the one it is behind, after which it is over-admitted |
| BridgeRateLimiter.StaleReadingOverAdmitsOne | bridge/policy.py:40-61 | for a limit of one and two or more slots too, through an eviction read no later than the reading it is behind |
| BridgeRateLimiter.SingleSlotWithinBudget | bridge/policy.py:40-61 | with one hit and one slot no reading exceeds the budget |
| BridgeRateLimiter.OrderedReadingsNeeded | bridge/policy.py:32-61 | for every reading and every bound on the earlier ones: the budget holds at the reading after all runs within the bound if and only if the bound is not ahead of it, or the limiter allows one hit and tracks one user |
| BridgeRateLimiter.DecidesAsUnbounded | bridge/policy.py:32-61 | with readings in order a tracked user is allowed exactly as by a limiter that forgets nothing, an untracked one has no live hit, and the table stays within `max_users` |
| BridgeRateLimiter.NewcomerRefused | bridge/policy.py:40-52 | a newcomer is refused exactly when the table is full and its oldest slot holds a live hit |
| BridgeRateLimiter.WindowNeverCrowded | bridge/policy.py:56-61 | with readings in order no closed minute holds more than `per_min` allowed hits of a user |
| BridgeRateLimiter.CalledLast | bridge/policy.py:40-61 | slots stand from the least to the most recently used: a tracked user's call moves to the end, a newcomer joins there, and slots are taken from the front only |
| AdmissionGate.AdmissionControl.AcquireLocal | gateway/admission.py:713-732 | the admission decision and the whole new state, including the bucket created for an unknown key |
| AdmissionGate.AdmissionControl.ReleaseLocal | gateway/admission.py:734-751 | the whole new state after a release, with or without giving the rate event back |
| AdmissionGate.RunSound | gateway/admission.py:713-751 | every run of admissions and releases keeps counts, windows and buckets sound |
| AdmissionGate.InFlightIsOpenLeases | gateway/admission.py:713-751 | global and per-key in-flight counts are the numbers of unreleased leases, within both limits; a release always finds both positive; no idle empty bucket is kept |
| AdmissionGate.WindowNeverCrowded | gateway/admission.py:713-732 | no half-open minute of a key holds more than `rolling_minute_per_key` admissions that were not rolled back |
| AdmissionGate.RunThins | gateway/admission.py:713-751 | events that do not admit a key leave its bucket the stamps it had, or fewer |
| AdmissionGate.RetryAfterSuffices | gateway/admission.py:726-728 | after a rate rejection, whatever happens but an admission of the key (other keys' traffic, releases, rollbacks, further refused attempts), the window has room once the announced seconds have passed, and the key is admitted if both concurrency limits allow it then |
| AdmissionGate.RetryAfterNeeded | gateway/admission.py:725-728 | and no earlier: after a rejection announcing n seconds, more than one, the key is rejected again from the state left behind at every reading up to n - 1 seconds later |
| AdmissionGate.AdmitsWithinLimits | gateway/admission.py:713-732 | over every ordered run a key is admitted exactly if fewer leases are open than either limit allows and its last minute holds fewer standing admissions than the rolling limit; a refusal for concurrency announces one second |
| AdmissionCalls.ReleasedExactlyOnce | gateway/admission.py:837-893 | on every path through the middleware (refused by the counter, counter unavailable, cancelled, ended downstream) a request releases its lease exactly once, never while inside, and gives its rate event back exactly if it was never passed on |
| AdmissionCalls.PassedOnIffCleared | gateway/admission.py:837-893 | an admitted request is passed on exactly if there is no daily counter or the counter allowed it |
| AdmissionCalls.GateFollowsLog | gateway/admission.py:837-893 | the middleware releases only open leases, so its gate is the one of the gate's own runs |
| AdmissionCalls.InFlightIsRequestsInside | gateway/admission.py:837-893 | the in-flight counts are the numbers of requests inside the middleware, in total and per key, within both limits |
| DailyCounter.NextCounted | gateway/admission.py:217-262 | each step keeps the rows equal to the numbers of effective transactions and within the limit |
| DailyCounter.CountHolds | gateway/admission.py:217-297 | across processes, retries, lost responses, crashes and cancellation: passed requests never exceed the stored count, which never exceeds the limit |
| DailyCounter.RefusalMeansFull | gateway/admission.py:231-235 | a request is refused for the day only when the count is at the limit |
| DailyCounter.CountedOncePlusLost | gateway/admission.py:278-297 | a request is counted once for each commit that took effect while a transient lock was reported, and exactly once more if it was allowed, not at all more if it was refused, at most once more otherwise |
| DailyCounter.CountedOnceIffNoneLost | gateway/admission.py:278-297 | a request passed on is counted exactly once if and only if there was no such commit |
| DailyCounter.CountedOnce | gateway/admission.py:217-297 | where a transient lock error means that nothing was committed, no request is counted twice and one passed on exactly once |
| DailyCounter.StoredCountsRequests | gateway/admission.py:217-297 | and the stored count is the number of requests counted, among them all that were passed on |
| DailyCounter.CountedAtMostThrice | gateway/admission.py:287-297 | in any store at all, three attempts count a request three times at most |
| DailyCounter.GivesUpAfterThree | gateway/admission.py:278-297 | a request's thread gives up exactly at its third error or its first that is no transient lock, and until then is in the attempt after the last error |
| DailyCounter.WholeRequestRuns | gateway/admission.py:217-297 | a new request that nothing disturbs is passed on and counted once while the day is not full |
| DailyCounter.UndisturbedAnswers | gateway/admission.py:217-262 | with the lock free an undisturbed attempt refuses a full day and otherwise allows the request and counts it |
| DailyCounter.EndsForGood | gateway/admission.py:217-297 | over any run a crashed thread stays gone and holds no lock, and a cancelled request is never passed on |
| LeasePool.BackgroundJobLeasePool.DropLocked | gateway/admission.py:410-416 | dropping a lease removes it and exactly its own aliases |
| LeasePool.BackgroundJobLeasePool.PruneLocked | gateway/admission.py:418-421 | pruning leaves exactly the unexpired leases and their aliases |
| LeasePool.BackgroundJobLeasePool.TryAcquire | gateway/admission.py:423-458 | the decision and the whole new state of an acquisition |
| LeasePool.BackgroundJobLeasePool.Restore | gateway/admission.py:460-519 | the outcome and the whole new state of a restore, conflicts included |
| LeasePool.BackgroundJobLeasePool.Bind | gateway/admission.py:521-541 | the outcome and the whole new state of binding aliases |
| LeasePool.BackgroundJobLeasePool.RenewExternal | gateway/admission.py:543-553 | the outcome and the whole new state of a renewal by alias |
| LeasePool.BackgroundJobLeasePool.ReleaseExternal | gateway/admission.py:560-567 | the outcome and the whole new state of a release by alias |
| LeasePool.ApplyExact | gateway/admission.py:410-567 | after every pool operation the alias map is exactly the inverse of the leases' alias sets |
| LeasePool.RunExact | gateway/admission.py:410-567 | and so after every run |
| LeasePool.GrantWithinLimits | gateway/admission.py:438-458 | a granted slot leaves both counts within the limits, however many leases were restored before |
| LeasePool.AcquireGrants | gateway/admission.py:423-458 | a slot is granted exactly while fewer leases live than either limit allows and none of the aliases is bound to one; the lease is the one asked for, with a whole time to live ahead, and all others stay |
| LeasePool.RestoreRestores | gateway/admission.py:460-519 | a restore conflicts exactly if its aliases are bound to two live leases or to one of another owner; otherwise the one they are bound to, or a new one, has them and a whole time to live ahead |
| LeasePool.BindBinds | gateway/admission.py:521-541 | binding succeeds exactly if the lease is live and no alias is bound to another live one; the lease then has the aliases besides its own and a whole time to live ahead |
| LeasePool.RenewRenews | gateway/admission.py:543-553 | a renewal succeeds exactly if the alias is bound to a live lease, and then that very lease expires one time to live after the reading, with everything else as before |
| LeasePool.ReleaseExternalDrops | gateway/admission.py:560-567 | a release through an alias answers whether it was bound to a live lease, and removes that lease and no other |
| LeasePool.NoLeaseOutlivesItsTtl | gateway/admission.py:418-553 | over any run and any readings, a lease left by the last operation was last granted or renewed by an operation read less than one time to live before |
| VideoCapacity.RestoreDurableVideoCapacity | gateway/app.py:9403-9434 | the reconciler raises exactly when one of its two passes conflicts, and otherwise leaves the pool of the two passes and the release pass |
| VideoCapacity.RestoreAllRebuilds | gateway/app.py:9425-9430 | after an undisturbed pass every visited task holds a live lease, live bindings keep their lease and owner, and no two aliases came to share one |
| VideoCapacity.NoForeignNoConflict | gateway/app.py:9425-9430 | a pass over tasks none of which is bound to somebody else's lease raises no conflict |
| VideoCapacity.ForeignConflicts | gateway/app.py:9425-9430 | a pass over a task bound, past its end, to somebody else's lease raises |
| VideoCapacity.Reconciled | gateway/app.py:9403-9434 | no alias only in the first snapshot is left; an alias of the second keeps exactly one live lease if and only if the pool did not bind it together with such an alias; other live bindings stay |
| VideoCapacity.TwoInOneReachable | gateway/admission.py:423-541 | acquiring a slot and binding two ids to it makes one lease stand for two tasks |
| VideoCapacity.SharedLeaseIsLost | gateway/app.py:9431-9433 | from the pool those two operations leave, releasing the finished task strips the running one |
| VideoCapacity.RestoreThenSettle | gateway/app.py:10086-10094 | restore before settlement, for every provider answer: the alias keeps exactly one lease of its owner, and the create lease stays beside it if and only if the answer is not terminal and the pool then binds none of the answer's ids |
| VideoCapacity.SettleThenRestore | gateway/app.py:10086-10094 | settlement before restore, for every provider answer: the alias gets exactly one lease of its owner, and the create lease stays beside it if and only if the answer is not terminal, none of its ids was bound, and the task's alias is not among them |
| VideoCapacity.OrderDoesNotMatter | gateway/app.py:10086-10094 | while no lease runs out the job is left with two slots under the same condition in either order |
| VideoCapacity.RawAnswerHoldsTwoSlots | gateway/app.py:10258-10261 | an answer that could not be persisted, settled with the provider's own id: the job holds two slots in either order |
| ConnectLocks.ConnectionConnectLocks.Enter | gateway/admin.py:182-187 | the guarded entry: the provider's lock object, made if missing, with one user more |
| ConnectLocks.ConnectionConnectLocks.Leave | gateway/admin.py:191-195 | the guarded exit: one user less, and the entry goes if unused and still the provider's |
| ConnectLocks.NextCounts | gateway/admin.py:180-195 | every step keeps each count equal to the number of tasks using the object |
| ConnectLocks.OneInside | gateway/admin.py:180-195 | two tasks for one provider never use different lock objects and at most one is inside |
| ConnectLocks.MapIsInUse | gateway/admin.py:180-195 | the map holds exactly the providers some task uses, with counts equal to those tasks |
| ConnectLocks.QuietMeansEmpty | gateway/admin.py:180-195 | once no task is between entry and exit the map is empty |
| ConnectLocks.WaitingOnSomeone | gateway/admin.py:188-189 | a task waits only while another one of its provider is inside |
| ConnectLocks.EndedMeansEmpty | gateway/admin.py:180-195 | as no task can be cancelled at its final taking of the guard, the map is empty once every task has ended, however it ended |
| ConnectLocks.CancelledLeaves | gateway/admin.py:180-195 | a task that finished or was cancelled, wherever it was, holds no lock and never takes one again |
| AgentContract.NormalizeLegacyAgentResult | gateway/agent_contract.py:455-502 | the in-place sealing computes the specified result or error |
| AgentContract.Document.SealModelAttribution | gateway/agent_contract.py:210-233 | the document is bound to the verified author, downgraded, or refused, as specified |
| AgentContract.Document.TrustedFinalModel | gateway/agent_contract.py:163-184 | the loop finds the model of all verified receipts or reports their contradiction |
| AgentContract.TrustedAgrees | gateway/agent_contract.py:163-184 | a model is trusted exactly when no receipt contradicts and all that name a model name it |
| AgentContract.SealDecides | gateway/agent_contract.py:210-233 | a document can be sealed exactly if its receipts agree and a model they name is the one it names |
| AgentContract.SealRecords | gateway/agent_contract.py:187-233 | a document sealed for another model than the local engine is left as it was; one sealed for the local engine keeps no name but a digest of all it named |
| AgentContract.NormalizedIsSealed | gateway/agent_contract.py:455-502 | the result validates, and its model is the local engine or the one model all verified receipts agree on, with the actual model to match |
| AgentContract.NormalizedOutcome | gateway/agent_contract.py:467-493 | a given outcome is kept; without one a reply nothing stopped is completed_unverified and kept, a stopped turn is partial with progress and failed without, and so is a silent one, with the fixed reply, the local model and the reason empty_response |
| AgentContract.NormalizedKeeps | gateway/agent_contract.py:465-502 | every other field but the claims about the model stays as it was |
| AgentContract.LegacyAcceptedIff | gateway/agent_contract.py:467-502 | exactly which documents without an outcome are accepted |
| AgentContract.GivenAcceptedIff | gateway/agent_contract.py:465-502 | a document with an outcome is accepted exactly if its receipts vouch for its author and the rest of it, with the defaults, satisfies the contract |
| AgentContract.NormalizeFixes | gateway/agent_contract.py:455-502 | the documents left alone are exactly the valid, settled and attributed ones |
| AgentContract.NormalizeIdempotent | gateway/agent_contract.py:455-502 | sealing a sealed result changes nothing |
| AgentContract.NeverPromoted | gateway/agent_contract.py:455-463 | a completed result was given as completed, verified and machine-verified |
| FramedIo.ReadExact | cli/isolated_plugin_worker_entrypoint.py:20-29 | for any short reads, exactly the bytes asked for, or the error with the stream drained |
| FramedIo.ReadFrame | cli/isolated_plugin_worker_entrypoint.py:32-40 | for any short reads, the outcome of parsing everything the stream had left |
| FramedIo.WriteFrame | cli/isolated_plugin_worker_entrypoint.py:43-48 | the whole frame is written, or nothing and the error |
| FramedIo.AcceptedIffFrame | cli/isolated_plugin_worker_entrypoint.py:32-40 | a stream is accepted with a body exactly when it is the four-byte big-endian length and that body, within bounds, and nothing after |
| FramedIo.FramesAreExact | cli/isolated_plugin_worker_entrypoint.py:32-40 | every proper prefix of an accepted stream is reported truncated, every extension trailing |
| FramedIo.FailureMeans | cli/isolated_plugin_worker_entrypoint.py:32-40 | each failure of the reader holds exactly for a length out of bounds, a frame with something after it, or the beginning of a frame |
| FramedIo.Exchange | cli/isolated_plugin_worker_entrypoint.py:32-48 | what is written is read back, for every body within bounds and however the bytes arrive |
| StreamingAsr.GatherFrames | gateway/asr_nemotron.py:130-141 | for any audio length the number of windows, every index in bounds, and the contents of each window |
| StreamingAsr.EverySampleFramed | gateway/asr_nemotron.py:137-141 | every sample lies in some window |
| StreamingAsr.PaddedRestores | gateway/asr_nemotron.py:126-135 | the audio can be restored from the pre-emphasised one between its two half windows of silence |
| StreamingAsr.MainsAreTheSpectrum | gateway/asr_nemotron.py:303-315 | what the encoder is told is there of each chunk, past the frames kept from before, concatenates to the spectrum |
| StreamingAsr.PrefixIsThePrecedingFrames | gateway/asr_nemotron.py:309-313 | each later chunk is led by exactly the nine preceding frames, which end the chunk before |
| StreamingAsr.RestIsSilence | gateway/asr_nemotron.py:308-315 | before the first chunk and past the length told to the encoder there is silence |
| StreamingAsr.EncoderIsThreaded | gateway/asr_nemotron.py:303-326 | the encoder is called once for each chunk begun, with the length of what is there and the cache the call before left |
| StreamingAsr.RunPipeline | gateway/asr_nemotron.py:286-347 | the streaming loops emit what decoding all encoder frames at once emits |
| StreamingAsr.DecodeConcat | gateway/asr_nemotron.py:327-344 | decoding does not depend on where the frames are cut into chunks |
| StreamingAsr.DecodeFrameIsGreedy | gateway/asr_nemotron.py:329-344 | a frame's symbols are the one greedy sequence up to a blank or the limit, and the blank leaves no trace |
| StreamingAsr.SymbolsBounded | gateway/asr_nemotron.py:329-344 | no blank is emitted, and at most ten symbols a frame |

## Left out

- HTTP routing, header parsing, authentication, response bodies and status codes.
- SHA-256 and HMAC, receipt attestation, JSON decoding and regular expressions: parameters or plain fields.
- Text normalisation of route rows (`strip`, `casefold`, family and domain normalisers): a row carries the results.
- Sorted iteration in the matching and insertion order of dictionaries: the model takes any order.
- Characters are Unicode scalar values, so the encoding errors of lone surrogates do not arise.
- DurableTurn: byte budgets of the receipt store, the semantic cache, and the paths of unauthenticated or non-channel requests.
- DurableTurn: the lease length is the default of ninety seconds; it can be configured.
- DurableTurn: failure, conflict and in-progress replies are one stage (`Done`); their status codes are not distinguished.
- DurableTurn.ProviderCallsBounded: counts entries into the agent call, not the provider attempts the agent makes inside it.
- AssetControl: writer ownership locks, access-control lists and the platform file calls; one writer per store is assumed by opening one store at a time.
- AssetControl: the on-disk anchor file and database generations of the store, and provisioning of a new store beyond the bind.
- AssetControl: re-anchoring and operator transactions of Root, other than their effect on status, identity and revision.
- AssetAuthority.StepKeepsLockstep: the digests' collision freedom is not modelled; proofs are compared as pairs.
- AdmissionGate: waiting for the asyncio lock, since no holder suspends inside it.
- AdmissionCalls: requests that never reach the gate (other paths, no or ambiguous or unknown credentials), and the health probe.
- DailyCounter.NextCounted: the counter thread and its transaction are a step relation on values rather than a method over a database object, because other threads act between its steps.
- DailyCounter: the wait between attempts, the wall clock that picks the day, and rows damaged from outside.
- DailyCounter.CountHolds: one fixed limit for all processes.
- LeasePool: the validation of kinds, ids and buckets, the limit of eight aliases a call, and the random draw of tokens, which is a parameter never in use already.
- LeasePool.BackgroundJobLeasePool.RenewExternal: the alias arrives already validated.
- VideoCapacity.Reconciled: assumes that the second pass and the release pass together take less than one time to live and that no lease runs out in between, as both run without suspension.
- ConnectLocks: fairness of waiting, and the promotion lock with its rollback, which is a plain set, reload and restore.
- AgentContract: the public projection of a sealed result, and which of the errors is raised.
- StreamingAsr: the Hann window, the Fourier transform, the filter bank and the networks themselves, 32-bit rounding, and the joining of symbols into text.
- FramedIo: the JSON request and result inside the frames, and the isolation launcher.
- Telegram, Feishu, the desktop application, media generation, memory, orchestration loops and the command line.
