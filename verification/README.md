# cube20: a verified model of leases, selection and usage accounting

cube20 hands out exclusive, time-limited leases on shared accounts. This project
models what the server and its command-line client do about leases, and the
accounting and bookkeeping around them, and proves what every run of them keeps.

* **The lease machine.** `Machine.dfy` holds the document (accounts, quota cache,
  dispatch ledger) and says, operation by operation, what one critical section
  writes to it: claim, heartbeat, upload, release, sweep, quota records, profile
  uploads, discovery, edits and deletion. `Manager.dfy` is the manager itself, a class
  whose methods run the loops of the Go code on the stored document and are proved to
  store exactly that. `LeaseInvariant.dfy`, `LeaseSteps.dfy` and `LeaseMoves.dfy` show
  that every operation makes only allowed writes and what one step does to one
  account. `LeaseRuns.dfy`, `LeaseTheorems.dfy`, `LeaseTimes.dfy`, `LeaseRecords.dfy`
  and `LeaseLedger.dfy` prove the guarantees over whole runs: exclusivity, fencing,
  quarantine, generations, heartbeats, selection and the ledger. `LeaseHolding.dfy` says
  exactly when claims, heartbeats, uploads and releases succeed and what a release and a
  recovery give back; `LeaseEffects.dfy` and `AccountEffects.dfy` say field by field
  what each operation stores; `LeaseRotation.dfy` is round robin over calls;
  `LeaseExamples.dfy` holds two concrete runs. A run is any sequence of operations under a clock that never
  goes back, each claim with a lease id that was never used before.
* **Around it.** `Concurrency.dfy` interleaves threads that lock, load, save and probe,
  and shows each interleaving equal to a serial run; `CursorRuns.dfy` does the same for
  the round-robin cursor, which may be reset without a lock. `Swap.dfy` is the client's
  run loop, and `SwapServer.dfy` puts it inside a run of the server; `SwapExamples.dfy`
  holds a concrete one. `LoadBalance.dfy` is eligibility, ranking and the pick;
  `RoundRobin.dfy` is when successive picks are fair. `Ledger.dfy` is the bounded event list.
* **Accounting.** `Usage.dfy` turns session records into per-model buckets;
  `UsageEvents.dfy` regroups them into events. No token is lost or invented between.
  `UsageLaws.dfy` says what a report means in terms of the files.
* **Bookkeeping.** `RowMerge.dfy` is the conflict rule of the Postgres store;
  `Migration.dfy`, `MigrationLaws.dfy` and `MigrationRows.dfy` are the one-time migrations; `FreshNames.dfy`
  derives unused ids; `LoginLimiter.dfy` is the sliding-window limiter.
* `Text.dfy`, `Sorting.dfy` and `Wrappers.dfy` are the basics the others use.

Instants are integers in nanoseconds with 0 for Go's zero time; percentages and scores
are reals; integers are unbounded unless a row says otherwise. Errors are values of a
reply. What the source asks of the clock, of random numbers, of the file system, of
credentials and of the network is a parameter of the operation that asks it.

Where the code differs from what its own comments or the shape of the claim suggest,
the model follows the code:

* The comment at `internal/manager/manager.go:491-500` says that clients created after
  the upgrade are never enrolled, even before the first account exists. The marker is
  set only when accounts exist, so such a client is enrolled when the first account
  arrives: `MigrationLaws.FirstAccountEnrollsEarlierClients`; exactly when enrolment
  happens is `MigrationLaws.EnrollsExactly`.
* The comment above `cleanupRun` (`cmd/cube/main.go:674-683`) says that it runs on every
  exit path. The two early returns between the first claim and the loop skip it and
  leave the lease to expire. So does a claim that the server granted but whose answer the
  client cannot use (`cmd/cube/main.go:783-794`): the run never learns of that lease. And
  a release request that fails is printed and passed over (`cmd/cube/main.go:632-636`), so
  its lease stays as well. `Swap.LeaksIff` gives all the ways a run leaves a lease;
  `Swap.LostAnswerLeaks` and `Swap.FailedReleasesLeak` are runs whose every upload
  succeeded, the second with three leases at once.
* Heartbeats ask for four heartbeat intervals, but an upload of credentials always asks
  for 90 seconds (`internal/web/server.go:772`). The lease of a client that beats
  less often than every 90 seconds can be swept between an upload and its next heartbeat:
  `LeaseTimes.UploadCutsTheLease`, and `LeaseExamples.UploadRunLosesTheLease` for a run.
* Closeness of scores within 0.01 is not transitive: `LoadBalance.BetterCanCycle`. Exactly
  when the comparator is an order is `LoadBalance.BetterIsOrderIff`. That the pick does not
  depend on the stored order and that no other candidate beats it by more than 0.02
  assume just that; that it is among the best within 0.01 assumes transitive closeness on
  the candidates at hand (`LoadBalance.NearBestIsNotBest`); the safety theorems about runs
  assume neither. Round robin assumes no closeness either, but that the top group keeps
  its members and the order of their turns; keeping the members is not enough, even where
  the comparator is an order (`RoundRobin.ReorderedTopIsUnfair`), unless the members of
  each top group are pairwise close (`RoundRobin.SteadyMembers`).
  `RoundRobin.RoundRobinIsFairIff` says that the order of turns is exactly what is needed.
* Handing an account over to a client, or deleting it, ends its lease without a ledger
  event (`internal/manager/accounts.go:587-589` and `596-642`). `LeaseExamples.HandOverIsUntold`
  is such a run, and `LeaseLedger.ClaimedOnlyIff` says that these are the only ones.

## Model

| member | source | states |
|---|---|---|
| LeaseManager.ExpireAccountLeases | internal/manager/lease.go:418-442 | the sweep loop expires exactly the lapsed leases, in order, with one event each, and reports their accounts |
| LeaseManager.FindLeaseAccount | internal/manager/lease.go:443-459 | finds the first account that matches both trimmed ids, an empty id matching anything |
| LeaseManager.GatherCandidates | internal/manager/lease.go:116-127 | collects the eligible accounts of the requested pool with their scores |
| LeaseManager.Manager.RecoverExpiredLeases | internal/manager/lease.go:347-374 | stores the swept document, saving only when something lapsed, and returns the accounts to probe |
| LeaseManager.Manager.ClaimLease | internal/manager/lease.go:93-187 | stores one claim step and moves the cursor to the account granted; without candidates only the sweep is stored |
| LeaseManager.Manager.TouchLease | internal/manager/lease.go:188-224 | stores one heartbeat step; the sweep is kept when the lease is refused |
| LeaseManager.Manager.UpdateLeasedProfileSnapshot | internal/manager/lease.go:225-292 | stores one upload step; a generation conflict stores nothing, not even the sweep |
| LeaseManager.Manager.ReleaseLease | internal/manager/lease.go:302-336 | stores one release step; a lease that is found but not valid stores nothing |
| LeaseManager.Manager.WriteQuotaResult | internal/manager/quota.go:178-252 | stores the cache entry and the changes of owner, status, plan, error and generation the result calls for |
| LeaseManager.Manager.RecordQuotaResult | internal/manager/quota.go:150-177 | stores one quota record; a blank id does nothing |
| LeaseManager.Manager.RecordLeasedQuota | internal/manager/quota.go:118-149 | stores a holder's report, refused unless the lease is held at the instant the caller names |
| LeaseManager.Manager.AddAccountLocked | internal/manager/accounts.go:23-60 | appends one ready cloud account under a valid, unused id, or refuses |
| LeaseManager.Manager.AddAccount | internal/manager/accounts.go:14-18 | stores one add step |
| LeaseManager.Manager.CreateWithAuth | internal/manager/accounts.go:348-370 | adding an account and then setting its generation amounts to adding it with generation one |
| LeaseManager.Manager.ImportLiveProfile | internal/manager/accounts.go:61-130 | stores one import step: refused for a known id or known credentials |
| LeaseManager.Manager.UpsertJsonProfileLocked | internal/manager/accounts.go:281-371 | overwrites the account found by id or by credentials unless its lease is active, else creates one |
| LeaseManager.Manager.UpsertJsonProfile | internal/manager/accounts.go:272-276 | stores one upsert step |
| LeaseManager.Manager.UpsertProfileSnapshot | internal/manager/accounts.go:206-271 | stores one snapshot step; the profile stays stored when the status or owner is then refused, and the rest goes to the first account with the stored id |
| LeaseManager.SyncManagedAccounts | internal/manager/accounts.go:424-473 | the discovery loop appends one account per new directory, each under the name derived for it |
| LeaseManager.Manager.ListAccounts | internal/manager/accounts.go:382-414 | stores the discovered accounts, leaves the cursor and returns all accounts sorted by id |
| LeaseManager.Manager.SelectAccountForRun | internal/manager/lease.go:15-78 | stores the discovered accounts, replies with the selected one and moves the cursor to it |
| LeaseManager.Manager.SetStatus | internal/manager/accounts.go:511-530 | stores one status step, refusing unknown statuses and ids |
| LeaseManager.Manager.SetAccountWorkspace | internal/manager/accounts.go:534-554 | stores one workspace step, refusing unknown workspaces and ids |
| LeaseManager.Manager.SetLabel | internal/manager/accounts.go:555-571 | stores one label step |
| LeaseManager.Manager.SetOwner | internal/manager/accounts.go:572-595 | stores one owner step; a hand-over to a client drops the lease |
| LeaseManager.Manager.DeleteAccount | internal/manager/accounts.go:596-642 | removes the account and resets the cursor if it pointed there |
| LeaseInvariant.WriteKeeps | internal/manager/lease.go:401-442 | every allowed write keeps account and lease ids unique, lease times bounded and the ledger sound |
| LeaseInvariant.EventIsNew | internal/manager/usage.go:227-233 | the event of an allowed write has an id no event of the history has |
| LeaseSteps.SweepWorks | internal/manager/lease.go:418-442 | after a sweep every account is as the expiry rule leaves it, and each is unleased or actively leased |
| LeaseSteps.ClaimMayGrant | internal/manager/lease.go:116-169 | the account a claim takes is a ready, unleased cloud account, and only its lease and update time change |
| LeaseSteps.UploadDecides | internal/manager/lease.go:225-292 | an upload writes nothing, or renews the active lease it names on an account whose generation it names |
| LeaseSteps.UpsertMayStore | internal/manager/accounts.go:328-346 | a profile never overwrites an account with an active lease and counts as one new generation |
| LeaseSteps.CommandBehaves | internal/manager/lease.go:84-385 | every write of every operation is an allowed one, in the document it is made to |
| LeaseSteps.StepKeepsInv | internal/manager/manager.go:329-337 | one operation keeps the invariant |
| LeaseMoves.StepMoves | internal/manager/lease.go:84-336 | one operation changes an account at most by an expiry and then by one change of its own kind |
| LeaseRuns.RunKeepsInv | internal/manager/lease.go:84-385 | every run of operations keeps the invariant |
| LeaseRuns.HoldStarts | internal/manager/lease.go:161-169 | a lease starts only by the claim with its id, on an account that was stored ready and without a lease |
| LeaseRuns.HoldEnds | internal/manager/lease.go:401-442 | a lease ends only by its release, its expiry, a hand-over to a client or an accepted deletion |
| LeaseRuns.OneAccountPerLease | internal/manager/lease.go:156-169 | no lease is on two accounts |
| LeaseRuns.GoneForGood | internal/manager/lease.go:443-473 | a lease id that no account has any more stays so for the rest of any run |
| LeaseRuns.GoneIsRefused | internal/manager/lease.go:188-336 | heartbeat, upload, release and holder's report under such an id are refused and write nothing after the sweep |
| LeaseTheorems.HeldOverAnInterval | internal/manager/lease.go:104-175 | a lease is held over one interval of the run |
| LeaseTheorems.GrantsAreDisjoint | internal/manager/lease.go:104-175 | before the call that grants a second lease on an account, a call after the first grant has ended the first, and it is gone |
| LeaseTheorems.FencedForGood | internal/manager/lease.go:401-496 | after a lease was lost no later call under it succeeds, in any continuation |
| LeaseTheorems.ExpiryQuarantines | internal/manager/lease.go:418-442 | an operation that sweeps a lapsed lease away leaves the account not ready |
| LeaseTheorems.QuarantineHolds | internal/manager/quota.go:211-240 | a not-ready account stays not ready until a supported quota result or an explicit ready status for this account restores it |
| LeaseTheorems.NoClaimInQuarantine | internal/manager/loadbalance.go:170-185 | until then no claim takes it |
| LeaseTheorems.StepKeepsWithdrawn | internal/manager/quota.go:211-240 | no sweep, quota result or other implicit change moves an account out of drain or disabled |
| LeaseTheorems.GenerationNeverDecreases | internal/manager/quota.go:235-246 | the generation of an account that is not deleted never decreases over a run |
| LeaseTheorems.AcceptedUpload | internal/manager/lease.go:267-287 | an accepted upload comes under the lease held, names the current generation and adds exactly one |
| LeaseTheorems.NoSharedBase | internal/manager/lease.go:267-287 | of two accepted uploads of an account the later names a greater generation |
| LeaseTimes.CubeTtlIsKept | cmd/cube/main.go:930-939 | for every heartbeat interval, 64-bit overflow of the product included, the client asks for 90 s to 30 min and the server takes it unchanged |
| LeaseTimes.AsksForFourBeats | cmd/cube/main.go:930-940 | short of overflow it is four heartbeat intervals in whole seconds, at least 90 seconds and at most half an hour |
| LeaseTimes.HeartbeatRestarts | internal/manager/lease.go:214-223 | a successful heartbeat is recorded at its instant and the lease then runs for the normalized time to live |
| LeaseTimes.UnexpiredIsKept | internal/manager/lease.go:418-428 | a lease that is not given up is kept as long as every call comes before what its last beat asked for runs out |
| LeaseTimes.BeatingKeepsTheLease | internal/manager/lease.go:418-428 | for any time to live: a lease whose client asks for at least that much, beats more often than that and does not give it up is kept whatever other operations run |
| LeaseTimes.SweepTakesIff | internal/manager/lease.go:418-442 | a sweep takes a lease exactly when its expiry has come |
| LeaseTimes.ClaimStartsLong | internal/manager/lease.go:160-167 | a claim that asks for at least some time to live starts a lease of at least that length |
| LeaseTimes.UploadCutsTheLease | internal/web/server.go:772 | after an accepted upload a sweep leaves the lease iff it comes within 90 s, whatever the heartbeats asked for |
| LeaseExamples.UploadRunLosesTheLease | internal/web/server.go:772 | a legal run of a claim for twenty minutes, an upload and a sweep 90 s later that takes the lease |
| LeaseTimes.SilentIsInactive | internal/manager/lease.go:386-417 | thirty minutes after its last heartbeat a lease is inactive |
| LeaseTimes.SilentLeaseDies | internal/manager/lease.go:386-417 | without heartbeat or upload a lease keeps its times over a run and is inactive at every instant from thirty minutes on |
| LeaseRecords.ClaimPicksBest | internal/manager/lease.go:111-154 | with transitive closeness the account granted is eligible, in the pool and unbeaten by more than the tolerance |
| LeaseRecords.ClaimPicksNearBest | internal/manager/lease.go:111-154 | where the comparator is an order it is unbeaten by more than twice the tolerance |
| LeaseRecords.ClaimIgnoresOrder | internal/manager/lease.go:128-133 | where the comparator is an order on the candidates, permuting the stored accounts does not change which one is taken |
| LeaseRecords.ClaimGrants | internal/manager/lease.go:156-186 | a successful claim puts the new lease, from now for the normalized time to live, on an account that had none |
| LeaseRecords.QuotaRecordKeepsLeases | internal/manager/quota.go:178-252 | a quota record, however late, changes no lease, no event and no other account |
| LeaseLedger.LedgerIsSound | internal/manager/usage.go:227-250 | every lease has no event, or one claim, or one claim and one end on the same account; the stored list is the newest 200 with distinct ids |
| LeaseLedger.ClaimedOnlyIff | internal/manager/lease.go:331-332 | in any run a lease has its claim as its only event iff it is held, or a hand-over or deletion hit its account while it was held |
| LeaseLedger.DroppedStaysClaimed | internal/manager/accounts.go:587-591 | after such a call the lease is gone and its claim is all the ledger ever says of it |
| LeaseLedger.LedgerIsComplete | internal/manager/lease.go:331-332 | a lease no such call hit is held or has its end in the ledger |
| LeaseExamples.HandOverIsUntold | internal/manager/accounts.go:587-591 | a run of a claim and a hand-over whose ledger does not tell the end |
| LeaseHolding.TouchSucceedsIff | internal/manager/lease.go:199-213 | a heartbeat succeeds iff some stored account is held under its lease past now, under the account named and by the client named |
| LeaseHolding.ReleaseSucceedsIff | internal/manager/lease.go:313-330 | the same for a release |
| LeaseHolding.UploadSucceedsIff | internal/manager/lease.go:225-269 | an upload succeeds iff it is well formed and the account so held is at the generation it names |
| LeaseHolding.ClaimSucceedsIff | internal/manager/lease.go:104-140 | a claim finds an account iff a stored account of the pool is eligible and its lease has not lapsed unswept |
| LeaseEffects.OnOfferIff | internal/manager/lease.go:104-137 | exactly which stored accounts are on offer: ready cloud accounts of the pool, with credentials and usable quota of their own, whose lease neither runs nor has run out unswept |
| LeaseEffects.OffersAreScored | internal/manager/lease.go:116-127 | the candidates of a claim are exactly these, each with the score of its own quota entry |
| LeaseHolding.ReleaseEnds | internal/manager/lease.go:331-335 | a successful release leaves the account unleased, the lease gone for good and its life in the ledger a claim and a release |
| LeaseHolding.ReleaseUndoesClaim | internal/manager/lease.go:84-336 | a claim followed by its release leaves the account as it was but for its update time |
| LeaseHolding.ProbeRestores | internal/manager/quota.go:223-240 | a healthy probe puts a recovering, unleased cloud account back on offer |
| LeaseEffects.SweepEffect | internal/manager/lease.go:401-442 | a sweep takes exactly the leases that have run out: the account is unleased, recovering if it was ready and else of the same status, with a note of the lease; nothing else of it changes, and no other account |
| LeaseEffects.LapsedComesBack | internal/manager/lease.go:347-385 | a ready account's lease runs out, a sweep takes it, a healthy probe is recorded: the account is on offer again |
| LeaseEffects.ClaimEffect | internal/manager/lease.go:154-187 | a claim leaves the swept document with one account changed in its lease, which starts now under the trimmed names for the time asked, 90 seconds if that is under 30 and half an hour at most, even where the export then fails |
| LeaseEffects.TouchEffect | internal/manager/lease.go:205-223 | a heartbeat changes the one account with the lease, in its holder if one is named, its times and its update time; refused, it leaves the swept document |
| LeaseEffects.UploadEffect | internal/manager/lease.go:225-292 | an upload renews the lease at the generation it names, counts one generation and takes over the name, plan and status it has; which refusals keep the sweep |
| LeaseEffects.ReleaseEffect | internal/manager/lease.go:302-336 | a release changes the one account with the lease, in losing it; a refusal keeps the sweep only if the lease was not found |
| LeaseEffects.ClaimMovesCursor | internal/manager/lease.go:140-175 | the cursor moves to the account that gets the lease, and stays where none does |
| LeaseEffects.SweepTells | internal/manager/usage.go:188-233 | for every lease a sweep takes the ledger gets an event with its account, client, holder, generation and times as they were |
| LeaseEffects.ClaimTells | internal/manager/usage.go:188-233 | a claim adds one event, after those of its sweep, that tells of the lease granted |
| LeaseEffects.ReleaseTells | internal/manager/usage.go:188-233 | a release adds one event that tells of the lease as it was |
| AccountEffects.RecordQuotaEffect | internal/manager/quota.go:178-252 | a record is cached with its time, reporter and first five-hour window even for an id nobody has; in its account a refusal drains ready and recovering, a supported result restores recovering, new credentials count as a generation unless refused, and only a report that says so changes the owner |
| AccountEffects.RecordLeasedSucceedsIff | internal/manager/lease.go:478-498 | a holder's report is stored iff its trimmed account id is not empty and that account has that trimmed lease id, that very trimmed client id and an expiry after the instant named |
| AccountEffects.RecordLeasedIsRecord | internal/manager/quota.go:118-149 | it then stores what a client's report without new credentials and without a change of owner stores, and nothing when refused |
| AccountEffects.WantedId | internal/manager/accounts.go:297-303 | the id a profile goes by: its own, else the cleaned one of its credentials, else a valid one nobody has |
| AccountEffects.UpsertEffect | internal/manager/accounts.go:281-371 | an uploaded profile goes to the account with its id, else to the first with its credentials, which gets one generation more unless it is leased; without one it makes a new ready cloud account of generation one |
| AccountEffects.SnapshotEffect | internal/manager/accounts.go:206-271 | a snapshot stores its profile and then refines the first account with the id stored; an unknown status or owner is refused with the profile stored |
| AccountEffects.AddEffect | internal/manager/accounts.go:23-60 | adding makes a new account of generation zero under a valid id nobody has, or is refused and stores nothing |
| AccountEffects.ImportEffect | internal/manager/accounts.go:61-130 | importing makes one of generation one, and is refused for an id or credentials some account has |
| AccountEffects.StatusEffect | internal/manager/accounts.go:511-530 | a status edit changes the first account with the id in its status alone |
| AccountEffects.WorkspaceEffect | internal/manager/accounts.go:534-554 | a workspace edit changes it in its workspace alone, a blank one being the default |
| AccountEffects.NameEffect | internal/manager/accounts.go:555-571 | a label edit changes it in its trimmed name alone |
| AccountEffects.OwnerEffect | internal/manager/accounts.go:572-595 | an owner edit stores owner and trimmed client; given to a client the account loses its lease, else it keeps it |
| AccountEffects.DeleteEffect | internal/manager/accounts.go:596-642 | a deletion takes out the first account with the id and nothing else, and resets a cursor on it |
| AccountEffects.DiscoveryEffect | internal/manager/accounts.go:424-473 | each directory gets a new account under its label, with the cleaned directory name as id if nobody has it yet and else another valid id nobody has |
| AccountEffects.DiscoveryIsAdded | internal/manager/accounts.go:392-405 | listing and selecting store just the accounts they discover, at the end |
| AccountEffects.ViewsAscend | internal/manager/accounts.go:407-413 | accounts are listed each once, in the order of their ids |
| LeaseRotation.SelectReplies | internal/manager/lease.go:28-77 | a selection replies with the chosen candidate's account and fails only without candidates |
| LeaseRotation.CandidatesAscend | internal/manager/lease.go:30-48 | a selection meets the eligible accounts in the order of their ids |
| LeaseRotation.SelectionsRotate | internal/manager/lease.go:59-77 | while the top group keeps its k members and the order of their turns, k selections in a row, each finding the cursor of the one before, hand out each exactly once |
| Ledger.AppendDispatchEvent | internal/manager/usage.go:234-250 | the loop puts the event first, drops one of the same id and keeps at most 200 |
| Ledger.AppendAllIsNewest | internal/manager/usage.go:234-250 | with distinct ids the bounded list is the newest part of the whole history |
| Ledger.NewestTwoHundred | internal/manager/usage.go:234-250 | from an empty ledger on it is the newest two hundred events of the history |
| Ledger.EventIdDecides | internal/manager/usage.go:227-233 | event ids of leases are equal only for the same lease and kind |
| Concurrency.EveryInterleavingIsSerial | internal/manager/quota.go:153-177 | whatever the interleaving, the stored document is that of a serial run of the saved operations at non-decreasing clock readings |
| Concurrency.SomeThreadCanProceed | internal/manager/manager.go:329-337 | with the mutex outside the file lock, as long as a thread is at work some thread can take its next action without giving up on a lock |
| Concurrency.ActionsUseUpWork | internal/manager/fsutil.go:58-93 | every action but a new beginning uses up work, so operations begun come to an end |
| Concurrency.InterleavingsKeepLeases | internal/manager/lease.go:347-385 | the document of any interleaving is the end of a legal run and satisfies the lease invariant |
| Concurrency.LateRecordKeepsLeases | internal/manager/quota.go:48-60 | saving a probe's record, whatever happened during the probe, changes no lease and no event |
| Concurrency.CheckExcludesLeaseWriters | internal/manager/quota.go:62-90 | while a fetch looks at an account under the file lock no operation that can claim, renew, release or sweep saves, nor one that stores a quota, a snapshot or a selection |
| Concurrency.LeasedIsNotProbed | internal/manager/quota.go:50-90 | a fetch that finds its account leased makes no probe and one that does not goes on to probe it, whatever other threads do between the look and its conclusion |
| Concurrency.ProbesKeepOwners | internal/manager/quota.go:48-60 | a probe's result is recorded for the account probed as the server's own, and changes the owner of no account |
| Concurrency.GivingUpStoresNothing | internal/manager/quota.go:70-80 | where the file lock cannot be had an operation is dropped and a fetch goes on to probe, with nothing stored |
| CursorRuns.CursorsAreSerial | internal/manager/roundrobin.go:18-70 | in every interleaving the cursor is the one the sections leave one after the other, and each selection carries the one left before it but for resets within its own section |
| CursorRuns.SelectionsAreInARow | internal/manager/lease.go:59-77 | selections that nothing touching the cursor comes between pass it on from one to the next |
| CursorRuns.InterleavedSelectionsRotate | internal/manager/lease.go:59-77 | so k of them hand out each member of a top group of k exactly once, while it keeps its members and the order of their turns |
| Swap.RunCloudRun | cmd/cube/main.go:578-672 | the server grants and the release requests of the run are exactly these, early exits and lost answers included |
| Swap.RunLoop | cmd/cube/main.go:611-644 | the loop follows the rounds one by one |
| Swap.LoopsIff | cmd/cube/main.go:613-644 | a run loops exactly as long as every round asks for a swap, finds its session, gets its lease and writes the profile down |
| Swap.EndsAt | cmd/cube/main.go:613-668 | the first round that does not ends it: its upload decides about the last release, and the run fails iff its child failed without a swap or the profile was not written |
| Swap.AtMostTwoLeases | cmd/cube/main.go:627-637 | at every moment of its loop the run holds one lease, or between a grant and the release request after it the two, and besides the leases whose request was not carried out |
| Swap.HeldAtTheEnd | cmd/cube/main.go:627-653 | after the loop it holds the lost lease, if any, the last one it got unless its release is asked for, and the leases whose request was not carried out |
| Swap.NeverMoreThanTwo | cmd/cube/main.go:592-653 | it never holds more than two, known to it or not, and one more for each request that was not carried out |
| Swap.EachLeaseReleasedOnce | cmd/cube/main.go:632-653 | every superseded lease has exactly one release request; the last one has one iff the loop ended and the upload succeeded or the run was cancelled |
| Swap.LostIsNeverReleased | cmd/cube/main.go:783-794 | a lease the run never learned of gets no release request |
| Swap.LeaksIff | cmd/cube/main.go:592-653 | a run that is over leaves a lease that no request gave back iff the answer to one of its claims was lost, or it ended in set-up, or one of its release requests was not carried out, or the last upload failed without a cancel |
| Swap.LostAnswerLeaks | cmd/cube/main.go:783-794 | a run with every upload accepted and every request carried out that leaves a lease |
| Swap.FailedReleasesLeak | cmd/cube/main.go:632-636 | a run with every upload accepted and no answer lost that holds three leases |
| SwapServer.SwapLandsElsewhere | cmd/cube/main.go:627-634 | while the server records the old lease, even a lapsed one, the new claim is on another account |
| SwapServer.SwapHoldsBoth | cmd/cube/main.go:627-634 | a lease that has not reached its expiry is still held when the next is claimed, so both are held, on different accounts |
| SwapServer.OwnSwapLandsElsewhere | cmd/cube/main.go:611-644 | in any server run that contains the client's, each claim of the loop lands on another account than the lease it leaves, unless that one was swept, handed over or deleted before; here and below the server is assumed to carry out the run's requests in the order they were made, a claim whose answer is lost included |
| SwapServer.RecordedAreFew | cmd/cube/main.go:611-653 | at every point of a server run that contains the client's, the accounts recording its leases are no more than the leases its asks so far leave it, under the same assumption on order |
| SwapServer.AtMostTwoAccounts | cmd/cube/main.go:592-653 | so they are at most two, and one more for each request that was not carried out, under the same assumption on order |
| SwapExamples.SwapIsEmbedded | cmd/cube/main.go:592-653 | a concrete client run within a legal server run: a claim, a swap and the release of the first lease, with both accounts recorded between |
| LoadBalance.EligibleMeans | internal/manager/loadbalance.go:170-235 | an eligible account is a ready, unleased cloud account with credentials, and its score lies in (5, 125) |
| LoadBalance.EligibleIff | internal/manager/loadbalance.go:170-235 | exactly when an account is eligible: a ready, unleased cloud account with credentials, whose quota is supported and leaves more than five percent in a five-hour window and, if there is one, a seven-day window, neither past its reset |
| LoadBalance.ScoreIsScarcest | internal/manager/quota.go:275-286 | its score is what is left in the window that leaves least, the five-hour one on a tie, at most 100, and up to 25 points more over the last 90 minutes before that window's reset |
| LoadBalance.ScarceWeekLoses | internal/manager/loadbalance.go:234-283 | a concrete pair: an account with 80 percent of its five hours and 10 of its week scores 10 and ranks below one with 50 percent |
| LoadBalance.ScoreIsMonotone | internal/manager/loadbalance.go:264-283 | for one reset time, more quota left or less time to the reset never scores lower |
| LoadBalance.BetterIsOrderIff | internal/manager/lease.go:128-133 | with distinct ids the comparator is a strict total order iff no three candidates with ascending ids are tied pairwise in a row while the last beats the first |
| LoadBalance.BetterIsOrder | internal/manager/lease.go:128-133 | in particular when closeness is transitive |
| LoadBalance.BetterCanCycle | internal/manager/loadbalance.go:295-298 | three candidates that beat one another in a circle |
| LoadBalance.TopGroupLen | internal/manager/loadbalance.go:284-294 | the counting loop finds the length of the first run of close scores |
| LoadBalance.TopGroupIsBest | internal/manager/loadbalance.go:284-294 | with transitive closeness, that run of the sorted candidates is exactly those no candidate beats by more than the tolerance |
| LoadBalance.SelectCandidate | internal/manager/lease.go:128-154 | sorting and the loop over the top group pick the successor of the account handed out last |
| LoadBalance.ChooseIsCandidate | internal/manager/lease.go:145-154 | the pick is a candidate, whatever the scores |
| LoadBalance.ChooseIsBest | internal/manager/lease.go:145-154 | with transitive closeness the pick is among the best |
| LoadBalance.TopGroupIsNearBest | internal/manager/loadbalance.go:284-294 | on sorted candidates, closeness transitive or not, the top run is within twice the tolerance of the best |
| LoadBalance.ChooseIsNearBest | internal/manager/lease.go:145-154 | where the comparator is an order so is the pick |
| LoadBalance.NearBestIsNotBest | internal/manager/loadbalance.go:284-298 | an ordered list whose top run has a member that another beats by more than the tolerance |
| LoadBalance.ChooseIgnoresOrder | internal/manager/lease.go:128-154 | where the comparator is an order the pick does not depend on the order of the candidates |
| RoundRobin.RoundRobinIsFair | internal/manager/lease.go:59-77 | while the top group keeps its k members and the order of their turns any k picks in a row hand out each exactly once, from any cursor; of the candidates it asks only that ids in the top group are distinct and not empty |
| RoundRobin.RoundRobinIsFairIff | internal/manager/lease.go:59-77 | for rounds with one top group of k members, every k picks drawn from them are fair from every cursor if and only if turns go round the group alike in all of them |
| RoundRobin.SteadyList | internal/manager/lease.go:59-77 | turns go alike when the top group is the same list in every round |
| RoundRobin.SteadyMembers | internal/manager/lease.go:52-77 | and when it has the same members in every round, the comparator is an order, ids are distinct and not empty and the members of each top group are pairwise close |
| RoundRobin.ReorderedTopIsUnfair | internal/manager/lease.go:52-77 | two concrete rounds with one top group and the comparator an order in both, from which three picks miss a member |
| Sorting.SortSlice | internal/manager/lease.go:128-133 | sorting in place gives the result of the sorting function |
| Sorting.SortedUnique | internal/manager/lease.go:128-133 | under a strict total order two sorted permutations are equal |
| SessionUsage.Summary.ParseRecord | internal/usage/codex.go:136-199 | one record changes the file state and books at most one delta, leaving the books balanced |
| SessionUsage.Summary.AddModelTokens | internal/usage/codex.go:216-241 | a delta is booked under its bucket in the windows it falls in |
| SessionUsage.Summary.FinishModels | internal/usage/codex.go:243-258 | the buckets are listed once each, busiest first, whatever order the map yields |
| SessionUsage.SummarizeCodexHome | internal/usage/codex.go:52-74 | the report's totals and buckets are the sums of the deltas accepted from all files |
| SessionUsage.DeltasTelescope | internal/usage/codex.go:157-187 | the deltas of a file add up to the positive variation of its running totals plus its last-turn counts |
| SessionUsage.VariationOfMonotone | internal/usage/codex.go:157-187 | for totals that never drop that variation is the last reading |
| SessionUsage.VariationCoversReadings | internal/usage/codex.go:157-187 | for totals that reset it is at least every reading |
| SessionUsage.CachedTelescopes | internal/usage/codex.go:157-187 | the cached tokens of a file's deltas are, over consecutive total readings from zero on, the increases of cached input as far as input increased, plus the cached share of its last-turn counts |
| SessionUsage.CachedOfSteady | internal/usage/codex.go:157-187 | where the cached counter never drops nor grows by more than the input they are those of the last reading |
| SessionUsage.ModelInForce | internal/usage/codex.go:136-156 | a delta is booked at its record's time to the model the file named last, "unknown" before any |
| UsageLaws.ReportReadsFiles | internal/usage/codex.go:52-74 | the all-time totals of a report are what the readings of all files come to, counter by counter |
| UsageLaws.WindowCounts | internal/usage/codex.go:209-241 | a window counts exactly the deltas with a time from its start on |
| UsageLaws.LatestIsNewest | internal/usage/codex.go:188-199 | the latest time of a report or of a bucket is the newest time of its deltas, cut to the second |
| UsageLaws.BusiestFirst | internal/usage/codex.go:243-258 | a report lists the busiest bucket of the last seven days first, and equally busy ones by name |
| UsageLaws.NamesAreBare | internal/usage/codex.go:364-371 | a bucket's name has no slash and no capital letter and is not empty |
| UsageLaws.VendorDoesNotMatter | internal/usage/codex.go:364-371 | names that differ in case or before the last slash share a bucket |
| SessionUsage.FilesCapped | internal/usage/codex.go:180-187 | every accepted delta counts no more cached input than input |
| SessionUsage.BusierIsOrder | internal/usage/codex.go:251-257 | with distinct names the report order is a strict total order |
| TokenSums.PartitionSum | internal/usage/codex.go:216-241 | splitting booked tokens by name and adding up the parts loses nothing |
| UsageEvents.UsageEventModels | internal/manager/usage_events.go:136-167 | the regrouped buckets hold, per trimmed name, the sums of the report's buckets |
| UsageEvents.UsageEventsFromSummary | internal/manager/usage_events.go:98-124 | one event per regrouped bucket |
| UsageEvents.ReportBucketsSum | internal/usage/codex.go:216-258 | the buckets of a report add up to its totals in each window |
| UsageEvents.RegroupingConserves | internal/manager/usage_events.go:136-184 | regrouping keeps every total |
| UsageEvents.EventNamesAreTheirs | internal/manager/usage_events.go:136-176 | every bucket goes under its trimmed name, one without a name under "unknown", and no event is without a name |
| UsageEvents.LatestUnderIsNewest | internal/manager/usage_events.go:150-165 | the latest time of an event is the newest among its buckets |
| UsageEvents.SingleEventReads | internal/manager/usage_events.go:136-150 | a report without buckets makes one event, under its latest model and time |
| UsageEvents.EventsConserveTokens | internal/manager/usage_events.go:98-167 | end to end, in each window the events add up to the report and the report to the accepted deltas |
| UsageEvents.EventsAreConsistent | internal/manager/usage_events.go:98-184 | in the report, every bucket and every event: total is input plus output, cached is part of input, each window is within the next larger |
| RowMerge.CloudTables.SaveState | internal/manager/store_postgres.go:461-575 | a save merges every row of the snapshot by the conflict rules, stamping missing times |
| RowMerge.UpdatedAtNeverDecreases | internal/manager/store_postgres.go:493-514 | the update time of a row never decreases over any saves |
| RowMerge.MergeKeepsNewest | internal/manager/store_postgres.go:493-514 | with one version per time, the stored row is the newest version ever saved |
| RowMerge.MergeOrderInsensitive | internal/manager/store_postgres.go:493-514 | the result depends on which versions were saved, not on their order or repetition |
| RowMerge.MergeIdempotent | internal/manager/store_postgres.go:493-514 | saving the same snapshot again changes nothing, even after other saves |
| RowMerge.UntouchedRowsSurvive | internal/manager/store_postgres.go:493-514 | a row a writer did not touch is never rolled back by its save |
| RowMerge.ReplacesIffNotOlder | internal/manager/store_postgres.go:493-514 | the save of a whole snapshot replaces each stored row exactly when its version is not older |
| RowMerge.UntimedRowIsFromNow | internal/manager/store_postgres.go:461-514 | a row saved without times counts as made at the save |
| RowMerge.NewRowIsStored | internal/manager/store_postgres.go:461-514 | a row that was not stored is stored as it is, with missing times filled in |
| RowMerge.StaleEditErasesLease | internal/manager/store_postgres.go:493-514 | the rule protects rows, not fields: an edit of a stale snapshot can overwrite another process's lease |
| RowMerge.DeletedReturnsIff | internal/manager/store_postgres.go:1099-1122 | a deleted row comes back iff some later save, however stale, still has it, so the no-deletes hypothesis is needed |
| RowMerge.RevocationIsPermanent | internal/manager/store_postgres.go:551-564 | a revoked client stays revoked through every save |
| RowMerge.RevokedIff | internal/manager/store_postgres.go:551-564 | after any saves a client is revoked iff it was stored so or some saved row of it is |
| RowMerge.LastRevocationCounts | internal/manager/store_postgres.go:551-564 | the time of its revocation is that of the last saved row that has one, else the stored one |
| RowMerge.LastUserCounts | internal/manager/store_postgres.go:551-564 | its user is that of the last saved row that names one |
| RowMerge.LastTokenCounts | internal/manager/store_postgres.go:551-564 | its token is that of the last saved row that has one |
| RowMerge.LastNameCounts | internal/manager/store_postgres.go:551-564 | its name is the last one saved and its creation time never changes |
| RowMerge.NewClientIsStored | internal/manager/store_postgres.go:539-564 | a client that was not stored is stored as its row has it, created now if it has no time |
| RowMerge.LastSeenIsRunningMaximum | internal/manager/store_postgres.go:551-564 | the last-seen time is the running maximum of what was saved |
| Migration.Document.NormalizeState | internal/manager/manager.go:411-462 | the loops give defaults to accounts and users and then run both migrations |
| Migration.Document.MigrateDefaultWorkspace | internal/manager/manager.go:501-546 | adds the default workspace when needed and enrols the clients of a legacy pool |
| Migration.Document.MigrateUsersAndDevices | internal/manager/manager.go:566-613 | creates a user for each client without one and points the client's memberships at it |
| MigrationLaws.NormalizeIsIdempotent | internal/manager/manager.go:411-462 | normalizing twice at any two clock readings is normalizing once |
| MigrationLaws.LegacyPoolEnrollsEveryClientOnce | internal/manager/manager.go:501-546 | a legacy pool ends with each client id enrolled exactly once, and marked |
| MigrationLaws.EnrollsExactly | internal/manager/manager.go:501-546 | a client gains a default membership iff the document has the legacy signature, lists it and had none for it |
| MigrationLaws.MigrationsRunOnce | internal/manager/manager.go:501-613 | after a legacy pool was migrated no later load, over any saves and edits, enrols anyone or invents a user |
| MigrationLaws.FirstAccountEnrollsEarlierClients | internal/manager/manager.go:491-546 | a document without accounts whose later first account makes an earlier client be enrolled |
| MigrationLaws.EachLegacyClientGetsItsOwnUser | internal/manager/manager.go:575-611 | created users, up to 999, have pairwise distinct valid ids and names, one per client without a user |
| MigrationRows.DefaultsRepairOnly | internal/manager/manager.go:418-431 | normalization replaces only what is missing or not valid in an account, by ready, cloud, the default workspace and generation zero |
| MigrationRows.DefaultWorkspaceIff | internal/manager/manager.go:501-521 | the default workspace is added exactly when an account needs it or the pool is legacy, and it is not there |
| MigrationRows.EnrollmentsAreMembers | internal/manager/manager.go:523-545 | enrolment keeps the memberships there and adds ordinary default memberships of listed clients, made now |
| MigrationRows.MembershipsFollowTheirClients | internal/manager/manager.go:606-610 | a membership without a user goes to the user made for the first client with its client id that had none; every other stays as it was |
| MigrationRows.UsersAreMadeForTheirClients | internal/manager/manager.go:580-604 | each user is as old as its client and has the client's cleaned name unless an earlier one took it; of the client only the user changes |
| MigrationRows.LoginNameIsTheirs | internal/manager/manager.go:584-591 | that name is the client's own in lower case, or its id where it has none, wherever that is a tidy id |
| FreshNames.SanitizeAccountId | internal/manager/identity.go:258-289 | the character loop computes the cleaned name |
| FreshNames.SanitizeShape | internal/manager/identity.go:258-289 | a cleaned name is empty or a valid account id, and cleaning is idempotent |
| FreshNames.MarksAreCleaned | internal/manager/identity.go:264-276 | a dot, an at sign, a space and a dash become a dash, an underscore stays, and other marks are dropped |
| FreshNames.SanitizeKeepsAlnums | internal/manager/identity.go:258-289 | cleaning keeps every letter and digit in order, up to the limit on the length |
| FreshNames.UniqueFromUsed | internal/manager/identity.go:44-64 | the counter loop returns the first derived name that is free |
| FreshNames.UniqueNameIsFirst | internal/manager/identity.go:44-64 | the result is the cleaned name if free, else the first free numbered one from 2 to 999, else the fallback |
| FreshNames.UniqueNameTakenIff | internal/manager/identity.go:44-64 | the derived name is in use iff the base, all 998 numbered candidates and the clock fallback are |
| FreshNames.UniqueNameIsFresh | internal/manager/identity.go:44-64 | with fewer than 999 names in use the result is unused and a valid id |
| FreshNames.BoundIsTight | internal/manager/identity.go:52-63 | 999 names that make the result one in use |
| LoginLimiter.Limiter.Allow | internal/web/auth_handlers.go:42-70 | a call is denied iff eight earlier grants of its key lie in the last minute of the full history, though old hits are pruned |
| LoginLimiter.Prune | internal/web/auth_handlers.go:54-60 | moving recent hits to the front of the slice keeps exactly those, in order |
| LoginLimiter.NoBurstBeyondLimit | internal/web/auth_handlers.go:42-70 | every half-open minute holds at most eight grants of a key |

## Left out

- HTTP routing, cookies, JSON and SQL text, static files and the dashboard: plumbing around the operations modelled here.
- The file system: credentials and directories are parameters, and failures to read or write files are not modelled.
- Quota probes and token refresh over the network: a probe returns an arbitrary result and an arbitrary "credentials changed" flag; what it does to the credentials file, as `internal/manager/quota.go:53` does too, is not in the document.
- Random tokens, hashes and passwords: lease ids are assumed new; two equal random ids are not modelled.
- Several server processes on one state file: the file lock is modelled between the threads of one process, and the operations that skip it are serialized by the mutex alone.
- Intermediate saves within one critical section (adding an account and then setting its generation, discovery before a selection) are one save: a reader without a lock could see the first.
- The instants read within one critical section are one instant.
- Postgres mode of the lease operations: advisory locks, microsecond rounding of stored times, and its separate quota and round-robin rows; only its row conflict rules are modelled.
- Eventual recovery of swept accounts and when background workers run: the code gives no such guarantee.
- The generation is an unbounded integer, not 64 bits; token counters are unbounded as well.
- Scores are exact reals: rounding of floating-point sums near the tolerance is not modelled.
- The order that sorting gives when the comparator is not an order: the model inserts from the left, as the library does on short slices; no safety theorem depends on it, and the round-robin theorems are about the top group that sorting gives.
- Reset times come parsed; malformed time texts count as unknown.
- Unicode case folding: lower-casing covers ASCII letters.
- Ledger events do not carry the names of users and devices that `internal/manager/usage.go:188-226` looks up.
- LeaseManager.Manager.ClaimLease: candidates carry ids where the source carries indices; ids are distinct in every document of a run.
- LeaseSteps.StepKeepsInv: a run that discovers directories is assumed to have at most 999 accounts and new directories together, beyond which a derived name may be one in use.
- Swap.RunCloudRun: the child process, heartbeats and uploads within a round are its outcome only; which reason asked for a swap is not modelled.
- ShouldSwapLease, quota display, refresh-queue order and usage statistics: presentation.
- Workspace, client, device, user and session edits beyond the migrations: single-field updates.
