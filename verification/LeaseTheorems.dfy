/**
 The guarantees of the lease protocol over every legal run.
 */
module LeaseTheorems {
  import opened Wrappers
  import opened Text
  import opened LoadBalance
  import opened LeaseMachine
  import opened LeaseInvariant
  import opened LeaseSteps
  import opened LeaseMoves
  import opened LeaseRuns
  import FreshNames

  // ---------- Exclusivity ----------

  /** Call `k` gives the account this lease. */
  predicate Takes(w: World, run: seq<Call>, k: nat, id: string, leaseId: string)
    requires k < |run|
  {
    !Holds(At(w, run, k), id, leaseId) && Holds(At(w, run, k + 1), id, leaseId)
  }

  /** A lease once held is still held on that account, or gone. */
  lemma {:induction false} HeldOrGone(w: World, start: int, run: seq<Call>, id: string, leaseId: string, j: nat, k: nat)
    requires Inv(w, start) && Legal(w, start, run) && j <= k <= |run| && Holds(At(w, run, j), id, leaseId)
    ensures Holds(At(w, run, k), id, leaseId) || Gone(At(w, run, k), leaseId)
  {
    hide Inv, Gone, Legal, At, Enabled, Holds, StepWorld, Clock;
    if j < k {
      HeldOrGone(w, start, run, id, leaseId, j, k - 1);
      CallFacts(w, start, run, k - 1);
      var v, c, clock, now := At(w, run, k - 1), run[k - 1].command, Clock(start, run[..k - 1]), run[k - 1].at;
      if Gone(v, leaseId) {
        StepKeepsGone(v, c, clock, now, leaseId);
      } else if !Holds(StepWorld(v, c, now), id, leaseId) {
        LostIsGone(v, c, clock, now, id, leaseId);
      }
    }
  }

  /** A lease is held over one interval of the run. */
  lemma {:induction false} HeldOverAnInterval(w: World, start: int, run: seq<Call>, id: string, leaseId: string,
      j: nat, m: nat, k: nat)
    requires Inv(w, start) && Legal(w, start, run) && j <= m <= k <= |run|
    requires Holds(At(w, run, j), id, leaseId) && Holds(At(w, run, k), id, leaseId)
    ensures Holds(At(w, run, m), id, leaseId)
  {
    HeldOrGone(w, start, run, id, leaseId, j, m);
    if Gone(At(w, run, m), leaseId) {
      GoneForGood(w, start, run, leaseId, m, k);
    }
  }

  /** The call that ends a lease, and how it ends it. */
  lemma {:induction false} EndPoint(w: World, start: int, run: seq<Call>, id: string, leaseId: string, j: nat,
      k: nat) returns (m: nat)
    requires Inv(w, start) && Legal(w, start, run) && j <= k <= |run|
    requires Holds(At(w, run, j), id, leaseId) && !Holds(At(w, run, k), id, leaseId)
    ensures j <= m < k && Holds(At(w, run, m), id, leaseId)
    ensures Ends(run[m].command, On(At(w, run, m).doc.accounts, id).value, run[m].at)
  {
    hide Inv, Legal, At, Enabled, Holds, Ends, StepWorld, Clock;
    assert j < k;
    if Holds(At(w, run, k - 1), id, leaseId) {
      m := k - 1;
      CallFacts(w, start, run, m);
      HoldEnds(At(w, run, m), run[m].command, Clock(start, run[..m]), run[m].at, id, leaseId);
    } else {
      m := EndPoint(w, start, run, id, leaseId, j, k - 1);
    }
  }

  /** An account that a call gives a lease has none before that call, not even a lapsed one. */
  lemma {:induction false} TakenWasFree(w: World, start: int, run: seq<Call>, k: nat, id: string, leaseId: string)
    requires Inv(w, start) && Legal(w, start, run) && k < |run| && Takes(w, run, k, id, leaseId)
    ensures run[k].command.Claim? && run[k].command.leaseId == leaseId && Life(At(w, run, k).log, leaseId) == []
    ensures forall other :: !Holds(At(w, run, k), id, other)
  {
    CallFacts(w, start, run, k);
    hide Inv, Legal, At, StepWorld, Clock, On;
    HoldStarts(At(w, run, k), run[k].command, Clock(start, run[..k]), run[k].at, id, leaseId);
  }

  /**
   Two leases on one account never overlap: before the call that grants the second,
   a call after the first one's claim has ended the first, and it is gone.
   */
  lemma {:induction false} GrantsAreDisjoint(w: World, start: int, run: seq<Call>, id: string, first: string,
      second: string, p: nat, q: nat)
    returns (m: nat)
    requires Inv(w, start) && Legal(w, start, run) && p < q < |run|
    requires Takes(w, run, p, id, first) && Takes(w, run, q, id, second)
    ensures first != second && p < m < q && Holds(At(w, run, m), id, first)
    ensures Ends(run[m].command, On(At(w, run, m).doc.accounts, id).value, run[m].at)
    ensures Gone(At(w, run, q), first)
  {
    hide Inv, Legal, At, Ends, Life, Holds, On;
    HeldOrGone(w, start, run, id, first, p + 1, q);
    TakenWasFree(w, start, run, q, id, second);
    GoneIsUsed(At(w, run, q), first);
    m := EndPoint(w, start, run, id, first, p + 1, q);
  }

  lemma GoneIsUsed(w: World, leaseId: string)
    ensures Gone(w, leaseId) ==> Life(w.log, leaseId) != []
  {
  }

  lemma OneLeasePerAccount(w: World, id: string, a: string, b: string)
    ensures Holds(w, id, a) && Holds(w, id, b) ==> a == b
  {
  }

  // ---------- Fencing ----------

  /** Once a lease was lost, no later call under it succeeds or writes anything but a sweep. */
  lemma {:induction false} FencedForGood(w: World, start: int, run: seq<Call>, id: string, leaseId: string, j: nat,
      k: nat, m: nat)
    requires Inv(w, start) && Legal(w, start, run) && j <= k <= m < |run|
    requires Holds(At(w, run, j), id, leaseId) && !Holds(At(w, run, k), id, leaseId)
    requires Credential(run[m].command) == Some(leaseId)
    ensures Decide(At(w, run, m).doc, run[m].command, run[m].at).reply.Failed?
    ensures Decide(At(w, run, m).doc, run[m].command, run[m].at).writes == []
  {
    HeldOrGone(w, start, run, id, leaseId, j, k);
    GoneForGood(w, start, run, leaseId, k, m);
    CallFacts(w, start, run, m);
    hide Inv, Legal, At, Enabled, Decide, Gone, StepWorld;
    GoneIsRefused(At(w, run, m), run[m].command, Clock(start, run[..m]), run[m].at, leaseId);
  }

  // ---------- Quarantine ----------

  predicate NotReady(a: Option<Account>) {
    a.Some? && a.value.status != Ready
  }

  /** The command is about this account; a profile is about the account it is stored as. */
  predicate Concerns(accounts: seq<Account>, c: Command, id: string) {
    match c
    case UpsertSnapshot(p, _) =>
      var i := ProfileIndex(accounts, p);
      i < |accounts| && accounts[i].id == id
    case _ => Names(c, id)
  }

  /** A supported quota result, an explicit ready status, or deletion of the account. */
  predicate Restores(accounts: seq<Account>, c: Command, id: string) {
    || (Concerns(accounts, c, id) && (Explicit(c) == Known(Ready) || QuotaStatusOf(c) == Supported))
    || Deletes(c, id)
  }

  /** A snapshot stored as another account leaves this one alone. */
  lemma {:induction false} SnapshotElsewhere(w: World, c: Command, now: nat, id: string)
    requires c.UpsertSnapshot? && UniqueIds(w.doc.accounts) && !Concerns(w.doc.accounts, c, id)
    requires On(w.doc.accounts, id).Some?
    ensures On(StepWorld(w, c, now).doc.accounts, id) == On(w.doc.accounts, id)
  {
    var stored := Upsert(w.doc.accounts, c.profile, now);
    SnapshotWrites(w.doc, c, now);
    UpsertMayStore(w.doc.accounts, c.profile, c, now);
    var xs := Decide(w.doc, c, now).writes;
    hide Decide, Upsert, On, ProfileIndex, Concerns;
    if xs != [] {
      PutOne(w, xs[0], now);
      match xs[0]
      case Update(i, a) => OnReplaced(w.doc.accounts, i, a, id);
      case Add(a) => OnAdded(w.doc.accounts, a, id);
    }
  }

  /** A snapshot makes no write, or updates the account the profile is for, or adds one. */
  lemma SnapshotWrites(doc: Doc, c: Command, now: nat)
    requires c.UpsertSnapshot? && UniqueIds(doc.accounts)
    ensures var d, accounts := Decide(doc, c, now), doc.accounts;
      && !d.sweep
      && (|| d.writes == []
          || (|d.writes| == 1
              && match d.writes[0]
                 case Update(i, a) => i == ProfileIndex(accounts, c.profile) < |accounts| && a.id == accounts[i].id
                 case Add(a) => a.id !in Ids(accounts)
                 case _ => false))
  {
    var accounts := doc.accounts;
    var stored := Upsert(accounts, c.profile, now);
    UpsertMayStore(accounts, c.profile, c, now);
    UpsertIndex(accounts, c.profile, now);
    SnapshotDecides(doc, c, now);
    hide Decide, Upsert, Refined, UniqueIds, ProfileIndex, MayUpdate, Ids;
    if !stored.Refused? { RefinedKeepsId(stored.account, c.snapshot, now); }
  }

  /** With distinct ids a snapshot is stored as it is or refined. */
  lemma SnapshotDecides(doc: Doc, c: Command, now: nat)
    requires c.UpsertSnapshot? && UniqueIds(doc.accounts)
    ensures var d, s := Decide(doc, c, now), Upsert(doc.accounts, c.profile, now);
      && !d.sweep
      && (|| d.writes == Storing(s).writes
          || (!s.Refused? && d.writes == Storing(s.(account := Refined(s.account, c.snapshot, now))).writes))
  {
    hide Upsert, Refined, Refining, MayUpdate, MayAdd, Active;
    var stored := Upsert(doc.accounts, c.profile, now);
    UpsertMayStore(doc.accounts, c.profile, c, now);
    if stored.Overwritten? { RefiningOnce(doc.accounts, stored.i, stored.account, c.snapshot, now); }
  }

  lemma UpsertIndex(accounts: seq<Account>, p: Profile, now: nat)
    ensures var s := Upsert(accounts, p, now); s.Overwritten? ==> s.i == ProfileIndex(accounts, p) < |accounts|
  {
    hide ProfileIndex, IdFor, Active, FreshNames.MatchesIdPattern;
  }

  lemma RefinedKeepsId(a: Account, s: Snapshot, now: nat)
    ensures Refined(a, s, now).id == a.id
  {
  }

  lemma OnHasId(accounts: seq<Account>, id: string)
    ensures On(accounts, id).Some? ==> On(accounts, id).value.id == id
  {
  }

  lemma MoveKeepsQuarantine(c: Command, now: nat, id: string, before: Option<Account>, after: Option<Account>)
    requires Moves(c, now, before, after) && NotReady(before) && before.value.id == id && !Deletes(c, id)
    requires !(Names(c, id) && (Explicit(c) == Known(Ready) || QuotaStatusOf(c) == Supported))
    ensures NotReady(after) && (after.value.lease.id != "" ==> after.value.lease.id == before.value.lease.id)
  {
  }

  /** A sweep that takes a lapsed lease leaves the account not ready. */
  lemma {:induction false} ExpiryQuarantines(w: World, c: Command, clock: int, now: nat, id: string)
    requires Inv(w, clock) && clock <= now && 0 < now && Enabled(w, c) && Sweeps(c)
    requires var b := On(w.doc.accounts, id);
      b.Some? && Lapsed(b.value, now) && !Holds(StepWorld(w, c, now), id, b.value.lease.id)
    ensures NotReady(On(StepWorld(w, c, now).doc.accounts, id))
  {
    StepMoves(w, c, clock, now, id);
    var b, m, a := On(w.doc.accounts, id), Found(w, c, now, id), On(StepWorld(w, c, now).doc.accounts, id);
    hide Moves, On, StepWorld, Found, Inv, Enabled, Lapsed, Expired;
    MoveAfterLapse(c, now, b.value, m, a);
  }

  lemma MoveAfterLapse(c: Command, now: nat, b: Account, found: Option<Account>, after: Option<Account>)
    requires Sweeps(c) && Lapsed(b, now) && (found == Some(b) || found == Some(Expired(b, now)))
    requires Moves(c, now, found, after) && !HasLease(after, b.lease.id)
    ensures NotReady(after)
  {
    assert b.lease.id != "";
    hide Renewed, Uploaded;
  }

  lemma {:induction false} StepKeepsQuarantine(w: World, c: Command, clock: int, now: nat, id: string)
    requires Inv(w, clock) && clock <= now && 0 < now && Enabled(w, c)
    requires NotReady(On(w.doc.accounts, id)) && !Restores(w.doc.accounts, c, id)
    ensures NotReady(On(StepWorld(w, c, now).doc.accounts, id))
    ensures forall leaseId :: Holds(StepWorld(w, c, now), id, leaseId) ==> Holds(w, id, leaseId)
  {
    if c.UpsertSnapshot? && !Concerns(w.doc.accounts, c, id) {
      InvIsUnique(w, clock);
      hide On, StepWorld, Inv, Concerns;
      SnapshotElsewhere(w, c, now, id);
    } else {
      QuarantineStep(w, c, clock, now, id);
    }
  }

  lemma {:induction false} QuarantineStep(w: World, c: Command, clock: int, now: nat, id: string)
    requires Inv(w, clock) && clock <= now && 0 < now && Enabled(w, c)
    requires NotReady(On(w.doc.accounts, id)) && !Restores(w.doc.accounts, c, id)
    requires c.UpsertSnapshot? ==> Concerns(w.doc.accounts, c, id)
    ensures NotReady(On(StepWorld(w, c, now).doc.accounts, id))
    ensures forall leaseId :: Holds(StepWorld(w, c, now), id, leaseId) ==> Holds(w, id, leaseId)
  {
    StepMoves(w, c, clock, now, id);
    OnHasId(w.doc.accounts, id);
    var m, a := Found(w, c, now, id), On(StepWorld(w, c, now).doc.accounts, id);
    hide Moves, On, StepWorld, Found, Inv, Enabled, Lapsed;
    MoveKeepsQuarantine(c, now, id, m, a);
  }

  /** Until something restores it, a quarantined account is not ready. */
  lemma {:induction false} QuarantineHolds(w: World, start: int, run: seq<Call>, id: string, j: nat, k: nat)
    requires Inv(w, start) && Legal(w, start, run) && j <= k <= |run| && NotReady(On(At(w, run, j).doc.accounts, id))
    requires forall m :: j <= m < k ==> !Restores(At(w, run, m).doc.accounts, run[m].command, id)
    ensures NotReady(On(At(w, run, k).doc.accounts, id))
  {
    if j < k {
      QuarantineHolds(w, start, run, id, j, k - 1);
      CallFacts(w, start, run, k - 1);
      hide Inv, Legal, At, Enabled, On, StepWorld, Restores, NotReady, Clock;
      StepKeepsQuarantine(At(w, run, k - 1), run[k - 1].command, Clock(start, run[..k - 1]), run[k - 1].at, id);
    }
  }

  /** While it does, no claim takes it. */
  lemma {:induction false} NoClaimInQuarantine(w: World, start: int, run: seq<Call>, id: string, j: nat, k: nat,
      leaseId: string)
    requires Inv(w, start) && Legal(w, start, run) && j <= k < |run| && NotReady(On(At(w, run, j).doc.accounts, id))
    requires forall m :: j <= m <= k ==> !Restores(At(w, run, m).doc.accounts, run[m].command, id)
    ensures !Takes(w, run, k, id, leaseId)
  {
    QuarantineHolds(w, start, run, id, j, k);
    CallFacts(w, start, run, k);
    hide Inv, Legal, At, Enabled, On, StepWorld, Restores, NotReady, Clock, Holds;
    StepKeepsQuarantine(At(w, run, k), run[k].command, Clock(start, run[..k]), run[k].at, id);
  }

  /** Only an explicit status, or deletion, takes an account out of drain or disabled. */
  lemma {:induction false} StepKeepsWithdrawn(w: World, c: Command, clock: int, now: nat, id: string)
    requires Inv(w, clock) && clock <= now && 0 < now && Enabled(w, c)
    requires var b := On(w.doc.accounts, id); b.Some? && Withdrawn(b.value.status)
    requires !(Concerns(w.doc.accounts, c, id) && Explicit(c).Known?) && !Deletes(c, id)
    ensures On(StepWorld(w, c, now).doc.accounts, id).Some?
    ensures On(StepWorld(w, c, now).doc.accounts, id).value.status == On(w.doc.accounts, id).value.status
  {
    if c.UpsertSnapshot? && !Concerns(w.doc.accounts, c, id) {
      InvIsUnique(w, clock);
      hide On, StepWorld, Inv, Concerns;
      SnapshotElsewhere(w, c, now, id);
    } else {
      WithdrawnStep(w, c, clock, now, id);
    }
  }

  lemma {:induction false} WithdrawnStep(w: World, c: Command, clock: int, now: nat, id: string)
    requires Inv(w, clock) && clock <= now && 0 < now && Enabled(w, c)
    requires var b := On(w.doc.accounts, id); b.Some? && Withdrawn(b.value.status)
    requires !(Names(c, id) && Explicit(c).Known?) && !Deletes(c, id)
    ensures On(StepWorld(w, c, now).doc.accounts, id).Some?
    ensures On(StepWorld(w, c, now).doc.accounts, id).value.status == On(w.doc.accounts, id).value.status
  {
    StepMoves(w, c, clock, now, id);
    OnHasId(w.doc.accounts, id);
    var b, m, a := On(w.doc.accounts, id), Found(w, c, now, id), On(StepWorld(w, c, now).doc.accounts, id);
    hide Moves, On, StepWorld, Found, Inv, Enabled, Lapsed;
    MoveKeepsWithdrawn(c, now, m, a);
  }

  predicate Withdrawn(status: Status) {
    status == Drain || status == Disabled
  }

  lemma MoveKeepsWithdrawn(c: Command, now: nat, before: Option<Account>, after: Option<Account>)
    requires Moves(c, now, before, after) && before.Some? && Withdrawn(before.value.status)
    requires !(Names(c, before.value.id) && Explicit(c).Known?) && !Deletes(c, before.value.id)
    ensures after.Some? && after.value.status == before.value.status
  {
  }

  // ---------- Generations ----------

  predicate AtLeast(after: Option<Account>, before: Option<Account>) {
    before.Some? ==> after.Some? && after.value.generation >= before.value.generation
  }

  lemma StepKeepsGeneration(w: World, c: Command, clock: int, now: nat, id: string)
    requires Inv(w, clock) && clock <= now && 0 < now && Enabled(w, c) && !Deletes(c, id)
    requires On(w.doc.accounts, id).Some?
    ensures AtLeast(On(StepWorld(w, c, now).doc.accounts, id), On(w.doc.accounts, id))
  {
    StepMoves(w, c, clock, now, id);
    OnHasId(w.doc.accounts, id);
    var m, a := Found(w, c, now, id), On(StepWorld(w, c, now).doc.accounts, id);
    hide Moves, On, StepWorld, Found, Inv, Enabled, Lapsed;
    MoveKeepsGeneration(c, now, m, a);
  }

  lemma MoveKeepsGeneration(c: Command, now: nat, before: Option<Account>, after: Option<Account>)
    requires Moves(c, now, before, after) && before.Some? && !Deletes(c, before.value.id)
    ensures AtLeast(after, before)
  {
  }

  /** The generation of an account that is not deleted never goes down. */
  lemma {:induction false} GenerationNeverDecreases(w: World, start: int, run: seq<Call>, id: string, j: nat, k: nat)
    requires Inv(w, start) && Legal(w, start, run) && j <= k <= |run|
    requires forall m :: j <= m < k ==> !Deletes(run[m].command, id)
    ensures AtLeast(On(At(w, run, k).doc.accounts, id), On(At(w, run, j).doc.accounts, id))
  {
    if j < k {
      GenerationNeverDecreases(w, start, run, id, j, k - 1);
      CallFacts(w, start, run, k - 1);
      hide Inv, Legal, At, Enabled, On, StepWorld, Clock;
      if On(At(w, run, k - 1).doc.accounts, id).Some? {
        StepKeepsGeneration(At(w, run, k - 1), run[k - 1].command, Clock(start, run[..k - 1]), run[k - 1].at, id);
      }
    }
  }

  /** The server accepts an upload for the account. */
  predicate Accepts(w: World, c: Command, now: nat, id: string) {
    c.Upload? && Decide(w.doc, c, now).reply.With? && Decide(w.doc, c, now).reply.account.id == id
  }

  /** An accepted upload comes from the holder, names the current generation and adds one. */
  lemma {:induction false} AcceptedUpload(w: World, c: Command, clock: int, now: nat, id: string)
    requires Inv(w, clock) && clock <= now && 0 < now && Accepts(w, c, now, id)
    ensures Holds(w, id, TrimSpace(c.snapshot.leaseId))
    ensures On(w.doc.accounts, id).value.generation == c.snapshot.generation
    ensures On(StepWorld(w, c, now).doc.accounts, id).Some?
    ensures On(StepWorld(w, c, now).doc.accounts, id).value.generation == c.snapshot.generation + 1
    ensures Holds(StepWorld(w, c, now), id, TrimSpace(c.snapshot.leaseId))
    ensures var l := On(StepWorld(w, c, now).doc.accounts, id).value.lease;
      l.heartbeatAt == now && l.expiresAt == now + NormalizeTtl(c.ttl)
  {
    InvAges(w, clock, now);
    SweepStarts(w, c, now);
    SweepWorks(w, c, now);
    var v := SweptWorld(w, now);
    var i := UploadFinds(w.doc, c, now);
    var accounts := v.doc.accounts;
    hide Inv, AllAllowed, SweptWorld, Swept, StepWorld, Decide, AllSettled, NormalizeTtl;
    FindInv(v, now, i);
    OnSwept(w.doc.accounts, accounts, now, id);
    RenewLands(w, c, i, Uploaded(accounts[i], c.snapshot, c.ttl, now), now);
  }

  lemma FindInv(w: World, clock: int, i: nat)
    requires Inv(w, clock) && i < |w.doc.accounts|
    ensures On(w.doc.accounts, w.doc.accounts[i].id) == Some(w.doc.accounts[i])
    ensures UniqueIds(w.doc.accounts)
  {
    FindUnique(w.doc.accounts, i);
  }

  lemma {:induction false} UploadFinds(doc: Doc, c: Command, now: nat) returns (i: nat)
    requires c.Upload? && Decide(doc, c, now).reply.With?
    ensures var accounts, d := Swept(doc, now).accounts, Decide(doc, c, now);
      && i < |accounts| && accounts[i].generation == c.snapshot.generation
      && accounts[i].lease.id == TrimSpace(c.snapshot.leaseId) != ""
      && d == Decision(true, [Renew(i, Uploaded(accounts[i], c.snapshot, c.ttl, now))],
                       With(Uploaded(accounts[i], c.snapshot, c.ttl, now)))
      && Active(accounts[i], now)
  {
    hide Swept, Uploaded;
    i := FindLease(Swept(doc, now).accounts, c.snapshot.id, c.snapshot.leaseId);
  }

  lemma RenewLands(w: World, c: Command, i: nat, a: Account, now: nat)
    requires var v, d := SweptWorld(w, now), Decide(w.doc, c, now);
      && UniqueIds(v.doc.accounts) && i < |v.doc.accounts| && d.sweep
      && d.writes == [Renew(i, a)] && a.id == v.doc.accounts[i].id
    ensures On(StepWorld(w, c, now).doc.accounts, a.id) == Some(a)
  {
    var v := SweptWorld(w, now);
    hide On, Decide, SweptWorld;
    PutOne(v, Renew(i, a), now);
    OnReplaced(v.doc.accounts, i, a, a.id);
  }

  lemma PutOne(w: World, x: Write, now: nat)
    ensures PutWorlds(w, [x], now) == PutWorld(w, x, now)
  {
    assert [x][..0] == [];
  }

  /** So no two accepted uploads of one account start from the same generation. */
  lemma {:induction false} NoSharedBase(w: World, start: int, run: seq<Call>, id: string, p: nat, q: nat)
    requires Inv(w, start) && Legal(w, start, run) && p < q < |run|
    requires Accepts(At(w, run, p), run[p].command, run[p].at, id) && Accepts(At(w, run, q), run[q].command, run[q].at, id)
    requires forall m :: p < m < q ==> !Deletes(run[m].command, id)
    ensures run[p].command.snapshot.generation < run[q].command.snapshot.generation
  {
    CallFacts(w, start, run, p);
    CallFacts(w, start, run, q);
    GenerationNeverDecreases(w, start, run, id, p + 1, q);
    hide Inv, Legal, At, Enabled, StepWorld, On;
    AcceptedUpload(At(w, run, p), run[p].command, Clock(start, run[..p]), run[p].at, id);
    AcceptedUpload(At(w, run, q), run[q].command, Clock(start, run[..q]), run[q].at, id);
  }
}
