/**
 How heartbeats bound a lease: a client that beats in time keeps it, a silent one
 loses it (lease.go with the client's choice of time to live in cmd/cube/main.go).
 */
module LeaseTimes {
  import opened Wrappers
  import opened Text
  import opened LoadBalance
  import opened LeaseMachine
  import opened LeaseInvariant
  import opened LeaseSteps
  import opened LeaseMoves
  import opened LeaseRuns
  import opened LeaseTheorems

  // ---------- The client's time to live ----------

  const TWO_63 := 0x8000_0000_0000_0000
  const TWO_64 := 0x1_0000_0000_0000_0000

  /** Four heartbeat intervals as a 64-bit product. */
  function FourTimes(interval: int): int {
    var r := (4 * interval) % TWO_64;
    if r >= TWO_63 then r - TWO_64 else r
  }

  function CubeTtlSeconds(interval: int): int {
    var ttl := FourTimes(interval);
    var atLeast := if ttl < DEFAULT_TTL then DEFAULT_TTL else ttl;
    var capped := if atLeast > MAX_TTL then MAX_TTL else atLeast;
    capped / SECOND
  }

  /** For any interval, even one whose product overflows, the server takes the client's request as it is. */
  lemma CubeTtlIsKept(interval: int)
    ensures 90 <= CubeTtlSeconds(interval) <= 1800
    ensures NormalizeTtl(CubeTtlSeconds(interval) * SECOND) == CubeTtlSeconds(interval) * SECOND >= DEFAULT_TTL
  {
  }

  /** Short of overflow the client asks for four heartbeat intervals in whole seconds, at least 90 and at most 1800. */
  lemma AsksForFourBeats(interval: int)
    requires 0 <= 4 * interval < TWO_63
    ensures 90_000_000_000 <= 4 * interval <= 1_800_000_000_000 ==>
      4 * interval - 1_000_000_000 < CubeTtlSeconds(interval) * 1_000_000_000 <= 4 * interval
    ensures 4 * interval < 90_000_000_000 ==> CubeTtlSeconds(interval) == 90
    ensures 4 * interval > 1_800_000_000_000 ==> CubeTtlSeconds(interval) == 1800
  {
    assert FourTimes(interval) == 4 * interval;
  }

  // ---------- Beating in time ----------

  /** Whatever is asked for the lease lasts at least `ttl`. */
  predicate AsksEnough(c: Command, leaseId: string, ttl: int) {
    match c
    case Claim(_, _, _, asked, _, _, l, _) => l == leaseId ==> NormalizeTtl(asked) >= ttl
    case Touch(l, _, _, _, asked) => TrimSpace(l) == leaseId ==> NormalizeTtl(asked) >= ttl
    case Upload(s, _, asked) => TrimSpace(s.leaseId) == leaseId ==> NormalizeTtl(asked) >= ttl
    case _ => true
  }

  predicate LongEnough(a: Option<Account>, leaseId: string, ttl: int) {
    HasLease(a, leaseId) ==> a.value.lease.expiresAt >= a.value.lease.heartbeatAt + ttl
  }

  lemma MoveKeepsLong(c: Command, now: nat, before: Option<Account>, after: Option<Account>, leaseId: string, ttl: int)
    requires Moves(c, now, before, after) && AsksEnough(c, leaseId, ttl) && LongEnough(before, leaseId, ttl)
    ensures LongEnough(after, leaseId, ttl)
  {
    hide NormalizeTtl;
  }

  lemma StepKeepsLong(w: World, c: Command, clock: int, now: nat, id: string, leaseId: string, ttl: int)
    requires Inv(w, clock) && clock <= now && 0 < now && Enabled(w, c)
    requires AsksEnough(c, leaseId, ttl) && LongEnough(On(w.doc.accounts, id), leaseId, ttl)
    ensures LongEnough(On(StepWorld(w, c, now).doc.accounts, id), leaseId, ttl)
  {
    StepMoves(w, c, clock, now, id);
    var m, a := Found(w, c, now, id), On(StepWorld(w, c, now).doc.accounts, id);
    hide Moves, On, StepWorld, Found, Inv, Enabled, Lapsed, AsksEnough;
    MoveKeepsLong(c, now, m, a, leaseId, ttl);
  }

  /** The holder gives the lease up, or the account is handed over or deleted. */
  predicate Surrenders(c: Command, id: string, leaseId: string) {
    || (c.ReleaseLease? && TrimSpace(c.leaseId) == leaseId)
    || HandsOver(c, id)
    || Deletes(c, id)
  }

  /** The last heartbeat or upload is less than `ttl` old. */
  predicate Beating(a: Option<Account>, leaseId: string, ttl: int, now: int) {
    HasLease(a, leaseId) ==> now < a.value.lease.heartbeatAt + ttl
  }

  lemma BeatingIsNotLapsed(a: Account, leaseId: string, ttl: int, now: int)
    requires HasLease(Some(a), leaseId) && LongEnough(Some(a), leaseId, ttl) && Beating(Some(a), leaseId, ttl, now)
    ensures !Lapsed(a, now)
  {
  }

  /** A lease that has not reached its expiry and is not surrendered is kept. */
  lemma StepKeepsUnexpired(w: World, c: Command, clock: int, now: nat, id: string, leaseId: string)
    requires Inv(w, clock) && clock <= now && 0 < now && Enabled(w, c) && Holds(w, id, leaseId)
    requires now < On(w.doc.accounts, id).value.lease.expiresAt && !Surrenders(c, id, leaseId)
    ensures Holds(StepWorld(w, c, now), id, leaseId)
  {
    var b := On(w.doc.accounts, id);
    assert !Lapsed(b.value, now);
    OnHasId(w.doc.accounts, id);
    hide On, StepWorld, Inv, Enabled, Lapsed;
    if !Holds(StepWorld(w, c, now), id, leaseId) {
      HoldEnds(w, c, clock, now, id, leaseId);
    }
  }

  /**
   Whatever other operations do, a lease is kept as long as each call comes before
   what the last beat asked for runs out and it is not surrendered.
   */
  lemma {:induction false} UnexpiredIsKept(w: World, start: int, run: seq<Call>, id: string, leaseId: string, j: nat, k: nat)
    requires Inv(w, start) && Legal(w, start, run) && j <= k <= |run| && Holds(At(w, run, j), id, leaseId)
    requires forall m :: j <= m < k ==> !Surrenders(run[m].command, id, leaseId)
    requires forall m :: j <= m < k ==> Unexpired(On(At(w, run, m).doc.accounts, id), leaseId, run[m].at)
    ensures Holds(At(w, run, k), id, leaseId)
  {
    if j < k {
      UnexpiredIsKept(w, start, run, id, leaseId, j, k - 1);
      CallFacts(w, start, run, k - 1);
      var v, c, clock, now := At(w, run, k - 1), run[k - 1].command, Clock(start, run[..k - 1]), run[k - 1].at;
      assert Unexpired(On(v.doc.accounts, id), leaseId, now);
      hide Inv, Legal, At, Enabled, On, StepWorld, Clock, Surrenders;
      StepKeepsUnexpired(v, c, clock, now, id, leaseId);
    }
  }

  predicate Unexpired(a: Option<Account>, leaseId: string, now: int) {
    HasLease(a, leaseId) ==> now < a.value.lease.expiresAt
  }

  lemma StepKeepsBeating(w: World, c: Command, clock: int, now: nat, id: string, leaseId: string, ttl: int)
    requires Inv(w, clock) && clock <= now && 0 < now && Enabled(w, c) && Holds(w, id, leaseId)
    requires var b := On(w.doc.accounts, id); LongEnough(b, leaseId, ttl) && Beating(b, leaseId, ttl, now)
    requires !Surrenders(c, id, leaseId)
    ensures Holds(StepWorld(w, c, now), id, leaseId)
  {
    var b := On(w.doc.accounts, id);
    BeatingIsNotLapsed(b.value, leaseId, ttl, now);
    OnHasId(w.doc.accounts, id);
    hide On, StepWorld, Inv, Enabled, Lapsed, LongEnough, Beating;
    if !Holds(StepWorld(w, c, now), id, leaseId) {
      HoldEnds(w, c, clock, now, id, leaseId);
    }
  }

  /** Whatever other operations do, a lease that beats in time and is not surrendered is kept. */
  lemma {:induction false} BeatingKeepsTheLease(w: World, start: int, run: seq<Call>, id: string, leaseId: string,
      ttl: int, j: nat, k: nat)
    requires Inv(w, start) && Legal(w, start, run) && j <= k <= |run| && Holds(At(w, run, j), id, leaseId)
    requires LongEnough(On(At(w, run, j).doc.accounts, id), leaseId, ttl)
    requires forall m :: j <= m < k ==>
      AsksEnough(run[m].command, leaseId, ttl) && !Surrenders(run[m].command, id, leaseId)
    requires forall m :: j <= m < k ==> Beating(On(At(w, run, m).doc.accounts, id), leaseId, ttl, run[m].at)
    ensures Holds(At(w, run, k), id, leaseId) && LongEnough(On(At(w, run, k).doc.accounts, id), leaseId, ttl)
  {
    if j < k {
      BeatingKeepsTheLease(w, start, run, id, leaseId, ttl, j, k - 1);
      CallFacts(w, start, run, k - 1);
      var v, c, clock, now := At(w, run, k - 1), run[k - 1].command, Clock(start, run[..k - 1]), run[k - 1].at;
      assert Beating(On(v.doc.accounts, id), leaseId, ttl, now);
      hide Inv, Legal, At, Enabled, On, StepWorld, Clock, Holds, LongEnough, Beating, AsksEnough, Surrenders;
      StepKeepsBeating(v, c, clock, now, id, leaseId, ttl);
      StepKeepsLong(v, c, clock, now, id, leaseId, ttl);
    }
  }

  /** A claim starts such a lease when it asks for enough. */
  lemma ClaimStartsLong(w: World, c: Command, clock: int, now: nat, id: string, leaseId: string, ttl: int)
    requires Inv(w, clock) && clock <= now && 0 < now && Enabled(w, c)
    requires !Holds(w, id, leaseId) && Holds(StepWorld(w, c, now), id, leaseId) && AsksEnough(c, leaseId, ttl)
    ensures LongEnough(On(StepWorld(w, c, now).doc.accounts, id), leaseId, ttl)
  {
    StepKeepsLong(w, c, clock, now, id, leaseId, ttl);
  }

  // ---------- Beating ----------

  lemma TouchFinds(doc: Doc, c: Command, now: nat) returns (i: nat)
    requires c.Touch? && Decide(doc, c, now).reply.With?
    ensures var accounts, d := Swept(doc, now).accounts, Decide(doc, c, now);
      && i < |accounts| && accounts[i].lease.id == TrimSpace(c.leaseId) != "" && Active(accounts[i], now)
      && d == Decision(true, [Renew(i, Renewed(accounts[i], c.holder, c.ttl, now))],
                       With(Renewed(accounts[i], c.holder, c.ttl, now)))
  {
    hide Swept, Renewed;
    i := FindLease(Swept(doc, now).accounts, c.accountId, c.leaseId);
  }

  /** A successful heartbeat is recorded at its instant, and asks for its time to live from then on. */
  lemma {:induction false} HeartbeatRestarts(w: World, c: Command, clock: int, now: nat)
    requires Inv(w, clock) && clock <= now && 0 < now && c.Touch? && Decide(w.doc, c, now).reply.With?
    ensures var a := Decide(w.doc, c, now).reply.account;
      && On(StepWorld(w, c, now).doc.accounts, a.id) == Some(a)
      && Holds(w, a.id, TrimSpace(c.leaseId)) && Holds(StepWorld(w, c, now), a.id, TrimSpace(c.leaseId))
      && a.lease.heartbeatAt == now && a.lease.expiresAt == now + NormalizeTtl(c.ttl)
  {
    InvAges(w, clock, now);
    SweepStarts(w, c, now);
    SweepWorks(w, c, now);
    var v := SweptWorld(w, now);
    var i := TouchFinds(w.doc, c, now);
    var accounts := v.doc.accounts;
    hide Inv, AllAllowed, SweptWorld, Swept, StepWorld, Decide, AllSettled, NormalizeTtl;
    FindInv(v, now, i);
    OnSwept(w.doc.accounts, accounts, now, accounts[i].id);
    RenewLands(w, c, i, Renewed(accounts[i], c.holder, c.ttl, now), now);
  }

  /** A sweep takes a lease exactly when it has reached its expiry. */
  lemma {:induction false} SweepTakesIff(w: World, clock: int, now: nat, id: string, leaseId: string)
    requires Inv(w, clock) && clock <= now && 0 < now && Holds(w, id, leaseId)
    ensures Holds(StepWorld(w, Sweep, now), id, leaseId) <==> now < On(w.doc.accounts, id).value.lease.expiresAt
  {
    InvAges(w, clock, now);
    SweepWorks(w, Sweep, now);
    OnSwept(w.doc.accounts, SweptWorld(w, now).doc.accounts, now, id);
    SweepIsSwept(w, now);
    var a := On(w.doc.accounts, id).value;
    assert AccountOk(a, w.log, now);
    hide Inv, SweptWorld, StepWorld, On;
    assert Lapsed(a, now) <==> a.lease.expiresAt <= now;
  }

  lemma SweepIsSwept(w: World, now: nat)
    ensures StepWorld(w, Sweep, now) == SweptWorld(w, now)
  {
    hide SweptWorld;
  }

  /**
   An upload asks for 90 seconds only, whatever the heartbeats ask for: a client
   that beats less often than that loses the lease to a sweep before its next beat.
   */
  lemma {:induction false} UploadCutsTheLease(w: World, c: Command, clock: int, now: nat, id: string, later: nat)
    requires Inv(w, clock) && clock <= now && 0 < now && Enabled(w, c) && Accepts(w, c, now, id) && c.ttl == DEFAULT_TTL
    requires now <= later
    ensures Holds(StepWorld(StepWorld(w, c, now), Sweep, later), id, TrimSpace(c.snapshot.leaseId))
      <==> later < now + DEFAULT_TTL
  {
    AcceptedUpload(w, c, clock, now, id);
    StepKeepsInv(w, c, clock, now);
    hide Inv, Decide, StepWorld, On, Enabled;
    SweepTakesIff(StepWorld(w, c, now), now, later, id, TrimSpace(c.snapshot.leaseId));
  }

  // ---------- Silence ----------

  /** Thirty minutes after its last heartbeat a lease is inactive, whatever was asked for. */
  lemma SilentIsInactive(w: World, clock: int, id: string, now: int)
    requires Inv(w, clock) && On(w.doc.accounts, id).Some?
    requires now >= On(w.doc.accounts, id).value.lease.heartbeatAt + MAX_TTL
    ensures !Active(On(w.doc.accounts, id).value, now)
  {
    var i := Find(w.doc.accounts, id);
    assert AccountOk(w.doc.accounts[i], w.log, clock);
  }

  /** Only a heartbeat or an upload under a lease moves its last heartbeat. */
  predicate Beats(c: Command, leaseId: string) {
    (c.Touch? || c.Upload?) && Credential(c) == Some(leaseId)
  }

  lemma MoveKeepsHeartbeat(c: Command, now: nat, before: Option<Account>, after: Option<Account>, leaseId: string)
    requires Moves(c, now, before, after) && HasLease(before, leaseId) && HasLease(after, leaseId) && !Beats(c, leaseId)
    ensures after.value.lease == before.value.lease
  {
  }

  lemma StepKeepsHeartbeat(w: World, c: Command, clock: int, now: nat, id: string, leaseId: string)
    requires Inv(w, clock) && clock <= now && 0 < now && Enabled(w, c) && !Beats(c, leaseId)
    requires Holds(w, id, leaseId) && Holds(StepWorld(w, c, now), id, leaseId)
    ensures On(StepWorld(w, c, now).doc.accounts, id).value.lease == On(w.doc.accounts, id).value.lease
  {
    StepMoves(w, c, clock, now, id);
    HeldIsUsed(w, clock, id, leaseId);
    var m, a := Found(w, c, now, id), On(StepWorld(w, c, now).doc.accounts, id);
    hide Moves, On, StepWorld, Found, Inv, Lapsed, Beats;
    if !HasLease(m, leaseId) {
      MoveHolds(c, now, m, a, leaseId);
    }
    MoveKeepsHeartbeat(c, now, m, a, leaseId);
  }

  lemma {:induction false} SilentLeaseStands(w: World, start: int, run: seq<Call>, id: string, leaseId: string,
      j: nat, k: nat)
    requires Inv(w, start) && Legal(w, start, run) && j <= k <= |run|
    requires Holds(At(w, run, j), id, leaseId) && Holds(At(w, run, k), id, leaseId)
    requires forall m :: j <= m < k ==> !Beats(run[m].command, leaseId)
    ensures On(At(w, run, k).doc.accounts, id).value.lease == On(At(w, run, j).doc.accounts, id).value.lease
  {
    if j < k {
      HeldOverAnInterval(w, start, run, id, leaseId, j, k - 1, k);
      SilentLeaseStands(w, start, run, id, leaseId, j, k - 1);
      CallFacts(w, start, run, k - 1);
      hide Inv, Legal, At, Enabled, On, StepWorld, Clock, Beats, Active, Gone;
      StepKeepsHeartbeat(At(w, run, k - 1), run[k - 1].command, Clock(start, run[..k - 1]), run[k - 1].at, id, leaseId);
    }
  }

  /** A lease silent for thirty minutes is inactive at every later instant. */
  lemma {:induction false} SilentLeaseDies(w: World, start: int, run: seq<Call>, id: string, leaseId: string, j: nat,
      k: nat, now: int)
    requires Inv(w, start) && Legal(w, start, run) && j <= k <= |run|
    requires Holds(At(w, run, j), id, leaseId) && Holds(At(w, run, k), id, leaseId)
    requires forall m :: j <= m < k ==> !Beats(run[m].command, leaseId)
    requires now >= On(At(w, run, j).doc.accounts, id).value.lease.heartbeatAt + MAX_TTL
    ensures !Active(On(At(w, run, k).doc.accounts, id).value, now)
  {
    SilentLeaseStands(w, start, run, id, leaseId, j, k);
    PrefixLegal(w, start, run, k);
    RunKeepsInv(w, start, run[..k]);
    hide Inv, Legal, Beats, Active;
    SilentIsInactive(At(w, run, k), Clock(start, run[..k]), id, now);
  }
}
