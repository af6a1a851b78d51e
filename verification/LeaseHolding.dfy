/**
 Exactly who may act under a lease, when a claim succeeds, and what a release and
 a recovery give back.
 */
module LeaseHolding {
  import opened Wrappers
  import opened Text
  import opened LoadBalance
  import opened Ledger
  import opened LeaseMachine
  import opened LeaseInvariant
  import opened LeaseSteps
  import opened LeaseMoves
  import opened LeaseRuns
  import opened LeaseTheorems
  import opened LeaseRecords

  // ---------- Who may act ----------

  /** The account is held under this lease until after `now`, by this client if both name one. */
  predicate Acts(a: Account, accountId: string, leaseId: string, clientId: string, now: int) {
    && !Blank(leaseId) && a.lease.id == TrimSpace(leaseId) && a.lease.expiresAt > now
    && (Blank(accountId) || a.id == TrimSpace(accountId))
    && (Blank(clientId) || a.lease.clientId == "" || a.lease.clientId == TrimSpace(clientId))
  }

  /** The account found and validated after the sweep, or the number of accounts. */
  function Holder(accounts: seq<Account>, accountId: string, leaseId: string, clientId: string, now: int): nat {
    var i := FindLease(accounts, accountId, leaseId);
    if i < |accounts| && Validate(accounts[i], leaseId, clientId, now).None? then i else |accounts|
  }

  lemma ActsIsValid(a: Account, log: seq<Event>, clock: int, accountId: string, leaseId: string, clientId: string,
      now: nat)
    requires AccountOk(a, log, clock)
    ensures Acts(a, accountId, leaseId, clientId, now)
      <==> Matches(a, accountId, leaseId) && Validate(a, leaseId, clientId, now).None?
  {
  }

  lemma ActsIsActive(a: Account, log: seq<Event>, clock: int, accountId: string, leaseId: string, clientId: string,
      now: nat)
    requires AccountOk(a, log, clock) && Acts(a, accountId, leaseId, clientId, now)
    ensures SweptAccount(a, now) == a && a.lease.id != ""
  {
  }

  lemma SweptActs(a: Account, accountId: string, leaseId: string, clientId: string, now: nat)
    requires Acts(SweptAccount(a, now), accountId, leaseId, clientId, now)
    ensures SweptAccount(a, now) == a
  {
    assert Lapsed(a, now) ==> SweptAccount(a, now).lease.id == "" && TrimSpace(leaseId) != "";
  }

  /** The sweep and the search find a holder exactly when one of the stored accounts is held so. */
  lemma HolderFound(w: World, clock: int, now: nat, accountId: string, leaseId: string, clientId: string)
    requires Inv(w, clock) && clock <= now && 0 < now
    ensures var accounts := Swept(w.doc, now).accounts;
      var i := Holder(accounts, accountId, leaseId, clientId, now);
      && |accounts| == |w.doc.accounts|
      && (i < |accounts| <==> exists k :: 0 <= k < |w.doc.accounts| && Acts(w.doc.accounts[k], accountId, leaseId, clientId, now))
      && (i < |accounts| ==> accounts[i] == w.doc.accounts[i] && Acts(w.doc.accounts[i], accountId, leaseId, clientId, now))
  {
    InvAges(w, clock, now);
    SweepWorks(w, Sweep, now);
    SweepStarts(w, Sweep, now);
    var v := SweptWorld(w, now);
    var before, accounts := w.doc.accounts, v.doc.accounts;
    hide LedgerOk, AllSettled, AllAllowed, SweptWorld, Swept, Validate, Matches, Acts, SweptAccount, AccountOk;
    var i := FindLease(accounts, accountId, leaseId);
    if i < |accounts| && Validate(accounts[i], leaseId, clientId, now).None? {
      ActsIsValid(accounts[i], v.log, now, accountId, leaseId, clientId, now);
      SweptActs(before[i], accountId, leaseId, clientId, now);
    }
    if k :| 0 <= k < |before| && Acts(before[k], accountId, leaseId, clientId, now) {
      ActsIsActive(before[k], w.log, now, accountId, leaseId, clientId, now);
      ActsIsValid(accounts[k], v.log, now, accountId, leaseId, clientId, now);
      SameLease(accounts, i, k, accountId, leaseId, clientId, now);
    }
  }

  lemma SameLease(accounts: seq<Account>, i: nat, k: nat, accountId: string, leaseId: string, clientId: string, now: int)
    requires UniqueLeases(accounts) && i == FindLease(accounts, accountId, leaseId)
    requires k < |accounts| && Matches(accounts[k], accountId, leaseId) && Acts(accounts[k], accountId, leaseId, clientId, now)
    requires accounts[k].lease.id != ""
    ensures i == k
  {
    assert i <= k;
  }

  /** A heartbeat succeeds if and only if some account is held under its lease. */
  lemma TouchSucceedsIff(w: World, c: Command, clock: int, now: nat)
    requires Inv(w, clock) && clock <= now && 0 < now && c.Touch?
    ensures !Decide(w.doc, c, now).reply.Failed? <==>
      exists k :: 0 <= k < |w.doc.accounts| && Acts(w.doc.accounts[k], c.accountId, c.leaseId, c.clientId, now)
  {
    HolderFound(w, clock, now, c.accountId, c.leaseId, c.clientId);
    TouchReplies(w.doc, c, now);
    hide Inv, Swept, Holder, Acts, Decide;
  }

  lemma TouchReplies(doc: Doc, c: Command, now: nat)
    requires c.Touch?
    ensures var accounts := Swept(doc, now).accounts;
      Decide(doc, c, now).reply.Failed? <==> Holder(accounts, c.accountId, c.leaseId, c.clientId, now) == |accounts|
  {
    hide Swept, Validate, Renewed;
  }

  /** A release succeeds if and only if some account is held under its lease. */
  lemma ReleaseSucceedsIff(w: World, c: Command, clock: int, now: nat)
    requires Inv(w, clock) && clock <= now && 0 < now && c.ReleaseLease?
    ensures !Decide(w.doc, c, now).reply.Failed? <==>
      exists k :: 0 <= k < |w.doc.accounts| && Acts(w.doc.accounts[k], c.accountId, c.leaseId, c.clientId, now)
  {
    HolderFound(w, clock, now, c.accountId, c.leaseId, c.clientId);
    ReleaseReplies(w.doc, c, now);
    hide Inv, Swept, Holder, Acts, Decide;
  }

  lemma ReleaseReplies(doc: Doc, c: Command, now: nat)
    requires c.ReleaseLease?
    ensures var accounts := Swept(doc, now).accounts;
      Decide(doc, c, now).reply.Failed? <==> Holder(accounts, c.accountId, c.leaseId, c.clientId, now) == |accounts|
  {
    hide Swept, Validate;
  }

  /** The parts of an upload that are checked before anything is locked. */
  predicate Presentable(s: Snapshot) {
    !Blank(s.id) && !Blank(s.leaseId) && s.auth != NoAuth && s.auth != NotJson && s.status != Unknown
  }

  /** The holder names the account's current generation. */
  predicate ActsAt(a: Account, s: Snapshot, clientId: string, now: int) {
    Acts(a, s.id, s.leaseId, clientId, now) && a.generation == s.generation
  }

  /** An upload succeeds if and only if it is presentable and its account is held under its lease at its generation. */
  lemma UploadSucceedsIff(w: World, c: Command, clock: int, now: nat)
    requires Inv(w, clock) && clock <= now && 0 < now && c.Upload?
    ensures !Decide(w.doc, c, now).reply.Failed? <==>
      && Presentable(c.snapshot)
      && (exists k :: 0 <= k < |w.doc.accounts| && ActsAt(w.doc.accounts[k], c.snapshot, c.clientId, now))
  {
    var s := c.snapshot;
    HolderFound(w, clock, now, s.id, s.leaseId, c.clientId);
    HolderIsUnique(w, clock, s.id, s.leaseId, c.clientId, now);
    var i := Holder(Swept(w.doc, now).accounts, s.id, s.leaseId, c.clientId, now);
    UploadReply(w.doc, c, now);
    hide Inv, Swept, Acts, Decide, Holder;
  }

  lemma UploadReply(doc: Doc, c: Command, now: nat)
    requires c.Upload?
    ensures var s, accounts := c.snapshot, Swept(doc, now).accounts;
      var i := Holder(accounts, s.id, s.leaseId, c.clientId, now);
      !Decide(doc, c, now).reply.Failed? <==> Presentable(s) && i < |accounts| && accounts[i].generation == s.generation
  {
    hide Swept, Validate, Uploaded;
  }

  lemma HolderIsUnique(w: World, clock: int, accountId: string, leaseId: string, clientId: string, now: int)
    requires Inv(w, clock)
    ensures var accounts := w.doc.accounts;
      forall i, k :: 0 <= i < k < |accounts| && Acts(accounts[i], accountId, leaseId, clientId, now) ==>
        !Acts(accounts[k], accountId, leaseId, clientId, now)
  {
    hide LedgerOk, AccountsOk;
  }

  // ---------- When a claim succeeds ----------

  /** An account that is not lapsed and could be offered as it is stored. */
  predicate OnOffer(doc: Doc, c: Command, now: nat, k: nat)
    requires c.Claim?
  {
    && k < |doc.accounts| && !Lapsed(doc.accounts[k], now)
    && Offer(doc.accounts[k], doc.quota, c.workspaceId, c.auth, now) != []
  }

  lemma OfferAfterSweep(a: Account, quota: map<string, QuotaCache>, workspaceId: string, auth: set<string>, now: nat)
    ensures Offer(SweptAccount(a, now), quota, workspaceId, auth, now)
      == if Lapsed(a, now) then [] else Offer(a, quota, workspaceId, auth, now)
  {
  }

  lemma {:induction false} OffersFrom(accounts: seq<Account>, quota: map<string, QuotaCache>, c: Command, now: nat)
    returns (k: nat)
    requires c.Claim? && OffersOf(accounts, quota, c, now) != []
    ensures OnOffer(Doc(accounts, quota, []), c, now, k)
  {
    hide Offer, SweptAccount, Lapsed;
    var n := |accounts| - 1;
    OfferAfterSweep(accounts[n], quota, c.workspaceId, c.auth, now);
    if Offer(SweptAccount(accounts[n], now), quota, c.workspaceId, c.auth, now) != [] {
      k := n;
    } else {
      k := OffersFrom(accounts[..n], quota, c, now);
    }
  }

  lemma {:induction false} OffersInclude(accounts: seq<Account>, quota: map<string, QuotaCache>, c: Command,
      now: nat, k: nat)
    requires c.Claim? && OnOffer(Doc(accounts, quota, []), c, now, k)
    ensures OffersOf(accounts, quota, c, now) != []
  {
    hide Offer, SweptAccount, Lapsed;
    var n := |accounts| - 1;
    OfferAfterSweep(accounts[n], quota, c.workspaceId, c.auth, now);
    if k < n {
      OffersInclude(accounts[..n], quota, c, now, k);
    }
  }

  /**
   A claim finds an account if and only if some stored account of the pool is
   eligible and not lapsed; one whose lease lapsed is never handed on in the same call.
   */
  lemma ClaimSucceedsIff(doc: Doc, c: Command, now: nat)
    requires c.Claim? && UniqueIds(doc.accounts)
    ensures Decide(doc, c, now).writes != [] <==> exists k :: OnOffer(doc, c, now, k)
  {
    SweptDoc(doc, now);
    var after := Swept(doc, now).accounts;
    OffersMatch(doc.accounts, after, doc.quota, c, now);
    ClaimWrites(doc, c, now);
    hide Swept, Offer, Lapsed, Decide;
    if Offers(doc, c, now) != [] {
      var k := OffersFrom(doc.accounts, doc.quota, c, now);
      assert OnOffer(doc, c, now, k);
    }
    if k :| OnOffer(doc, c, now, k) {
      OffersInclude(doc.accounts, doc.quota, c, now, k);
    }
  }

  lemma ClaimWrites(doc: Doc, c: Command, now: nat)
    requires c.Claim?
    ensures Decide(doc, c, now).writes != [] <==> Offers(doc, c, now) != []
  {
    hide Swept, Available, Choose;
  }

  // ---------- Release ----------

  lemma ReleaseFinds(w: World, c: Command, clock: int, now: nat) returns (i: nat)
    requires Inv(w, clock) && clock <= now && 0 < now && c.ReleaseLease? && !Decide(w.doc, c, now).reply.Failed?
    ensures var accounts := Swept(w.doc, now).accounts;
      && i < |accounts| == |w.doc.accounts| && accounts[i] == w.doc.accounts[i]
      && accounts[i].lease.id == TrimSpace(c.leaseId) != ""
      && Decide(w.doc, c, now) == Decision(true, [Release(i)], Done)
  {
    HolderFound(w, clock, now, c.accountId, c.leaseId, c.clientId);
    hide Inv, Swept, Validate;
    i := FindLease(Swept(w.doc, now).accounts, c.accountId, c.leaseId);
  }

  lemma ReleaseLands(w: World, c: Command, i: nat, now: nat)
    requires var v, d := SweptWorld(w, now), Decide(w.doc, c, now);
      UniqueIds(v.doc.accounts) && i < |v.doc.accounts| && d == Decision(true, [Release(i)], Done)
    ensures var v := SweptWorld(w, now);
      && On(StepWorld(w, c, now).doc.accounts, v.doc.accounts[i].id) == Some(Released(v.doc.accounts[i], now))
      && StepWorld(w, c, now).log == [EventOf(v.doc.accounts[i], RELEASED, now)] + v.log
  {
    var v := SweptWorld(w, now);
    hide On, Decide, SweptWorld;
    PutOne(v, Release(i), now);
    OnReplaced(v.doc.accounts, i, Released(v.doc.accounts[i], now), v.doc.accounts[i].id);
    OneEvent(v, EventOf(v.doc.accounts[i], RELEASED, now));
  }

  /** A successful release ends the lease for good, and the ledger says so. */
  lemma ReleaseEnds(w: World, c: Command, clock: int, now: nat) returns (id: string)
    requires Inv(w, clock) && clock <= now && 0 < now && c.ReleaseLease? && !Decide(w.doc, c, now).reply.Failed?
    ensures Holds(w, id, TrimSpace(c.leaseId)) && Gone(StepWorld(w, c, now), TrimSpace(c.leaseId))
    ensures On(StepWorld(w, c, now).doc.accounts, id) == Some(Released(On(w.doc.accounts, id).value, now))
    ensures Life(StepWorld(w, c, now).log, TrimSpace(c.leaseId)) == [Mark(CLAIMED, id), Mark(RELEASED, id)]
  {
    InvAges(w, clock, now);
    SweepStarts(w, c, now);
    var v := SweptWorld(w, now);
    var i := ReleaseFinds(w, c, clock, now);
    var a := v.doc.accounts[i];
    id := a.id;
    FindInv(v, now, i);
    FindInv(w, now, i);
    ReleaseLands(w, c, i, now);
    hide Inv, Decide, SweptWorld, StepWorld, On, Swept, AllSettled, AllAllowed, Gone;
    HeldIsUsed(v, now, id, a.lease.id);
    LifeGrows(v.log, EventOf(a, RELEASED, now), a.lease.id);
    LostIsGone(w, c, clock, now, id, a.lease.id);
  }

  lemma MoveGrants(c: Command, now: nat, b: Account, found: Option<Account>, a: Account)
    requires c.Claim? && (found == Some(b) || found == Some(Expired(b, now))) && Moves(c, now, found, Some(a))
    requires a.lease.id == c.leaseId != "" && found.value.lease.id != c.leaseId
    ensures found == Some(b) && b.lease == NO_LEASE && a == Granted(b, c.leaseId, c.clientId, c.holder, c.ttl, now)
  {
    hide Renewed, Uploaded, Active;
  }

  /** The account a claim grants is as it was stored, but for its lease and update time. */
  lemma ClaimIsGrant(w: World, c: Command, clock: int, now: nat)
    requires Inv(w, clock) && clock <= now && 0 < now && Enabled(w, c) && c.Claim? && Decide(w.doc, c, now).reply.With?
    ensures var a := Decide(w.doc, c, now).reply.account;
      && On(StepWorld(w, c, now).doc.accounts, a.id) == Some(a)
      && On(w.doc.accounts, a.id).Some? && On(w.doc.accounts, a.id).value.lease == NO_LEASE
      && a == Granted(On(w.doc.accounts, a.id).value, c.leaseId, c.clientId, c.holder, c.ttl, now)
  {
    ClaimGrants(w, c, clock, now);
    var a := Decide(w.doc, c, now).reply.account;
    StepMoves(w, c, clock, now, a.id);
    var b, m := On(w.doc.accounts, a.id), Found(w, c, now, a.id);
    hide Inv, Decide, StepWorld, On, Found, Moves, Expired, Lapsed;
    ExpiredHasNoLease(b.value, now);
    MoveGrants(c, now, b.value, m, a);
  }

  lemma ExpiredHasNoLease(a: Account, now: nat)
    ensures Expired(a, now).lease == NO_LEASE
  {
  }

  /** A claim and its release leave the account as it was, but for its update time. */
  lemma ReleaseUndoesClaim(w: World, c: Command, a: Account, clock: int, now: nat, later: nat, accountId: string,
      clientId: string)
    requires Inv(w, clock) && clock <= now <= later && 0 < now && Enabled(w, c)
    requires c.Claim? && Decide(w.doc, c, now).reply == With(a) && Acts(a, accountId, c.leaseId, clientId, later)
    ensures var v, r := StepWorld(w, c, now), ReleaseLease(accountId, c.leaseId, clientId);
      && Decide(v.doc, r, later).reply == Done
      && On(w.doc.accounts, a.id).Some?
      && On(StepWorld(v, r, later).doc.accounts, a.id) == Some(On(w.doc.accounts, a.id).value.(updatedAt := later))
  {
    hide Inv, Decide, StepWorld, Gone, On;
    var v, r := StepWorld(w, c, now), ReleaseLease(accountId, c.leaseId, clientId);
    ClaimIsGrant(w, c, clock, now);
    StepKeepsInv(w, c, clock, now);
    OnIsStored(v.doc.accounts, a);
    hide Acts;
    ReleaseSucceedsIff(v, r, now, later);
    var id := ReleaseEnds(v, r, now, later);
    OneAccountPerLease(v, now, id, a.id, c.leaseId);
    ReleaseReply(v.doc, r, later);
  }

  lemma OnIsStored(accounts: seq<Account>, a: Account)
    requires On(accounts, a.id) == Some(a)
    ensures exists k :: 0 <= k < |accounts| && accounts[k] == a
  {
  }

  lemma ReleaseReply(doc: Doc, c: Command, now: nat)
    requires c.ReleaseLease? && !Decide(doc, c, now).reply.Failed?
    ensures Decide(doc, c, now).reply == Done
  {
    hide Swept, Validate;
  }

  // ---------- Recovery ----------

  /** The windows leave quota at this instant and neither has passed its reset. */
  predicate Healthy(result: QuotaResult, now: int) {
    var fiveHour, sevenDay := FirstWindow(result.quotas, IsFiveHour), FirstWindow(result.quotas, IsSevenDay);
    && result.status == Supported
    && fiveHour.Some? && fiveHour.value.resetsAt != 0 && fiveHour.value.resetsAt > now && fiveHour.value.remaining > MIN_REMAINING
    && (sevenDay.Some? ==>
          && (sevenDay.value.resetsAt == 0 || sevenDay.value.resetsAt > now)
          && sevenDay.value.remaining > MIN_REMAINING)
  }

  lemma QuotaLands(doc: Doc, c: Command, now: nat)
    requires c.RecordQuota? && !Blank(c.id) && UniqueIds(doc.accounts) && On(doc.accounts, c.id).Some?
    ensures var next := Step(doc, c, now);
      var b := Reported(On(doc.accounts, c.id).value, c.fromClient, c.reporter, c.flipOwner, now);
      && On(next.accounts, c.id) == Some(Assessed(b, c.result, c.authChanged, now))
      && next.quota == doc.quota[c.id := CacheOf(c.result, c.fromClient, c.reporter, now)]
  {
    hide Assessed, Reported, CacheOf;
    var i := Find(doc.accounts, c.id);
    var a := Assessed(Reported(doc.accounts[i], c.fromClient, c.reporter, c.flipOwner, now), c.result, c.authChanged, now);
    var cache := CacheOf(c.result, c.fromClient, c.reporter, now);
    assert Decide(doc, c, now).writes == [Cache(c.id, cache), Update(i, a)] && !Decide(doc, c, now).sweep;
    AssessedKeepsId(doc.accounts[i], c.result, c.authChanged, c.fromClient, c.reporter, c.flipOwner, now);
    hide Decide;
    CacheAndUpdate(doc, c.id, cache, i, a, now);
    OnReplaced(doc.accounts, i, a, c.id);
  }

  lemma AssessedKeepsId(b: Account, result: QuotaResult, authChanged: bool, fromClient: bool, reporter: string,
                        flipOwner: bool, now: nat)
    ensures Assessed(Reported(b, fromClient, reporter, flipOwner, now), result, authChanged, now).id == b.id
  {
  }

  lemma CacheAndUpdate(doc: Doc, id: string, cache: QuotaCache, i: nat, a: Account, now: nat)
    requires i < |doc.accounts|
    ensures PutAll(doc, [Cache(id, cache), Update(i, a)], now)
         == doc.(quota := doc.quota[id := cache], accounts := doc.accounts[i := a])
  {
    var x, y := Cache(id, cache), Update(i, a);
    assert [x, y][..1] == [x] && [x][..0] == [];
    assert PutAll(doc, [x], now) == Put(doc, x, now);
  }

  /** A healthy probe brings a swept account back: it is on offer to the next claim while the windows last. */
  lemma ProbeRestores(doc: Doc, c: Command, now: nat, auth: set<string>, later: nat)
    requires c.RecordQuota? && !Blank(c.id) && UniqueIds(doc.accounts) && !c.flipOwner
    requires On(doc.accounts, c.id).Some? && c.id in auth && Healthy(c.result, later)
    requires var b := On(doc.accounts, c.id).value; b.status == Recovering && b.owner == Cloud && b.lease == NO_LEASE
    ensures var next := Step(doc, c, now);
      && On(next.accounts, c.id).Some?
      && Offer(On(next.accounts, c.id).value, next.quota, "", auth, later) != []
  {
    QuotaLands(doc, c, now);
    var next := Step(doc, c, now);
    var b := On(doc.accounts, c.id).value;
    var a := On(next.accounts, c.id).value;
    assert b.id == c.id;
    hide Step, On, FirstWindow;
    assert QuotaOf(next.quota, c.id) == CacheOf(c.result, c.fromClient, c.reporter, now);
    assert a.status == Ready && a.owner == Cloud && a.lease == NO_LEASE && a.id == c.id;
    assert InPool(a, "");
  }
}
