/**
 What each operation stores, field by field: which account changes, what becomes of
 each of its fields, and that nothing else changes.
 */
module LeaseEffects {
  import opened Wrappers
  import opened Text
  import opened LoadBalance
  import opened Ledger
  import opened LeaseMachine
  import opened LeaseInvariant
  import opened LeaseSteps
  import opened LeaseMoves
  import LeaseRecords
  import LeaseHolding
  import LeaseManager

  // ---------- What changes ----------

  /** Only the account at `i` differs. */
  ghost predicate OnlyAt(before: seq<Account>, after: seq<Account>, i: nat) {
    && i < |before| == |after|
    && forall j :: 0 <= j < |before| && j != i ==> after[j] == before[j]
  }

  /** The first account with this id is the one at `i`. */
  predicate FirstWith(accounts: seq<Account>, id: string, i: int) {
    0 <= i < |accounts| && accounts[i].id == id && forall j :: 0 <= j < i ==> accounts[j].id != id
  }

  predicate NoneWith(accounts: seq<Account>, id: string) {
    forall j :: 0 <= j < |accounts| ==> accounts[j].id != id
  }

  /** The times of a lease renewed or granted now: 90 seconds below the least time allowed, and half an hour at most. */
  predicate RunsFrom(l: Lease, ttl: int, now: int) {
    && l.heartbeatAt == now
    && l.expiresAt - now ==
         if ttl < 30_000_000_000 then 90_000_000_000 else if ttl > 1_800_000_000_000 then 1_800_000_000_000 else ttl
  }

  lemma RunsNormalized(l: Lease, ttl: int, now: int)
    requires l.heartbeatAt == now && l.expiresAt == now + NormalizeTtl(ttl)
    ensures RunsFrom(l, ttl, now)
  {
    assert MIN_TTL == 30_000_000_000 && DEFAULT_TTL == 90_000_000_000 && MAX_TTL == 1_800_000_000_000;
  }

  /** The document after a decision with one write or none. */
  lemma StepStores(doc: Doc, c: Command, now: nat)
    ensures var d := Decide(doc, c, now);
      var base := if d.sweep then Swept(doc, now) else doc;
      && (d.writes == [] ==> Step(doc, c, now) == base)
      && (|d.writes| == 1 ==> Step(doc, c, now) == Put(base, d.writes[0], now))
  {
    hide Decide, Swept, Put;
    var d := Decide(doc, c, now);
    var base := if d.sweep then Swept(doc, now) else doc;
    if |d.writes| == 1 {
      assert d.writes == [d.writes[0]];
      LeaseManager.PutOne(base, d.writes[0], now);
    } else {
      LeaseManager.PutNone(base, now);
    }
  }

  // ---------- The sweep ----------

  /**
   A sweep takes exactly the leases that have run out: their accounts are unleased, a ready one
   is recovering, any other status stays, and nothing else changes but the note and the update time.
   */
  lemma SweepEffect(doc: Doc, now: nat, i: nat)
    requires i < |doc.accounts|
    ensures var next := Step(doc, Sweep, now);
      && |next.accounts| == |doc.accounts| && next.quota == doc.quota
      && var b, a := doc.accounts[i], next.accounts[i];
        if !Blank(b.lease.id) && b.lease.expiresAt != 0 && b.lease.expiresAt <= now then
          && a.lease == Lease("", "", "", 0, 0, 0)
          && a.status == (if b.status == Ready then Recovering else b.status)
          && a.lastError == LeaseSwept(b.lease.id, now) && a.updatedAt == now
          && a == b.(lease := a.lease, status := a.status, lastError := a.lastError, updatedAt := a.updatedAt)
        else a == b
  {
    SweptIs(doc, now);
    hide Blank;
  }

  lemma SweptIs(doc: Doc, now: nat)
    ensures Step(doc, Sweep, now) == Swept(doc, now) && Swept(doc, now).quota == doc.quota
    ensures SweptUpTo(doc.accounts, Swept(doc, now).accounts, |doc.accounts|, now)
  {
    var w := World(doc, []);
    assert doc.accounts[..|doc.accounts|] == doc.accounts;
    SweepPrefix(w, Sweep, |doc.accounts|, now);
    WorldsFollowDocs(w, SweepWrites(doc.accounts, now), now);
    LeaseManager.PutNone(Swept(doc, now), now);
  }

  /** A lease runs out, the sweep takes it, a healthy probe follows: the account is on offer again. */
  lemma LapsedComesBack(doc: Doc, i: nat, now: nat, c: Command, probedAt: nat, auth: set<string>, later: nat)
    requires UniqueIds(doc.accounts) && i < |doc.accounts|
    requires var b := doc.accounts[i];
      && !Blank(b.lease.id) && 0 < b.lease.expiresAt <= now && b.status == Ready && b.owner == Cloud
      && c.RecordQuota? && c.id == b.id && !Blank(c.id) && !c.flipOwner && c.id in auth
    requires LeaseHolding.Healthy(c.result, later)
    ensures var next := Step(Step(doc, Sweep, now), c, probedAt);
      && On(next.accounts, c.id).Some?
      && Offer(On(next.accounts, c.id).value, next.quota, "", auth, later) != []
  {
    SweepEffect(doc, now, i);
    SweptIs(doc, now);
    var s := Step(doc, Sweep, now);
    assert forall j :: 0 <= j < |s.accounts| ==> s.accounts[j].id == doc.accounts[j].id;
    FindUnique(s.accounts, i);
    hide Step, Offer, LeaseHolding.Healthy, Blank;
    LeaseHolding.ProbeRestores(s, c, probedAt, auth, later);
  }

  // ---------- Claiming and holding ----------

  /**
   Exactly which accounts a claim may take, as they are stored: ready cloud accounts of the pool, with
   credentials and usable quota of their own, whose lease neither runs nor has just run out.
   */
  lemma OnOfferIff(doc: Doc, c: Command, now: nat, k: nat)
    requires c.Claim? && k < |doc.accounts|
    ensures var a := doc.accounts[k];
      LeaseHolding.OnOffer(doc, c, now, k) <==>
        && a.owner == Cloud && a.status == Ready && a.id in c.auth
        && (Blank(a.lease.id) || a.lease.expiresAt == 0)
        && (Blank(c.workspaceId) || (if Blank(a.workspaceId) then "default" else a.workspaceId) == TrimSpace(c.workspaceId))
        && a.id in doc.quota && Usable(doc.quota[a.id], now)
  {
    var a := doc.accounts[k];
    EligibleIff(a.owner, a.status, a.id in c.auth, Active(a, now), QuotaOf(doc.quota, a.id), now);
    hide TrimBy, Evaluate, FirstWindow, SevenDayAt;
  }

  lemma {:induction false} OfferedBy(accounts: seq<Account>, quota: map<string, QuotaCache>, c: Command, now: nat, o: Candidate)
    requires c.Claim?
    ensures o in LeaseRecords.OffersOf(accounts, quota, c, now) <==>
      exists k :: 0 <= k < |accounts| && Offer(SweptAccount(accounts[k], now), quota, c.workspaceId, c.auth, now) == [o]
  {
    hide Offer, SweptAccount;
    if accounts != [] {
      var n := |accounts| - 1;
      OfferedBy(accounts[..n], quota, c, now, o);
      assert forall k :: 0 <= k < n ==> accounts[..n][k] == accounts[k];
      OfferIsOne(SweptAccount(accounts[n], now), quota, c, now);
    }
  }

  lemma OfferIsOne(a: Account, quota: map<string, QuotaCache>, c: Command, now: nat)
    requires c.Claim?
    ensures forall o :: o in Offer(a, quota, c.workspaceId, c.auth, now) <==> Offer(a, quota, c.workspaceId, c.auth, now) == [o]
  {
    hide Evaluate, InPool;
  }

  lemma OfferScores(a: Account, quota: map<string, QuotaCache>, c: Command, now: nat, o: Candidate)
    requires c.Claim?
    ensures Offer(a, quota, c.workspaceId, c.auth, now) == [o] <==>
      Offer(a, quota, c.workspaceId, c.auth, now) != [] && o.id == a.id && a.id in quota
        && Evaluate(Cloud, Ready, true, false, quota[a.id], now) == Eligible(o.score)
  {
    if Offer(a, quota, c.workspaceId, c.auth, now) != [] {
      EligibleMeans(a.owner, a.status, a.id in c.auth, Active(a, now), QuotaOf(quota, a.id), now);
      EligibleIff(a.owner, a.status, a.id in c.auth, Active(a, now), QuotaOf(quota, a.id), now);
    }
  }

  /** The account at `k` is on offer as this candidate: with the score of its own quota entry. */
  predicate OfferedAs(doc: Doc, c: Command, now: nat, o: Candidate, k: nat)
    requires c.Claim? && k < |doc.accounts|
  {
    && LeaseHolding.OnOffer(doc, c, now, k) && o.id == doc.accounts[k].id && o.id in doc.quota
    && Evaluate(Cloud, Ready, true, false, doc.quota[o.id], now) == Eligible(o.score)
  }

  lemma OfferedAsIff(doc: Doc, c: Command, now: nat, o: Candidate, k: nat)
    requires c.Claim? && k < |doc.accounts|
    ensures Offer(SweptAccount(doc.accounts[k], now), doc.quota, c.workspaceId, c.auth, now) == [o] <==>
      OfferedAs(doc, c, now, o, k)
  {
    LeaseHolding.OfferAfterSweep(doc.accounts[k], doc.quota, c.workspaceId, c.auth, now);
    OfferScores(doc.accounts[k], doc.quota, c, now, o);
    hide Offer, SweptAccount, Lapsed, Evaluate;
  }

  /** The candidates of a claim are the accounts on offer, and these are their scores. */
  lemma {:induction false} OffersAreScored(doc: Doc, c: Command, now: nat, o: Candidate)
    requires c.Claim?
    ensures o in LeaseRecords.Offers(doc, c, now) <==> exists k :: 0 <= k < |doc.accounts| && OfferedAs(doc, c, now, o, k)
  {
    SweptIs(doc, now);
    LeaseRecords.OffersMatch(doc.accounts, Swept(doc, now).accounts, doc.quota, c, now);
    OfferedBy(doc.accounts, doc.quota, c, now, o);
    hide Offer, SweptAccount, Swept, Available, OfferedAs, LeaseRecords.OffersOf;
    forall k | 0 <= k < |doc.accounts|
      ensures Offer(SweptAccount(doc.accounts[k], now), doc.quota, c.workspaceId, c.auth, now) == [o] <==>
        OfferedAs(doc, c, now, o, k)
    {
      OfferedAsIff(doc, c, now, o, k);
    }
  }

  lemma ClaimDecides(doc: Doc, c: Command, now: nat) returns (i: nat)
    requires c.Claim?
    ensures var accounts, d := Swept(doc, now).accounts, Decide(doc, c, now);
      || d == Decision(true, [], Failed(NoneAvailable))
      || (i < |accounts|
          && var a := Granted(accounts[i], c.leaseId, c.clientId, c.holder, c.ttl, now);
            d == Decision(true, [Write.Grant(i, a)], if c.exported then With(a) else Failed(ExportFailed)))
  {
    hide Swept, Available, Choose, Granted;
    var accounts := Swept(doc, now).accounts;
    var available := Available(accounts, doc.quota, c.workspaceId, c.auth, now);
    if available != [] {
      ChoiceIsStored(accounts, doc.quota, c.workspaceId, c.auth, c.cursor, now);
      i := Find(accounts, Choose(available, c.cursor).id);
    } else {
      i := 0;
    }
  }

  lemma GrantedReads(b: Account, leaseId: string, clientId: string, holder: string, ttl: int, now: nat)
    ensures var a := Granted(b, leaseId, clientId, holder, ttl, now);
      && a.lease.id == leaseId && a.lease.clientId == TrimSpace(clientId) && a.lease.holder == TrimSpace(holder)
      && a.lease.startedAt == now && RunsFrom(a.lease, ttl, now) && a == b.(lease := a.lease, updatedAt := now)
  {
    RunsNormalized(Granted(b, leaseId, clientId, holder, ttl, now).lease, ttl, now);
    hide NormalizeTtl, TrimSpace, RunsFrom;
  }

  /** A claim grants a swept account its new lease, and changes nothing else but that account's update time. */
  lemma {:induction false} ClaimEffect(doc: Doc, c: Command, now: nat) returns (i: nat)
    requires c.Claim?
    ensures var s, next, reply := Step(doc, Sweep, now), Step(doc, c, now), Decide(doc, c, now).reply;
      if reply == Failed(NoneAvailable) then next == s
      else
        && OnlyAt(s.accounts, next.accounts, i) && next.quota == s.quota
        && reply == (if c.exported then With(next.accounts[i]) else Failed(ExportFailed))
        && var b, a := s.accounts[i], next.accounts[i];
          && a.lease.id == c.leaseId && a.lease.clientId == TrimSpace(c.clientId) && a.lease.holder == TrimSpace(c.holder)
          && a.lease.startedAt == now && RunsFrom(a.lease, c.ttl, now)
          && a == b.(lease := a.lease, updatedAt := now)
  {
    SweptIs(doc, now);
    StepStores(doc, c, now);
    i := ClaimDecides(doc, c, now);
    hide Swept, Decide, Step, Granted, RunsFrom;
    if i < |Swept(doc, now).accounts| {
      GrantedReads(Swept(doc, now).accounts[i], c.leaseId, c.clientId, c.holder, c.ttl, now);
    }
  }

  /** A renewed lease keeps its id, client and start, and its holder if no other is named. */
  predicate RenewedFrom(a: Lease, b: Lease, holder: string, ttl: int, now: int) {
    && a.id == b.id && a.clientId == b.clientId && a.startedAt == b.startedAt && RunsFrom(a, ttl, now)
    && a.holder == if Blank(holder) then TrimSpace(b.holder) else TrimSpace(holder)
  }

  lemma RenewedReads(b: Account, holder: string, ttl: int, now: nat)
    ensures var a := Renewed(b, holder, ttl, now);
      RenewedFrom(a.lease, b.lease, holder, ttl, now) && a == b.(lease := a.lease, updatedAt := now)
  {
    RunsNormalized(Renewed(b, holder, ttl, now).lease, ttl, now);
    hide NormalizeTtl, TrimBy, RunsFrom;
  }

  lemma TouchDecides(doc: Doc, c: Command, now: nat) returns (i: nat)
    requires c.Touch?
    ensures var accounts, d := Swept(doc, now).accounts, Decide(doc, c, now);
      || (d.sweep && d.writes == [] && d.reply.Failed?)
      || (i < |accounts| && accounts[i].lease.id == TrimSpace(c.leaseId)
          && var a := Renewed(accounts[i], c.holder, c.ttl, now); d == Decision(true, [Renew(i, a)], With(a)))
  {
    hide Swept, Renewed, Active;
    i := FindLease(Swept(doc, now).accounts, c.accountId, c.leaseId);
  }

  /** A heartbeat renews the lease it names and keeps the rest of the account. */
  lemma {:induction false} TouchEffect(doc: Doc, c: Command, now: nat) returns (i: nat)
    requires c.Touch?
    ensures var s, next, reply := Step(doc, Sweep, now), Step(doc, c, now), Decide(doc, c, now).reply;
      if reply.Failed? then next == s
      else
        && OnlyAt(s.accounts, next.accounts, i) && next.quota == s.quota && reply == With(next.accounts[i])
        && var b, a := s.accounts[i], next.accounts[i];
          && b.lease.id == TrimSpace(c.leaseId) && RenewedFrom(a.lease, b.lease, c.holder, c.ttl, now)
          && a == b.(lease := a.lease, updatedAt := now)
  {
    SweptIs(doc, now);
    StepStores(doc, c, now);
    i := TouchDecides(doc, c, now);
    hide Swept, Decide, Step, Renewed, RenewedFrom, TrimSpace;
    if i < |Swept(doc, now).accounts| {
      RenewedReads(Swept(doc, now).accounts[i], c.holder, c.ttl, now);
    }
  }

  /** The refusals of a lease that was looked up and validated. */
  predicate AboutTheLease(error: Error) {
    error == LeaseNotFound || error == NotHeld || error == LeaseOver || error == OtherClient
  }

  lemma UploadDecides(doc: Doc, c: Command, now: nat) returns (i: nat)
    requires c.Upload?
    ensures var accounts, d := Swept(doc, now).accounts, Decide(doc, c, now);
      || (d.reply.Failed? && d.writes == [] && d.sweep == AboutTheLease(d.reply.error))
      || (i < |accounts| && accounts[i].lease.id == TrimSpace(c.snapshot.leaseId)
          && accounts[i].generation == c.snapshot.generation
          && var a := Uploaded(accounts[i], c.snapshot, c.ttl, now); d == Decision(true, [Renew(i, a)], With(a)))
  {
    hide Swept, Uploaded, Active;
    i := FindLease(Swept(doc, now).accounts, c.snapshot.id, c.snapshot.leaseId);
  }

  /** The account as an upload leaves it: one generation on, with the name, plan and status the snapshot has. */
  predicate UploadedFrom(a: Account, b: Account, up: Snapshot, ttl: int, now: int) {
    && RenewedFrom(a.lease, b.lease, up.sourceClient, ttl, now) && a.generation == b.generation + 1
    && a.name == (if Blank(up.name) then b.name else TrimSpace(up.name))
    && a.plan == (if Blank(up.plan) then b.plan else TrimSpace(up.plan))
    && a.status == (if up.status.Known? then up.status.value else b.status)
    && a == b.(lease := a.lease, generation := a.generation, name := a.name, plan := a.plan, status := a.status,
               updatedAt := now)
  }

  lemma UploadedReads(b: Account, up: Snapshot, ttl: int, now: nat)
    ensures UploadedFrom(Uploaded(b, up, ttl, now), b, up, ttl, now)
  {
    RenewedReads(b, up.sourceClient, ttl, now);
    hide Renewed, RenewedFrom, TrimSpace;
  }

  /** An upload renews the lease it names at the generation it names. A refusal keeps the sweep only if it is about the lease. */
  lemma {:induction false} UploadEffect(doc: Doc, c: Command, now: nat) returns (i: nat)
    requires c.Upload?
    ensures var s, next, reply := Step(doc, Sweep, now), Step(doc, c, now), Decide(doc, c, now).reply;
      if reply.Failed? then next == if AboutTheLease(reply.error) then s else doc
      else
        && OnlyAt(s.accounts, next.accounts, i) && next.quota == s.quota && reply == With(next.accounts[i])
        && var b, a := s.accounts[i], next.accounts[i];
          && b.lease.id == TrimSpace(c.snapshot.leaseId) && b.generation == c.snapshot.generation
          && UploadedFrom(a, b, c.snapshot, c.ttl, now)
  {
    SweptIs(doc, now);
    StepStores(doc, c, now);
    i := UploadDecides(doc, c, now);
    hide Swept, Decide, Step, Uploaded, UploadedFrom, TrimSpace, AboutTheLease;
    if i < |Swept(doc, now).accounts| {
      UploadedReads(Swept(doc, now).accounts[i], c.snapshot, c.ttl, now);
    }
  }

  lemma ReleaseDecides(doc: Doc, c: Command, now: nat) returns (i: nat)
    requires c.ReleaseLease?
    ensures var accounts, d := Swept(doc, now).accounts, Decide(doc, c, now);
      || (d.reply.Failed? && d.writes == [] && d.sweep == (d.reply.error == LeaseNotFound))
      || (i < |accounts| && accounts[i].lease.id == TrimSpace(c.leaseId) && d == Decision(true, [Release(i)], Done))
  {
    hide Swept, Active;
    i := FindLease(Swept(doc, now).accounts, c.accountId, c.leaseId);
  }

  /** A release takes the lease it names away. A refusal keeps the sweep only if the lease was not found. */
  lemma {:induction false} ReleaseEffect(doc: Doc, c: Command, now: nat) returns (i: nat)
    requires c.ReleaseLease?
    ensures var s, next, reply := Step(doc, Sweep, now), Step(doc, c, now), Decide(doc, c, now).reply;
      if reply.Failed? then next == if reply.error == LeaseNotFound then s else doc
      else
        && OnlyAt(s.accounts, next.accounts, i) && next.quota == s.quota && reply == Done
        && var b, a := s.accounts[i], next.accounts[i];
          b.lease.id == TrimSpace(c.leaseId) && a == b.(lease := Lease("", "", "", 0, 0, 0), updatedAt := now)
  {
    SweptIs(doc, now);
    StepStores(doc, c, now);
    i := ReleaseDecides(doc, c, now);
    hide Swept, Decide, Step, TrimSpace;
  }

  // ---------- The cursor ----------

  /** The account a claim or a selection hands out becomes the cursor, even where handing it out then fails. */
  lemma {:induction false} ClaimMovesCursor(doc: Doc, c: Command, cursor: string, now: nat) returns (i: nat)
    requires c.Claim?
    ensures var s, next, d := Step(doc, Sweep, now), Step(doc, c, now), Decide(doc, c, now);
      if d.reply == Failed(NoneAvailable) then NextCursor(cursor, c, d) == cursor
      else
        && i < |next.accounts| == |s.accounts| && next.accounts[i].lease.id == c.leaseId
        && NextCursor(cursor, c, d) == s.accounts[i].id == next.accounts[i].id
  {
    i := ClaimDecides(doc, c, now);
    SweptIs(doc, now);
    StepStores(doc, c, now);
    hide Swept, Decide, Step;
  }

  lemma SelectMovesCursor(doc: Doc, c: Command, cursor: string, now: nat)
    ensures var d := Decide(doc, c, now);
      && (c.SelectForRun? ==> NextCursor(cursor, c, d) == if d.reply.With? then d.reply.account.id else cursor)
      && (!c.SelectForRun? && !c.Claim? && !c.Delete? ==> NextCursor(cursor, c, d) == cursor)
  {
    hide Decide;
  }

  // ---------- The ledger ----------

  /** The event tells of this account's lease as it is in the account. */
  predicate Tells(e: Event, a: Account, kind: string, now: int) {
    && e.kind == kind && e.createdAt == now && e.leaseId == a.lease.id && e.accountId == a.id && e.name == a.name
    && e.clientId == a.lease.clientId && e.holder == a.lease.holder && e.generation == a.generation
    && e.startedAt == a.lease.startedAt && e.expiresAt == a.lease.expiresAt
  }

  /** Every lease a sweep takes is told of, as it was. */
  lemma {:induction false} SweepTells(w: World, now: nat, i: nat)
    requires i < |w.doc.accounts|
    requires var b := w.doc.accounts[i]; !Blank(b.lease.id) && 0 < b.lease.expiresAt <= now
    ensures exists e :: e in StepWorld(w, Sweep, now).log && Tells(e, w.doc.accounts[i], "expired", now)
  {
    var accounts := w.doc.accounts;
    assert accounts[..|accounts|] == accounts;
    SweepTellsUpTo(w, |accounts|, now, i);
    assert StepWorld(w, Sweep, now) == PutWorlds(w, SweepWrites(accounts, now), now) by { SweepWritesNoMore(w, now); }
  }

  lemma SweepWritesNoMore(w: World, now: nat)
    ensures StepWorld(w, Sweep, now) == SweptWorld(w, now)
  {
  }

  lemma SweepNext(accounts: seq<Account>, k: nat, now: nat)
    requires 0 < k <= |accounts|
    ensures SweepWrites(accounts[..k], now) ==
      SweepWrites(accounts[..k - 1], now) + (if Lapsed(accounts[k - 1], now) then [Expire(k - 1)] else [])
  {
    assert accounts[..k][..k - 1] == accounts[..k - 1];
    hide Lapsed;
  }

  lemma {:induction false} SweepTellsUpTo(w: World, k: nat, now: nat, i: nat)
    requires i < k <= |w.doc.accounts| && Lapsed(w.doc.accounts[i], now)
    ensures exists e :: e in PutWorlds(w, SweepWrites(w.doc.accounts[..k], now), now).log && Tells(e, w.doc.accounts[i], "expired", now)
  {
    var accounts := w.doc.accounts;
    var front := SweepWrites(accounts[..k - 1], now);
    var before := PutWorlds(w, front, now);
    SweepNext(accounts, k, now);
    SweepPrefix(w, Sweep, k - 1, now);
    SweptRest(accounts, before.doc.accounts, k - 1, now);
    hide Lapsed, SweptUpTo, Tells, PutWorld, PutWorlds, SweepWrites, AllAllowed;
    if i < k - 1 {
      SweepTellsUpTo(w, k - 1, now, i);
    }
    if Lapsed(accounts[k - 1], now) {
      PutWorldsNext(w, front, Expire(k - 1), now);
      ExpireTells(before, k - 1, now);
    } else {
      assert front + [] == front;
    }
  }

  lemma PutWorldsNext(w: World, xs: seq<Write>, x: Write, now: nat)
    ensures PutWorlds(w, xs + [x], now) == PutWorld(PutWorlds(w, xs, now), x, now)
  {
    hide PutWorld;
    assert (xs + [x])[..|xs|] == xs;
  }

  lemma ExpireTells(w: World, i: nat, now: nat)
    requires i < |w.doc.accounts|
    ensures var e, log := EventOf(w.doc.accounts[i], EXPIRED, now), PutWorld(w, Expire(i), now).log;
      log == [e] + w.log && Tells(e, w.doc.accounts[i], "expired", now)
  {
    OneEvent(w, EventOf(w.doc.accounts[i], EXPIRED, now));
  }

  /** A claim tells of the lease it grants, after what the sweep tells. */
  lemma {:induction false} ClaimTells(w: World, c: Command, now: nat) returns (i: nat)
    requires c.Claim? && Decide(w.doc, c, now).reply != Failed(NoneAvailable)
    ensures var s, next := StepWorld(w, Sweep, now), StepWorld(w, c, now);
      && i < |next.doc.accounts| && next.doc.accounts[i].lease.id == c.leaseId
      && |next.log| == |s.log| + 1 && next.log[1..] == s.log && Tells(next.log[0], next.doc.accounts[i], "claimed", now)
  {
    i := ClaimDecides(w.doc, c, now);
    SweepWritesNoMore(w, now);
    WorldsFollowDocs(w, SweepWrites(w.doc.accounts, now), now);
    var v := SweptWorld(w, now);
    assert v.doc == Swept(w.doc, now);
    var a := Granted(v.doc.accounts[i], c.leaseId, c.clientId, c.holder, c.ttl, now);
    PutWorldsNext(v, [], Write.Grant(i, a), now);
    OneEvent(v, EventOf(a, CLAIMED, now));
    hide SweptWorld, Swept, Decide, SweepWrites;
    assert [] + [Write.Grant(i, a)] == [Write.Grant(i, a)];
  }

  /** A release tells of the lease it takes away, as it was. */
  lemma {:induction false} ReleaseTells(w: World, c: Command, now: nat) returns (i: nat)
    requires c.ReleaseLease? && !Decide(w.doc, c, now).reply.Failed?
    ensures var s, next := StepWorld(w, Sweep, now), StepWorld(w, c, now);
      && i < |s.doc.accounts| && s.doc.accounts[i].lease.id == TrimSpace(c.leaseId)
      && |next.log| == |s.log| + 1 && next.log[1..] == s.log && Tells(next.log[0], s.doc.accounts[i], "released", now)
  {
    i := ReleaseDecides(w.doc, c, now);
    SweepWritesNoMore(w, now);
    WorldsFollowDocs(w, SweepWrites(w.doc.accounts, now), now);
    var v := SweptWorld(w, now);
    assert v.doc == Swept(w.doc, now);
    PutWorldsNext(v, [], Release(i), now);
    OneEvent(v, EventOf(v.doc.accounts[i], RELEASED, now));
    hide SweptWorld, Swept, Decide, SweepWrites, TrimSpace;
    assert [] + [Release(i)] == [Release(i)];
  }
}
