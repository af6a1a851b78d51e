/**
 Every operation writes only what it may: the writes of each command, after its
 sweep, are allowed where they are made, so one step keeps the invariant.
 */
module LeaseSteps {
  import opened Text
  import opened LoadBalance
  import opened Ledger
  import opened LeaseMachine
  import opened LeaseInvariant
  import FreshNames

  /** Few enough accounts and directories that each directory gets a name nobody has. */
  predicate Nameable(accounts: seq<Account>, entries: seq<Entry>, stamp: string) {
    |accounts| + |entries| <= FreshNames.NAME_LIMIT && FreshNames.IsStamp(stamp)
  }

  /** What a run assumes of a call: a new lease id, and few enough accounts to name new ones. */
  predicate Enabled(w: World, c: Command) {
    && (c.Claim? ==> Fresh(w.log, c.leaseId))
    && ((c.SelectForRun? || c.ListAccounts?) && c.entries != [] ==> Nameable(w.doc.accounts, c.entries, c.stamp))
  }

  function SweptWorld(w: World, now: nat): World {
    PutWorlds(w, SweepWrites(w.doc.accounts, now), now)
  }

  function BaseWorld(w: World, d: Decision, now: nat): World {
    if d.sweep then SweptWorld(w, now) else w
  }

  function StepWorld(w: World, c: Command, now: nat): World {
    var d := Decide(w.doc, c, now);
    PutWorlds(BaseWorld(w, d, now), d.writes, now)
  }

  lemma {:induction false} WorldsFollowDocs(w: World, xs: seq<Write>, now: nat)
    ensures PutWorlds(w, xs, now).doc == PutAll(w.doc, xs, now)
  {
    if xs != [] { WorldsFollowDocs(w, xs[..|xs| - 1], now); }
  }

  /** The document of the world after a step is the one the operation stores. */
  lemma StepWorldDoc(w: World, c: Command, now: nat)
    ensures StepWorld(w, c, now).doc == Step(w.doc, c, now)
  {
    var d := Decide(w.doc, c, now);
    WorldsFollowDocs(w, SweepWrites(w.doc.accounts, now), now);
    WorldsFollowDocs(BaseWorld(w, d, now), d.writes, now);
  }

  // ---------- The sweep ----------

  function SweptAccount(a: Account, now: nat): Account {
    if Lapsed(a, now) then Expired(a, now) else a
  }

  ghost predicate SweptUpTo(before: seq<Account>, after: seq<Account>, k: nat, now: nat) {
    && |after| == |before|
    && forall j :: 0 <= j < |before| ==> after[j] == if j < k then SweptAccount(before[j], now) else before[j]
  }

  lemma SweepStep(w: World, accounts: seq<Account>, k: nat, now: nat)
    requires k < |accounts| && SweptUpTo(accounts, w.doc.accounts, k, now)
    ensures var v := if Lapsed(accounts[k], now) then PutWorld(w, Expire(k), now) else w;
      SweptUpTo(accounts, v.doc.accounts, k + 1, now) && v.doc.quota == w.doc.quota
  {
    hide Lapsed, Expired;
  }

  lemma SweptNone(accounts: seq<Account>, now: nat)
    ensures SweptUpTo(accounts, accounts, 0, now)
  {
  }

  lemma SweptRest(before: seq<Account>, after: seq<Account>, k: nat, now: nat)
    requires SweptUpTo(before, after, k, now) && k < |before|
    ensures |after| == |before| && after[k] == before[k]
  {
  }

  lemma {:induction false} SweepPrefix(w: World, c: Command, k: nat, now: nat)
    requires k <= |w.doc.accounts| && Sweeps(c)
    ensures var xs := SweepWrites(w.doc.accounts[..k], now);
      && SweptUpTo(w.doc.accounts, PutWorlds(w, xs, now).doc.accounts, k, now)
      && PutWorlds(w, xs, now).doc.quota == w.doc.quota
      && AllAllowed(w, c, xs, now)
  {
    hide PutWorld, PutWorlds, SweptUpTo, AllAllowed, Lapsed;
    var accounts := w.doc.accounts;
    NoneAllowed(w, c, now);
    if k == 0 {
      SweptNone(accounts, now);
    } else {
      SweepPrefix(w, c, k - 1, now);
      var front := SweepWrites(accounts[..k - 1], now);
      var before := PutWorlds(w, front, now);
      SweepStep(before, accounts, k - 1, now);
      assert accounts[..k][..k - 1] == accounts[..k - 1];
      if Lapsed(accounts[k - 1], now) {
        SweptRest(accounts, before.doc.accounts, k - 1, now);
        AllowedOneMore(w, c, front, Expire(k - 1), now);
      } else {
        assert SweepWrites(accounts[..k], now) == front;
      }
    }
  }

  /** After a sweep nothing is lapsed: every account is unleased or its lease is active. */
  predicate Settled(a: Account, now: nat) {
    a.lease == NO_LEASE || (Proper(a.lease.id) && Active(a, now))
  }

  lemma SweptSettles(a: Account, log: seq<Event>, clock: int, now: nat)
    requires AccountOk(a, log, clock)
    ensures Settled(SweptAccount(a, now), now)
  {
  }

  ghost predicate AllSettled(accounts: seq<Account>, now: nat) {
    forall j :: 0 <= j < |accounts| ==> Settled(accounts[j], now)
  }

  lemma SweepWorks(w: World, c: Command, now: nat)
    requires Inv(w, now) && 0 < now && Sweeps(c)
    ensures var v := SweptWorld(w, now);
      && AllAllowed(w, c, SweepWrites(w.doc.accounts, now), now) && Inv(v, now)
      && SweptUpTo(w.doc.accounts, v.doc.accounts, |w.doc.accounts|, now)
      && AllSettled(v.doc.accounts, now)
      && v.doc.quota == w.doc.quota
  {
    var accounts := w.doc.accounts;
    assert accounts[..|accounts|] == accounts;
    SweepPrefix(w, c, |accounts|, now);
    WritesKeep(w, c, SweepWrites(accounts, now), now);
    var v := SweptWorld(w, now);
    hide Settled, SweptAccount, PutWorlds, SweepWrites, AccountOk;
    forall j | 0 <= j < |accounts| ensures Settled(v.doc.accounts[j], now) {
      SweptSettles(accounts[j], w.log, now, now);
    }
  }

  /** A lease id that was never used stays unused by any write but its grant. */
  lemma FreshStays(w: World, c: Command, x: Write, leaseId: string, now: nat)
    requires Inv(w, now) && Allowed(w, c, x, now) && Fresh(w.log, leaseId)
    requires x.Grant? ==> x.account.lease.id != leaseId
    ensures Fresh(PutWorld(w, x, now).log, leaseId)
  {
    var events := WriteEvents(w.doc.accounts, x, now);
    assert events == [] || events == [events[0]];
    if events != [] {
      OneEvent(w, events[0]);
      LifeGrows(w.log, events[0], leaseId);
      if !x.Grant? {
        assert AccountOk(w.doc.accounts[x.i], w.log, now);
      }
    }
  }

  lemma {:induction false} SweepKeepsFresh(w: World, c: Command, leaseId: string, xs: seq<Write>, now: nat)
    requires Inv(w, now) && 0 < now && Fresh(w.log, leaseId) && AllAllowed(w, c, xs, now)
    requires forall k :: 0 <= k < |xs| ==> !xs[k].Grant?
    ensures Fresh(PutWorlds(w, xs, now).log, leaseId)
  {
    if xs != [] {
      var front := xs[..|xs| - 1];
      SweepKeepsFresh(w, c, leaseId, front, now);
      WritesKeep(w, c, front, now);
      hide Inv, Fresh, Allowed, PutWorld, PutWorlds;
      FreshStays(PutWorlds(w, front, now), c, xs[|xs| - 1], leaseId, now);
    }
  }

  lemma {:induction false} SweepWritesExpire(accounts: seq<Account>, now: nat)
    ensures forall k :: 0 <= k < |SweepWrites(accounts, now)| ==> SweepWrites(accounts, now)[k].Expire?
  {
    if accounts != [] { SweepWritesExpire(accounts[..|accounts| - 1], now); }
  }

  // ---------- Each command ----------

  lemma OneAllowed(w: World, c: Command, x: Write, now: nat)
    requires Allowed(w, c, x, now)
    ensures AllAllowed(w, c, [x], now)
  {
    assert [x][..0] == [];
    assert AllAllowed(w, c, [], now);
  }

  lemma FindUnique(accounts: seq<Account>, j: nat)
    requires UniqueIds(accounts) && j < |accounts|
    ensures Find(accounts, accounts[j].id) == j
  {
    var i := Find(accounts, accounts[j].id);
    assert i <= j;
  }

  /** The chosen account is one of the accounts offered. */
  lemma {:induction false} ChosenIsOffered(accounts: seq<Account>, quota: map<string, QuotaCache>,
      workspaceId: string, auth: set<string>,
                        cursor: string, now: int)
    requires UniqueIds(accounts) && Available(accounts, quota, workspaceId, auth, now) != []
    ensures var o := Choose(Available(accounts, quota, workspaceId, auth, now), cursor);
      && Find(accounts, o.id) < |accounts|
      && Offer(accounts[Find(accounts, o.id)], quota, workspaceId, auth, now) == [o]
  {
    var available := Available(accounts, quota, workspaceId, auth, now);
    ChooseIsCandidate(available, cursor);
    var o := Choose(available, cursor);
    var j := AvailableFrom(accounts, quota, workspaceId, auth, now, o);
    FindUnique(accounts, j);
  }

  lemma OfferMeans(a: Account, quota: map<string, QuotaCache>, workspaceId: string, auth: set<string>, now: int)
    requires Offer(a, quota, workspaceId, auth, now) != []
    ensures a.owner == Cloud && a.status == Ready && a.id in auth && !Active(a, now) && InPool(a, workspaceId)
    ensures Offer(a, quota, workspaceId, auth, now)[0].id == a.id
  {
    EligibleMeans(a.owner, a.status, a.id in auth, Active(a, now), QuotaOf(quota, a.id), now);
  }

  /** The account a claim takes is a ready, unleased cloud account. */
  lemma ClaimMayGrant(accounts: seq<Account>, log: seq<Event>, quota: map<string, QuotaCache>, c: Command, now: nat)
    requires c.Claim? && Fresh(log, c.leaseId) && UniqueIds(accounts) && AllSettled(accounts, now)
    requires Available(accounts, quota, c.workspaceId, c.auth, now) != []
    ensures var i := Find(accounts, Choose(Available(accounts, quota, c.workspaceId, c.auth, now), c.cursor).id);
      && i < |accounts|
      && MayGrant(log, c, accounts[i], Granted(accounts[i], c.leaseId, c.clientId, c.holder, c.ttl, now), now)
  {
    hide Fresh, Available, Choose, Offer;
    ChosenIsOffered(accounts, quota, c.workspaceId, c.auth, c.cursor, now);
    var i := Find(accounts, Choose(Available(accounts, quota, c.workspaceId, c.auth, now), c.cursor).id);
    OfferMeans(accounts[i], quota, c.workspaceId, c.auth, now);
    assert Settled(accounts[i], now);
  }

  /** What every sweeping command starts from. */
  lemma SweepStarts(w: World, c: Command, now: nat)
    requires Inv(w, now) && 0 < now && Sweeps(c)
    ensures var v := SweptWorld(w, now);
      v.doc == Swept(w.doc, now) && Inv(v, now) && AllSettled(v.doc.accounts, now) && v.doc.quota == w.doc.quota
    ensures AllAllowed(w, c, SweepWrites(w.doc.accounts, now), now)
  {
    SweepWorks(w, c, now);
    WorldsFollowDocs(w, SweepWrites(w.doc.accounts, now), now);
  }

  lemma ClaimBehaves(w: World, c: Command, now: nat)
    requires c.Claim? && Inv(w, now) && 0 < now && Enabled(w, c)
    ensures AllAllowed(SweptWorld(w, now), c, Decide(w.doc, c, now).writes, now)
  {
    SweepStarts(w, c, now);
    SweepWritesExpire(w.doc.accounts, now);
    SweepKeepsFresh(w, c, c.leaseId, SweepWrites(w.doc.accounts, now), now);
    var v := SweptWorld(w, now);
    var accounts := v.doc.accounts;
    hide AllAllowed, Swept, SweepWrites, PutWorlds, Fresh, LedgerOk, Available, Choose, MayGrant, AllSettled, UniqueIds;
    if Available(accounts, w.doc.quota, c.workspaceId, c.auth, now) != [] {
      ClaimMayGrant(accounts, v.log, w.doc.quota, c, now);
      var i := Find(accounts, Choose(Available(accounts, w.doc.quota, c.workspaceId, c.auth, now), c.cursor).id);
      OneAllowed(v, c, Write.Grant(i, Granted(accounts[i], c.leaseId, c.clientId, c.holder, c.ttl, now)), now);
    } else {
      NoneAllowed(v, c, now);
    }
  }

  lemma NoneAllowed(w: World, c: Command, now: nat)
    ensures AllAllowed(w, c, [], now) && PutWorlds(w, [], now) == w
  {
  }

  /** A validated lease is held under its trimmed id and still active. */
  lemma ValidMeans(a: Account, leaseId: string, clientId: string, now: int)
    requires Validate(a, leaseId, clientId, now).None?
    ensures a.lease.id == TrimSpace(leaseId) && !Blank(leaseId) && Active(a, now)
  {
  }

  lemma TouchBehaves(w: World, c: Command, now: nat)
    requires c.Touch? && Inv(w, now) && 0 < now
    ensures AllAllowed(SweptWorld(w, now), c, Decide(w.doc, c, now).writes, now)
  {
    SweepStarts(w, c, now);
    var v := SweptWorld(w, now);
    hide AllAllowed, Swept, SweptWorld, SweepWrites, Inv, Validate, Active, Renewed;
    NoneAllowed(v, c, now);
    var i := FindLease(v.doc.accounts, c.accountId, c.leaseId);
    if i < |v.doc.accounts| && Validate(v.doc.accounts[i], c.leaseId, c.clientId, now).None? {
      ValidMeans(v.doc.accounts[i], c.leaseId, c.clientId, now);
      OneAllowed(v, c, Renew(i, Renewed(v.doc.accounts[i], c.holder, c.ttl, now)), now);
    }
  }

  lemma {:induction false} ReleaseBehaves(w: World, c: Command, now: nat)
    requires c.ReleaseLease? && Inv(w, now) && 0 < now
    ensures AllAllowed(BaseWorld(w, Decide(w.doc, c, now), now), c, Decide(w.doc, c, now).writes, now)
  {
    SweepStarts(w, c, now);
    var v := SweptWorld(w, now);
    hide AllAllowed, Swept, SweptWorld, SweepWrites, Inv, Validate, Active;
    NoneAllowed(v, c, now);
    NoneAllowed(w, c, now);
    var i := FindLease(v.doc.accounts, c.accountId, c.leaseId);
    if i < |v.doc.accounts| && Validate(v.doc.accounts[i], c.leaseId, c.clientId, now).None? {
      ValidMeans(v.doc.accounts[i], c.leaseId, c.clientId, now);
      OneAllowed(v, c, Release(i), now);
    }
  }

  lemma {:induction false} UploadDecides(doc: Doc, c: Command, now: nat)
    requires c.Upload?
    ensures var d, accounts, s := Decide(doc, c, now), Swept(doc, now).accounts, c.snapshot;
      || d.writes == []
      || (d.sweep && var i := FindLease(accounts, s.id, s.leaseId);
          && i < |accounts| && MayRenew(c, accounts[i], Uploaded(accounts[i], s, c.ttl, now), now)
          && d.writes == [Renew(i, Uploaded(accounts[i], s, c.ttl, now))])
  {
    hide Swept, Validate, Active, Uploaded, Renewed;
    var s, accounts := c.snapshot, Swept(doc, now).accounts;
    var i := FindLease(accounts, s.id, s.leaseId);
    if i < |accounts| && Validate(accounts[i], s.leaseId, c.clientId, now).None? {
      ValidMeans(accounts[i], s.leaseId, c.clientId, now);
    }
  }

  lemma {:induction false} UploadBehaves(w: World, c: Command, now: nat)
    requires c.Upload? && Inv(w, now) && 0 < now
    ensures AllAllowed(BaseWorld(w, Decide(w.doc, c, now), now), c, Decide(w.doc, c, now).writes, now)
  {
    SweepStarts(w, c, now);
    var v, d := SweptWorld(w, now), Decide(w.doc, c, now);
    hide AllAllowed, Swept, SweptWorld, SweepWrites, Inv, Decide, MayRenew, Uploaded;
    NoneAllowed(v, c, now);
    NoneAllowed(w, c, now);
    UploadDecides(w.doc, c, now);
    if d.writes != [] {
      OneAllowed(v, c, d.writes[0], now);
    }
  }

  // ----- Commands that do not sweep -----

  lemma QuotaMayUpdate(c: Command, b: Account, result: QuotaResult, authChanged: bool, fromClient: bool, reporter: string,
                       flipOwner: bool, now: nat)
    requires QuotaStatusOf(c) == result.status && Names(c, b.id) && (c.RecordQuota? || c.RecordLeased?)
    ensures MayUpdate(c, b, Assessed(Reported(b, fromClient, reporter, flipOwner, now), result, authChanged, now))
  {
  }

  lemma QuotaBehaves(w: World, c: Command, now: nat)
    requires c.RecordQuota? || c.RecordLeased?
    ensures AllAllowed(w, c, Decide(w.doc, c, now).writes, now)
  {
    var xs := Decide(w.doc, c, now).writes;
    hide Assessed, Reported, MayUpdate, HeldBy, CacheOf;
    NoneAllowed(w, c, now);
    if xs != [] {
      OneAllowed(w, c, xs[0], now);
      if |xs| == 2 {
        assert xs[..1] == [xs[0]];
        var b := w.doc.accounts[xs[1].i];
        if c.RecordQuota? {
          QuotaMayUpdate(c, b, c.result, c.authChanged, c.fromClient, c.reporter, c.flipOwner, now);
        } else {
          QuotaMayUpdate(c, b, c.result, false, true, c.clientId, false, now);
        }
        CacheKeepsAccounts(w, xs[0], now);
        assert Allowed(PutWorlds(w, xs[..1], now), c, xs[1], now);
      } else {
        assert xs == [xs[0]];
      }
    }
  }

  lemma CacheKeepsAccounts(w: World, x: Write, now: nat)
    requires x.Cache?
    ensures PutWorlds(w, [x], now).doc.accounts == w.doc.accounts
  {
    assert [x][..0] == [];
  }

  lemma CreateMayAdd(accounts: seq<Account>, id: string, name: string, generation: int, now: nat)
    requires 0 <= generation <= 1
    ensures var s := Create(accounts, id, name, generation, now);
      !s.Overwritten? && (s.Created? ==> MayAdd(accounts, s.account))
  {
  }

  /** Overwriting never touches an active lease, and counts as one new generation. */
  lemma UpsertMayStore(accounts: seq<Account>, p: Profile, c: Command, now: nat)
    requires !Sweeps(c)
    ensures var s := Upsert(accounts, p, now);
      && (s.Created? ==> MayAdd(accounts, s.account))
      && (s.Overwritten? ==>
            && s.i < |accounts| && MayUpdate(c, accounts[s.i], s.account)
            && s.account.id == accounts[s.i].id && s.account.status == accounts[s.i].status
            && !Active(accounts[s.i], now))
  {
    hide MayAdd, IdFor, FreshNames.MatchesIdPattern, Create, Active;
    var id := IdFor(TrimSpace(p.id), p.derivedId, Ids(accounts), p.stamp);
    CreateMayAdd(accounts, id, if Blank(p.name) then p.derivedName else TrimSpace(p.name), 1, now);
  }

  lemma StoringAllowed(w: World, c: Command, s: Stored, now: nat)
    requires s.Created? ==> MayAdd(w.doc.accounts, s.account)
    requires s.Overwritten? ==> s.i < |w.doc.accounts| && MayUpdate(c, w.doc.accounts[s.i], s.account)
    ensures AllAllowed(w, c, Storing(s).writes, now)
  {
    hide AllAllowed, MayAdd, MayUpdate;
    NoneAllowed(w, c, now);
    if !s.Refused? { OneAllowed(w, c, Storing(s).writes[0], now); }
  }

  lemma {:induction false} StoreBehaves(w: World, c: Command, now: nat)
    requires c.UpsertJson? || c.AddAccount? || c.ImportLive? || c.UpsertSnapshot?
    requires UniqueIds(w.doc.accounts)
    ensures AllAllowed(w, c, Decide(w.doc, c, now).writes, now)
  {
    hide MayAdd, MayUpdate, AllAllowed, Create, Upsert, Refined, Refining;
    var accounts := w.doc.accounts;
    NoneAllowed(w, c, now);
    match c
    case UpsertJson(p) =>
      UpsertMayStore(accounts, p, c, now);
      StoringAllowed(w, c, Upsert(accounts, p, now), now);
    case AddAccount(id, name) =>
      CreateMayAdd(accounts, id, name, 0, now);
      StoringAllowed(w, c, Create(accounts, id, name, 0, now), now);
    case ImportLive(p) =>
      var id, name := IdFor(p.id, p.derivedId, Ids(accounts), p.stamp), if Blank(p.name) then p.derivedName else p.name;
      CreateMayAdd(accounts, id, name, 1, now);
      StoringAllowed(w, c, Create(accounts, id, name, 1, now), now);
    case UpsertSnapshot(p, s) =>
      var stored := Upsert(accounts, p, now);
      UpsertMayStore(accounts, p, c, now);
      StoringAllowed(w, c, stored, now);
      if !stored.Refused? {
        RefinedMayStore(accounts, stored, c, s, now);
        if stored.Overwritten? { RefiningOnce(accounts, stored.i, stored.account, s, now); }
        StoringAllowed(w, c, stored.(account := Refined(stored.account, s, now)), now);
      }
  }

  /** With distinct ids the second pass meets the account just stored. */
  lemma RefiningOnce(accounts: seq<Account>, i: nat, a: Account, s: Snapshot, now: nat)
    requires UniqueIds(accounts) && i < |accounts| && a.id == accounts[i].id
    ensures Refining(accounts, i, a, s, now) == Storing(Overwritten(i, Refined(a, s, now)))
  {
    FindUnique(accounts, i);
  }

  lemma RefinedMayStore(accounts: seq<Account>, stored: Stored, c: Command, s: Snapshot, now: nat)
    requires !stored.Refused? && c.UpsertSnapshot? && c.snapshot == s
    requires stored.Created? ==> MayAdd(accounts, stored.account)
    requires stored.Overwritten? ==>
        && stored.i < |accounts| && MayUpdate(c, accounts[stored.i], stored.account)
        && stored.account.status == accounts[stored.i].status
    ensures var a := Refined(stored.account, s, now);
      && (stored.Created? ==> MayAdd(accounts, a))
      && (stored.Overwritten? ==> MayUpdate(c, accounts[stored.i], a))
  {
  }

  lemma EditBehaves(w: World, c: Command, now: nat)
    requires c.SetStatus? || c.SetName? || c.SetWorkspace? || c.SetOwner? || c.Delete?
    ensures AllAllowed(w, c, Decide(w.doc, c, now).writes, now)
  {
    hide AllAllowed;
    NoneAllowed(w, c, now);
    var xs := Decide(w.doc, c, now).writes;
    if xs != [] {
      OneAllowed(w, c, xs[0], now);
    }
  }

  // ----- Discovered accounts -----

  lemma DiscoveredNext(used: set<string>, entries: seq<Entry>, stamp: string, now: nat)
    requires entries != []
    ensures var before, e := Discovered(used, entries[..|entries| - 1], stamp, now), entries[|entries| - 1];
      Discovered(used, entries, stamp, now)
      == before + [NewAccount(DiscoveredId(e.dir, used + Ids(before), stamp), e.name, 0, now)]
  {
    hide DiscoveredId, Ids, NewAccount;
  }

  lemma {:induction false} DiscoveredAllowed(w: World, c: Command, entries: seq<Entry>, stamp: string, now: nat)
    requires entries != [] ==> Nameable(w.doc.accounts, entries, stamp)
    ensures var found := Discovered(Ids(w.doc.accounts), entries, stamp, now);
      && |found| == |entries|
      && AllAllowed(w, c, Adds(found), now)
      && PutWorlds(w, Adds(found), now).doc.accounts == w.doc.accounts + found
  {
    hide AllAllowed, Discovered, Ids, Adds, DiscoveredId, PutWorlds, PutWorld, Allowed, FreshNames.IsStamp, NewAccount;
    if entries == [] {
      NoneDiscovered(w, c, stamp, now);
    } else {
      var front, e := entries[..|entries| - 1], entries[|entries| - 1];
      DiscoveredAllowed(w, c, front, stamp, now);
      var used := Ids(w.doc.accounts);
      DiscoveredNext(used, entries, stamp, now);
      var before := Discovered(used, front, stamp, now);
      var a := NewAccount(DiscoveredId(e.dir, used + Ids(before), stamp), e.name, 0, now);
      AddsOne(before, a);
      NextIdIsNew(w.doc.accounts, before, e.dir, stamp);
      NewIsAllowed(PutWorlds(w, Adds(before), now), c, DiscoveredId(e.dir, used + Ids(before), stamp), e.name, now);
      AllowedOneMore(w, c, Adds(before), Add(a), now);
    }
  }

  lemma NoneDiscovered(w: World, c: Command, stamp: string, now: nat)
    ensures Discovered(Ids(w.doc.accounts), [], stamp, now) == [] && Adds([]) == []
    ensures AllAllowed(w, c, [], now) && PutWorlds(w, [], now).doc.accounts == w.doc.accounts + []
  {
  }

  lemma NewIsAllowed(w: World, c: Command, id: string, name: string, now: nat)
    requires id !in Ids(w.doc.accounts)
    ensures var a := NewAccount(id, name, 0, now);
      Allowed(w, c, Add(a), now) && PutWorld(w, Add(a), now).doc.accounts == w.doc.accounts + [a]
  {
  }

  lemma NextIdIsNew(accounts: seq<Account>, before: seq<Account>, dir: string, stamp: string)
    requires |accounts| + |before| < FreshNames.NAME_LIMIT && FreshNames.IsStamp(stamp)
    ensures DiscoveredId(dir, Ids(accounts) + Ids(before), stamp) !in Ids(accounts + before)
  {
    hide DiscoveredId, Ids;
    IdsOfTwo(accounts, before);
    IdsAreFew(accounts + before);
    DiscoveredIdIsNew(dir, Ids(accounts + before), stamp);
  }

  lemma AllowedOneMore(w: World, c: Command, xs: seq<Write>, x: Write, now: nat)
    requires AllAllowed(w, c, xs, now) && Allowed(PutWorlds(w, xs, now), c, x, now)
    ensures AllAllowed(w, c, xs + [x], now)
    ensures PutWorlds(w, xs + [x], now) == PutWorld(PutWorlds(w, xs, now), x, now)
  {
    assert (xs + [x])[..|xs|] == xs;
  }

  lemma AddsOne(before: seq<Account>, a: Account)
    ensures Adds(before + [a]) == Adds(before) + [Add(a)]
  {
  }

  lemma IdsOfTwo(a: seq<Account>, b: seq<Account>)
    ensures Ids(a + b) == Ids(a) + Ids(b)
  {
    forall id | id in Ids(a) + Ids(b) ensures id in Ids(a + b) {
      if id in Ids(a) {
        var i :| 0 <= i < |a| && a[i].id == id;
        assert (a + b)[i].id == id;
      } else {
        var i :| 0 <= i < |b| && b[i].id == id;
        assert (a + b)[|a| + i].id == id;
      }
    }
  }

  lemma {:induction false} IdsAreFew(accounts: seq<Account>)
    ensures |Ids(accounts)| <= |accounts|
  {
    if accounts == [] {
      assert Ids(accounts) == {};
    } else {
      var front, last := accounts[..|accounts| - 1], accounts[|accounts| - 1];
      IdsAreFew(front);
      IdsOfTwo(front, [last]);
      assert front + [last] == accounts;
      assert Ids([last]) == {last.id} by { assert [last][0] == last; }
    }
  }

  lemma DiscoveredIdIsNew(dir: string, used: set<string>, stamp: string)
    requires |used| < FreshNames.NAME_LIMIT && FreshNames.IsStamp(stamp)
    ensures DiscoveredId(dir, used, stamp) !in used
  {
    FreshNames.UniqueNameIsFresh("profile-" + dir, used, stamp);
  }

  lemma DiscoveryBehaves(w: World, c: Command, now: nat)
    requires (c.SelectForRun? || c.ListAccounts?) && Enabled(w, c)
    ensures AllAllowed(w, c, Decide(w.doc, c, now).writes, now)
  {
    DiscoveredAllowed(w, c, c.entries, c.stamp, now);
  }

  // ---------- One step ----------

  /** Every write an operation makes is one it may make. */
  lemma {:induction false} CommandBehaves(w: World, c: Command, now: nat)
    requires Inv(w, now) && 0 < now && Enabled(w, c)
    ensures var d := Decide(w.doc, c, now);
      && (d.sweep ==> Sweeps(c) && AllAllowed(w, c, SweepWrites(w.doc.accounts, now), now))
      && AllAllowed(BaseWorld(w, d, now), c, d.writes, now)
  {
    InvIsUnique(w, now);
    hide Inv, AllAllowed, SweepWrites, SweptWorld, Swept;
    DecideSweeps(w.doc, c, now);
    if Sweeps(c) {
      SweepStarts(w, c, now);
    }
    match c
    case Sweep => NoneAllowed(SweptWorld(w, now), c, now);
    case Claim(_, _, _, _, _, _, _, _) => ClaimBehaves(w, c, now);
    case Touch(_, _, _, _, _) => TouchBehaves(w, c, now);
    case Upload(_, _, _) => UploadBehaves(w, c, now);
    case ReleaseLease(_, _, _) => ReleaseBehaves(w, c, now);
    case RecordLeased(_, _, _, _, _) => QuotaBehaves(w, c, now);
    case RecordQuota(_, _, _, _, _, _) => QuotaBehaves(w, c, now);
    case UpsertJson(_) => StoreBehaves(w, c, now);
    case UpsertSnapshot(_, _) => StoreBehaves(w, c, now);
    case AddAccount(_, _) => StoreBehaves(w, c, now);
    case ImportLive(_) => StoreBehaves(w, c, now);
    case ListAccounts(_, _) => DiscoveryBehaves(w, c, now);
    case SelectForRun(_, _, _, _) => DiscoveryBehaves(w, c, now);
    case SetStatus(_, _) => EditBehaves(w, c, now);
    case SetOwner(_, _, _) => EditBehaves(w, c, now);
    case SetName(_, _) => EditBehaves(w, c, now);
    case SetWorkspace(_, _, _) => EditBehaves(w, c, now);
    case Delete(_, _) => EditBehaves(w, c, now);
  }

  lemma InvIsUnique(w: World, clock: int)
    requires Inv(w, clock)
    ensures UniqueIds(w.doc.accounts)
  {
  }

  lemma DecideSweeps(doc: Doc, c: Command, now: nat)
    ensures Decide(doc, c, now).sweep ==> Sweeps(c)
    ensures c.Sweep? || c.Claim? || c.Touch? ==> Decide(doc, c, now).sweep
  {
    hide Swept, Upsert, Create, Available, Choose, FindLease, Validate, Discovered, QuotaWrites;
  }

  /** So one step keeps the invariant. */
  lemma StepKeepsInv(w: World, c: Command, clock: int, now: nat)
    requires Inv(w, clock) && clock <= now && 0 < now && Enabled(w, c)
    ensures Inv(StepWorld(w, c, now), now)
  {
    InvAges(w, clock, now);
    CommandBehaves(w, c, now);
    var d := Decide(w.doc, c, now);
    hide Inv, AllAllowed, Decide, SweepWrites, PutWorlds;
    if d.sweep {
      WritesKeep(w, c, SweepWrites(w.doc.accounts, now), now);
    }
    WritesKeep(BaseWorld(w, d, now), c, d.writes, now);
  }
}
