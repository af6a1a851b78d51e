/**
 What a claim picks and grants, and what a late quota record cannot touch.
 */
module LeaseRecords {
  import opened Wrappers
  import opened Text
  import opened LoadBalance
  import opened LeaseMachine
  import opened LeaseInvariant
  import opened LeaseSteps
  import opened LeaseMoves
  import opened LeaseRuns
  import opened LeaseTheorems
  import Sorting

  // ---------- Claims ----------

  lemma SweptDoc(doc: Doc, now: nat)
    ensures SweptUpTo(doc.accounts, Swept(doc, now).accounts, |doc.accounts|, now)
  {
    var w := World(doc, []);
    assert doc.accounts[..|doc.accounts|] == doc.accounts;
    SweepPrefix(w, Sweep, |doc.accounts|, now);
    WorldsFollowDocs(w, SweepWrites(doc.accounts, now), now);
  }

  /** The candidates of a claim. */
  function Offers(doc: Doc, c: Command, now: nat): seq<Candidate>
    requires c.Claim?
  {
    Available(Swept(doc, now).accounts, doc.quota, c.workspaceId, c.auth, now)
  }

  lemma {:induction false} ClaimFinds(doc: Doc, c: Command, now: nat) returns (i: nat)
    requires c.Claim? && Decide(doc, c, now).reply.With? && UniqueIds(doc.accounts)
    ensures var accounts := Swept(doc, now).accounts;
      && i < |accounts| && UniqueIds(accounts) && Offers(doc, c, now) != []
      && accounts[i].id == Choose(Offers(doc, c, now), c.cursor).id
      && var a := Granted(accounts[i], c.leaseId, c.clientId, c.holder, c.ttl, now);
        Decide(doc, c, now) == Decision(true, [Write.Grant(i, a)], With(a))
  {
    SweptDoc(doc, now);
    var accounts := Swept(doc, now).accounts;
    assert forall j :: 0 <= j < |accounts| ==> accounts[j].id == doc.accounts[j].id;
    hide Swept, Available, Choose, SweptAccount, Granted;
    assert Offers(doc, c, now) != [];
    ChosenIsOffered(accounts, doc.quota, c.workspaceId, c.auth, c.cursor, now);
    i := Find(accounts, Choose(Offers(doc, c, now), c.cursor).id);
  }

  /** The account granted is eligible, in the requested pool, and that of the chosen candidate. */
  lemma {:induction false} ClaimPicksChosen(doc: Doc, c: Command, now: nat)
    requires c.Claim? && Decide(doc, c, now).reply.With? && UniqueIds(doc.accounts)
    ensures var a := Decide(doc, c, now).reply.account;
      && Offers(doc, c, now) != [] && Choose(Offers(doc, c, now), c.cursor).id == a.id
      && Choose(Offers(doc, c, now), c.cursor) in Offers(doc, c, now)
      && a.owner == Cloud && a.status == Ready && a.id in c.auth && InPool(a, c.workspaceId)
  {
    var i := ClaimFinds(doc, c, now);
    var accounts, offers := Swept(doc, now).accounts, Offers(doc, c, now);
    ChooseIsCandidate(offers, c.cursor);
    ChosenIsOffered(accounts, doc.quota, c.workspaceId, c.auth, c.cursor, now);
    FindUnique(accounts, i);
    hide Choose, Available, Swept, Decide, EvaluationOf;
    OfferMeans(accounts[i], doc.quota, c.workspaceId, c.auth, now);
  }

  /** With transitive closeness it is among the best of those on offer. */
  lemma {:induction false} ClaimPicksBest(doc: Doc, c: Command, now: nat)
    requires c.Claim? && Decide(doc, c, now).reply.With? && UniqueIds(doc.accounts) && Ranked(Offers(doc, c, now))
    ensures var a := Decide(doc, c, now).reply.account;
      && (exists o :: o in Offers(doc, c, now) && o.id == a.id && AmongBest(Offers(doc, c, now), o))
      && a.owner == Cloud && a.status == Ready && a.id in c.auth && InPool(a, c.workspaceId)
  {
    hide Ranked, Choose, AmongBest, Decide, Offers;
    ClaimPicksChosen(doc, c, now);
    ChooseIsBest(Offers(doc, c, now), c.cursor);
  }

  /** Where the comparator is an order, no other on offer beats it by more than twice the tolerance. */
  lemma {:induction false} ClaimPicksNearBest(doc: Doc, c: Command, now: nat)
    requires c.Claim? && Decide(doc, c, now).reply.With? && UniqueIds(doc.accounts)
    requires Sorting.StrictTotalOrder(Better, Offers(doc, c, now))
    ensures var a := Decide(doc, c, now).reply.account;
      exists o :: o in Offers(doc, c, now) && o.id == a.id && NearBest(Offers(doc, c, now), o)
  {
    hide Better, Choose, NearBest, Decide, Offers;
    ClaimPicksChosen(doc, c, now);
    ChooseIsNearBest(Offers(doc, c, now), c.cursor);
  }

  /** The grant: the account had no lease, and its new one runs for the normalized time to live. */
  lemma {:induction false} ClaimGrants(w: World, c: Command, clock: int, now: nat)
    requires Inv(w, clock) && clock <= now && 0 < now && Enabled(w, c)
    requires c.Claim? && Decide(w.doc, c, now).reply.With?
    ensures var a := Decide(w.doc, c, now).reply.account;
      && On(StepWorld(w, c, now).doc.accounts, a.id) == Some(a)
      && Holds(StepWorld(w, c, now), a.id, c.leaseId) && !Holds(w, a.id, c.leaseId)
      && On(w.doc.accounts, a.id).Some? && On(w.doc.accounts, a.id).value.lease == NO_LEASE
      && a.lease == Lease(c.leaseId, TrimSpace(c.clientId), TrimSpace(c.holder), now, now, now + NormalizeTtl(c.ttl))
  {
    InvAges(w, clock, now);
    SweepStarts(w, c, now);
    SweepWorks(w, c, now);
    var i := ClaimFinds(w.doc, c, now);
    var v := SweptWorld(w, now);
    var accounts := v.doc.accounts;
    var a := Granted(accounts[i], c.leaseId, c.clientId, c.holder, c.ttl, now);
    GrantLands(w, c, i, a, now);
    if Holds(w, a.id, c.leaseId) { HeldIsUsed(w, clock, a.id, c.leaseId); }
    hide Inv, AllAllowed, SweptWorld, Swept, StepWorld, Decide, NormalizeTtl, Choose, Offers, Holds;
    HoldStarts(w, c, clock, now, a.id, c.leaseId) by { HoldsGranted(StepWorld(w, c, now), a, c.leaseId); }
    HoldsGranted(StepWorld(w, c, now), a, c.leaseId);
  }

  lemma HoldsGranted(w: World, a: Account, leaseId: string)
    requires On(w.doc.accounts, a.id) == Some(a) && a.lease.id == leaseId != ""
    ensures Holds(w, a.id, leaseId)
  {
  }

  lemma {:induction false} GrantLands(w: World, c: Command, i: nat, a: Account, now: nat)
    requires var v, d := SweptWorld(w, now), Decide(w.doc, c, now);
      && UniqueIds(v.doc.accounts) && i < |v.doc.accounts| && d.sweep
      && d.writes == [Write.Grant(i, a)] && a.id == v.doc.accounts[i].id
    ensures On(StepWorld(w, c, now).doc.accounts, a.id) == Some(a)
  {
    var v := SweptWorld(w, now);
    hide On, Decide, SweptWorld;
    PutOne(v, Write.Grant(i, a), now);
    OnReplaced(v.doc.accounts, i, a, a.id);
  }

  // ----- The order of stored accounts does not matter -----

  /** The candidates, account by account, as the sweep leaves each of them. */
  function OffersOf(accounts: seq<Account>, quota: map<string, QuotaCache>, c: Command, now: nat): seq<Candidate>
    requires c.Claim?
  {
    if accounts == [] then []
    else
      var n := |accounts| - 1;
      OffersOf(accounts[..n], quota, c, now) + Offer(SweptAccount(accounts[n], now), quota, c.workspaceId, c.auth, now)
  }

  lemma {:induction false} OffersMatch(before: seq<Account>, after: seq<Account>, quota: map<string, QuotaCache>,
      c: Command, now: nat)
    requires c.Claim? && SweptUpTo(before, after, |before|, now)
    ensures Available(after, quota, c.workspaceId, c.auth, now) == OffersOf(before, quota, c, now)
  {
    hide SweptAccount, Offer;
    if before != [] {
      var n := |before| - 1;
      OffersMatch(before[..n], after[..n], quota, c, now);
    }
  }

  lemma {:induction false} OffersConcat(a: seq<Account>, b: seq<Account>, quota: map<string, QuotaCache>, c: Command,
      now: nat)
    requires c.Claim?
    ensures OffersOf(a + b, quota, c, now) == OffersOf(a, quota, c, now) + OffersOf(b, quota, c, now)
  {
    hide SweptAccount, Offer;
    if b == [] {
      assert a + b == a;
    } else {
      var n := |b| - 1;
      OffersConcat(a, b[..n], quota, c, now);
      assert (a + b)[..|a + b| - 1] == a + b[..n];
    }
  }

  lemma SameAfterRemoval<T>(front: seq<T>, left: seq<T>, right: seq<T>, x: T)
    requires multiset(front + [x]) == multiset(left + [x] + right)
    ensures multiset(front) == multiset(left + right)
  {
    assert multiset(front) == multiset(front + [x]) - multiset{x};
    assert multiset(left + right) == multiset(left + [x] + right) - multiset{x};
  }

  lemma OffersMiddle(left: seq<Account>, x: Account, right: seq<Account>, quota: map<string, QuotaCache>, c: Command,
                     now: nat)
    requires c.Claim?
    ensures multiset(OffersOf(left + [x] + right, quota, c, now))
         == multiset(OffersOf(left + right, quota, c, now)) + multiset(OffersOf([x], quota, c, now))
  {
    hide OffersOf;
    OffersConcat(left, right, quota, c, now);
    OffersConcat(left + [x], right, quota, c, now);
    OffersConcat(left, [x], quota, c, now);
  }

  /** The last element of a sequence sits somewhere in every permutation of it. */
  lemma TakeOut<T>(s: seq<T>, t: seq<T>) returns (left: seq<T>, x: T, right: seq<T>)
    requires s != [] && multiset(s) == multiset(t)
    ensures s == s[..|s| - 1] + [x] && t == left + [x] + right
    ensures multiset(s[..|s| - 1]) == multiset(left + right)
  {
    x := s[|s| - 1];
    assert x in multiset(t);
    var k :| 0 <= k < |t| && t[k] == x;
    left, right := t[..k], t[k + 1..];
    assert s == s[..|s| - 1] + [x] && t == left + [x] + right;
    SameAfterRemoval(s[..|s| - 1], left, right, x);
  }

  lemma {:induction false} OffersPermute(s: seq<Account>, t: seq<Account>, quota: map<string, QuotaCache>, c: Command,
                                         now: nat)
    requires c.Claim? && multiset(s) == multiset(t)
    ensures multiset(OffersOf(s, quota, c, now)) == multiset(OffersOf(t, quota, c, now))
  {
    if s == [] {
      assert |multiset(t)| == 0;
    } else {
      hide OffersOf;
      var left, x, right := TakeOut(s, t);
      var front := s[..|s| - 1];
      OffersPermute(front, left + right, quota, c, now);
      OffersMiddle(left, x, right, quota, c, now);
      OffersMiddle(front, x, [], quota, c, now);
      assert front + [x] + [] == s && front + [] == front;
    }
  }

  /** The id a claim takes, if any. */
  function Taken(doc: Doc, c: Command, now: nat): Option<string>
    requires c.Claim?
  {
    var reply := Decide(doc, c, now).reply;
    if reply.With? then Some(reply.account.id) else None
  }

  /** Where the comparator is an order, permuting the stored accounts does not change which one a claim takes. */
  lemma {:induction false} ClaimIgnoresOrder(doc: Doc, other: Doc, c: Command, now: nat)
    requires c.Claim? && UniqueIds(doc.accounts) && UniqueIds(other.accounts)
    requires Sorting.StrictTotalOrder(Better, Offers(doc, c, now))
    requires multiset(doc.accounts) == multiset(other.accounts) && doc.quota == other.quota
    ensures Taken(doc, c, now) == Taken(other, c, now)
  {
    SweptDoc(doc, now);
    SweptDoc(other, now);
    OffersMatch(doc.accounts, Swept(doc, now).accounts, doc.quota, c, now);
    OffersMatch(other.accounts, Swept(other, now).accounts, doc.quota, c, now);
    OffersPermute(doc.accounts, other.accounts, doc.quota, c, now);
    var a, b := Offers(doc, c, now), Offers(other, c, now);
    assert multiset(a) == multiset(b) && |multiset(a)| == |a| && |multiset(b)| == |b|;
    TakenIs(doc, c, now);
    TakenIs(other, c, now);
    hide Better, Offers, Taken, Choose;
    if a != [] && c.exported {
      ChooseIgnoresOrder(a, b, c.cursor);
    }
  }

  lemma TakenIs(doc: Doc, c: Command, now: nat)
    requires c.Claim? && UniqueIds(doc.accounts)
    ensures var offers := Offers(doc, c, now);
      Taken(doc, c, now) == if offers == [] || !c.exported then None else Some(Choose(offers, c.cursor).id)
  {
    SweptDoc(doc, now);
    var accounts := Swept(doc, now).accounts;
    assert forall j :: 0 <= j < |accounts| ==> accounts[j].id == doc.accounts[j].id;
    hide Swept, Available, Choose, SweptAccount, Offer;
    if Offers(doc, c, now) != [] {
      ChosenIsOffered(accounts, doc.quota, c.workspaceId, c.auth, c.cursor, now);
    }
  }

  // ---------- Late quota records ----------

  /** However late a probe's result is recorded, it changes no lease, no other account and no event. */
  lemma QuotaRecordKeepsLeases(doc: Doc, c: Command, now: nat)
    requires c.RecordQuota? || c.RecordLeased?
    ensures var next := Step(doc, c, now);
      && |next.accounts| == |doc.accounts| && next.dispatches == doc.dispatches
      && forall i :: 0 <= i < |doc.accounts| ==>
        && next.accounts[i].lease == doc.accounts[i].lease && next.accounts[i].id == doc.accounts[i].id
        && (!Names(c, doc.accounts[i].id) ==> next.accounts[i] == doc.accounts[i])
  {
    var xs := Decide(doc, c, now).writes;
    QuotaShape(doc, c, now);
    hide Decide, Names;
    if xs == [] {
      assert PutAll(doc, [], now) == doc;
    } else {
      QuotaPut(doc, xs, now);
      if |xs| == 2 { RecordKeepsLease(doc, c, now); }
    }
  }

  lemma QuotaShape(doc: Doc, c: Command, now: nat)
    requires c.RecordQuota? || c.RecordLeased?
    ensures var d := Decide(doc, c, now);
      && !d.sweep
      && (d.writes == [] || (1 <= |d.writes| <= 2 && d.writes[0].Cache? && (|d.writes| == 2 ==> d.writes[1].Update?)))
  {
    hide Assessed, Reported, CacheOf, HeldBy, Find;
  }

  lemma QuotaPut(doc: Doc, xs: seq<Write>, now: nat)
    requires 1 <= |xs| <= 2 && xs[0].Cache? && (|xs| == 2 ==> xs[1].Update?)
    ensures PutAll(doc, xs, now).dispatches == doc.dispatches
    ensures PutAll(doc, xs, now).accounts == if |xs| == 2 then Replace(doc.accounts, xs[1].i, xs[1].account) else doc.accounts
  {
    assert xs[..1][..0] == [];
    assert |xs| == 1 ==> xs[..0] == [];
    assert PutAll(doc, [], now) == doc;
    assert PutAll(doc, xs[..1], now) == Put(doc, xs[0], now);
    assert |xs| == 1 ==> xs == xs[..1];
  }

  lemma RecordKeepsLease(doc: Doc, c: Command, now: nat)
    requires (c.RecordQuota? || c.RecordLeased?) && |Decide(doc, c, now).writes| == 2
    ensures var x := Decide(doc, c, now).writes[1];
      && x.i < |doc.accounts| && Names(c, doc.accounts[x.i].id)
      && x.account.lease == doc.accounts[x.i].lease && x.account.id == doc.accounts[x.i].id
  {
  }
}
