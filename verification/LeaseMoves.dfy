/**
 One step seen from one account: the sweep may expire its lease, and then the
 command makes at most one change to it.
 */
module LeaseMoves {
  import opened Wrappers
  import opened LoadBalance
  import opened LeaseMachine
  import opened LeaseInvariant
  import opened LeaseSteps

  /** The account with this id. */
  function On(accounts: seq<Account>, id: string): Option<Account> {
    var i := Find(accounts, id);
    if i < |accounts| then Some(accounts[i]) else None
  }

  /** What one command may do to an account, its sweep included. */
  predicate Changes(c: Command, b: Account, a: Account, now: nat) {
    || MayUpdate(c, b, a)
    || (c.Claim? && b.lease == NO_LEASE && b.status == Ready && b.owner == Cloud
        && a == Granted(b, c.leaseId, c.clientId, c.holder, c.ttl, now))
    || MayRenew(c, b, a, now)
    || (MayRelease(c, b, now) && a == Released(b, now))
    || (Sweeps(c) && Lapsed(b, now) && a == Expired(b, now))
    || MayDrop(c, b, a, now)
  }

  predicate Moves(c: Command, now: nat, before: Option<Account>, after: Option<Account>) {
    match (before, after)
    case (None, None) => true
    case (None, Some(a)) => a.lease == NO_LEASE && a.generation >= 0 && !Sweeps(c)
    case (Some(b), None) => Deletes(c, b.id)
    case (Some(b), Some(a)) => a == b || Changes(c, b, a, now)
  }

  // ---------- Looking up after a write ----------

  lemma OnReplaced(accounts: seq<Account>, i: nat, a: Account, id: string)
    requires UniqueIds(accounts) && i < |accounts| && a.id == accounts[i].id
    ensures On(accounts[i := a], id) == if id == a.id then Some(a) else On(accounts, id)
    ensures id == a.id ==> On(accounts, id) == Some(accounts[i])
  {
    var next := accounts[i := a];
    var j := Find(accounts, id);
    FindUnique(accounts, i);
    assert forall k :: 0 <= k < |next| ==> next[k].id == accounts[k].id;
    if j < |accounts| {
      assert next[j].id == id;
      FindUnique(next, j);
    }
  }

  lemma OnAdded(accounts: seq<Account>, a: Account, id: string)
    requires UniqueIds(accounts) && a.id !in Ids(accounts)
    ensures On(accounts + [a], id) == if id == a.id then Some(a) else On(accounts, id)
    ensures On(accounts, a.id) == None
  {
    var next := accounts + [a];
    assert forall k :: 0 <= k < |accounts| ==> accounts[k].id in Ids(accounts) && next[k] == accounts[k];
    assert next[|accounts|] == a;
    var j := Find(accounts, id);
    assert UniqueIds(next);
    if j < |accounts| {
      FindUnique(next, j);
    } else if id == a.id {
      FindUnique(next, |accounts|);
    }
  }

  lemma OnRemoved(accounts: seq<Account>, i: nat, id: string)
    requires UniqueIds(accounts) && i < |accounts|
    ensures On(accounts[..i] + accounts[i + 1..], id) == if id == accounts[i].id then None else On(accounts, id)
    ensures On(accounts, accounts[i].id) == Some(accounts[i])
  {
    var rest := accounts[..i] + accounts[i + 1..];
    assert forall j :: 0 <= j < |rest| ==> rest[j] == accounts[if j < i then j else j + 1];
    FindUnique(accounts, i);
    var j := Find(accounts, id);
    assert UniqueIds(rest);
    if j < |accounts| && j != i {
      var m := if j < i then j else j - 1;
      assert rest[m] == accounts[j];
      FindUnique(rest, m);
    }
  }

  // ---------- One write ----------

  predicate Hits(accounts: seq<Account>, x: Write, id: string) {
    match x
    case Add(a) => a.id == id
    case Cache(_, _) => false
    case _ => x.i < |accounts| && accounts[x.i].id == id
  }

  /** A write moves the account it is about and no other. */
  lemma WriteMoves(w: World, c: Command, x: Write, now: nat, id: string)
    requires UniqueIds(w.doc.accounts) && Allowed(w, c, x, now) && (x.Add? ==> !Sweeps(c))
    ensures var before, after := On(w.doc.accounts, id), On(PutWorld(w, x, now).doc.accounts, id);
      Moves(c, now, before, after) && (!Hits(w.doc.accounts, x, id) ==> after == before)
  {
    hide On, Renewed, Uploaded, Expired, Released, Granted, Owned, MayUpdate, Active, Lapsed, Ids;
    var accounts := w.doc.accounts;
    match x
    case Add(a) => OnAdded(accounts, a, id);
    case Cache(_, _) =>
    case Remove(i) => OnRemoved(accounts, i, id);
    case _ => IndexedMoves(w, c, x, now, id);
  }

  lemma IndexedMoves(w: World, c: Command, x: Write, now: nat, id: string)
    requires UniqueIds(w.doc.accounts) && Allowed(w, c, x, now) && !x.Add? && !x.Cache? && !x.Remove?
    ensures var before, after := On(w.doc.accounts, id), On(PutWorld(w, x, now).doc.accounts, id);
      Moves(c, now, before, after) && (!Hits(w.doc.accounts, x, id) ==> after == before)
  {
    WrittenKeepsId(w, c, x, now);
    WrittenChanges(w, c, x, now);
    assert x.i < |w.doc.accounts|;
    hide On, Changes, PutWorld, Written, Allowed;
    OnReplaced(w.doc.accounts, x.i, Written(w.doc.accounts[x.i], x, now), id);
  }

  /** The account an indexed write leaves behind. */
  function Written(b: Account, x: Write, now: nat): Account
    requires !x.Add? && !x.Cache? && !x.Remove?
  {
    match x
    case Update(_, a) => a
    case Grant(_, a) => a
    case Renew(_, a) => a
    case Drop(_, a) => a
    case Release(_) => Released(b, now)
    case Expire(_) => Expired(b, now)
  }

  lemma WrittenKeepsId(w: World, c: Command, x: Write, now: nat)
    requires !x.Add? && !x.Cache? && !x.Remove? && Allowed(w, c, x, now)
    ensures Written(w.doc.accounts[x.i], x, now).id == w.doc.accounts[x.i].id
    ensures PutWorld(w, x, now).doc.accounts == w.doc.accounts[x.i := Written(w.doc.accounts[x.i], x, now)]
  {
  }

  lemma WrittenChanges(w: World, c: Command, x: Write, now: nat)
    requires !x.Add? && !x.Cache? && !x.Remove? && Allowed(w, c, x, now)
    ensures Changes(c, w.doc.accounts[x.i], Written(w.doc.accounts[x.i], x, now), now)
  {
  }

  // ---------- One step ----------

  /** The shape of a decision: one write, a cache entry and one write, or new accounts. */
  predicate Once(xs: seq<Write>, c: Command) {
    || (|xs| <= 1 && (xs != [] && xs[0].Add? ==> !Sweeps(c)))
    || (|xs| == 2 && xs[0].Cache? && !xs[1].Add?)
    || (!Sweeps(c) && forall k :: 0 <= k < |xs| ==> xs[k].Add?)
  }

  lemma {:induction false} DecideOnce(doc: Doc, c: Command, now: nat)
    requires UniqueIds(doc.accounts)
    ensures Once(Decide(doc, c, now).writes, c)
  {
    hide Swept, Available, Choose, FindLease, Validate, Discovered, CacheOf, Assessed, Reported, Granted, Uploaded, Renewed;
    hide Refined, Refining, Upsert, Create, UniqueIds, Find;
    if c.UpsertJson? || c.UpsertSnapshot? || c.AddAccount? || c.ImportLive? {
      StoresOnce(doc, c, now);
    }
  }

  lemma StoresOnce(doc: Doc, c: Command, now: nat)
    requires c.UpsertJson? || c.AddAccount? || c.ImportLive? || c.UpsertSnapshot?
    requires UniqueIds(doc.accounts)
    ensures |Decide(doc, c, now).writes| <= 1
  {
    hide Upsert, Create, Refined, Refining, UniqueIds;
    if c.UpsertSnapshot? {
      var stored := Upsert(doc.accounts, c.profile, now);
      UpsertMayStore(doc.accounts, c.profile, c, now);
      if stored.Overwritten? { RefiningOnce(doc.accounts, stored.i, stored.account, c.snapshot, now); }
    }
  }

  lemma SingleMoves(w: World, c: Command, x: Write, now: nat, id: string)
    requires UniqueIds(w.doc.accounts) && AllAllowed(w, c, [x], now) && (x.Add? ==> !Sweeps(c))
    ensures Moves(c, now, On(w.doc.accounts, id), On(PutWorlds(w, [x], now).doc.accounts, id))
  {
    assert [x][..0] == [];
    WriteMoves(w, c, x, now, id);
  }

  lemma {:induction false} AddsMove(w: World, c: Command, xs: seq<Write>, now: nat, id: string)
    requires Inv(w, now) && 0 < now && AllAllowed(w, c, xs, now) && !Sweeps(c)
    requires forall k :: 0 <= k < |xs| ==> xs[k].Add?
    ensures Moves(c, now, On(w.doc.accounts, id), On(PutWorlds(w, xs, now).doc.accounts, id))
    ensures On(w.doc.accounts, id).Some? ==> On(PutWorlds(w, xs, now).doc.accounts, id) == On(w.doc.accounts, id)
  {
    if xs != [] {
      var front := xs[..|xs| - 1];
      AddsMove(w, c, front, now, id);
      WritesKeep(w, c, front, now);
      var v := PutWorlds(w, front, now);
      WriteMoves(v, c, xs[|xs| - 1], now, id);
      hide Inv, AllAllowed;
      OnAdded(v.doc.accounts, xs[|xs| - 1].account, id);
    }
  }

  lemma {:induction false} WritesMove(w: World, c: Command, xs: seq<Write>, now: nat, id: string)
    requires Inv(w, now) && 0 < now && AllAllowed(w, c, xs, now) && Once(xs, c)
    ensures Moves(c, now, On(w.doc.accounts, id), On(PutWorlds(w, xs, now).doc.accounts, id))
  {
    if |xs| == 1 {
      assert xs == [xs[0]];
      hide AllAllowed, Moves, On;
      SingleMoves(w, c, xs[0], now, id);
    } else if |xs| == 2 && xs[0].Cache? {
      assert xs[..1] == [xs[0]];
      CacheKeepsAccounts(w, xs[0], now);
      var v := PutWorlds(w, xs[..1], now);
      assert v.doc.accounts == w.doc.accounts;
      WriteMoves(v, c, xs[1], now, id);
    } else if xs != [] {
      AddsMove(w, c, xs, now, id);
    }
  }

  lemma OnSwept(before: seq<Account>, after: seq<Account>, now: nat, id: string)
    requires SweptUpTo(before, after, |before|, now)
    ensures On(after, id) == match On(before, id) case None => None case Some(a) => Some(SweptAccount(a, now))
  {
    var i, j := Find(before, id), Find(after, id);
    assert forall k :: 0 <= k < |before| ==> after[k].id == before[k].id;
    assert i < |before| ==> after[i].id == id;
    assert j < |after| ==> before[j].id == id;
    assert i == j;
  }

  /** The account as the command finds it, after the sweep if it sweeps. */
  function Found(w: World, c: Command, now: nat, id: string): Option<Account> {
    On(BaseWorld(w, Decide(w.doc, c, now), now).doc.accounts, id)
  }

  /** A step moves each account at most twice: an expiry, then the command itself. */
  lemma {:induction false} StepMoves(w: World, c: Command, clock: int, now: nat, id: string)
    requires Inv(w, clock) && clock <= now && 0 < now && Enabled(w, c)
    ensures var b, m, a := On(w.doc.accounts, id), Found(w, c, now, id), On(StepWorld(w, c, now).doc.accounts, id);
      && (m == b || (b.Some? && Sweeps(c) && Lapsed(b.value, now) && m == Some(Expired(b.value, now))))
      && Moves(c, now, m, a)
  {
    InvAges(w, clock, now);
    CommandBehaves(w, c, now);
    InvIsUnique(w, now);
    DecideOnce(w.doc, c, now);
    var d := Decide(w.doc, c, now);
    hide Inv, AllAllowed, Decide, Moves, Once, On, Lapsed, Expired;
    if d.sweep {
      SweepWorks(w, c, now);
      OnSwept(w.doc.accounts, SweptWorld(w, now).doc.accounts, now, id);
    }
    WritesMove(BaseWorld(w, d, now), c, d.writes, now, id);
  }
}
