/**
 What the ledger says about every lease of a run: its events in order, and exactly
 when it does not show how a lease ended.
 */
module LeaseLedger {
  import opened LoadBalance
  import opened Ledger
  import opened LeaseMachine
  import opened LeaseInvariant
  import opened LeaseSteps
  import opened LeaseMoves
  import opened LeaseRuns
  import opened LeaseTheorems

  /**
   In the full history of a run every lease has no event, or one claim, or one
   claim followed by one release or expiry of the same account; ids never repeat
   and the stored list is the newest 200 events.
   */
  lemma {:induction false} LedgerIsSound(doc: Doc, run: seq<Call>, leaseId: string)
    requires Quiet(doc) && UniqueIds(doc.accounts) && Legal(World(doc, []), 0, run)
    ensures var w := After(World(doc, []), run);
      SoundLife(Life(w.log, leaseId)) && DistinctIds(w.log) && w.doc.dispatches == Newest(w.log)
  {
    QuietStart(doc);
    RunKeepsInv(World(doc, []), 0, run);
  }

  ghost predicate Held(accounts: seq<Account>, leaseId: string) {
    exists i :: 0 <= i < |accounts| && accounts[i].lease.id == leaseId
  }

  /** If the lease's only event is its claim, it is still held. */
  ghost predicate Told(w: World, leaseId: string) {
    |Life(w.log, leaseId)| == 1 ==> Held(w.doc.accounts, leaseId)
  }

  /** The writes that end a lease without an event. */
  predicate Silent(x: Write) {
    x.Drop? || x.Remove?
  }

  lemma {:induction false} LifeIsProper(log: seq<Event>, leaseId: string)
    requires EventsOk(log) && Life(log, leaseId) != []
    ensures Proper(leaseId)
  {
    if log[0].leaseId != leaseId { LifeIsProper(log[1..], leaseId); }
  }

  /** How a write changes the life of a lease. */
  lemma LifeAfterWrite(w: World, x: Write, now: nat, leaseId: string)
    ensures var events := WriteEvents(w.doc.accounts, x, now);
      Life(PutWorld(w, x, now).log, leaseId)
      == Life(w.log, leaseId)
         + (if events != [] && events[0].leaseId == leaseId then [Mark(events[0].kind, events[0].accountId)] else [])
  {
    var events := WriteEvents(w.doc.accounts, x, now);
    assert events == [] || events == [events[0]];
    if events != [] {
      OneEvent(w, events[0]);
      LifeGrows(w.log, events[0], leaseId);
    }
  }

  /** A lease stays where it is unless the write releases or expires it, and then its life gets an event. */
  lemma KeptUnlessEnded(w: World, c: Command, x: Write, now: nat, i: nat)
    requires Allowed(w, c, x, now) && !Silent(x) && i < |w.doc.accounts| && LeaseOk(w.doc.accounts[i].lease, now)
    requires w.doc.accounts[i].lease.id != ""
    ensures var after, events := PutWorld(w, x, now).doc.accounts, WriteEvents(w.doc.accounts, x, now);
      && i < |after|
      && (|| after[i].lease.id == w.doc.accounts[i].lease.id
          || (events != [] && events[0].leaseId == w.doc.accounts[i].lease.id))
  {
  }

  lemma EventStartsHeld(w: World, c: Command, x: Write, now: nat, leaseId: string)
    requires Allowed(w, c, x, now) && AccountsOk(w.doc.accounts, w.log, now) && Life(w.log, leaseId) == []
    requires var events := WriteEvents(w.doc.accounts, x, now); events != [] && events[0].leaseId == leaseId
    ensures Held(PutWorld(w, x, now).doc.accounts, leaseId)
  {
    hide Life;
    var after := PutWorld(w, x, now).doc.accounts;
    assert AccountOk(w.doc.accounts[x.i], w.log, now);
    assert x.Grant? && after[x.i].lease.id == leaseId;
  }

  lemma WriteKeepsTold(w: World, c: Command, x: Write, now: nat, leaseId: string)
    requires Inv(w, now) && Allowed(w, c, x, now) && Told(w, leaseId) && !Silent(x)
    ensures Told(PutWorld(w, x, now), leaseId)
  {
    LifeAfterWrite(w, x, now, leaseId);
    hide PutWorld, Allowed, UniqueIds, UniqueLeases, WriteEvents;
    if |Life(PutWorld(w, x, now).log, leaseId)| == 1 {
      if |Life(w.log, leaseId)| == 1 {
        LifeIsProper(w.log, leaseId);
        var i :| 0 <= i < |w.doc.accounts| && w.doc.accounts[i].lease.id == leaseId;
        assert AccountOk(w.doc.accounts[i], w.log, now);
        KeptUnlessEnded(w, c, x, now, i);
        assert PutWorld(w, x, now).doc.accounts[i].lease.id == leaseId;
      } else {
        EventStartsHeld(w, c, x, now, leaseId);
      }
    }
  }

  lemma {:induction false} WritesKeepTold(w: World, c: Command, xs: seq<Write>, now: nat, leaseId: string)
    requires Inv(w, now) && 0 < now && AllAllowed(w, c, xs, now) && Told(w, leaseId)
    requires forall k :: 0 <= k < |xs| ==> !Silent(xs[k])
    ensures Told(PutWorlds(w, xs, now), leaseId)
  {
    if xs != [] {
      var front, x := xs[..|xs| - 1], xs[|xs| - 1];
      WritesKeepTold(w, c, front, now, leaseId);
      WritesKeep(w, c, front, now);
      hide Inv, AllAllowed, Allowed, PutWorld, Told;
      WriteKeepsTold(PutWorlds(w, front, now), c, x, now, leaseId);
    }
  }

  /** A silent write about another lease leaves this one where it is. */
  lemma SilentKeepsTold(w: World, c: Command, x: Write, now: nat, leaseId: string)
    requires Allowed(w, c, x, now) && Silent(x) && w.doc.accounts[x.i].lease.id != leaseId && Told(w, leaseId)
    ensures Told(PutWorld(w, x, now), leaseId)
  {
    LifeAfterWrite(w, x, now, leaseId);
    if |Life(w.log, leaseId)| == 1 {
      var before, after := w.doc.accounts, PutWorld(w, x, now).doc.accounts;
      var k :| 0 <= k < |before| && before[k].lease.id == leaseId;
      var m := if x.Remove? && k > x.i then k - 1 else k;
      assert after[m] == before[k];
    }
  }

  /** The command takes the account away from its holder without an event. */
  predicate Drops(c: Command, id: string) {
    HandsOver(c, id) || Deletes(c, id)
  }

  lemma QuietWrites(doc: Doc, c: Command, now: nat)
    requires !c.SetOwner? && !c.Delete?
    ensures forall k :: 0 <= k < |Decide(doc, c, now).writes| ==> !Silent(Decide(doc, c, now).writes[k])
  {
    hide Swept, Available, Choose, FindLease, Validate, Discovered, CacheOf, Assessed, Reported, Granted, Uploaded, Renewed;
    hide Refined, Refining, Upsert, Create, Find;
    if c.UpsertSnapshot? { SnapshotIsQuiet(doc, c, now); }
  }

  lemma SnapshotIsQuiet(doc: Doc, c: Command, now: nat)
    requires c.UpsertSnapshot?
    ensures forall k :: 0 <= k < |Decide(doc, c, now).writes| ==> !Silent(Decide(doc, c, now).writes[k])
  {
    hide Refined, Upsert, Find;
  }

  lemma OwnerWrites(doc: Doc, c: Command, now: nat)
    requires c.SetOwner? || c.Delete?
    ensures var d := Decide(doc, c, now);
      !d.sweep && (d.writes == [] || d.writes == [d.writes[0]])
  {
  }

  lemma DroppedIsNotIt(w: World, c: Command, x: Write, now: nat, leaseId: string)
    requires UniqueIds(w.doc.accounts) && Allowed(w, c, x, now) && Silent(x) && Proper(leaseId)
    requires forall id :: Drops(c, id) ==> !Holds(w, id, leaseId)
    ensures w.doc.accounts[x.i].lease.id != leaseId
  {
    var b := w.doc.accounts[x.i];
    FindUnique(w.doc.accounts, x.i);
    assert Drops(c, b.id);
    assert !Holds(w, b.id, leaseId);
  }

  lemma {:induction false} SilentCommandKeepsTold(w: World, c: Command, now: nat, leaseId: string)
    requires Inv(w, now) && 0 < now && Enabled(w, c) && Told(w, leaseId) && (c.SetOwner? || c.Delete?) && Proper(leaseId)
    requires forall id :: Drops(c, id) ==> !Holds(w, id, leaseId)
    ensures Told(StepWorld(w, c, now), leaseId)
  {
    CommandBehaves(w, c, now);
    OwnerWrites(w.doc, c, now);
    InvIsUnique(w, now);
    var xs := Decide(w.doc, c, now).writes;
    hide Inv, Decide, Told, Drops, Holds, Allowed, PutWorld;
    if xs != [] {
      PutOne(w, xs[0], now);
      assert xs[..0] == [];
      if Silent(xs[0]) {
        DroppedIsNotIt(w, c, xs[0], now, leaseId);
        SilentKeepsTold(w, c, xs[0], now, leaseId);
      } else {
        WriteKeepsTold(w, c, xs[0], now, leaseId);
      }
    }
  }

  lemma {:induction false} StepKeepsTold(w: World, c: Command, clock: int, now: nat, leaseId: string)
    requires Inv(w, clock) && clock <= now && 0 < now && Enabled(w, c) && Told(w, leaseId) && Proper(leaseId)
    requires forall id :: Drops(c, id) ==> !Holds(w, id, leaseId)
    ensures Told(StepWorld(w, c, now), leaseId)
  {
    InvAges(w, clock, now);
    if c.SetOwner? || c.Delete? {
      hide Inv, Told, Drops, Holds;
      SilentCommandKeepsTold(w, c, now, leaseId);
    } else {
      CommandBehaves(w, c, now);
      QuietWrites(w.doc, c, now);
      SweepWritesExpire(w.doc.accounts, now);
      var d := Decide(w.doc, c, now);
      hide Inv, AllAllowed, Decide, Told, Drops, Holds;
      if d.sweep {
        WritesKeep(w, c, SweepWrites(w.doc.accounts, now), now);
        WritesKeepTold(w, c, SweepWrites(w.doc.accounts, now), now, leaseId);
      }
      WritesKeepTold(BaseWorld(w, d, now), c, d.writes, now, leaseId);
    }
  }

  // ---------- After a lease is gone ----------

  ghost predicate Nowhere(accounts: seq<Account>, leaseId: string) {
    forall i :: 0 <= i < |accounts| ==> accounts[i].lease.id != leaseId
  }

  lemma GoneIsNowhere(w: World, leaseId: string)
    requires UniqueIds(w.doc.accounts) && Gone(w, leaseId)
    ensures Nowhere(w.doc.accounts, leaseId)
  {
    forall i | 0 <= i < |w.doc.accounts| ensures w.doc.accounts[i].lease.id != leaseId {
      FindUnique(w.doc.accounts, i);
      assert !Holds(w, w.doc.accounts[i].id, leaseId);
    }
  }

  lemma GoneWrite(w: World, c: Command, x: Write, now: nat, leaseId: string)
    requires Allowed(w, c, x, now) && Proper(leaseId) && Life(w.log, leaseId) != [] && Nowhere(w.doc.accounts, leaseId)
    ensures Nowhere(PutWorld(w, x, now).doc.accounts, leaseId)
    ensures Life(PutWorld(w, x, now).log, leaseId) == Life(w.log, leaseId)
  {
    LifeAfterWrite(w, x, now, leaseId);
    hide Life;
  }

  lemma {:induction false} GoneWrites(w: World, c: Command, xs: seq<Write>, now: nat, leaseId: string)
    requires AllAllowed(w, c, xs, now) && Proper(leaseId) && Life(w.log, leaseId) != [] && Nowhere(w.doc.accounts, leaseId)
    ensures Nowhere(PutWorlds(w, xs, now).doc.accounts, leaseId)
    ensures Life(PutWorlds(w, xs, now).log, leaseId) == Life(w.log, leaseId)
  {
    if xs != [] {
      var front := xs[..|xs| - 1];
      GoneWrites(w, c, front, now, leaseId);
      hide Allowed, PutWorld, Nowhere, Life, Proper;
      GoneWrite(PutWorlds(w, front, now), c, xs[|xs| - 1], now, leaseId);
    }
  }

  /** The ledger says nothing more about a lease that is gone. */
  lemma {:induction false} GoneStep(w: World, c: Command, clock: int, now: nat, leaseId: string)
    requires Inv(w, clock) && clock <= now && 0 < now && Enabled(w, c) && Gone(w, leaseId)
    ensures Life(StepWorld(w, c, now).log, leaseId) == Life(w.log, leaseId)
  {
    InvAges(w, clock, now);
    CommandBehaves(w, c, now);
    InvIsUnique(w, now);
    GoneIsNowhere(w, leaseId);
    var d := Decide(w.doc, c, now);
    hide Inv, AllAllowed, Decide, Nowhere, Life;
    if d.sweep {
      GoneWrites(w, c, SweepWrites(w.doc.accounts, now), now, leaseId);
    }
    GoneWrites(BaseWorld(w, d, now), c, d.writes, now, leaseId);
  }

  lemma {:induction false} GoneRun(w: World, start: int, run: seq<Call>, leaseId: string, j: nat, k: nat)
    requires Inv(w, start) && Legal(w, start, run) && j <= k <= |run| && Gone(At(w, run, j), leaseId)
    ensures Life(At(w, run, k).log, leaseId) == Life(At(w, run, j).log, leaseId)
  {
    if j < k {
      GoneRun(w, start, run, leaseId, j, k - 1);
      GoneForGood(w, start, run, leaseId, j, k - 1);
      CallFacts(w, start, run, k - 1);
      hide Inv, Gone, Legal, At, Enabled, Life, StepWorld;
      GoneStep(At(w, run, k - 1), run[k - 1].command, Clock(start, run[..k - 1]), run[k - 1].at, leaseId);
    }
  }

  // ---------- Dropped leases ----------

  lemma DropWrites(doc: Doc, c: Command, now: nat, id: string)
    requires Drops(c, id) && On(doc.accounts, id).Some?
    ensures var i, d := Find(doc.accounts, id), Decide(doc, c, now);
      && i < |doc.accounts| && !d.sweep
      && (c.SetOwner? ==> d.writes == [Drop(i, Owned(doc.accounts[i], Client, c.ownerClientId, now))])
      && (c.Delete? ==> d.writes == [Remove(i)])
  {
  }

  /** A hand-over or deletion takes the lease from its holder and tells the ledger nothing. */
  lemma {:induction false} DropIsSilent(w: World, c: Command, now: nat, id: string, leaseId: string)
    requires UniqueIds(w.doc.accounts) && Drops(c, id) && Holds(w, id, leaseId)
    ensures !Holds(StepWorld(w, c, now), id, leaseId) && StepWorld(w, c, now).log == w.log
  {
    DropWrites(w.doc, c, now, id);
    var i, x := Find(w.doc.accounts, id), Decide(w.doc, c, now).writes[0];
    PutOne(w, x, now);
    hide Decide, On;
    if c.SetOwner? {
      OnReplaced(w.doc.accounts, i, x.account, id);
    } else {
      OnRemoved(w.doc.accounts, i, id);
    }
  }

  /** Some call of the run dropped the lease while it was held. */
  ghost predicate Dropped(w: World, run: seq<Call>, leaseId: string) {
    exists k, id :: 0 <= k < |run| && Holds(At(w, run, k), id, leaseId) && Drops(run[k].command, id)
  }

  lemma {:induction false} ToldUnlessDropped(w: World, start: int, run: seq<Call>, leaseId: string, k: nat)
    requires Inv(w, start) && Legal(w, start, run) && k <= |run| && Told(w, leaseId) && Proper(leaseId)
    requires !Dropped(w, run, leaseId)
    ensures Told(At(w, run, k), leaseId)
  {
    if k == 0 {
      assert run[..0] == [];
    } else {
      ToldUnlessDropped(w, start, run, leaseId, k - 1);
      CallFacts(w, start, run, k - 1);
      var v, c := At(w, run, k - 1), run[k - 1].command;
      assert forall id :: Drops(c, id) ==> !Holds(v, id, leaseId);
      hide Inv, Legal, At, Enabled, Told, Dropped, StepWorld, Drops, Holds;
      StepKeepsTold(v, c, Clock(start, run[..k - 1]), run[k - 1].at, leaseId);
    }
  }

  lemma HeldSomewhere(w: World, leaseId: string) returns (id: string)
    requires UniqueIds(w.doc.accounts) && Held(w.doc.accounts, leaseId) && leaseId != ""
    ensures Holds(w, id, leaseId)
  {
    var i :| 0 <= i < |w.doc.accounts| && w.doc.accounts[i].lease.id == leaseId;
    FindUnique(w.doc.accounts, i);
    id := w.doc.accounts[i].id;
  }

  lemma {:induction false} DroppedStaysClaimed(w: World, start: int, run: seq<Call>, leaseId: string, k: nat, id: string)
    requires Inv(w, start) && Legal(w, start, run) && k < |run|
    requires Holds(At(w, run, k), id, leaseId) && Drops(run[k].command, id)
    ensures Gone(At(w, run, |run|), leaseId) && Life(At(w, run, |run|).log, leaseId) == [Mark(CLAIMED, id)]
  {
    CallFacts(w, start, run, k);
    var v, c, clock, now := At(w, run, k), run[k].command, Clock(start, run[..k]), run[k].at;
    InvIsUnique(v, clock);
    hide Inv, Legal, At, Enabled, StepWorld, Drops, Holds, Life, Gone;
    HeldIsUsed(v, clock, id, leaseId);
    DropIsSilent(v, c, now, id, leaseId);
    LostIsGone(v, c, clock, now, id, leaseId);
    GoneRun(w, start, run, leaseId, k + 1, |run|);
    GoneForGood(w, start, run, leaseId, k + 1, |run|);
  }

  /**
   Exactly when the ledger shows a lease as claimed and nothing more: it is still
   held, or a hand-over or a deletion took the account while it was held.
   */
  lemma {:induction false} ClaimedOnlyIff(w: World, start: int, run: seq<Call>, leaseId: string)
    requires Inv(w, start) && Legal(w, start, run) && Told(w, leaseId)
    ensures |Life(After(w, run).log, leaseId)| == 1 <==>
      (exists id :: Holds(After(w, run), id, leaseId)) || Dropped(w, run, leaseId)
  {
    var r := After(w, run);
    assert run[..|run|] == run;
    RunKeepsInv(w, start, run);
    if Dropped(w, run, leaseId) {
      var k, id :| 0 <= k < |run| && Holds(At(w, run, k), id, leaseId) && Drops(run[k].command, id);
      DroppedStaysClaimed(w, start, run, leaseId, k, id);
    } else {
      HeldIff(w, start, run, leaseId);
    }
  }

  lemma {:induction false} HeldIff(w: World, start: int, run: seq<Call>, leaseId: string)
    requires Inv(w, start) && Legal(w, start, run) && Told(w, leaseId) && !Dropped(w, run, leaseId)
    ensures |Life(After(w, run).log, leaseId)| == 1 <==> exists id :: Holds(After(w, run), id, leaseId)
  {
    var r := After(w, run);
    assert run[..|run|] == run;
    RunKeepsInv(w, start, run);
    InvIsUnique(r, Clock(start, run));
    if |Life(r.log, leaseId)| == 1 {
      LifeIsProper(r.log, leaseId);
      ToldUnlessDropped(w, start, run, leaseId, |run|);
      var id := HeldSomewhere(r, leaseId);
    }
    hide Inv, Holds, Life, Told, After;
    if id :| Holds(r, id, leaseId) {
      HeldIsUsed(r, Clock(start, run), id, leaseId);
    }
  }

  /** So a ledger without such calls on held accounts tells the end of every lease that is not held. */
  lemma {:induction false} LedgerIsComplete(doc: Doc, run: seq<Call>, leaseId: string)
    requires Quiet(doc) && UniqueIds(doc.accounts) && Legal(World(doc, []), 0, run)
    requires !Dropped(World(doc, []), run, leaseId)
    ensures var r := After(World(doc, []), run);
      Life(r.log, leaseId) != [] ==> (exists id :: Holds(r, id, leaseId)) || |Life(r.log, leaseId)| == 2
  {
    QuietStart(doc);
    LedgerIsSound(doc, run, leaseId);
    HeldIff(World(doc, []), 0, run, leaseId);
  }
}
