/**
 Runs: any sequence of operations of one manager under a clock that never goes
 back, each claim with a lease id that was never used before. Every run keeps the
 invariant; how a lease starts and ends; and leases that are gone for good.
 */
module LeaseRuns {
  import opened Wrappers
  import opened Text
  import opened LoadBalance
  import opened Ledger
  import opened LeaseMachine
  import opened LeaseInvariant
  import opened LeaseSteps
  import opened LeaseMoves

  datatype Call = Call(command: Command, at: nat)

  function After(w: World, run: seq<Call>): World {
    if run == [] then w
    else
      var last := run[|run| - 1];
      StepWorld(After(w, run[..|run| - 1]), last.command, last.at)
  }

  function Clock(start: int, run: seq<Call>): int {
    if run == [] then start else run[|run| - 1].at
  }

  ghost predicate Legal(w: World, start: int, run: seq<Call>) {
    run == []
    || (var front, last := run[..|run| - 1], run[|run| - 1];
        && Legal(w, start, front)
        && Clock(start, front) <= last.at && 0 < last.at
        && Enabled(After(w, front), last.command))
  }

  /** A document without leases or ledger events. */
  predicate Quiet(doc: Doc) {
    && doc.dispatches == []
    && forall i :: 0 <= i < |doc.accounts| ==> doc.accounts[i].lease == NO_LEASE && doc.accounts[i].generation >= 0
  }

  lemma QuietStart(doc: Doc)
    requires Quiet(doc) && UniqueIds(doc.accounts)
    ensures Inv(World(doc, []), 0)
  {
  }

  /** Every run keeps the invariant. */
  lemma {:induction false} RunKeepsInv(w: World, start: int, run: seq<Call>)
    requires Inv(w, start) && Legal(w, start, run)
    ensures Inv(After(w, run), Clock(start, run))
  {
    if run != [] {
      var front, last := run[..|run| - 1], run[|run| - 1];
      RunKeepsInv(w, start, front);
      hide Inv, StepWorld, Enabled;
      StepKeepsInv(After(w, front), last.command, Clock(start, front), last.at);
    }
  }

  lemma {:induction false} PrefixLegal(w: World, start: int, run: seq<Call>, k: nat)
    requires Legal(w, start, run) && k <= |run|
    ensures Legal(w, start, run[..k])
  {
    if k == |run| {
      assert run[..k] == run;
    } else {
      hide Enabled, After;
      PrefixLegal(w, start, run[..|run| - 1], k);
      assert run[..|run| - 1][..k] == run[..k];
    }
  }

  /** The world after the first `k` calls, and the clock then. */
  function At(w: World, run: seq<Call>, k: nat): World
    requires k <= |run|
  {
    After(w, run[..k])
  }

  /** What is known at call `k` of a legal run. */
  lemma {:induction false} CallFacts(w: World, start: int, run: seq<Call>, k: nat)
    requires Inv(w, start) && Legal(w, start, run) && k < |run|
    ensures Inv(At(w, run, k), Clock(start, run[..k])) && Clock(start, run[..k]) <= run[k].at && 0 < run[k].at
    ensures Enabled(At(w, run, k), run[k].command)
    ensures At(w, run, k + 1) == StepWorld(At(w, run, k), run[k].command, run[k].at)
    ensures Inv(At(w, run, k + 1), run[k].at)
  {
    PrefixLegal(w, start, run, k + 1);
    assert run[..k + 1][..k] == run[..k];
    hide Inv, Enabled, StepWorld;
    RunKeepsInv(w, start, run[..k]);
    RunKeepsInv(w, start, run[..k + 1]);
  }

  // ---------- Holding a lease ----------

  predicate HasLease(a: Option<Account>, leaseId: string) {
    a.Some? && a.value.lease.id == leaseId && leaseId != ""
  }

  predicate Holds(w: World, id: string, leaseId: string) {
    HasLease(On(w.doc.accounts, id), leaseId)
  }

  /** The only ways a lease ends: its release, its expiry, a hand-over to a client, or deletion of the account. */
  predicate Ends(c: Command, b: Account, now: nat) {
    || (c.ReleaseLease? && TrimSpace(c.leaseId) == b.lease.id)
    || (Sweeps(c) && Lapsed(b, now))
    || HandsOver(c, b.id)
    || Deletes(c, b.id)
  }

  lemma MoveHolds(c: Command, now: nat, before: Option<Account>, after: Option<Account>, leaseId: string)
    requires Moves(c, now, before, after)
    ensures HasLease(after, leaseId) && !HasLease(before, leaseId) ==>
      && c.Claim? && c.leaseId == leaseId && before.Some? && before.value.lease == NO_LEASE
      && before.value.status == Ready == after.value.status
    ensures HasLease(before, leaseId) && !HasLease(after, leaseId) ==> Ends(c, before.value, now)
  {
  }

  lemma ExpiredIsNotReady(a: Account, now: nat)
    ensures Expired(a, now).status != Ready
  {
  }

  /** A lease starts only by the claim that names it, on a ready account without a lease. */
  lemma {:induction false} HoldStarts(w: World, c: Command, clock: int, now: nat, id: string, leaseId: string)
    requires Inv(w, clock) && clock <= now && 0 < now && Enabled(w, c)
    requires !Holds(w, id, leaseId) && Holds(StepWorld(w, c, now), id, leaseId)
    ensures c.Claim? && c.leaseId == leaseId && On(w.doc.accounts, id).Some?
    ensures On(w.doc.accounts, id).value.lease == NO_LEASE && On(w.doc.accounts, id).value.status == Ready
    ensures On(StepWorld(w, c, now).doc.accounts, id).value.status == Ready
  {
    StepMoves(w, c, clock, now, id);
    var m, a := Found(w, c, now, id), On(StepWorld(w, c, now).doc.accounts, id);
    hide Moves, On, StepWorld, Found, Lapsed, Inv, Enabled, Expired;
    var b := On(w.doc.accounts, id);
    if b.Some? { ExpiredIsNotReady(b.value, now); }
    MoveHolds(c, now, m, a, leaseId);
  }

  /** A lease ends only in one of the four ways. */
  lemma {:induction false} HoldEnds(w: World, c: Command, clock: int, now: nat, id: string, leaseId: string)
    requires Inv(w, clock) && clock <= now && 0 < now && Enabled(w, c)
    requires Holds(w, id, leaseId) && !Holds(StepWorld(w, c, now), id, leaseId)
    ensures Ends(c, On(w.doc.accounts, id).value, now)
  {
    StepMoves(w, c, clock, now, id);
    var m, a := Found(w, c, now, id), On(StepWorld(w, c, now).doc.accounts, id);
    hide Moves, On, StepWorld, Found, Inv, Enabled;
    MoveHolds(c, now, m, a, leaseId);
  }

  /** No lease is on two accounts. */
  lemma OneAccountPerLease(w: World, clock: int, a: string, b: string, leaseId: string)
    requires Inv(w, clock) && Holds(w, a, leaseId) && Holds(w, b, leaseId)
    ensures a == b
  {
    hide LedgerOk, AccountsOk;
    var i, j := Find(w.doc.accounts, a), Find(w.doc.accounts, b);
    assert i == j;
  }

  // ---------- Fencing ----------

  /** The lease was granted once and no account has it any more. */
  ghost predicate Gone(w: World, leaseId: string) {
    && Proper(leaseId) && Life(w.log, leaseId) != []
    && forall id :: !Holds(w, id, leaseId)
  }

  lemma {:induction false} LogOnlyGrows(w: World, xs: seq<Write>, now: nat, leaseId: string)
    ensures Life(w.log, leaseId) != [] ==> Life(PutWorlds(w, xs, now).log, leaseId) != []
  {
    if xs != [] {
      var v := PutWorlds(w, xs[..|xs| - 1], now);
      LogOnlyGrows(w, xs[..|xs| - 1], now, leaseId);
      var events := WriteEvents(v.doc.accounts, xs[|xs| - 1], now);
      if events != [] {
        assert events == [events[0]];
        OneEvent(v, events[0]);
        LifeGrows(v.log, events[0], leaseId);
      }
    }
  }

  lemma {:induction false} StepKeepsUsed(w: World, c: Command, now: nat, leaseId: string)
    requires Life(w.log, leaseId) != []
    ensures Life(StepWorld(w, c, now).log, leaseId) != []
  {
    var d := Decide(w.doc, c, now);
    LogOnlyGrows(w, SweepWrites(w.doc.accounts, now), now, leaseId);
    LogOnlyGrows(BaseWorld(w, d, now), d.writes, now, leaseId);
  }

  lemma StepKeepsGone(w: World, c: Command, clock: int, now: nat, leaseId: string)
    requires Inv(w, clock) && clock <= now && 0 < now && Enabled(w, c) && Gone(w, leaseId)
    ensures Gone(StepWorld(w, c, now), leaseId)
  {
    StepKeepsUsed(w, c, now, leaseId);
    hide Holds, StepWorld, Inv;
    forall id ensures !Holds(StepWorld(w, c, now), id, leaseId) {
      if Holds(StepWorld(w, c, now), id, leaseId) {
        HoldStarts(w, c, clock, now, id, leaseId);
      }
    }
  }

  lemma HeldIsUsed(w: World, clock: int, id: string, leaseId: string)
    requires Inv(w, clock) && Holds(w, id, leaseId)
    ensures Proper(leaseId) && Life(w.log, leaseId) == [Mark(CLAIMED, id)]
  {
    hide LedgerOk, UniqueIds, UniqueLeases;
    assert AccountOk(w.doc.accounts[Find(w.doc.accounts, id)], w.log, clock);
  }

  /** A lease that is lost is gone. */
  lemma LostIsGone(w: World, c: Command, clock: int, now: nat, id: string, leaseId: string)
    requires Inv(w, clock) && clock <= now && 0 < now && Enabled(w, c)
    requires Holds(w, id, leaseId) && !Holds(StepWorld(w, c, now), id, leaseId)
    ensures Gone(StepWorld(w, c, now), leaseId)
  {
    HeldIsUsed(w, clock, id, leaseId);
    StepKeepsUsed(w, c, now, leaseId);
    hide Holds, StepWorld, Inv;
    forall other ensures !Holds(StepWorld(w, c, now), other, leaseId) {
      if Holds(StepWorld(w, c, now), other, leaseId) {
        if Holds(w, other, leaseId) {
          OneAccountPerLease(w, clock, id, other, leaseId);
        } else {
          HoldStarts(w, c, clock, now, other, leaseId);
        }
      }
    }
  }

  lemma {:induction false} GoneForGood(w: World, start: int, run: seq<Call>, leaseId: string, j: nat, k: nat)
    requires Inv(w, start) && Legal(w, start, run) && j <= k <= |run| && Gone(At(w, run, j), leaseId)
    ensures Gone(At(w, run, k), leaseId)
  {
    if j < k {
      GoneForGood(w, start, run, leaseId, j, k - 1);
      CallFacts(w, start, run, k - 1);
      hide Inv, Gone, Legal, At, Enabled;
      StepKeepsGone(At(w, run, k - 1), run[k - 1].command, Clock(start, run[..k - 1]), run[k - 1].at, leaseId);
    }
  }

  /** The commands that act under a lease. */
  function Credential(c: Command): Option<string> {
    match c
    case Touch(leaseId, _, _, _, _) => Some(TrimSpace(leaseId))
    case Upload(s, _, _) => Some(TrimSpace(s.leaseId))
    case ReleaseLease(_, leaseId, _) => Some(TrimSpace(leaseId))
    case RecordLeased(_, leaseId, _, _, _) => Some(TrimSpace(leaseId))
    case _ => None
  }

  lemma GoneAfterSweep(w: World, clock: int, now: nat, leaseId: string, i: nat)
    requires Inv(w, clock) && clock <= now && 0 < now && Gone(w, leaseId) && i < |Swept(w.doc, now).accounts|
    ensures Swept(w.doc, now).accounts[i].lease.id != leaseId
  {
    InvAges(w, clock, now);
    SweepWorks(w, Sweep, now);
    SweepStarts(w, Sweep, now);
    var accounts := w.doc.accounts;
    FindUnique(accounts, i);
    assert !Holds(w, accounts[i].id, leaseId);
  }

  lemma FoundMatches(accounts: seq<Account>, accountId: string, leaseId: string)
    requires !Blank(leaseId) && forall i :: 0 <= i < |accounts| ==> accounts[i].lease.id != TrimSpace(leaseId)
    ensures FindLease(accounts, accountId, leaseId) == |accounts|
  {
  }

  /** Whatever acts under a gone lease is refused and writes nothing. */
  lemma {:induction false} GoneIsRefused(w: World, c: Command, clock: int, now: nat, leaseId: string)
    requires Inv(w, clock) && clock <= now && 0 < now && Gone(w, leaseId) && Credential(c) == Some(leaseId)
    ensures Decide(w.doc, c, now).reply.Failed? && Decide(w.doc, c, now).writes == []
  {
    var accounts := Swept(w.doc, now).accounts;
    forall i | 0 <= i < |accounts| ensures accounts[i].lease.id != leaseId {
      GoneAfterSweep(w, clock, now, leaseId, i);
    }
    hide Inv, Gone, Swept, Validate, Uploaded, Renewed, QuotaWrites, OnUpload, OnRecordLeased;
    match c
    case Touch(l, a, _, _, _) => FoundMatches(accounts, a, l);
    case Upload(_, _, _) => UploadRefused(w.doc, c, now);
    case ReleaseLease(a, l, _) => FoundMatches(accounts, a, l);
    case RecordLeased(a, _, _, _, _) => NotHeldByGone(w, c, clock, now, leaseId);
  }

  lemma UploadRefused(doc: Doc, c: Command, now: nat)
    requires c.Upload? && forall i :: 0 <= i < |Swept(doc, now).accounts| ==>
      Swept(doc, now).accounts[i].lease.id != TrimSpace(c.snapshot.leaseId)
    ensures Decide(doc, c, now).reply.Failed? && Decide(doc, c, now).writes == []
  {
    hide Swept, Validate, Uploaded;
    if !Blank(c.snapshot.leaseId) { FoundMatches(Swept(doc, now).accounts, c.snapshot.id, c.snapshot.leaseId); }
  }

  lemma NotHeldByGone(w: World, c: Command, clock: int, now: nat, leaseId: string)
    requires Inv(w, clock) && Gone(w, leaseId) && c.RecordLeased? && Credential(c) == Some(leaseId)
    ensures Decide(w.doc, c, now).reply.Failed? && Decide(w.doc, c, now).writes == []
  {
    var i := Find(w.doc.accounts, TrimSpace(c.accountId));
    if i < |w.doc.accounts| {
      assert AccountOk(w.doc.accounts[i], w.log, clock);
      assert !Holds(w, w.doc.accounts[i].id, leaseId);
    }
  }
}
