/**
 A client's run together with the server (cmd/cube/main.go with
 internal/manager/lease.go): where its claims land, and on how many accounts the
 server records its leases at any point of a server run that contains it.
 */
module SwapServer {
  import opened LeaseMachine
  import opened LeaseInvariant
  import opened LeaseSteps
  import opened LeaseMoves
  import opened LeaseRuns
  import opened LeaseTheorems
  import opened LeaseTimes
  import LeaseHolding
  import opened Text
  import opened Swap

  // ---------- One swap ----------

  /**
   As long as the server still records the lease being left, even one already
   past its expiry, the claim of the next never lands on the same account.
   */
  lemma {:induction false} SwapLandsElsewhere(w: World, start: int, run: seq<Call>, q: nat, former: string,
      formerLease: string, id: string, leaseId: string)
    requires Inv(w, start) && Legal(w, start, run) && q < |run|
    requires Holds(At(w, run, q), former, formerLease) && Takes(w, run, q, id, leaseId)
    ensures id != former
  {
    CallFacts(w, start, run, q);
    var v, c, clock, now := At(w, run, q), run[q].command, Clock(start, run[..q]), run[q].at;
    hide Inv, Legal, At, StepWorld, Clock, LeaseSteps.Enabled, On, Lapsed;
    if id == former {
      HoldStarts(v, c, clock, now, id, leaseId);
      OneLeasePerAccount(StepWorld(v, c, now), id, formerLease, leaseId);
      ExpiryQuarantines(v, c, clock, now, id);
    }
  }

  /**
   Before the release request arrives: a lease that has not reached its expiry is
   still recorded when the next is claimed, so the two are on different accounts
   and both held.
   */
  lemma {:induction false} SwapHoldsBoth(w: World, start: int, run: seq<Call>, former: string, formerLease: string,
      id: string, leaseId: string, p: nat, q: nat)
    requires Inv(w, start) && Legal(w, start, run) && p < q < |run|
    requires Takes(w, run, p, former, formerLease) && Takes(w, run, q, id, leaseId)
    requires forall m :: p < m <= q ==> !Surrenders(run[m].command, former, formerLease)
    requires forall m :: p < m <= q ==> Unexpired(On(At(w, run, m).doc.accounts, former), formerLease, run[m].at)
    ensures id != former && Holds(At(w, run, q + 1), former, formerLease) && Holds(At(w, run, q + 1), id, leaseId)
  {
    hide Inv, Legal, At, On, Surrenders, Unexpired, Holds;
    UnexpiredIsKept(w, start, run, former, formerLease, p + 1, q);
    UnexpiredIsKept(w, start, run, former, formerLease, p + 1, q + 1);
    SwapLandsElsewhere(w, start, run, q, former, formerLease, id, leaseId);
  }

  // ---------- A client's run within a server's ----------

  predicate Credits(c: Command, leaseId: string) {
    c.ReleaseLease? && TrimSpace(c.leaseId) == leaseId
  }

  /** Call `m` of the server's run is the release of this lease, and it succeeds. */
  predicate CarriedOut(w: World, run: seq<Call>, m: nat, leaseId: string) {
    && m < |run| && Credits(run[m].command, leaseId)
    && !Decide(At(w, run, m).doc, run[m].command, run[m].at).reply.Failed?
  }

  /** The run asked for the release of the lease before call `m` of the server's run. */
  ghost predicate GivenBefore(asks: seq<Ask>, at: seq<nat>, leaseId: string, m: nat)
    requires |at| == |asks|
  {
    exists g :: 0 <= g < |asks| && asks[g].Give? && asks[g].id == leaseId && at[g] <= m
  }

  ghost predicate InOrder(asks: seq<Ask>, at: seq<nat>) {
    && |at| == |asks|
    && forall i, k :: 0 <= i < k < |asks| ==> at[i] <= at[k] && (asks[i].Take? || asks[i].done ==> at[i] < at[k])
  }

  /**
   The run's asks as they meet the calls of the server: `at` gives the call that
   grants each lease and the one that carries out each release request; for a request
   that is not carried out, the first call that comes after it. Nobody else releases
   the run's leases.
   */
  ghost predicate Embedded(w: World, run: seq<Call>, asks: seq<Ask>, at: seq<nat>) {
    && InOrder(asks, at)
    && (forall k :: 0 <= k < |asks| && asks[k].Take? ==>
          at[k] < |run| && run[at[k]].command.Claim? && run[at[k]].command.leaseId == asks[k].id)
    && (forall k :: 0 <= k < |asks| && asks[k].Give? && asks[k].done ==> CarriedOut(w, run, at[k], asks[k].id))
    && (forall m, k :: 0 <= m < |run| && 0 <= k < |asks| && asks[k].Take? && Credits(run[m].command, asks[k].id) ==>
          GivenBefore(asks, at, asks[k].id, m))
  }

  /** The lease was neither swept nor handed over nor deleted by this call. */
  predicate LeftAlone(w: World, c: Command, now: nat, id: string, leaseId: string) {
    HasLease(On(w.doc.accounts, id), leaseId) ==>
      !HandsOver(c, id) && !Deletes(c, id) && !(Sweeps(c) && Lapsed(On(w.doc.accounts, id).value, now))
  }

  predicate Gives(ask: Ask, leaseId: string) {
    ask.Give? && ask.id == leaseId
  }

  /**
   Between its grant and the run's own request to release it, a lease is ended only
   by a sweep, a hand-over or a deletion; so unless one of these came first, the
   run's next claim finds it still held and lands on another account.
   */
  lemma {:induction false} NextClaimLandsElsewhere(w: World, start: int, run: seq<Call>, asks: seq<Ask>, at: seq<nat>,
      i: nat, k: nat, former: string, id: string)
    requires Inv(w, start) && Legal(w, start, run) && Embedded(w, run, asks, at) && i < k < |asks|
    requires asks[i].Take? && asks[k].Take? && forall g :: 0 <= g < k ==> !Gives(asks[g], asks[i].id)
    requires Takes(w, run, at[i], former, asks[i].id) && Takes(w, run, at[k], id, asks[k].id)
    requires forall m :: at[i] < m < at[k] ==> LeftAlone(At(w, run, m), run[m].command, run[m].at, former, asks[i].id)
    ensures Holds(At(w, run, at[k]), former, asks[i].id) && id != former
  {
    var p, q, leaseId := at[i], at[k], asks[i].id;
    hide Inv, Legal, At, On, Deletes, HandsOver, Lapsed, Embedded, Credits;
    NowEmbedded(w, run, asks, at, i, k);
    if !Holds(At(w, run, q), former, leaseId) {
      var m := EndPoint(w, start, run, former, leaseId, p + 1, q);
      NotReleasedYet(w, run, asks, at, i, k, m);
      LeftAloneGoesOn(At(w, run, m), run[m].command, run[m].at, former, leaseId);
    }
    SwapLandsElsewhere(w, start, run, q, former, leaseId, id, asks[k].id);
  }

  lemma NowEmbedded(w: World, run: seq<Call>, asks: seq<Ask>, at: seq<nat>, i: nat, k: nat)
    requires Embedded(w, run, asks, at) && i < k < |asks| && asks[i].Take? && asks[k].Take?
    ensures |at| == |asks| && at[i] < at[k] < |run|
  {
  }

  lemma NotReleasedYet(w: World, run: seq<Call>, asks: seq<Ask>, at: seq<nat>, i: nat, k: nat, m: nat)
    requires Embedded(w, run, asks, at) && i < k < |asks| && m < at[k] < |run|
    requires asks[i].Take? && asks[k].Take? && forall g :: 0 <= g < k ==> !Gives(asks[g], asks[i].id)
    ensures !Credits(run[m].command, asks[i].id)
  {
    hide Credits, CarriedOut;
    assert forall g :: 0 <= g < |asks| && Gives(asks[g], asks[i].id) ==> at[k] <= at[g];
    assert !GivenBefore(asks, at, asks[i].id, m);
  }

  lemma LeftAloneGoesOn(w: World, c: Command, now: nat, id: string, leaseId: string)
    requires Holds(w, id, leaseId) && LeftAlone(w, c, now, id, leaseId) && !Credits(c, leaseId)
    ensures !Ends(c, On(w.doc.accounts, id).value, now)
  {
    OnHasId(w.doc.accounts, id);
  }

  /** Where a run's j-th lease is granted in its asks. */
  function TakeAt(j: nat): nat {
    if j == 0 then 0 else 2 * j - 1
  }

  lemma {:induction false} TakesInTurn(ids: seq<string>, j: nat)
    requires j < |ids|
    ensures TakeAt(j) < |InTurn(ids)| && InTurn(ids)[TakeAt(j)] == Take(ids[j])
  {
    InTurnPrefix(ids, j + 1);
    HeldInTurn(ids);
    var now := ids[..j + 1];
    HeldInTurn(now);
    if j > 0 {
      SwapInTurn(ids, j);
      HeldInTurn(ids[..j]);
    }
  }

  /** No release of a lease is asked for before the next grant. */
  lemma {:induction false} NotYetGiven(ids: seq<string>, j: nat, g: nat)
    requires Distinct(ids) && j < |ids| && g < 2 * j + 1
    ensures g < |InTurn(ids)| && !Gives(InTurn(ids)[g], ids[j])
  {
    var now := ids[..j + 1];
    HeldInTurn(ids);
    HeldInTurn(now);
    InTurnPrefix(ids, j + 1);
    RequestsInTurn(now, j);
    hide InTurn;
    if Gives(InTurn(now)[g], ids[j]) { CountsIt(InTurn(now), g); }
  }

  lemma {:induction false} CountsIt(asks: seq<Ask>, g: nat)
    requires g < |asks| && asks[g].Give?
    ensures Requests(asks, asks[g].id) > 0
  {
    if g < |asks| - 1 { CountsIt(asks[..|asks| - 1], g); }
  }

  /** The asks up to the claim that follows the j-th lease. */
  lemma {:induction false} AsksUpTo(first: string, rounds: seq<Round>, end: Ending, j: nat, g: nat)
    requires Distinct(Leases(first, rounds)) && j < |Leases(first, rounds)| && g < 2 * j + 1
    ensures var asks, ids := Asks(Got(first), true, true, rounds, end), Leases(first, rounds);
      && 2 * j + 1 <= |asks| && TakeAt(j) < |asks| && asks[TakeAt(j)] == Take(ids[j]) && !Gives(asks[g], ids[j])
  {
    var asks, ids := Asks(Got(first), true, true, rounds, end), Leases(first, rounds);
    AsksInTurn(first, rounds, end);
    hide Asks, Leases, InTurn, Distinct, LastGive, LostTake;
    TakesInTurn(ids, j);
    NotYetGiven(ids, j, g);
    PlainLength(asks);
    assert forall k :: 0 <= k < |InTurn(ids)| ==> PlainAsk(asks[k]) == Plain(asks)[k] == InTurn(ids)[k];
  }

  /**
   So in any server run that contains the client's, each claim of the loop, lost or
   not, lands on another account than the lease the run is leaving.
   */
  lemma {:induction false} OwnSwapLandsElsewhere(w: World, start: int, run: seq<Call>, first: string, rounds: seq<Round>,
      end: Ending, asks: seq<Ask>, at: seq<nat>, j: nat, former: string, id: string)
    requires asks == Asks(Got(first), true, true, rounds, end)
    requires Inv(w, start) && Legal(w, start, run) && Embedded(w, run, asks, at)
    requires Distinct(Leases(first, rounds)) && j < |Leases(first, rounds)|
    requires 2 * j + 1 < |asks| && asks[2 * j + 1].Take? && asks[TakeAt(j)].Take?
    requires Takes(w, run, at[TakeAt(j)], former, asks[TakeAt(j)].id) && Takes(w, run, at[2 * j + 1], id, asks[2 * j + 1].id)
    requires forall m :: at[TakeAt(j)] < m < at[2 * j + 1] ==>
      LeftAlone(At(w, run, m), run[m].command, run[m].at, former, asks[TakeAt(j)].id)
    ensures id != former
  {
    hide Asks, Leases, Inv, Legal, At, Embedded, Takes, LeftAlone, Distinct;
    forall g | 0 <= g < 2 * j + 1 ensures !Gives(asks[g], asks[TakeAt(j)].id) {
      AsksUpTo(first, rounds, end, j, g);
    }
    NextClaimLandsElsewhere(w, start, run, asks, at, TakeAt(j), 2 * j + 1, former, id);
  }

  // ---------- How many accounts a client's run holds ----------

  /** The leases the server granted the run. */
  ghost function Taken(asks: seq<Ask>): set<string> {
    set k | 0 <= k < |asks| && asks[k].Take? :: asks[k].id
  }

  /** The accounts on which the server records one of these leases. */
  ghost function Holding(accounts: seq<Account>, leases: set<string>): set<string> {
    set i | 0 <= i < |accounts| && accounts[i].lease.id in leases :: accounts[i].id
  }

  ghost function Recorded(accounts: seq<Account>, leases: set<string>): set<string> {
    set i | 0 <= i < |accounts| && accounts[i].lease.id in leases :: accounts[i].lease.id
  }

  /** A lease that is recorded was granted before. */
  lemma {:induction false} RecordedWasGranted(w: World, start: int, run: seq<Call>, asks: seq<Ask>, at: seq<nat>, k: nat,
      n: nat, id: string)
    requires Inv(w, start) && Legal(w, start, run) && Embedded(w, run, asks, at) && n <= |run|
    requires k < |asks| && asks[k].Take? && Holds(At(w, run, n), id, asks[k].id)
    ensures at[k] < n
  {
    var p, leaseId := at[k], asks[k].id;
    CallFacts(w, start, run, p);
    assert Life(At(w, run, p).log, leaseId) == [];
    hide Inv, Legal, At, Embedded, LeaseSteps.Enabled, Holds, Life, StepWorld;
    if n <= p {
      HeldOrGone(w, start, run, id, leaseId, n, p);
      GoneIsUsed(At(w, run, p), leaseId);
      if Holds(At(w, run, p), id, leaseId) { HeldIsUsed(At(w, run, p), Clock(start, run[..p]), id, leaseId); }
    }
  }

  /** A lease whose release was carried out is recorded no more. */
  lemma {:induction false} ReleasedIsNotRecorded(w: World, start: int, run: seq<Call>, m: nat, n: nat, id: string,
      leaseId: string)
    requires Inv(w, start) && Legal(w, start, run) && CarriedOut(w, run, m, leaseId) && m < n <= |run|
    ensures !Holds(At(w, run, n), id, leaseId)
  {
    CallFacts(w, start, run, m);
    hide Inv, Legal, At, Decide, StepWorld, LeaseSteps.Enabled, Holds;
    var other := LeaseHolding.ReleaseEnds(At(w, run, m), run[m].command, Clock(start, run[..m]), run[m].at);
    GoneForGood(w, start, run, leaseId, m + 1, n);
  }

  /** How many asks come before call `n` of the server's run. */
  lemma {:induction false} AsksBefore(asks: seq<Ask>, at: seq<nat>, n: nat) returns (c: nat)
    requires InOrder(asks, at)
    ensures c <= |asks| && (forall i :: 0 <= i < c ==> at[i] < n) && (forall i :: c <= i < |asks| ==> at[i] >= n)
  {
    c := 0;
    while c < |asks| && at[c] < n
      invariant 0 <= c <= |asks| && forall i :: 0 <= i < c ==> at[i] < n
    {
      c := c + 1;
    }
  }

  lemma {:induction false} TakenNotGiven(asks: seq<Ask>, k: nat)
    requires k < |asks| && asks[k].Take? && forall g :: 0 <= g < |asks| ==> asks[g] != Give(asks[k].id, true)
    ensures asks[k].id in Held(asks)
  {
    if k < |asks| - 1 {
      var front := asks[..|asks| - 1];
      assert front[k] == asks[k];
      TakenNotGiven(front, k);
    }
  }

  lemma {:induction false} RecordedIsHeld(w: World, start: int, run: seq<Call>, asks: seq<Ask>, at: seq<nat>, n: nat,
      c: nat, k: nat, id: string)
    requires Inv(w, start) && Legal(w, start, run) && Embedded(w, run, asks, at) && n <= |run|
    requires c <= |asks| && (forall i :: 0 <= i < c ==> at[i] < n) && (forall i :: c <= i < |asks| ==> at[i] >= n)
    requires k < |asks| && asks[k].Take? && Holds(At(w, run, n), id, asks[k].id)
    ensures asks[k].id in Held(asks[..c])
  {
    RecordedWasGranted(w, start, run, asks, at, k, n, id);
    var leaseId := asks[k].id;
    hide Inv, Legal, At, Holds, Held;
    forall g | 0 <= g < c ensures asks[g] != Give(leaseId, true) {
      if asks[g] == Give(leaseId, true) {
        ReleasedIsNotRecorded(w, start, run, at[g], n, id, leaseId);
      }
    }
    assert asks[..c][k] == asks[k];
    TakenNotGiven(asks[..c], k);
  }

  lemma {:induction false} FewerThan(s: set<string>, m: multiset<string>)
    requires forall x :: x in s ==> x in m
    ensures |s| <= |m|
  {
    if s != {} {
      var x :| x in s;
      FewerThan(s - {x}, m - multiset{x});
    }
  }

  lemma {:induction false} AsManyAccounts(accounts: seq<Account>, leases: set<string>)
    requires UniqueLeases(accounts) && "" !in leases
    ensures |Holding(accounts, leases)| <= |Recorded(accounts, leases)|
  {
    if accounts == [] {
      assert Holding(accounts, leases) == {};
    } else {
      var front, last := accounts[..|accounts| - 1], accounts[|accounts| - 1];
      AsManyAccounts(front, leases);
      OneMoreAccount(accounts, leases);
      if last.lease.id in leases {
        assert last.lease.id !in Recorded(front, leases);
      }
    }
  }

  lemma OneMoreAccount(accounts: seq<Account>, leases: set<string>)
    requires accounts != []
    ensures var front, last := accounts[..|accounts| - 1], accounts[|accounts| - 1];
      && Holding(accounts, leases) == Holding(front, leases) + (if last.lease.id in leases then {last.id} else {})
      && Recorded(accounts, leases) == Recorded(front, leases) + (if last.lease.id in leases then {last.lease.id} else {})
  {
    var n := |accounts| - 1;
    var front, last := accounts[..n], accounts[n];
    assert forall i :: 0 <= i < n ==> front[i] == accounts[i];
    forall x | x in Holding(front, leases) ensures x in Holding(accounts, leases) {
      var i :| 0 <= i < n && front[i].lease.id in leases && front[i].id == x;
      assert accounts[i].id == x;
    }
    forall x | x in Recorded(front, leases) ensures x in Recorded(accounts, leases) {
      var i :| 0 <= i < n && front[i].lease.id in leases && front[i].lease.id == x;
      assert accounts[i].lease.id == x;
    }
  }

  lemma {:induction false} TakenAreProper(w: World, start: int, run: seq<Call>, asks: seq<Ask>, at: seq<nat>)
    requires Inv(w, start) && Legal(w, start, run) && Embedded(w, run, asks, at)
    ensures "" !in Taken(asks)
  {
    forall k | 0 <= k < |asks| && asks[k].Take? ensures asks[k].id != "" {
      CallFacts(w, start, run, at[k]);
    }
  }

  /** At every point of a server run, the run's leases recorded there are among those its asks so far leave it. */
  lemma {:induction false} RecordedAreFew(w: World, start: int, run: seq<Call>, asks: seq<Ask>, at: seq<nat>, n: nat)
    returns (c: nat)
    requires Inv(w, start) && Legal(w, start, run) && Embedded(w, run, asks, at) && n <= |run|
    ensures c <= |asks| && |Holding(At(w, run, n).doc.accounts, Taken(asks))| <= |Held(asks[..c])|
  {
    c := AsksBefore(asks, at, n);
    PrefixLegal(w, start, run, n);
    RunKeepsInv(w, start, run[..n]);
    TakenAreProper(w, start, run, asks, at);
    var v := At(w, run, n);
    InvIsUnique(v, Clock(start, run[..n]));
    AsManyAccounts(v.doc.accounts, Taken(asks));
    hide Inv, Legal, At, Embedded, Held, UniqueIds;
    forall x | x in Recorded(v.doc.accounts, Taken(asks)) ensures x in Held(asks[..c]) {
      var i :| 0 <= i < |v.doc.accounts| && v.doc.accounts[i].lease.id in Taken(asks) && v.doc.accounts[i].lease.id == x;
      var k :| 0 <= k < |asks| && asks[k].Take? && asks[k].id == x;
      HoldsAt(v, i);
      RecordedIsHeld(w, start, run, asks, at, n, c, k, v.doc.accounts[i].id);
    }
    FewerThan(Recorded(v.doc.accounts, Taken(asks)), Held(asks[..c]));
  }

  lemma HoldsAt(w: World, i: nat)
    requires UniqueIds(w.doc.accounts) && i < |w.doc.accounts| && w.doc.accounts[i].lease.id != ""
    ensures Holds(w, w.doc.accounts[i].id, w.doc.accounts[i].lease.id)
  {
    FindUnique(w.doc.accounts, i);
  }

  lemma {:induction false} NoneFailedYet(asks: seq<Ask>, c: nat)
    requires c <= |asks| && forall g :: 0 <= g < |asks| && asks[g].Give? ==> asks[g].done
    ensures Unreleased(asks[..c]) == multiset{}
  {
    if c > 0 {
      NoneFailedYet(asks, c - 1);
      assert asks[..c][..c - 1] == asks[..c - 1];
    }
  }

  /**
   In any server run that contains a client's, at every point the run's leases are on
   at most two accounts, and one more for each release request that was not carried out.
   */
  lemma {:induction false} AtMostTwoAccounts(w: World, start: int, run: seq<Call>, first: Claimed, homeOk: bool,
      writtenOk: bool, rounds: seq<Round>, end: Ending, asks: seq<Ask>, at: seq<nat>, n: nat)
    returns (c: nat)
    requires asks == Asks(first, homeOk, writtenOk, rounds, end)
    requires Inv(w, start) && Legal(w, start, run) && Embedded(w, run, asks, at) && n <= |run|
    ensures c <= |asks| && |Holding(At(w, run, n).doc.accounts, Taken(asks))| <= 2 + |Unreleased(asks[..c])|
    ensures (forall g :: 0 <= g < |asks| && asks[g].Give? ==> asks[g].done) ==>
      |Holding(At(w, run, n).doc.accounts, Taken(asks))| <= 2
  {
    hide Asks, Inv, Legal, At, Embedded, Held, Unreleased, Holding, Taken;
    c := RecordedAreFew(w, start, run, asks, at, n);
    NeverMoreThanTwo(first, homeOk, writtenOk, rounds, end, c);
    if forall g :: 0 <= g < |asks| && asks[g].Give? ==> asks[g].done {
      NoneFailedYet(asks, c);
    }
  }
}
