/**
 A concrete client run inside a concrete server run: it claims a lease, claims the
 next on another account and releases the first.
 */
module SwapExamples {
  import opened Wrappers
  import opened Text
  import opened LoadBalance
  import opened Ledger
  import opened LeaseMachine
  import opened LeaseInvariant
  import opened LeaseSteps
  import opened LeaseRuns
  import LeaseRecords
  import LeaseTheorems
  import opened LeaseHolding
  import opened Swap
  import opened SwapServer
  import LeaseExamples

  // ---------- A claim where nothing has lapsed ----------

  lemma {:induction false} NothingToSweep(accounts: seq<Account>, now: nat)
    requires forall i :: 0 <= i < |accounts| ==> !Lapsed(accounts[i], now)
    ensures SweepWrites(accounts, now) == []
  {
    hide Lapsed;
    if accounts != [] { NothingToSweep(accounts[..|accounts| - 1], now); }
  }

  /** A claim where nothing has lapsed stores its grant, and only its own lease gets an event. */
  lemma {:induction false} ClaimStores(w: World, c: Command, clock: int, now: nat, k: nat) returns (i: nat)
    requires Inv(w, clock) && clock <= now && 0 < now && Enabled(w, c) && c.Claim? && c.exported
    requires (forall j :: 0 <= j < |w.doc.accounts| ==> !Lapsed(w.doc.accounts[j], now)) && OnOffer(w.doc, c, now, k)
    ensures i < |w.doc.accounts| && w.doc.accounts[i].lease == NO_LEASE && w.doc.accounts[i].id in c.auth
    ensures var v := StepWorld(w, c, now);
      && v.doc.accounts == w.doc.accounts[i := Granted(w.doc.accounts[i], c.leaseId, c.clientId, c.holder, c.ttl, now)]
      && v.doc.quota == w.doc.quota && Inv(v, now)
      && forall l :: l != c.leaseId ==> Life(v.log, l) == Life(w.log, l)
  {
    InvIsUnique(w, clock);
    NothingToSweep(w.doc.accounts, now);
    StepKeepsInv(w, c, clock, now);
    ClaimSucceedsIff(w.doc, c, now);
    LeaseExamples.ExportedClaimReplies(w.doc, c, now);
    LeaseRecords.ClaimPicksChosen(w.doc, c, now);
    ClaimIsGrant(w, c, clock, now);
    i := LeaseRecords.ClaimFinds(w.doc, c, now);
    var a := Granted(w.doc.accounts[i], c.leaseId, c.clientId, c.holder, c.ttl, now);
    assert Swept(w.doc, now) == w.doc && SweptWorld(w, now) == w;
    hide Inv, Decide, Enabled, OnOffer, LeaseRecords.Offers, Choose, Swept, SweptWorld, SweepWrites, Life, Lapsed;
    FindUnique(w.doc.accounts, i);
    assert StepWorld(w, c, now) == PutWorlds(w, [Write.Grant(i, a)], now);
    LeaseTheorems.PutOne(w, Write.Grant(i, a), now);
    OneEvent(w, EventOf(a, CLAIMED, now));
    forall l | l != c.leaseId ensures Life(StepWorld(w, c, now).log, l) == Life(w.log, l) {
      LifeGrows(w.log, EventOf(a, CLAIMED, now), l);
    }
  }

  // ---------- The run ----------

  function FirstAccount(): Account {
    NewAccount("a", "", 0, 1)
  }

  function SecondAccount(): Account {
    NewAccount("b", "", 0, 1)
  }

  /** Two accounts with quota to spare. */
  function SwapDoc(): Doc {
    var window := Window("five_hour", "", 50.0, 1000);
    var cache := QuotaCache(1, QuotaResult(Supported, "", "", [window]), Some(window), false, "");
    Doc([FirstAccount(), SecondAccount()], map["a" := cache, "b" := cache], [])
  }

  /** A claim when these accounts have credentials. */
  function ClaimWith(auth: set<string>, leaseId: string): Command {
    Claim("c", "h", "", DEFAULT_TTL, auth, "", leaseId, true)
  }

  /** The second account's credentials arrive between the two claims. */
  function SwapCalls(): seq<Call> {
    [Call(ClaimWith({"a"}, "l"), 1), Call(ClaimWith({"a", "b"}, "m"), 2), Call(ReleaseLease("a", "l", "c"), 3)]
  }

  /** The client's side: one round that asks for a swap and gets its lease. */
  function SwapAsks(): seq<Ask> {
    [Take("l"), Take("m"), Give("l", true)]
  }

  function SwapRound(): Round {
    Round(true, false, false, true, Got("m"), true, true)
  }

  lemma {:induction false} SwapAsksAreAsks()
    ensures SwapAsks() == Asks(Got("l"), true, true, [SwapRound()], Ending(false, false))
  {
    assert [SwapRound()][..0] == [];
    assert Rounds("l", []) == Run("l", [Take("l")], true, false, false, None);
    assert Rounds("l", [SwapRound()]) == Iterate(Rounds("l", []), SwapRound());
  }

  lemma LettersTrim()
    ensures TrimSpace("a") == "a" && TrimSpace("c") == "c" && TrimSpace("h") == "h"
    ensures TrimSpace("l") == "l" && TrimSpace("m") == "m" && TrimSpace("") == ""
  {
  }

  /** An account as these claims leave it. */
  function Leased(a: Account, leaseId: string, now: nat): Account {
    Granted(a, leaseId, "c", "h", DEFAULT_TTL, now)
  }

  lemma SwapDocIsQuiet()
    ensures Quiet(SwapDoc()) && UniqueIds(SwapDoc().accounts) && SwapDoc().accounts == [FirstAccount(), SecondAccount()]
  {
  }

  /** With quota to spare and credentials, an account without a lease is on offer. */
  lemma Offered(doc: Doc, auth: set<string>, leaseId: string, now: nat, k: nat)
    requires doc.quota == SwapDoc().quota && k < |doc.accounts| && 0 < now < 1000
    requires (doc.accounts[k] == FirstAccount() && "a" in auth) || (doc.accounts[k] == SecondAccount() && "b" in auth)
    ensures OnOffer(doc, ClaimWith(auth, leaseId), now, k)
  {
    LettersTrim();
  }

  lemma FirstIsNew(doc: Doc)
    ensures Enabled(World(doc, []), ClaimWith({"a"}, "l")) && Life([], "m") == []
  {
    LettersTrim();
  }

  lemma {:induction false} FirstClaim(w: World)
    requires w == World(SwapDoc(), [])
    ensures var v := StepWorld(w, ClaimWith({"a"}, "l"), 1);
      && Inv(w, 0) && Enabled(w, ClaimWith({"a"}, "l")) && Inv(v, 1)
      && v.doc.accounts == [Leased(FirstAccount(), "l", 1), SecondAccount()] && v.doc.quota == w.doc.quota
      && Life(v.log, "m") == []
  {
    var c := ClaimWith({"a"}, "l");
    hide SwapDoc, Inv, Enabled, OnOffer, StepWorld, Life, Quiet, UniqueIds;
    SwapDocIsQuiet();
    FirstIsNew(w.doc);
    QuietStart(w.doc);
    Offered(w.doc, {"a"}, "l", 1, 0);
    assert w.doc.accounts[0].id == "a" && w.doc.accounts[1].id == "b";
    var i := ClaimStores(w, c, 0, 1, 0);
    assert i == 0;
  }

  lemma {:induction false} SecondClaim(v: World)
    requires Inv(v, 1) && v.doc.accounts == [Leased(FirstAccount(), "l", 1), SecondAccount()]
    requires v.doc.quota == SwapDoc().quota && Life(v.log, "m") == []
    ensures var c := ClaimWith({"a", "b"}, "m");
      && Enabled(v, c) && Inv(StepWorld(v, c, 2), 2)
      && StepWorld(v, c, 2).doc.accounts == [Leased(FirstAccount(), "l", 1), Leased(SecondAccount(), "m", 2)]
  {
    var c := ClaimWith({"a", "b"}, "m");
    LettersTrim();
    Offered(v.doc, {"a", "b"}, "m", 2, 1);
    assert Enabled(v, c);
    hide SwapDoc, Inv, Enabled, OnOffer, StepWorld, Life;
    var i := ClaimStores(v, c, 1, 2, 1);
    assert i == 1;
  }

  lemma {:induction false} ThenRelease(v: World)
    requires Inv(v, 2) && v.doc.accounts == [Leased(FirstAccount(), "l", 1), Leased(SecondAccount(), "m", 2)]
    ensures var c := ReleaseLease("a", "l", "c");
      Enabled(v, c) && !Decide(v.doc, c, 3).reply.Failed? && Gone(StepWorld(v, c, 3), "l")
  {
    var c := ReleaseLease("a", "l", "c");
    LettersTrim();
    assert Acts(v.doc.accounts[0], "a", "l", "c", 3);
    hide Inv, Acts, Decide, StepWorld, Gone;
    ReleaseSucceedsIff(v, c, 2, 3);
    var id := ReleaseEnds(v, c, 2, 3);
  }

  lemma BothHeld(v: World)
    requires v.doc.accounts == [Leased(FirstAccount(), "l", 1), Leased(SecondAccount(), "m", 2)]
    ensures Holds(v, "a", "l") && Holds(v, "b", "m") && Holding(v.doc.accounts, Taken(SwapAsks())) == {"a", "b"}
  {
    var asks, accounts := SwapAsks(), v.doc.accounts;
    assert asks[0].id in Taken(asks) && asks[1].id in Taken(asks);
    assert accounts[0].id in Holding(accounts, Taken(asks)) && accounts[1].id in Holding(accounts, Taken(asks));
  }

  lemma {:induction false} SwapCallsAreLegal() returns (v: World)
    ensures var w, run := World(SwapDoc(), []), SwapCalls();
      && Quiet(w.doc) && Inv(w, 0) && Legal(w, 0, run) && v == At(w, run, 2)
      && v.doc.accounts == [Leased(FirstAccount(), "l", 1), Leased(SecondAccount(), "m", 2)]
      && !Decide(v.doc, run[2].command, run[2].at).reply.Failed? && Gone(At(w, run, 3), "l")
  {
    var w, run := World(SwapDoc(), []), SwapCalls();
    SwapDocIsQuiet();
    hide SwapDoc, Inv, Enabled, StepWorld, Decide, Gone, Leased, ClaimWith, Life;
    FirstClaim(w);
    var u := StepWorld(w, run[0].command, 1);
    SecondClaim(u);
    v := StepWorld(u, run[1].command, 2);
    ThenRelease(v);
    LeaseExamples.ThreeCalls(w, run[0], run[1], run[2]);
    ThreeSteps(w, run);
  }

  lemma {:induction false} ThreeSteps(w: World, run: seq<Call>)
    requires |run| == 3
    ensures var u := StepWorld(w, run[0].command, run[0].at);
      && At(w, run, 2) == StepWorld(u, run[1].command, run[1].at)
      && At(w, run, 3) == StepWorld(At(w, run, 2), run[2].command, run[2].at)
  {
    hide StepWorld;
    assert run[..2][..1] == run[..1] && run[..1][..0] == run[..0] == [] && run[..3][..2] == run[..2];
    assert After(w, run[..1]) == StepWorld(After(w, []), run[0].command, run[0].at);
  }

  /**
   The client's run is embedded in the server's, and between its second claim and its
   release the server records it on two accounts.
   */
  lemma {:induction false} SwapIsEmbedded()
    ensures SwapAsks() == Asks(Got("l"), true, true, [SwapRound()], Ending(false, false))
    ensures var w, run := World(SwapDoc(), []), SwapCalls();
      && Quiet(w.doc) && Legal(w, 0, run) && Embedded(w, run, SwapAsks(), [0, 1, 2])
      && Holding(At(w, run, 2).doc.accounts, Taken(SwapAsks())) == {"a", "b"} && Gone(At(w, run, 3), "l")
  {
    var w, run := World(SwapDoc(), []), SwapCalls();
    SwapAsksAreAsks();
    var v := SwapCallsAreLegal();
    hide SwapDoc, Inv, Legal, At, Decide, Leased, Gone, Holding, Taken, Quiet, Asks;
    BothHeld(v);
    SwapAsksFit(w);
  }

  lemma SwapAsksFit(w: World)
    requires !Decide(At(w, SwapCalls(), 2).doc, SwapCalls()[2].command, SwapCalls()[2].at).reply.Failed?
    ensures Embedded(w, SwapCalls(), SwapAsks(), [0, 1, 2])
  {
    LettersTrim();
    hide At, Decide;
    var asks, at, run := SwapAsks(), [0, 1, 2], SwapCalls();
    assert CarriedOut(w, run, 2, "l");
    assert asks[2] == Give("l", true) && at[2] == 2;
    assert GivenBefore(asks, at, "l", 2);
  }
}
