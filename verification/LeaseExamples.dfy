/**
 Concrete runs: a lease whose end the ledger does not tell, and one that an upload
 cuts short.
 */
module LeaseExamples {
  import opened Wrappers
  import opened Text
  import opened LoadBalance
  import opened Ledger
  import opened LeaseMachine
  import opened LeaseInvariant
  import opened LeaseSteps
  import opened LeaseMoves
  import opened LeaseRuns
  import opened LeaseTheorems
  import opened LeaseTimes
  import opened LeaseRecords
  import opened LeaseHolding
  import opened LeaseLedger

  // ---------- A document and a claim ----------

  function SomeDoc(): Doc {
    var window := Window("five_hour", "", 50.0, 1000);
    var cache := QuotaCache(1, QuotaResult(Supported, "", "", [window]), Some(window), false, "");
    Doc([NewAccount("a", "", 0, 1)], map["a" := cache], [])
  }

  /** It asks for twenty minutes, as a client with a heartbeat interval of five does. */
  function SomeClaim(): Command {
    Claim("c", "h", "", 20 * MINUTE, {"a"}, "", "l", true)
  }

  lemma SomeDocOffers()
    ensures Quiet(SomeDoc()) && UniqueIds(SomeDoc().accounts) && OnOffer(SomeDoc(), SomeClaim(), 1, 0)
  {
    assert TrimSpace("") == "";
  }

  lemma ExportedClaimReplies(doc: Doc, c: Command, now: nat)
    requires c.Claim? && c.exported && Decide(doc, c, now).writes != []
    ensures Decide(doc, c, now).reply.With?
  {
    hide Swept, Available, Choose;
  }

  lemma {:induction false} TwoCalls(w: World, a: Call, b: Call)
    requires 0 < a.at <= b.at && Enabled(w, a.command) && Enabled(StepWorld(w, a.command, a.at), b.command)
    ensures Legal(w, 0, [a, b]) && At(w, [a, b], 0) == w && At(w, [a, b], 1) == StepWorld(w, a.command, a.at)
  {
    hide Enabled, StepWorld;
    var run := [a, b];
    assert run[..1] == [a] && [a][..0] == [] && run[..0] == [];
    assert After(w, []) == w && After(w, [a]) == StepWorld(w, a.command, a.at);
    assert Legal(w, 0, []) && Legal(w, 0, [a]);
  }

  lemma SomeIdIsNew()
    ensures Enabled(World(SomeDoc(), []), SomeClaim()) && SomeClaim().leaseId == "l"
  {
    assert TrimSpace("l") == "l";
  }

  lemma OnlyA(id: string)
    requires On(SomeDoc().accounts, id).Some?
    ensures id == "a"
  {
  }

  lemma {:induction false} SomeClaimTakes()
    ensures var w := World(SomeDoc(), []);
      Inv(w, 0) && Enabled(w, SomeClaim()) && Holds(StepWorld(w, SomeClaim(), 1), "a", "l")
  {
    var w := World(SomeDoc(), []);
    SomeDocOffers();
    SomeIdIsNew();
    hide SomeDoc, StepWorld, Decide, Inv, On, OnOffer, Holds, Enabled, Quiet, UniqueIds;
    assert SomeClaim().Claim? && SomeClaim().exported;
    hide SomeClaim;
    QuietStart(w.doc);
    ClaimSucceedsIff(w.doc, SomeClaim(), 1);
    ExportedClaimReplies(w.doc, SomeClaim(), 1);
    ClaimGrants(w, SomeClaim(), 0, 1);
    OnlyA(Decide(w.doc, SomeClaim(), 1).reply.account.id);
  }

  // ---------- A hand-over ----------

  function SomeHandOver(): Command {
    SetOwner("a", Known(Client), "c")
  }

  function SomeRun(): seq<Call> {
    [Call(SomeClaim(), 1), Call(SomeHandOver(), 2)]
  }

  lemma HandOverDrops(w: World)
    ensures Drops(SomeHandOver(), "a") && Enabled(w, SomeHandOver())
  {
  }

  lemma {:induction false} SomeRunIsLegal()
    ensures var w := World(SomeDoc(), []);
      Legal(w, 0, SomeRun()) && At(w, SomeRun(), 1) == StepWorld(w, SomeClaim(), 1)
  {
    var w := World(SomeDoc(), []);
    hide SomeDoc, SomeClaim, SomeHandOver, StepWorld, Inv, Enabled, Holds, After, Legal;
    SomeClaimTakes();
    HandOverDrops(StepWorld(w, SomeClaim(), 1));
    TwoCalls(w, Call(SomeClaim(), 1), Call(SomeHandOver(), 2));
  }

  /** A claim and a hand-over: the lease is gone, and its life in the ledger is its claim. */
  lemma {:induction false} HandOverIsUntold()
    ensures Quiet(SomeDoc()) && UniqueIds(SomeDoc().accounts) && Legal(World(SomeDoc(), []), 0, SomeRun())
    ensures var r := After(World(SomeDoc(), []), SomeRun());
      Gone(r, "l") && Life(r.log, "l") == [Mark(CLAIMED, "a")]
  {
    var w, run := World(SomeDoc(), []), SomeRun();
    hide SomeDoc, SomeClaim, SomeHandOver, StepWorld, Inv, Enabled, Holds, After, Legal, Gone, Life, Quiet, UniqueIds;
    hide OnOffer, Drops;
    SomeDocOffers();
    SomeClaimTakes();
    SomeRunIsLegal();
    HandOverDrops(w);
    assert |run| == 2 && run[1].command == SomeHandOver();
    hide SomeRun;
    DroppedStaysClaimed(w, 0, run, "l", 1, "a");
    assert run[..|run|] == run;
  }

  // ---------- An upload ----------

  function SomeUpload(): Command {
    Upload(Snapshot("a", "", "", Unset, Unset, "", "", "l", 0, Object), "c", DEFAULT_TTL)
  }

  /** A claim for twenty minutes, an upload, and a sweep 90 seconds later. */
  function UploadRun(): seq<Call> {
    [Call(SomeClaim(), 1), Call(SomeUpload(), 2), Call(Sweep, 2 + DEFAULT_TTL)]
  }

  lemma {:induction false} ThreeCalls(w: World, a: Call, b: Call, c: Call)
    requires 0 < a.at <= b.at <= c.at && Enabled(w, a.command)
    requires var v := StepWorld(w, a.command, a.at); Enabled(v, b.command) && Enabled(StepWorld(v, b.command, b.at), c.command)
    ensures Legal(w, 0, [a, b, c])
    ensures After(w, [a, b, c]) == StepWorld(StepWorld(StepWorld(w, a.command, a.at), b.command, b.at), c.command, c.at)
  {
    TwoCalls(w, a, b);
    hide Enabled, StepWorld;
    assert [a, b, c][..2] == [a, b] && [a, b][..1] == [a] && [a][..0] == [];
    assert After(w, []) == w && After(w, [a]) == StepWorld(w, a.command, a.at);
    assert After(w, [a, b]) == StepWorld(After(w, [a]), b.command, b.at);
  }

  lemma SomeUploadIsPresentable(w: World)
    ensures SomeUpload().Upload? && Presentable(SomeUpload().snapshot) && SomeUpload().ttl == DEFAULT_TTL
    ensures TrimSpace(SomeUpload().snapshot.leaseId) == "l" && Enabled(w, SomeUpload()) && Enabled(w, Sweep)
  {
    assert TrimSpace("a") == "a" && TrimSpace("l") == "l";
  }

  /** The account as the claim leaves it may be uploaded to. */
  lemma SomeUploadActs(b: Account, a: Account)
    requires b.id == "a" && b.generation == 0 && a == Granted(b, "l", "c", "h", 20 * MINUTE, 1)
    ensures ActsAt(a, SomeUpload().snapshot, SomeUpload().clientId, 2) && a.lease.expiresAt == 1 + 20 * MINUTE
  {
    assert TrimSpace("a") == "a" && TrimSpace("l") == "l" && TrimSpace("c") == "c";
  }

  lemma OnSomeDoc(id: string)
    requires On(SomeDoc().accounts, id).Some?
    ensures id == "a" && On(SomeDoc().accounts, id).value.id == "a" && On(SomeDoc().accounts, id).value.generation == 0
  {
  }

  /** After the claim, the account is held until twenty minutes later and accepts the upload. */
  lemma {:induction false} SomeClaimGrants() returns (a: Account)
    ensures var v := StepWorld(World(SomeDoc(), []), SomeClaim(), 1);
      && Inv(v, 1) && On(v.doc.accounts, "a") == Some(a) && a.id == "a"
      && a.lease.expiresAt == 1 + 20 * MINUTE && ActsAt(a, SomeUpload().snapshot, SomeUpload().clientId, 2)
  {
    var w, c := World(SomeDoc(), []), SomeClaim();
    SomeClaimTakes();
    SomeDocOffers();
    assert c.clientId == "c" && c.holder == "h" && c.ttl == 20 * MINUTE && c.leaseId == "l" && c.exported && c.Claim?;
    hide SomeDoc, SomeClaim, StepWorld, Decide, Inv, On, OnOffer, Holds, Enabled, Granted, SomeUpload;
    StepKeepsInv(w, c, 0, 1);
    ClaimSucceedsIff(w.doc, c, 1);
    ExportedClaimReplies(w.doc, c, 1);
    ClaimIsGrant(w, c, 0, 1);
    a := Decide(w.doc, c, 1).reply.account;
    OnSomeDoc(a.id);
    SomeUploadActs(On(w.doc.accounts, a.id).value, a);
  }

  lemma {:induction false} SomeUploadIsAccepted(v: World, a: Account)
    requires Inv(v, 1) && On(v.doc.accounts, "a") == Some(a) && a.id == "a"
    requires ActsAt(a, SomeUpload().snapshot, SomeUpload().clientId, 2)
    ensures Accepts(v, SomeUpload(), 2, "a")
  {
    SomeUploadIsPresentable(v);
    assert SomeUpload().snapshot.id == "a" && TrimSpace("a") == "a";
    OnIsStored(v.doc.accounts, a);
    hide SomeUpload, Inv, Decide, Acts, Presentable, On;
    UploadSucceedsIff(v, SomeUpload(), 1, 2);
    UploadReplies(v.doc, SomeUpload(), 2);
  }

  /** A successful upload replies with the account it names. */
  lemma UploadReplies(doc: Doc, c: Command, now: nat)
    requires c.Upload? && !Decide(doc, c, now).reply.Failed?
    ensures Decide(doc, c, now).reply.With? && Decide(doc, c, now).reply.account.id == TrimSpace(c.snapshot.id)
  {
    hide Swept, Validate;
  }

  /** The lease was granted for twenty minutes, and the sweep 90 seconds after the upload takes it. */
  lemma {:induction false} UploadRunLosesTheLease()
    ensures var w := World(SomeDoc(), []);
      && Legal(w, 0, UploadRun())
      && Holds(StepWorld(w, SomeClaim(), 1), "a", "l")
      && On(StepWorld(w, SomeClaim(), 1).doc.accounts, "a").value.lease.expiresAt == 1 + 20 * MINUTE
      && !Holds(After(w, UploadRun()), "a", "l")
  {
    var w := World(SomeDoc(), []);
    var v := StepWorld(w, SomeClaim(), 1);
    SomeClaimTakes();
    var a := SomeClaimGrants();
    SomeUploadIsPresentable(v);
    SomeUploadIsPresentable(StepWorld(v, SomeUpload(), 2));
    hide SomeDoc, SomeClaim, SomeUpload, StepWorld, After, Legal, Inv, On, Decide, Enabled, ActsAt, Presentable, Holds;
    SomeUploadIsAccepted(v, a);
    ThreeCalls(w, Call(SomeClaim(), 1), Call(SomeUpload(), 2), Call(Sweep, 2 + DEFAULT_TTL));
    UploadCutsTheLease(v, SomeUpload(), 1, 2, "a", 2 + DEFAULT_TTL);
  }
}
