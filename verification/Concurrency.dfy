/**
 Interleavings in one file-mode process: every mutator takes the in-process mutex
 and, if it needs it, then the file lock; it loads, reads the clock, saves and
 unlocks. A quota fetch checks under the file lock alone, probes without any lock
 and records its result later, as another mutator.
 */
module Concurrency {
  import opened Wrappers
  import opened Text
  import opened LoadBalance
  import opened LeaseMachine
  import opened LeaseInvariant
  import opened LeaseSteps
  import opened LeaseRuns
  import LeaseRecords
  import AccountEffects

  /** The operations that also take the lock other processes see. */
  predicate NeedsFile(c: Command) {
    || c.Sweep? || c.Claim? || c.Touch? || c.Upload? || c.ReleaseLease?
    || c.RecordLeased? || c.RecordQuota? || c.UpsertSnapshot? || c.SelectForRun?
  }

  datatype Phase =
    | Resting
    | WantMutex(c: Command)
    | WantFile(c: Command)
    | Entered(c: Command)
    | Loaded(c: Command, local: Doc)
    | Decided(c: Command, choice: Decision, next: Doc, at: nat)
    | Saved(c: Command)
    | Leaving(c: Command)
    | WantCheck(id: string)
    | Checking(id: string)
    | Checked(id: string, leased: bool)
    | Probing(id: string)

  /** What happens to the cursor: a section is saved, or somebody resets it without any lock. */
  datatype Happening = Did(call: Call) | Reset

  /**
   `log` is the history of saves: which operation, with the cursor it read, and the
   clock it read. `trail` is the same with the cursor resets between.
   */
  datatype System = System(
    doc: Doc, cursor: string, mutex: Option<nat>, file: Option<nat>, clock: nat, threads: seq<Phase>,
    log: seq<Call>, trail: seq<Happening>)

  datatype Action =
    | Tick(elapsed: nat)
    | ResetCursor
    | Begin(t: nat, c: Command)
    | BeginFetch(t: nat, id: string)
    | TakeMutex(t: nat)
    | TakeFile(t: nat)
    | GiveUp(t: nat)
    | Load(t: nat)
    | Decide(t: nat)
    | Save(t: nat)
    | DropFile(t: nat)
    | DropMutex(t: nat)
    | Check(t: nat)
    | Conclude(t: nat)
    | Probe(t: nat, result: QuotaResult, authChanged: bool)

  predicate Enabled(s: System, a: Action) {
    if a.Tick? || a.ResetCursor? then true
    else
      a.t < |s.threads| &&
      var p := s.threads[a.t];
      match a
      case Begin(_, _) => p.Resting?
      case BeginFetch(_, _) => p.Resting?
      case TakeMutex(_) => p.WantMutex? && s.mutex == None
      case TakeFile(_) => (p.WantFile? || p.WantCheck?) && s.file == None
      case GiveUp(_) => p.WantFile? || p.WantCheck?
      case Load(_) => p.Entered?
      case Decide(_) => p.Loaded?
      case Save(_) => p.Decided?
      case DropFile(_) => p.Saved?
      case DropMutex(_) => p.Leaving?
      case Check(_) => p.Checking?
      case Conclude(_) => p.Checked?
      case Probe(_, _, _) => p.Probing?
  }

  /** The fresh look before a probe: a missing account counts as not leased. */
  predicate LeasedNow(doc: Doc, id: string, now: int) {
    var i := Find(doc.accounts, id);
    i < |doc.accounts| && Active(doc.accounts[i], now)
  }

  function Moved(s: System, t: nat, p: Phase): System
    requires t < |s.threads|
  {
    s.(threads := s.threads[t := p])
  }

  /** A fetch that cannot get the file lock goes on as if the account were not leased. */
  function Next(s: System, a: Action): System
    requires Enabled(s, a)
  {
    if a.Tick? then s.(clock := s.clock + a.elapsed)
    else if a.ResetCursor? then s.(cursor := "", trail := s.trail + [Reset])
    else
      var p := s.threads[a.t];
      match a
      case Begin(t, c) => Moved(s, t, WantMutex(c))
      case BeginFetch(t, id) => Moved(s, t, WantCheck(id))
      case TakeMutex(t) => Moved(s, t, if NeedsFile(p.c) then WantFile(p.c) else Entered(p.c)).(mutex := Some(t))
      case TakeFile(t) => Moved(s, t, if p.WantFile? then Entered(p.c) else Checking(p.id)).(file := Some(t))
      case GiveUp(t) => if p.WantFile? then Moved(s, t, Resting).(mutex := None) else Moved(s, t, Probing(p.id))
      case Load(t) => Moved(s, t, Loaded(p.c, s.doc))
      case Decide(t) =>
        var c := WithCursor(p.c, s.cursor);
        Moved(s, t, Decided(c, LeaseMachine.Decide(p.local, c, s.clock), Step(p.local, c, s.clock), s.clock))
      case Save(t) =>
        Moved(s, t, Saved(p.c)).(doc := p.next, cursor := NextCursor(s.cursor, p.c, p.choice),
                                 log := s.log + [Call(p.c, p.at)], trail := s.trail + [Did(Call(p.c, p.at))])
      case DropFile(t) => Moved(s, t, Leaving(p.c)).(file := if NeedsFile(p.c) then None else s.file)
      case DropMutex(t) => Moved(s, t, Resting).(mutex := None)
      case Check(t) => Moved(s, t, Checked(p.id, LeasedNow(s.doc, p.id, s.clock)))
      case Conclude(t) => Moved(s, t, if p.leased then Resting else Probing(p.id)).(file := None)
      case Probe(t, result, authChanged) => Moved(s, t, WantMutex(RecordQuota(p.id, result, authChanged, false, "", false)))
  }

  function Reach(s: System, actions: seq<Action>): Option<System> {
    if actions == [] then Some(s)
    else
      var before := Reach(s, actions[..|actions| - 1]);
      var a := actions[|actions| - 1];
      if before.Some? && Enabled(before.value, a) then Some(Next(before.value, a)) else None
  }

  /** Every thread at rest, nothing locked. */
  predicate Initial(s: System) {
    && s.mutex == None && s.file == None && s.log == [] && s.trail == [] && s.clock > 0
    && forall t :: 0 <= t < |s.threads| ==> s.threads[t] == Resting
  }

  // ---------- Serial runs ----------

  /** The document after the operations one by one. */
  function Serial(doc: Doc, log: seq<Call>): Doc {
    if log == [] then doc
    else Step(Serial(doc, log[..|log| - 1]), log[|log| - 1].command, log[|log| - 1].at)
  }

  predicate Ordered(log: seq<Call>) {
    forall i :: 0 < i < |log| ==> log[i - 1].at <= log[i].at
  }

  function LastAt(log: seq<Call>): nat {
    if log == [] then 0 else log[|log| - 1].at
  }

  // ---------- The invariant ----------

  predicate HoldsMutex(p: Phase) {
    p.WantFile? || p.Entered? || p.Loaded? || p.Decided? || p.Saved? || p.Leaving?
  }

  predicate HoldsFile(p: Phase) {
    || ((p.Entered? || p.Loaded? || p.Decided? || p.Saved?) && NeedsFile(p.c))
    || p.Checking? || p.Checked?
  }

  /** What a thread inside its section knows: it loaded what is stored, and its result is a step from there. */
  predicate View(s: System, p: Phase) {
    && (p.Loaded? ==> p.local == s.doc)
    && (p.Decided? ==>
          && p.next == Step(s.doc, p.c, p.at) && p.choice == LeaseMachine.Decide(s.doc, p.c, p.at)
          && LastAt(s.log) <= p.at <= s.clock && 0 < p.at)
  }

  ghost predicate MutexOk(s: System) {
    && (forall t :: 0 <= t < |s.threads| ==> (HoldsMutex(s.threads[t]) <==> s.mutex == Some(t)))
    && (s.mutex.Some? ==> s.mutex.value < |s.threads|)
  }

  ghost predicate FileOk(s: System) {
    && (forall t :: 0 <= t < |s.threads| ==> (HoldsFile(s.threads[t]) <==> s.file == Some(t)))
    && (forall t :: 0 <= t < |s.threads| && s.threads[t].WantFile? ==> NeedsFile(s.threads[t].c))
    && (s.file.Some? ==> s.file.value < |s.threads|)
  }

  ghost predicate LocksOk(s: System) {
    MutexOk(s) && FileOk(s)
  }

  ghost predicate ViewsOk(s: System) {
    forall t :: 0 <= t < |s.threads| ==> View(s, s.threads[t])
  }

  ghost predicate HistoryOk(s: System, start: Doc) {
    && s.doc == Serial(start, s.log) && Ordered(s.log)
    && LastAt(s.log) <= s.clock && s.clock > 0
    && forall i :: 0 <= i < |s.log| ==> s.log[i].at > 0
  }

  ghost predicate Sound(s: System, start: Doc) {
    LocksOk(s) && ViewsOk(s) && HistoryOk(s, start)
  }

  lemma {:induction false} LocksStay(s: System, a: Action)
    requires LocksOk(s) && Enabled(s, a)
    ensures LocksOk(Next(s, a))
  {
    MutexStays(s, a);
    FileStays(s, a);
  }

  lemma MutexStays(s: System, a: Action)
    requires MutexOk(s) && Enabled(s, a)
    ensures MutexOk(Next(s, a))
  {
    hide Step, LeasedNow, NeedsFile, WithCursor, NextCursor, LeaseMachine.Decide;
  }

  lemma FileStays(s: System, a: Action)
    requires FileOk(s) && Enabled(s, a)
    ensures FileOk(Next(s, a))
  {
    hide Step, LeasedNow, NeedsFile;
    if a.Tick? || a.ResetCursor? {
    } else if a.TakeFile? {
      FileTaken(s, a);
    } else if a.DropFile? || a.Conclude? {
      FileDropped(s, a);
    } else {
      FileUntouched(s, a);
    }
  }

  lemma SameNeeds(c: Command, cursor: string)
    ensures NeedsFile(WithCursor(c, cursor)) == NeedsFile(c)
  {
  }

  lemma FileTaken(s: System, a: Action)
    requires FileOk(s) && Enabled(s, a) && a.TakeFile?
    ensures FileOk(Next(s, a))
  {
    hide NeedsFile;
  }

  lemma FileDropped(s: System, a: Action)
    requires FileOk(s) && Enabled(s, a) && (a.DropFile? || a.Conclude?)
    ensures FileOk(Next(s, a))
  {
    hide NeedsFile;
  }

  /** The other actions do not change who needs or holds the file lock. */
  lemma FileUntouched(s: System, a: Action)
    requires FileOk(s) && Enabled(s, a) && !a.Tick? && !a.ResetCursor? && !a.TakeFile? && !a.DropFile? && !a.Conclude?
    ensures FileOk(Next(s, a))
  {
    if a.Decide? { SameNeeds(s.threads[a.t].c, s.cursor); }
    hide Step, LeasedNow, NeedsFile, WithCursor, NextCursor, LeaseMachine.Decide;
    var n := Next(s, a);
    assert n.file == s.file && HoldsFile(n.threads[a.t]) == HoldsFile(s.threads[a.t]);
  }

  /** Only the thread that has the mutex looks at or changes the document. */
  lemma ViewsStay(s: System, a: Action, start: Doc)
    requires Sound(s, start) && Enabled(s, a)
    ensures ViewsOk(Next(s, a))
  {
    hide Step, LeasedNow, Serial, WithCursor, NextCursor, LeaseMachine.Decide;
    var n := Next(s, a);
    forall t | 0 <= t < |n.threads| ensures View(n, n.threads[t]) {
      assert View(s, s.threads[t]);
      if !a.Tick? && !a.ResetCursor? {
        assert View(s, s.threads[a.t]);
        assert HoldsMutex(s.threads[t]) && HoldsMutex(s.threads[a.t]) ==> t == a.t;
      }
    }
  }

  lemma HistoryStays(s: System, a: Action, start: Doc)
    requires Sound(s, start) && Enabled(s, a)
    ensures HistoryOk(Next(s, a), start)
  {
    hide Step, LeasedNow, LocksOk, WithCursor, NextCursor, LeaseMachine.Decide;
    if a.Save? {
      assert View(s, s.threads[a.t]);
      SaveExtends(s, a, start);
    } else {
      hide Serial, Ordered, View;
      assert Next(s, a).doc == s.doc && Next(s, a).log == s.log && Next(s, a).clock >= s.clock;
    }
  }

  lemma SaveExtends(s: System, a: Action, start: Doc)
    requires HistoryOk(s, start) && Enabled(s, a) && a.Save? && View(s, s.threads[a.t])
    ensures HistoryOk(Next(s, a), start)
  {
    hide Step, NextCursor, LeaseMachine.Decide;
    var n := Next(s, a);
    assert n.log[..|n.log| - 1] == s.log;
  }

  /**
   Serializability: whatever the interleaving, the stored document is the one a
   serial run of the saved operations gives, at clock readings that never go back;
   no update is lost.
   */
  lemma {:induction false} EveryInterleavingIsSerial(s: System, actions: seq<Action>)
    requires Initial(s) && Reach(s, actions).Some?
    ensures Sound(Reach(s, actions).value, s.doc)
  {
    if actions != [] {
      var front, a := actions[..|actions| - 1], actions[|actions| - 1];
      EveryInterleavingIsSerial(s, front);
      var v := Reach(s, front).value;
      hide Sound, Next, Enabled, Initial;
      SoundStays(v, a, s.doc);
    }
  }

  lemma {:induction false} SoundStays(s: System, a: Action, start: Doc)
    requires Sound(s, start) && Enabled(s, a)
    ensures Sound(Next(s, a), start)
  {
    LocksStay(s, a);
    ViewsStay(s, a, start);
    HistoryStays(s, a, start);
  }

  // ---------- No deadlock ----------

  /** The next action of a thread that needs nobody. */
  function OwnAction(t: nat, p: Phase): Action {
    match p
    case Entered(_) => Load(t)
    case Loaded(_, _) => Decide(t)
    case Decided(_, _, _, _) => Save(t)
    case Saved(_) => DropFile(t)
    case Leaving(_) => DropMutex(t)
    case Checking(_) => Check(t)
    case Checked(_, _) => Conclude(t)
    case Probing(_) => Probe(t, QuotaResult(Unchecked, "", "", []), false)
    case WantMutex(_) => TakeMutex(t)
    case _ => TakeFile(t)
  }

  /**
   Because the mutex is taken before the file lock, as long as some thread is at
   work some thread can go on, without anyone giving up on a lock.
   */
  lemma SomeThreadCanProceed(s: System, start: Doc, t: nat) returns (u: nat)
    requires Sound(s, start) && t < |s.threads| && s.threads[t] != Resting
    ensures u < |s.threads| && s.threads[u] != Resting && Enabled(s, OwnAction(u, s.threads[u]))
  {
    hide ViewsOk, HistoryOk, View;
    u := t;
    if s.threads[u].WantMutex? && s.mutex.Some? {
      u := s.mutex.value;
      assert HoldsMutex(s.threads[u]);
    }
    if (s.threads[u].WantFile? || s.threads[u].WantCheck?) && s.file.Some? {
      u := s.file.value;
      assert HoldsFile(s.threads[u]);
    }
  }

  /** How many actions a thread has left at most. */
  function Rank(p: Phase): nat {
    match p
    case Resting => 0
    case Leaving(_) => 1
    case Saved(_) => 2
    case Decided(_, _, _, _) => 3
    case Loaded(_, _) => 4
    case Entered(_) => 5
    case WantFile(_) => 6
    case WantMutex(_) => 7
    case Probing(_) => 8
    case Checked(_, _) => 9
    case Checking(_) => 10
    case WantCheck(_) => 11
  }

  function Work(threads: seq<Phase>): nat {
    if threads == [] then 0 else Rank(threads[0]) + Work(threads[1..])
  }

  lemma {:induction false} WorkChanges(threads: seq<Phase>, t: nat, p: Phase)
    requires t < |threads|
    ensures Work(threads[t := p]) == Work(threads) - Rank(threads[t]) + Rank(p)
  {
    if t == 0 {
      assert threads[t := p][1..] == threads[1..];
    } else {
      WorkChanges(threads[1..], t - 1, p);
      assert threads[t := p][1..] == threads[1..][t - 1 := p];
    }
  }

  /** And the operations already begun finish: every action but a new beginning uses up work. */
  lemma ActionsUseUpWork(s: System, a: Action)
    requires Enabled(s, a) && !a.Tick? && !a.ResetCursor? && !a.Begin? && !a.BeginFetch?
    ensures Work(Next(s, a).threads) < Work(s.threads)
  {
    hide Step, LeasedNow, WithCursor, NextCursor, LeaseMachine.Decide;
    var n := Next(s, a);
    WorkChanges(s.threads, a.t, n.threads[a.t]);
  }

  // ---------- What it gives the lease protocol ----------

  lemma {:induction false} SerialIsARun(doc: Doc, log: seq<Call>)
    ensures After(World(doc, []), log).doc == Serial(doc, log)
  {
    if log != [] {
      var front := log[..|log| - 1];
      SerialIsARun(doc, front);
      StepWorldDoc(After(World(doc, []), front), log[|log| - 1].command, log[|log| - 1].at);
    }
  }

  /** The assumption on a run that the locks cannot give: new lease ids, and names left to discover. */
  ghost predicate AssumesFresh(doc: Doc, log: seq<Call>) {
    log == []
    || (AssumesFresh(doc, log[..|log| - 1])
        && LeaseSteps.Enabled(After(World(doc, []), log[..|log| - 1]), log[|log| - 1].command))
  }

  lemma {:induction false} SerialIsLegal(doc: Doc, log: seq<Call>)
    requires Ordered(log) && AssumesFresh(doc, log) && forall i :: 0 <= i < |log| ==> log[i].at > 0
    ensures Legal(World(doc, []), 0, log)
  {
    hide LeaseSteps.Enabled, After;
    if log != [] {
      SerialIsLegal(doc, log[..|log| - 1]);
    }
  }

  /** So the stored document of any interleaving satisfies the lease invariant. */
  lemma {:induction false} InterleavingsKeepLeases(s: System, actions: seq<Action>)
    requires Initial(s) && Reach(s, actions).Some? && Quiet(s.doc) && UniqueIds(s.doc.accounts)
    requires AssumesFresh(s.doc, Reach(s, actions).value.log)
    ensures var r := Reach(s, actions).value;
      && Legal(World(s.doc, []), 0, r.log)
      && After(World(s.doc, []), r.log).doc == r.doc
      && Inv(After(World(s.doc, []), r.log), r.clock)
  {
    EveryInterleavingIsSerial(s, actions);
    var r := Reach(s, actions).value;
    hide Reach, Inv, AssumesFresh, Initial;
    SerialIsLegal(s.doc, r.log);
    SerialIsARun(s.doc, r.log);
    QuietStart(s.doc);
    RunKeepsInv(World(s.doc, []), 0, r.log);
    InvAges(After(World(s.doc, []), r.log), Clock(0, r.log), r.clock);
  }

  /** A probe's late record, whatever happened while it ran, changes no lease and no event. */
  lemma {:induction false} LateRecordKeepsLeases(s: System, a: Action, start: Doc)
    requires Sound(s, start) && Enabled(s, a) && a.Save? && s.threads[a.t].c.RecordQuota?
    ensures var n := Next(s, a);
      && |n.doc.accounts| == |s.doc.accounts| && n.doc.dispatches == s.doc.dispatches
      && forall i :: 0 <= i < |s.doc.accounts| ==> n.doc.accounts[i].lease == s.doc.accounts[i].lease
  {
    var p := s.threads[a.t];
    assert View(s, p);
    hide Step, NextCursor, LeaseMachine.Decide;
    LeaseRecords.QuotaRecordKeepsLeases(s.doc, p.c, p.at);
  }

  /**
   While a fetch looks at an account under the file lock, no lease is claimed, renewed,
   released or swept, and no quota, snapshot or selection is stored.
   */
  lemma CheckExcludesLeaseWriters(s: System, a: Action, start: Doc, t: nat)
    requires Sound(s, start) && Enabled(s, a) && a.Save? && t < |s.threads| && (s.threads[t].Checking? || s.threads[t].Checked?)
    ensures var c := s.threads[a.t].c;
      && !NeedsFile(c) && !Sweeps(c)
      && (|| c.UpsertJson? || c.AddAccount? || c.ImportLive? || c.ListAccounts? || c.SetStatus? || c.SetOwner? || c.SetName?
          || c.SetWorkspace? || c.Delete?)
  {
    hide ViewsOk, HistoryOk;
    var u := a.t;
    assert HoldsFile(s.threads[t]) && s.threads[u].Decided?;
    assert s.file == Some(t);
    assert u != t ==> !HoldsFile(s.threads[u]);
  }

  // ---------- Fetches ----------

  predicate ByAnother(a: Action, t: nat) {
    a.Tick? || a.ResetCursor? || a.t != t
  }

  lemma {:induction false} OthersLeave(s: System, actions: seq<Action>, t: nat)
    requires t < |s.threads| && Reach(s, actions).Some? && forall k :: 0 <= k < |actions| ==> ByAnother(actions[k], t)
    ensures var r := Reach(s, actions).value; |r.threads| == |s.threads| && r.threads[t] == s.threads[t]
  {
    hide Step, LeasedNow, WithCursor, NextCursor, LeaseMachine.Decide, NeedsFile;
    if actions != [] {
      OthersLeave(s, actions[..|actions| - 1], t);
    }
  }

  /** The first account with this id is leased beyond `now`. */
  ghost predicate LeasedBeyond(doc: Doc, id: string, now: int) {
    exists i :: 0 <= i < |doc.accounts| && doc.accounts[i].id == id && (forall j :: 0 <= j < i ==> doc.accounts[j].id != id)
      && !Blank(doc.accounts[i].lease.id) && doc.accounts[i].lease.expiresAt != 0 && doc.accounts[i].lease.expiresAt > now
  }

  lemma LookIsRight(doc: Doc, id: string, now: int)
    ensures LeasedNow(doc, id, now) <==> LeasedBeyond(doc, id, now)
  {
    hide Blank;
    var i := Find(doc.accounts, id);
    assert forall k :: 0 <= k < |doc.accounts| && doc.accounts[k].id == id && (forall j :: 0 <= j < k ==> doc.accounts[j].id != id) ==> k == i;
  }

  /**
   A fetch that finds its account leased makes no probe and one that does not goes on to
   probe it, whatever the others do between its look and its conclusion.
   */
  lemma {:induction false} LeasedIsNotProbed(s: System, t: nat, others: seq<Action>)
    requires t < |s.threads| && s.threads[t].Checking? && Reach(Next(s, Check(t)), others).Some?
    requires forall k :: 0 <= k < |others| ==> ByAnother(others[k], t)
    ensures var r := Reach(Next(s, Check(t)), others).value;
      && Enabled(r, Conclude(t))
      && Next(r, Conclude(t)).threads[t] ==
           if LeasedBeyond(s.doc, s.threads[t].id, s.clock) then Resting else Probing(s.threads[t].id)
  {
    LookIsRight(s.doc, s.threads[t].id, s.clock);
    OthersLeave(Next(s, Check(t)), others, t);
    hide LeasedNow, LeasedBeyond, Reach;
  }

  /** Giving up on the file lock stores nothing: an operation is dropped, and a fetch goes on to probe. */
  lemma GivingUpStoresNothing(s: System, t: nat)
    requires Enabled(s, GiveUp(t))
    ensures var n := Next(s, GiveUp(t));
      && n.doc == s.doc && n.cursor == s.cursor && n.log == s.log && n.file == s.file
      && (s.threads[t].WantFile? ==> n.threads[t] == Resting && n.mutex == None)
      && (s.threads[t].WantCheck? ==> n.threads[t] == Probing(s.threads[t].id) && n.mutex == s.mutex)
  {
  }

  /** A probe's result is recorded for the account it probed, as the server's own: no account changes its owner. */
  lemma {:induction false} ProbesKeepOwners(s: System, t: nat, result: QuotaResult, authChanged: bool, doc: Doc, now: nat, i: nat)
    requires Enabled(s, Probe(t, result, authChanged)) && i < |doc.accounts|
    ensures var n, id := Next(s, Probe(t, result, authChanged)), s.threads[t].id;
      && n.threads[t].WantMutex? && n.doc == s.doc && n.log == s.log
      && var next := Step(doc, n.threads[t].c, now);
        && |next.accounts| == |doc.accounts|
        && next.accounts[i].owner == doc.accounts[i].owner && next.accounts[i].ownerClientId == doc.accounts[i].ownerClientId
        && (!Blank(id) ==> id in next.quota && next.quota[id].result == result && !next.quota[id].fromClient)
  {
    var c := RecordQuota(s.threads[t].id, result, authChanged, false, "", false);
    assert Next(s, Probe(t, result, authChanged)).threads[t] == WantMutex(c);
    var k := AccountEffects.RecordQuotaEffect(doc, c, now);
    hide Step, LeaseMachine.Decide, Next, Enabled;
  }
}
