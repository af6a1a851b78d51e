/**
 What every write keeps: unique accounts and leases, leases of bounded length,
 and a ledger in which each lease is claimed once and ends at most once.
 */
module LeaseInvariant {
  import opened Text
  import opened LoadBalance
  import opened Ledger
  import opened LeaseMachine

  /** The document together with every event ever appended to its ledger, newest first. */
  datatype World = World(doc: Doc, log: seq<Event>)

  function PutWorld(w: World, x: Write, now: nat): World {
    World(Put(w.doc, x, now), Record(w.log, WriteEvents(w.doc.accounts, x, now)))
  }

  function PutWorlds(w: World, xs: seq<Write>, now: nat): World {
    if xs == [] then w else PutWorld(PutWorlds(w, xs[..|xs| - 1], now), xs[|xs| - 1], now)
  }

  // ---------- The invariant ----------

  datatype Mark = Mark(kind: string, accountId: string)

  /** The events of one lease, oldest first. */
  function Life(log: seq<Event>, leaseId: string): seq<Mark> {
    if log == [] then []
    else Life(log[1..], leaseId) + (if log[0].leaseId == leaseId then [Mark(log[0].kind, log[0].accountId)] else [])
  }

  /** Nothing yet, or a claim, or a claim and then one release or expiry on the same account. */
  predicate SoundLife(life: seq<Mark>) {
    && |life| <= 2
    && (|life| >= 1 ==> life[0].kind == CLAIMED)
    && (|life| == 2 ==> (life[1].kind == RELEASED || life[1].kind == EXPIRED) && life[1].accountId == life[0].accountId)
  }

  ghost predicate UniqueIds(accounts: seq<Account>) {
    forall i, j :: 0 <= i < j < |accounts| ==> accounts[i].id != accounts[j].id
  }

  ghost predicate UniqueLeases(accounts: seq<Account>) {
    forall i, j :: 0 <= i < j < |accounts| && accounts[i].lease.id == accounts[j].lease.id ==> accounts[i].lease.id == ""
  }

  predicate Proper(leaseId: string) {
    leaseId != "" && TrimSpace(leaseId) == leaseId
  }

  predicate LeaseOk(l: Lease, clock: int) {
    || l == NO_LEASE
    || (Proper(l.id) && 0 < l.startedAt <= l.heartbeatAt <= clock
        && l.heartbeatAt + MIN_TTL <= l.expiresAt <= l.heartbeatAt + MAX_TTL)
  }

  predicate AccountOk(a: Account, log: seq<Event>, clock: int) {
    && LeaseOk(a.lease, clock)
    && a.generation >= 0
    && (a.lease.id != "" ==> Life(log, a.lease.id) == [Mark(CLAIMED, a.id)])
  }

  ghost predicate AccountsOk(accounts: seq<Account>, log: seq<Event>, clock: int) {
    forall i :: 0 <= i < |accounts| ==> AccountOk(accounts[i], log, clock)
  }

  predicate KnownKind(kind: string) {
    kind == CLAIMED || kind == RELEASED || kind == EXPIRED
  }

  predicate EventOk(e: Event) {
    Proper(e.leaseId) && KnownKind(e.kind) && e.id == e.leaseId + ":" + e.kind
  }

  ghost predicate EventsOk(log: seq<Event>) {
    forall i :: 0 <= i < |log| ==> EventOk(log[i])
  }

  ghost predicate LivesSound(log: seq<Event>) {
    forall leaseId :: SoundLife(Life(log, leaseId))
  }

  ghost predicate LedgerOk(w: World) {
    EventsOk(w.log) && LivesSound(w.log) && DistinctIds(w.log) && w.doc.dispatches == Newest(w.log)
  }

  ghost predicate Inv(w: World, clock: int) {
    && UniqueIds(w.doc.accounts) && UniqueLeases(w.doc.accounts)
    && AccountsOk(w.doc.accounts, w.log, clock)
    && LedgerOk(w)
  }

  // ---------- What a command may write ----------

  predicate Fresh(log: seq<Event>, leaseId: string) {
    Proper(leaseId) && Life(log, leaseId) == []
  }

  /** The commands that sweep. */
  predicate Sweeps(c: Command) {
    c.Sweep? || c.Claim? || c.Touch? || c.Upload? || c.ReleaseLease?
  }

  /** The command gives the account to a client, and its lease with it. */
  predicate HandsOver(c: Command, id: string) {
    c.SetOwner? && c.id == id && c.owner == Known(Client)
  }

  /** The command removes the account; one outside the managed directory is refused. */
  predicate Deletes(c: Command, id: string) {
    c.Delete? && c.id == id && c.managed
  }

  /** The status a command sets outright. */
  function Explicit(c: Command): Field<Status> {
    match c
    case SetStatus(_, status) => status
    case UpsertSnapshot(_, s) => s.status
    case Upload(s, _, _) => s.status
    case _ => Unset
  }

  function QuotaStatusOf(c: Command): QuotaStatus {
    match c
    case RecordLeased(_, _, _, result, _) => result.status
    case RecordQuota(_, result, _, _, _, _) => result.status
    case _ => Unchecked
  }

  /** Whether the command is about this account; a profile may be matched by its credentials. */
  predicate Names(c: Command, id: string) {
    match c
    case SetStatus(target, _) => target == id
    case RecordQuota(target, _, _, _, _, _) => target == id
    case RecordLeased(target, _, _, _, _) => TrimSpace(target) == id
    case Upload(s, _, _) => TrimSpace(s.id) == id
    case _ => true
  }

  predicate MayRestatus(c: Command, b: Account, next: Status) {
    || next == b.status
    || (&& Names(c, b.id)
        && (|| Explicit(c) == Known(next)
            || (QuotaStatusOf(c) == RefreshInvalid && (b.status == Ready || b.status == Recovering) && next == Drain)
            || (QuotaStatusOf(c) == Supported && b.status == Recovering && next == Ready)))
  }

  predicate MayUpdate(c: Command, b: Account, a: Account) {
    && !Sweeps(c) && a.id == b.id && a.lease == b.lease
    && b.generation <= a.generation <= b.generation + 1
    && MayRestatus(c, b, a.status)
  }

  predicate MayGrant(log: seq<Event>, c: Command, b: Account, a: Account, now: nat) {
    && c.Claim? && Fresh(log, c.leaseId)
    && b.lease == NO_LEASE && b.status == Ready && b.owner == Cloud
    && a == Granted(b, c.leaseId, c.clientId, c.holder, c.ttl, now)
  }

  /** A heartbeat, or an upload that names the account's current generation. */
  predicate MayRenew(c: Command, b: Account, a: Account, now: nat) {
    && Active(b, now)
    && (|| (c.Touch? && b.lease.id == TrimSpace(c.leaseId) && a == Renewed(b, c.holder, c.ttl, now))
        || (c.Upload? && Names(c, b.id) && b.lease.id == TrimSpace(c.snapshot.leaseId) && b.generation == c.snapshot.generation
            && a == Uploaded(b, c.snapshot, c.ttl, now)))
  }

  predicate MayRelease(c: Command, b: Account, now: nat) {
    c.ReleaseLease? && Active(b, now) && b.lease.id == TrimSpace(c.leaseId)
  }

  predicate MayDrop(c: Command, b: Account, a: Account, now: nat) {
    HandsOver(c, b.id) && a == Owned(b, Client, c.ownerClientId, now)
  }

  predicate MayAdd(accounts: seq<Account>, a: Account) {
    a.id !in Ids(accounts) && a.lease == NO_LEASE && 0 <= a.generation <= 1
  }

  predicate Allowed(w: World, c: Command, x: Write, now: nat) {
    var accounts := w.doc.accounts;
    match x
    case Update(i, a) => i < |accounts| && MayUpdate(c, accounts[i], a)
    case Grant(i, a) => i < |accounts| && MayGrant(w.log, c, accounts[i], a, now)
    case Renew(i, a) => i < |accounts| && MayRenew(c, accounts[i], a, now)
    case Release(i) => i < |accounts| && MayRelease(c, accounts[i], now)
    case Expire(i) => i < |accounts| && Sweeps(c) && Lapsed(accounts[i], now)
    case Drop(i, a) => i < |accounts| && MayDrop(c, accounts[i], a, now)
    case Add(a) => MayAdd(accounts, a)
    case Remove(i) => i < |accounts| && Deletes(c, accounts[i].id)
    case Cache(_, _) => true
  }

  ghost predicate AllAllowed(w: World, c: Command, xs: seq<Write>, now: nat) {
    xs == []
    || (AllAllowed(w, c, xs[..|xs| - 1], now)
        && Allowed(PutWorlds(w, xs[..|xs| - 1], now), c, xs[|xs| - 1], now))
  }

  // ---------- One write keeps the invariant ----------

  lemma LifeGrows(log: seq<Event>, e: Event, leaseId: string)
    ensures Life([e] + log, leaseId) == Life(log, leaseId) + (if e.leaseId == leaseId then [Mark(e.kind, e.accountId)] else [])
  {
    assert ([e] + log)[1..] == log;
  }

  lemma {:induction false} LifeHasEvent(log: seq<Event>, i: nat)
    requires i < |log|
    ensures Mark(log[i].kind, log[i].accountId) in Life(log, log[i].leaseId)
  {
    if i > 0 { LifeHasEvent(log[1..], i - 1); }
  }

  /** The event fits the life of its lease so far. */
  predicate Fits(log: seq<Event>, e: Event) {
    && EventOk(e)
    && (if e.kind == CLAIMED then Life(log, e.leaseId) == [] else Life(log, e.leaseId) == [Mark(CLAIMED, e.accountId)])
  }

  lemma AppendKeepsLedger(w: World, e: Event)
    requires LedgerOk(w) && Fits(w.log, e)
    ensures LedgerOk(World(w.doc.(dispatches := Append(w.doc.dispatches, e)), Record(w.log, [e])))
  {
    var log := [e] + w.log;
    assert Record(w.log, [e]) == log by { assert [e][..0] == []; }
    EventIsNew(w.log, e);
    AppendNewEvent(w, e);
    LivesStaySound(w.log, e);
  }

  lemma EventIsNew(log: seq<Event>, e: Event)
    requires EventsOk(log) && DistinctIds(log) && Fits(log, e)
    ensures DistinctIds([e] + log) && EventsOk([e] + log)
  {
    forall j | 0 <= j < |log| ensures log[j].id != e.id {
      if log[j].id == e.id {
        KindsHaveNoColon(e.kind);
        KindsHaveNoColon(log[j].kind);
        EventIdDecides(e.leaseId, log[j].leaseId, e.kind, log[j].kind);
        LifeHasEvent(log, j);
      }
    }
  }

  lemma KindsHaveNoColon(kind: string)
    requires KnownKind(kind)
    ensures ':' !in kind
  {
  }

  lemma AppendNewEvent(w: World, e: Event)
    requires w.doc.dispatches == Newest(w.log) && DistinctIds([e] + w.log) && EventOk(e)
    ensures Append(w.doc.dispatches, e) == Newest([e] + w.log)
  {
    assert e.leaseId[0] == e.id[0] && !IsSpace(e.leaseId[0]) by { assert TrimSpace(e.leaseId)[0] == e.leaseId[0]; }
    NotBlank(e.id, 0);
    assert [e][..0] == [] && [e][0] == e;
    assert Record(w.log, [e][..0]) == w.log;
    assert Record(w.log, [e]) == [e] + w.log;
    AppendAllIsNewest(w.log, [e]);
    assert AppendAll(w.doc.dispatches, [e]) == Append(AppendAll(w.doc.dispatches, [e][..0]), e);
  }

  lemma {:induction false} NotBlank(s: string, i: nat)
    requires i < |s| && !IsSpace(s[i])
    ensures !Blank(s)
    decreases |s|
  {
    if IsSpace(s[0]) {
      NotBlank(s[1..], i - 1);
    } else if IsSpace(s[|s| - 1]) {
      NotBlank(s[..|s| - 1], i);
    }
  }

  lemma LivesStaySound(log: seq<Event>, e: Event)
    requires LivesSound(log) && Fits(log, e)
    ensures LivesSound([e] + log)
  {
    forall leaseId ensures SoundLife(Life([e] + log, leaseId)) {
      LifeGrows(log, e, leaseId);
      assert SoundLife(Life(log, leaseId));
    }
  }

  /** Changing one account keeps ids and leases unique if the new lease is the old one, none, or nobody's. */
  lemma SlotKeepsUnique(accounts: seq<Account>, i: nat, a: Account)
    requires UniqueIds(accounts) && UniqueLeases(accounts) && i < |accounts| && a.id == accounts[i].id
    requires || a.lease.id == accounts[i].lease.id || a.lease.id == ""
      || forall j :: 0 <= j < |accounts| ==> accounts[j].lease.id != a.lease.id
    ensures UniqueIds(accounts[i := a]) && UniqueLeases(accounts[i := a])
  {
  }

  lemma QuietSlotKeepsOk(accounts: seq<Account>, log: seq<Event>, i: nat, a: Account, clock: int, now: int)
    requires AccountsOk(accounts, log, clock) && clock <= now && i < |accounts| && AccountOk(a, log, now)
    ensures AccountsOk(accounts[i := a], log, now)
  {
    var next := accounts[i := a];
    forall j | 0 <= j < |next| ensures AccountOk(next[j], log, now) {
      assert AccountOk(accounts[j], log, clock);
    }
  }

  lemma NoisySlotKeepsOk(accounts: seq<Account>, log: seq<Event>, i: nat, a: Account, e: Event, clock: int, now: int)
    requires AccountsOk(accounts, log, clock) && clock <= now && i < |accounts| && AccountOk(a, [e] + log, now)
    requires forall j :: 0 <= j < |accounts| && j != i ==> accounts[j].lease.id != e.leaseId
    ensures AccountsOk(accounts[i := a], [e] + log, now)
  {
    var next := accounts[i := a];
    forall j | 0 <= j < |next| ensures AccountOk(next[j], [e] + log, now) {
      assert AccountOk(accounts[j], log, clock);
      LifeGrows(log, e, accounts[j].lease.id);
    }
  }

  lemma OneEvent(w: World, e: Event)
    ensures AppendAll(w.doc.dispatches, [e]) == Append(w.doc.dispatches, e)
    ensures Record(w.log, [e]) == [e] + w.log
  {
    assert [e][..0] == [];
  }

  /** The event of a write that changes one account's lease is the next in that lease's life. */
  lemma HeldEventFits(w: World, i: nat, kind: string, clock: int, now: nat)
    requires Inv(w, clock) && i < |w.doc.accounts| && w.doc.accounts[i].lease.id != ""
    requires kind == RELEASED || kind == EXPIRED
    ensures Fits(w.log, EventOf(w.doc.accounts[i], kind, now))
  {
    assert AccountOk(w.doc.accounts[i], w.log, clock);
  }

  lemma EndingKeeps(w: World, i: nat, kind: string, a: Account, clock: int, now: nat)
    requires Inv(w, clock) && clock <= now && i < |w.doc.accounts| && w.doc.accounts[i].lease.id != ""
    requires kind == RELEASED || kind == EXPIRED
    requires a.id == w.doc.accounts[i].id && a.lease == NO_LEASE && a.generation == w.doc.accounts[i].generation
    ensures var e := EventOf(w.doc.accounts[i], kind, now);
      Inv(World(Doc(w.doc.accounts[i := a], w.doc.quota, AppendAll(w.doc.dispatches, [e])), Record(w.log, [e])), now)
  {
    var e := EventOf(w.doc.accounts[i], kind, now);
    HeldEventFits(w, i, kind, clock, now);
    AppendKeepsLedger(w, e);
    OneEvent(w, e);
    SlotKeepsUnique(w.doc.accounts, i, a);
    assert AccountOk(w.doc.accounts[i], w.log, clock);
    hide LedgerOk, Fits;
    NoisySlotKeepsOk(w.doc.accounts, w.log, i, a, e, clock, now);
    LedgerIgnoresAccounts(w, Append(w.doc.dispatches, e), [e] + w.log, w.doc.accounts[i := a]);
  }

  lemma LedgerIgnoresAccounts(w: World, dispatches: seq<Event>, log: seq<Event>, accounts: seq<Account>)
    requires LedgerOk(World(w.doc.(dispatches := dispatches), log))
    ensures LedgerOk(World(Doc(accounts, w.doc.quota, dispatches), log))
  {
  }

  lemma {:induction false} GrantKeeps(w: World, c: Command, i: nat, a: Account, clock: int, now: nat)
    requires Inv(w, clock) && clock <= now && 0 < now && i < |w.doc.accounts| && MayGrant(w.log, c, w.doc.accounts[i], a, now)
    ensures Inv(PutWorld(w, Write.Grant(i, a), now), now)
  {
    var e := EventOf(a, CLAIMED, now);
    assert e.leaseId == c.leaseId && EventOk(e);
    AppendKeepsLedger(w, e);
    OneEvent(w, e);
    forall j | 0 <= j < |w.doc.accounts| ensures w.doc.accounts[j].lease.id != a.lease.id {
      assert AccountOk(w.doc.accounts[j], w.log, clock);
    }
    SlotKeepsUnique(w.doc.accounts, i, a);
    assert AccountOk(w.doc.accounts[i], w.log, clock);
    LifeGrows(w.log, e, c.leaseId);
    hide LedgerOk, Fits;
    assert AccountOk(a, [e] + w.log, now);
    NoisySlotKeepsOk(w.doc.accounts, w.log, i, a, e, clock, now);
    LedgerIgnoresAccounts(w, Append(w.doc.dispatches, e), [e] + w.log, w.doc.accounts[i := a]);
  }

  /** The writes that change one account and record nothing. */
  lemma QuietKeeps(w: World, i: nat, a: Account, clock: int, now: nat)
    requires Inv(w, clock) && clock <= now && i < |w.doc.accounts|
    requires a.id == w.doc.accounts[i].id && a.generation >= w.doc.accounts[i].generation
    requires a.lease == NO_LEASE || (a.lease.id == w.doc.accounts[i].lease.id && LeaseOk(a.lease, now))
    ensures Inv(World(Doc(w.doc.accounts[i := a], w.doc.quota, w.doc.dispatches), w.log), now)
  {
    SlotKeepsUnique(w.doc.accounts, i, a);
    assert AccountOk(w.doc.accounts[i], w.log, clock);
    assert AccountOk(a, w.log, now);
    QuietSlotKeepsOk(w.doc.accounts, w.log, i, a, clock, now);
  }

  lemma InvAges(w: World, clock: int, now: int)
    requires Inv(w, clock) && clock <= now
    ensures Inv(w, now)
  {
    forall j | 0 <= j < |w.doc.accounts| ensures AccountOk(w.doc.accounts[j], w.log, now) {
      assert AccountOk(w.doc.accounts[j], w.log, clock);
    }
  }

  lemma AddKeeps(w: World, a: Account, clock: int, now: nat)
    requires Inv(w, clock) && clock <= now && MayAdd(w.doc.accounts, a)
    ensures Inv(PutWorld(w, Write.Add(a), now), now)
  {
    InvAges(w, clock, now);
    assert forall j :: 0 <= j < |w.doc.accounts| ==> w.doc.accounts[j].id in Ids(w.doc.accounts);
    assert forall j :: 0 <= j < |w.doc.accounts| ==> (w.doc.accounts + [a])[j] == w.doc.accounts[j];
    hide LedgerOk, Life;
  }

  lemma RemoveKeeps(w: World, i: nat, clock: int, now: nat)
    requires Inv(w, clock) && clock <= now && i < |w.doc.accounts|
    ensures Inv(PutWorld(w, Write.Remove(i), now), now)
  {
    InvAges(w, clock, now);
    RestKeeps(w.doc.accounts, w.log, i, now);
    hide LedgerOk, AccountsOk, UniqueIds, UniqueLeases;
    LedgerIgnoresAccounts(w, w.doc.dispatches, w.log, w.doc.accounts[..i] + w.doc.accounts[i + 1..]);
  }

  lemma RestKeeps(accounts: seq<Account>, log: seq<Event>, i: nat, now: int)
    requires UniqueIds(accounts) && UniqueLeases(accounts) && AccountsOk(accounts, log, now) && i < |accounts|
    ensures var rest := accounts[..i] + accounts[i + 1..]; UniqueIds(rest) && UniqueLeases(rest) && AccountsOk(rest, log, now)
  {
    var rest := accounts[..i] + accounts[i + 1..];
    assert forall j :: 0 <= j < |rest| ==> rest[j] == accounts[if j < i then j else j + 1];
    hide AccountOk;
  }

  /** Every write a command may make keeps the invariant. */
  lemma {:induction false} WriteKeeps(w: World, c: Command, x: Write, clock: int, now: nat)
    requires Inv(w, clock) && clock <= now && 0 < now && Allowed(w, c, x, now)
    ensures Inv(PutWorld(w, x, now), now)
  {
    hide Inv, MayGrant, MayUpdate, MayRenew, MayAdd, MayDrop, MayRelease, Lapsed, PutWorld;
    match x
    case Grant(i, a) => GrantKeeps(w, c, i, a, clock, now);
    case Release(i) => ReleaseKeeps(w, c, i, clock, now);
    case Expire(i) => ExpireKeeps(w, i, clock, now);
    case Add(a) => AddKeeps(w, a, clock, now);
    case Remove(i) => RemoveKeeps(w, i, clock, now);
    case Update(i, a) => UpdateKeeps(w, c, i, a, clock, now);
    case Renew(i, a) => RenewKeeps(w, c, i, a, clock, now);
    case Drop(i, a) => DropKeeps(w, c, i, a, clock, now);
    case Cache(_, _) => CacheKeeps(w, x, clock, now);
  }

  lemma ReleaseKeeps(w: World, c: Command, i: nat, clock: int, now: nat)
    requires Inv(w, clock) && clock <= now && i < |w.doc.accounts| && MayRelease(c, w.doc.accounts[i], now)
    ensures Inv(PutWorld(w, Release(i), now), now)
  {
    EndingKeeps(w, i, RELEASED, Released(w.doc.accounts[i], now), clock, now);
  }

  lemma ExpireKeeps(w: World, i: nat, clock: int, now: nat)
    requires Inv(w, clock) && clock <= now && i < |w.doc.accounts| && Lapsed(w.doc.accounts[i], now)
    ensures Inv(PutWorld(w, Expire(i), now), now)
  {
    EndingKeeps(w, i, EXPIRED, Expired(w.doc.accounts[i], now), clock, now);
  }

  lemma DropKeeps(w: World, c: Command, i: nat, a: Account, clock: int, now: nat)
    requires Inv(w, clock) && clock <= now && i < |w.doc.accounts| && MayDrop(c, w.doc.accounts[i], a, now)
    ensures Inv(PutWorld(w, Drop(i, a), now), now)
  {
    QuietKeeps(w, i, a, clock, now);
  }

  lemma CacheKeeps(w: World, x: Write, clock: int, now: nat)
    requires Inv(w, clock) && clock <= now && x.Cache?
    ensures Inv(PutWorld(w, x, now), now)
  {
    InvAges(w, clock, now);
  }

  lemma UpdateKeeps(w: World, c: Command, i: nat, a: Account, clock: int, now: nat)
    requires Inv(w, clock) && clock <= now && i < |w.doc.accounts| && MayUpdate(c, w.doc.accounts[i], a)
    ensures Inv(PutWorld(w, Update(i, a), now), now)
  {
    assert AccountOk(w.doc.accounts[i], w.log, clock);
    QuietKeeps(w, i, a, clock, now);
  }

  lemma RenewKeeps(w: World, c: Command, i: nat, a: Account, clock: int, now: nat)
    requires Inv(w, clock) && clock <= now && i < |w.doc.accounts| && MayRenew(c, w.doc.accounts[i], a, now)
    ensures Inv(PutWorld(w, Renew(i, a), now), now)
  {
    assert AccountOk(w.doc.accounts[i], w.log, clock);
    QuietKeeps(w, i, a, clock, now);
  }

  lemma {:induction false} WritesKeep(w: World, c: Command, xs: seq<Write>, now: nat)
    requires Inv(w, now) && 0 < now && AllAllowed(w, c, xs, now)
    ensures Inv(PutWorlds(w, xs, now), now)
  {
    hide Inv, Allowed, PutWorld;
    if xs != [] {
      var front := xs[..|xs| - 1];
      WritesKeep(w, c, front, now);
      WriteKeeps(PutWorlds(w, front, now), c, xs[|xs| - 1], now, now);
    }
  }
}
