/**
 The shared document and what each manager operation writes to it
 (internal/manager/lease.go, quota.go and accounts.go). An operation is one
 critical section: it may first sweep expired leases, and it then makes a few
 writes from a fixed vocabulary, so that a proof about a run of operations is a
 proof about single writes. Instants are nanoseconds, 0 meaning none.
 */
module LeaseMachine {
  import opened Wrappers
  import opened Text
  import opened LoadBalance
  import opened Ledger
  import FreshNames
  import Sorting

  // ---------- The document ----------

  datatype Lease = Lease(id: string, clientId: string, holder: string, startedAt: int, heartbeatAt: int, expiresAt: int)

  const NO_LEASE := Lease("", "", "", 0, 0, 0)

  /** The account's last error: none, a swept lease, or the detail of a quota result. */
  datatype Note = NoError | LeaseSwept(leaseId: string, at: int) | QuotaDetail(text: string)

  datatype Account = Account(
    id: string, name: string, plan: string, status: Status, workspaceId: string,
    owner: OwnerMode, ownerClientId: string, generation: int, lease: Lease,
    createdAt: int, updatedAt: int, lastError: Note)

  datatype Doc = Doc(accounts: seq<Account>, quota: map<string, QuotaCache>, dispatches: seq<Event>)

  const DEFAULT_WORKSPACE := "default"

  function WorkspaceOrDefault(id: string): string {
    if Blank(id) then DEFAULT_WORKSPACE else id
  }

  function Ids(accounts: seq<Account>): set<string> {
    set i | 0 <= i < |accounts| :: accounts[i].id
  }

  /** The first account with this id; the number of accounts when there is none. */
  function Find(accounts: seq<Account>, id: string): (i: nat)
    ensures i <= |accounts|
    ensures i < |accounts| ==> accounts[i].id == id
    ensures forall k :: 0 <= k < i ==> accounts[k].id != id
  {
    if accounts == [] then 0 else if accounts[0].id == id then 0 else 1 + Find(accounts[1..], id)
  }

  function FindAny(accounts: seq<Account>, ids: set<string>): (i: nat)
    ensures i <= |accounts|
    ensures i < |accounts| ==> accounts[i].id in ids
  {
    if accounts == [] then 0 else if accounts[0].id in ids then 0 else 1 + FindAny(accounts[1..], ids)
  }

  // ---------- Leases ----------

  const MIN_TTL := 30 * SECOND
  const DEFAULT_TTL := 90 * SECOND
  const MAX_TTL := 30 * MINUTE

  function NormalizeTtl(ttl: int): int {
    if ttl < MIN_TTL then DEFAULT_TTL else if ttl > MAX_TTL then MAX_TTL else ttl
  }

  predicate Active(a: Account, now: int) {
    !Blank(a.lease.id) && a.lease.expiresAt != 0 && a.lease.expiresAt > now
  }

  predicate Lapsed(a: Account, now: int) {
    !Blank(a.lease.id) && a.lease.expiresAt != 0 && a.lease.expiresAt <= now
  }

  function EventOf(a: Account, kind: string, now: nat): Event {
    Event(EventId(a.lease.id, a.id, kind, now), a.lease.id, a.id, a.name, a.lease.clientId, a.lease.holder,
          kind, a.generation, now, a.lease.startedAt, a.lease.expiresAt)
  }

  function Granted(a: Account, leaseId: string, clientId: string, holder: string, ttl: int, now: nat): Account {
    a.(lease := Lease(leaseId, TrimSpace(clientId), TrimSpace(holder), now, now, now + NormalizeTtl(ttl)), updatedAt := now)
  }

  function Renewed(a: Account, holder: string, ttl: int, now: nat): Account {
    a.(lease := a.lease.(holder := FirstNonEmpty(holder, a.lease.holder), heartbeatAt := now,
                         expiresAt := now + NormalizeTtl(ttl)),
       updatedAt := now)
  }

  function Released(a: Account, now: nat): Account {
    a.(lease := NO_LEASE, updatedAt := now)
  }

  function Expired(a: Account, now: nat): Account {
    a.(lease := NO_LEASE, status := if a.status == Ready then Recovering else a.status,
       lastError := LeaseSwept(a.lease.id, now), updatedAt := now)
  }

  // ---------- Writes ----------

  /** `Update` keeps the lease; the others say what happens to it. `Drop` ends one without an event. */
  datatype Write =
    | Update(i: nat, account: Account)
    | Grant(i: nat, account: Account)
    | Renew(i: nat, account: Account)
    | Release(i: nat)
    | Expire(i: nat)
    | Drop(i: nat, account: Account)
    | Add(account: Account)
    | Remove(i: nat)
    | Cache(id: string, cache: QuotaCache)

  function Replace(accounts: seq<Account>, i: nat, a: Account): seq<Account> {
    if i < |accounts| then accounts[i := a] else accounts
  }

  function WriteAccounts(accounts: seq<Account>, w: Write, now: nat): seq<Account> {
    match w
    case Update(i, a) => Replace(accounts, i, a)
    case Grant(i, a) => Replace(accounts, i, a)
    case Renew(i, a) => Replace(accounts, i, a)
    case Drop(i, a) => Replace(accounts, i, a)
    case Release(i) => if i < |accounts| then accounts[i := Released(accounts[i], now)] else accounts
    case Expire(i) => if i < |accounts| then accounts[i := Expired(accounts[i], now)] else accounts
    case Add(a) => accounts + [a]
    case Remove(i) => if i < |accounts| then accounts[..i] + accounts[i + 1..] else accounts
    case Cache(_, _) => accounts
  }

  /** The ledger event that goes with a write: at most one. */
  function WriteEvents(accounts: seq<Account>, w: Write, now: nat): seq<Event> {
    match w
    case Grant(_, a) => [EventOf(a, CLAIMED, now)]
    case Release(i) => if i < |accounts| then [EventOf(accounts[i], RELEASED, now)] else []
    case Expire(i) => if i < |accounts| then [EventOf(accounts[i], EXPIRED, now)] else []
    case _ => []
  }

  function Put(doc: Doc, w: Write, now: nat): Doc {
    Doc(WriteAccounts(doc.accounts, w, now),
        if w.Cache? then doc.quota[w.id := w.cache] else doc.quota,
        AppendAll(doc.dispatches, WriteEvents(doc.accounts, w, now)))
  }

  function PutAll(doc: Doc, ws: seq<Write>, now: nat): Doc {
    if ws == [] then doc else Put(PutAll(doc, ws[..|ws| - 1], now), ws[|ws| - 1], now)
  }

  // ---------- The expiry sweep ----------

  function SweepWrites(accounts: seq<Account>, now: nat): seq<Write> {
    if accounts == [] then []
    else
      var n := |accounts| - 1;
      SweepWrites(accounts[..n], now) + (if Lapsed(accounts[n], now) then [Expire(n)] else [])
  }

  function Swept(doc: Doc, now: nat): Doc {
    PutAll(doc, SweepWrites(doc.accounts, now), now)
  }

  // ---------- Operations ----------

  datatype Error =
    | NoneAvailable | ExportFailed | LeaseNotFound | NotHeld | LeaseOver | OtherClient | GenerationConflict
    | MissingAccountId | MissingLeaseId | MissingAuth | BadAuth | UnknownStatus | UnknownOwner | StillLeased
    | BadId | AlreadyExists | AccountNotFound | WorkspaceNotFound | NotLeasedByClient | Unmanaged

  datatype Reply = Done | Failed(error: Error) | With(account: Account)

  /** A text field of a request: empty, a value the server knows, or some other text. */
  datatype Field<T> = Unset | Known(value: T) | Unknown

  /** A document of credentials: absent or null, not JSON, JSON but not an object, or an object. */
  datatype Auth = NoAuth | NotJson | NotObject | Object

  datatype Snapshot = Snapshot(
    id: string, name: string, plan: string, status: Field<Status>, owner: Field<OwnerMode>, ownerClientId: string,
    sourceClient: string, leaseId: string, generation: int, auth: Auth)

  /**
   An uploaded profile. What the source reads from the credentials and from the
   accounts' files is given: the id and label derived from them, and the accounts
   whose stored credentials have the same identity.
   */
  datatype Profile = Profile(
    id: string, name: string, auth: Auth, derivedId: string, derivedName: string, sameIdentity: set<string>, stamp: string)

  /** A managed directory without an account: its name and the label to give it. */
  datatype Entry = Entry(dir: string, name: string)

  /** What a section does: whether the sweep is kept, the writes after it, and the reply. */
  datatype Decision = Decision(sweep: bool, writes: seq<Write>, reply: Reply)

  datatype Command =
    | Sweep
    | Claim(clientId: string, holder: string, workspaceId: string, ttl: int, auth: set<string>, cursor: string,
            leaseId: string, exported: bool)
    | Touch(leaseId: string, accountId: string, clientId: string, holder: string, ttl: int)
    | Upload(snapshot: Snapshot, clientId: string, ttl: int)
    | ReleaseLease(accountId: string, leaseId: string, clientId: string)
    | RecordLeased(accountId: string, leaseId: string, clientId: string, result: QuotaResult, checkedAt: nat)
    | RecordQuota(id: string, result: QuotaResult, authChanged: bool, fromClient: bool, reporter: string, flipOwner: bool)
    | UpsertJson(profile: Profile)
    | UpsertSnapshot(profile: Profile, snapshot: Snapshot)
    | AddAccount(id: string, name: string)
    | ImportLive(profile: Profile)
    | ListAccounts(entries: seq<Entry>, stamp: string)
    | SelectForRun(entries: seq<Entry>, auth: set<string>, cursor: string, stamp: string)
    | SetStatus(id: string, status: Field<Status>)
    | SetOwner(id: string, owner: Field<OwnerMode>, ownerClientId: string)
    | SetName(id: string, name: string)
    | SetWorkspace(id: string, workspaceId: string, known: bool)
    | Delete(id: string, managed: bool)

  function Refuse(error: Error): Decision {
    Decision(false, [], Failed(error))
  }

  // ----- Claiming -----

  predicate InPool(a: Account, workspaceId: string) {
    Blank(workspaceId) || WorkspaceOrDefault(a.workspaceId) == TrimSpace(workspaceId)
  }

  function QuotaOf(quota: map<string, QuotaCache>, id: string): QuotaCache {
    if id in quota then quota[id] else NO_CACHE
  }

  function EvaluationOf(a: Account, quota: map<string, QuotaCache>, auth: set<string>, now: int): Evaluation {
    Evaluate(a.owner, a.status, a.id in auth, Active(a, now), QuotaOf(quota, a.id), now)
  }

  /** What an account contributes to the selection. */
  function Offer(a: Account, quota: map<string, QuotaCache>, workspaceId: string, auth: set<string>,
      now: int): seq<Candidate> {
    var e := EvaluationOf(a, quota, auth, now);
    if InPool(a, workspaceId) && e.Eligible? then [Candidate(a.id, e.score)] else []
  }

  function Available(accounts: seq<Account>, quota: map<string, QuotaCache>, workspaceId: string, auth: set<string>,
      now: int): seq<Candidate> {
    if accounts == [] then []
    else
      var n := |accounts| - 1;
      Available(accounts[..n], quota, workspaceId, auth, now) + Offer(accounts[n], quota, workspaceId, auth, now)
  }

  lemma {:induction false} AvailableFrom(accounts: seq<Account>, quota: map<string, QuotaCache>, workspaceId: string,
                                         auth: set<string>, now: int, o: Candidate)
    returns (j: nat)
    requires o in Available(accounts, quota, workspaceId, auth, now)
    ensures j < |accounts| && Offer(accounts[j], quota, workspaceId, auth, now) == [o]
  {
    var n := |accounts| - 1;
    if o in Offer(accounts[n], quota, workspaceId, auth, now) {
      return n;
    }
    j := AvailableFrom(accounts[..n], quota, workspaceId, auth, now, o);
  }

  lemma {:induction false} ChoiceIsStored(accounts: seq<Account>, quota: map<string, QuotaCache>,
      workspaceId: string, auth: set<string>,
                       cursor: string, now: int)
    requires Available(accounts, quota, workspaceId, auth, now) != []
    ensures Find(accounts, Choose(Available(accounts, quota, workspaceId, auth, now), cursor).id) < |accounts|
  {
    var available := Available(accounts, quota, workspaceId, auth, now);
    ChooseIsCandidate(available, cursor);
    var j := AvailableFrom(accounts, quota, workspaceId, auth, now, Choose(available, cursor));
    assert accounts[j].id == Choose(available, cursor).id;
  }

  function OnClaim(doc: Doc, c: Command, now: nat): Decision
    requires c.Claim?
  {
    var accounts := Swept(doc, now).accounts;
    var available := Available(accounts, doc.quota, c.workspaceId, c.auth, now);
    if available == [] then Decision(true, [], Failed(NoneAvailable))
    else
      ChoiceIsStored(accounts, doc.quota, c.workspaceId, c.auth, c.cursor, now);
      var i := Find(accounts, Choose(available, c.cursor).id);
      var a := Granted(accounts[i], c.leaseId, c.clientId, c.holder, c.ttl, now);
      Decision(true, [Grant(i, a)], if c.exported then With(a) else Failed(ExportFailed))
  }

  // ----- Holding -----

  /** Both ids are trimmed, and an empty one matches every account. */
  predicate Matches(a: Account, accountId: string, leaseId: string) {
    (Blank(accountId) || a.id == TrimSpace(accountId)) && (Blank(leaseId) || a.lease.id == TrimSpace(leaseId))
  }

  function FindLease(accounts: seq<Account>, accountId: string, leaseId: string): (i: nat)
    ensures i <= |accounts|
    ensures i < |accounts| ==> Matches(accounts[i], accountId, leaseId)
    ensures forall k :: 0 <= k < i ==> !Matches(accounts[k], accountId, leaseId)
  {
    if accounts == [] then 0
    else if Matches(accounts[0], accountId, leaseId) then 0
    else 1 + FindLease(accounts[1..], accountId, leaseId)
  }

  function Validate(a: Account, leaseId: string, clientId: string, now: int): Option<Error> {
    if Blank(leaseId) || a.lease.id != TrimSpace(leaseId) then Some(NotHeld)
    else if !Active(a, now) then Some(LeaseOver)
    else if !Blank(clientId) && a.lease.clientId != "" && a.lease.clientId != TrimSpace(clientId) then Some(OtherClient)
    else None
  }

  function OnTouch(doc: Doc, c: Command, now: nat): Decision
    requires c.Touch?
  {
    var accounts := Swept(doc, now).accounts;
    var i := FindLease(accounts, c.accountId, c.leaseId);
    if i == |accounts| then Decision(true, [], Failed(LeaseNotFound))
    else
      var error := Validate(accounts[i], c.leaseId, c.clientId, now);
      if error.Some? then Decision(true, [], Failed(error.value))
      else
        var a := Renewed(accounts[i], c.holder, c.ttl, now);
        Decision(true, [Renew(i, a)], With(a))
  }

  function Uploaded(a: Account, s: Snapshot, ttl: int, now: nat): Account {
    Renewed(a, s.sourceClient, ttl, now).(
      name := if Blank(s.name) then a.name else TrimSpace(s.name),
      plan := if Blank(s.plan) then a.plan else TrimSpace(s.plan),
      status := if s.status.Known? then s.status.value else a.status,
      generation := a.generation + 1)
  }

  function OnUpload(doc: Doc, c: Command, now: nat): Decision
    requires c.Upload?
  {
    var s := c.snapshot;
    if Blank(s.id) then Refuse(MissingAccountId)
    else if Blank(s.leaseId) then Refuse(MissingLeaseId)
    else if s.auth == NoAuth then Refuse(MissingAuth)
    else if s.auth == NotJson then Refuse(BadAuth)
    else if s.status == Unknown then Refuse(UnknownStatus)
    else
      var accounts := Swept(doc, now).accounts;
      var i := FindLease(accounts, s.id, s.leaseId);
      if i == |accounts| then Decision(true, [], Failed(LeaseNotFound))
      else
        var error := Validate(accounts[i], s.leaseId, c.clientId, now);
        if error.Some? then Decision(true, [], Failed(error.value))
        else if s.generation != accounts[i].generation then Refuse(GenerationConflict)
        else
          var a := Uploaded(accounts[i], s, c.ttl, now);
          Decision(true, [Renew(i, a)], With(a))
  }

  function OnRelease(doc: Doc, c: Command, now: nat): Decision
    requires c.ReleaseLease?
  {
    var accounts := Swept(doc, now).accounts;
    var i := FindLease(accounts, c.accountId, c.leaseId);
    if i == |accounts| then Decision(true, [], Failed(LeaseNotFound))
    else
      var error := Validate(accounts[i], c.leaseId, c.clientId, now);
      if error.Some? then Refuse(error.value) else Decision(true, [Release(i)], Done)
  }

  // ----- Quota -----

  function Reported(a: Account, fromClient: bool, reporter: string, flipOwner: bool, now: nat): Account {
    if flipOwner && fromClient then
      a.(owner := Client, ownerClientId := if Blank(reporter) then a.ownerClientId else TrimSpace(reporter), updatedAt := now)
    else a
  }

  function Assessed(a: Account, result: QuotaResult, authChanged: bool, now: nat): Account {
    if result.status == RefreshInvalid then
      a.(status := if a.status == Ready || a.status == Recovering then Drain else a.status,
         lastError := QuotaDetail(result.detail), updatedAt := now)
    else if result.status == Supported then
      a.(plan := if Blank(result.plan) then a.plan else result.plan,
         status := if a.status == Recovering then Ready else a.status,
         lastError := NoError,
         generation := if authChanged then a.generation + 1 else a.generation,
         updatedAt := now)
    else if authChanged then a.(generation := a.generation + 1, updatedAt := now)
    else a
  }

  function CacheOf(result: QuotaResult, fromClient: bool, reporter: string, now: nat): QuotaCache {
    QuotaCache(now, result, FirstWindow(result.quotas, IsFiveHour), fromClient, TrimSpace(reporter))
  }

  /** The cache entry is written even when the account is gone. */
  function QuotaWrites(accounts: seq<Account>, id: string, result: QuotaResult, authChanged: bool, fromClient: bool,
                       reporter: string, flipOwner: bool, now: nat): seq<Write> {
    var i := Find(accounts, id);
    [Cache(id, CacheOf(result, fromClient, reporter, now))]
    + (if i == |accounts| then []
       else [Update(i, Assessed(Reported(accounts[i], fromClient, reporter, flipOwner, now), result, authChanged, now))])
  }

  function OnRecordQuota(doc: Doc, c: Command, now: nat): Decision
    requires c.RecordQuota?
  {
    if Blank(c.id) then Decision(false, [], Done)
    else
      Decision(false,
               QuotaWrites(doc.accounts, c.id, c.result, c.authChanged, c.fromClient, c.reporter, c.flipOwner, now), Done)
  }

  predicate HeldBy(a: Account, leaseId: string, clientId: string, now: int) {
    Active(a, now) && TrimSpace(a.lease.id) == TrimSpace(leaseId) && TrimSpace(a.lease.clientId) == TrimSpace(clientId)
  }

  /** Whether the lease still runs is judged at the instant the caller names. */
  function OnRecordLeased(doc: Doc, c: Command, now: nat): Decision
    requires c.RecordLeased?
  {
    var id := TrimSpace(c.accountId);
    var at := if c.checkedAt == 0 then now else c.checkedAt;
    var i := Find(doc.accounts, id);
    if id == "" then Refuse(MissingAccountId)
    else if i == |doc.accounts| then Refuse(AccountNotFound)
    else if !HeldBy(doc.accounts[i], c.leaseId, c.clientId, at) then Refuse(NotLeasedByClient)
    else Decision(false, QuotaWrites(doc.accounts, id, c.result, false, true, c.clientId, false, now), Done)
  }

  // ----- Accounts -----

  function NewAccount(id: string, name: string, generation: int, now: nat): Account {
    Account(id, name, "", Ready, "", Cloud, "", generation, NO_LEASE, now, now, NoError)
  }

  /** The first three outcomes of creating or overwriting an account. */
  datatype Stored = Refused(error: Error) | Overwritten(i: nat, account: Account) | Created(account: Account)

  function Create(accounts: seq<Account>, id: string, name: string, generation: int, now: nat): Stored {
    if !FreshNames.MatchesIdPattern(TrimSpace(id)) then Refused(BadId)
    else if Find(accounts, TrimSpace(id)) < |accounts| then Refused(AlreadyExists)
    else Created(NewAccount(TrimSpace(id), TrimSpace(name), generation, now))
  }

  function IdFor(id: string, derived: string, used: set<string>, stamp: string): string {
    if !Blank(id) then id
    else if FreshNames.Sanitize(derived) != "" then FreshNames.Sanitize(derived)
    else FreshNames.UniqueName("profile-" + stamp, used, stamp)
  }

  /** The account a profile is for, by id or else by credentials. */
  function ProfileIndex(accounts: seq<Account>, p: Profile): (i: nat)
    ensures i <= |accounts|
  {
    var byId := Find(accounts, IdFor(TrimSpace(p.id), p.derivedId, Ids(accounts), p.stamp));
    if byId < |accounts| then byId else FindAny(accounts, p.sameIdentity)
  }

  function Upsert(accounts: seq<Account>, p: Profile, now: nat): Stored {
    if p.auth == NoAuth then Refused(MissingAuth)
    else if p.auth != Object then Refused(BadAuth)
    else
      var id := IdFor(TrimSpace(p.id), p.derivedId, Ids(accounts), p.stamp);
      var i := ProfileIndex(accounts, p);
      var name := if Blank(p.name) then p.derivedName else TrimSpace(p.name);
      if i == |accounts| then Create(accounts, id, name, 1, now)
      else
        var a := accounts[i];
        if Active(a, now) then Refused(StillLeased)
        else Overwritten(i, a.(name := if name == "" then a.name else name, generation := a.generation + 1, updatedAt := now))
  }

  function Storing(s: Stored): Decision {
    match s
    case Refused(error) => Refuse(error)
    case Overwritten(i, a) => Decision(false, [Update(i, a)], With(a))
    case Created(a) => Decision(false, [Add(a)], With(a))
  }

  /** What the snapshot adds once the profile is stored. */
  function Refined(a: Account, s: Snapshot, now: nat): Account {
    a.(name := if Blank(s.name) then a.name else TrimSpace(s.name),
       plan := if Blank(s.plan) then a.plan else TrimSpace(s.plan),
       status := if s.status.Known? then s.status.value else a.status,
       owner := if s.owner.Known? then s.owner.value else a.owner,
       ownerClientId := if !Blank(s.ownerClientId) then TrimSpace(s.ownerClientId)
                        else if s.owner == Known(Client) && !Blank(s.sourceClient) then TrimSpace(s.sourceClient)
                        else a.ownerClientId,
       updatedAt := now)
  }

  /** The second pass over the stored accounts refines the first one with the id just stored. */
  function Refining(accounts: seq<Account>, i: nat, a: Account, s: Snapshot, now: nat): Decision {
    var j := Find(accounts, a.id);
    if j < i && j < |accounts| then
      var r := Refined(accounts[j], s, now);
      Decision(false, [Update(i, a), Update(j, r)], With(r))
    else Decision(false, [Update(i, Refined(a, s, now))], With(Refined(a, s, now)))
  }

  /** The profile stays stored when the rest of the snapshot is then refused. */
  function OnUpsertSnapshot(doc: Doc, c: Command, now: nat): Decision
    requires c.UpsertSnapshot?
  {
    var stored := Upsert(doc.accounts, c.profile, now);
    if stored.Refused? then Storing(stored)
    else if c.snapshot.status == Unknown then Storing(stored).(reply := Failed(UnknownStatus))
    else if c.snapshot.owner == Unknown then Storing(stored).(reply := Failed(UnknownOwner))
    else if stored.Created? then Storing(Created(Refined(stored.account, c.snapshot, now)))
    else Refining(doc.accounts, stored.i, stored.account, c.snapshot, now)
  }

  function OnImport(doc: Doc, c: Command, now: nat): Decision
    requires c.ImportLive?
  {
    var p := c.profile;
    if p.auth == NoAuth then Refuse(MissingAuth)
    else
      var id := IdFor(p.id, p.derivedId, Ids(doc.accounts), p.stamp);
      if Find(doc.accounts, id) < |doc.accounts| || FindAny(doc.accounts, p.sameIdentity) < |doc.accounts| then
        Refuse(AlreadyExists)
      else Storing(Create(doc.accounts, id, if Blank(p.name) then p.derivedName else p.name, 1, now))
  }

  function DiscoveredId(dir: string, used: set<string>, stamp: string): string {
    var id := FreshNames.Sanitize(dir);
    if id == "" || id in used then FreshNames.UniqueName("profile-" + dir, used, stamp) else id
  }

  function Discovered(used: set<string>, entries: seq<Entry>, stamp: string, now: nat): seq<Account> {
    if entries == [] then []
    else
      var before, e := Discovered(used, entries[..|entries| - 1], stamp, now), entries[|entries| - 1];
      before + [NewAccount(DiscoveredId(e.dir, used + Ids(before), stamp), e.name, 0, now)]
  }

  function Adds(accounts: seq<Account>): seq<Write> {
    seq(|accounts|, i requires 0 <= i < |accounts| => Add(accounts[i]))
  }

  predicate IdBefore(a: Candidate, b: Candidate) {
    StringLess(a.id, b.id)
  }

  function OnSelect(doc: Doc, c: Command, now: nat): Decision
    requires c.SelectForRun?
  {
    var found := Discovered(Ids(doc.accounts), c.entries, c.stamp, now);
    var accounts := doc.accounts + found;
    var available := Sorting.InsertionSort(IdBefore, Available(accounts, doc.quota, "", c.auth, now));
    var i := if available == [] then |accounts| else Find(accounts, Choose(available, c.cursor).id);
    Decision(false, Adds(found), if i == |accounts| then Failed(NoneAvailable) else With(accounts[i]))
  }

  /** An edit of one field or two of the account with this id, if there is one. */
  function Editing(accounts: seq<Account>, id: string, edit: Account -> Account): Decision {
    var i := Find(accounts, id);
    if i == |accounts| then Refuse(AccountNotFound) else Decision(false, [Update(i, edit(accounts[i]))], Done)
  }

  function Owned(a: Account, owner: OwnerMode, clientId: string, now: nat): Account {
    a.(owner := owner, ownerClientId := TrimSpace(clientId), lease := if owner == Client then NO_LEASE else a.lease,
       updatedAt := now)
  }

  function OnSetOwner(doc: Doc, c: Command, now: nat): Decision
    requires c.SetOwner?
  {
    var i := Find(doc.accounts, c.id);
    if !c.owner.Known? then Refuse(UnknownOwner)
    else if i == |doc.accounts| then Refuse(AccountNotFound)
    else
      var a := Owned(doc.accounts[i], c.owner.value, c.ownerClientId, now);
      Decision(false, [if c.owner.value == Client then Drop(i, a) else Update(i, a)], Done)
  }

  function OnDelete(doc: Doc, c: Command, now: nat): Decision
    requires c.Delete?
  {
    var i := Find(doc.accounts, c.id);
    if i == |doc.accounts| then Refuse(AccountNotFound)
    else if !c.managed then Refuse(Unmanaged)
    else Decision(false, [Remove(i)], With(doc.accounts[i]))
  }

  // ---------- One step ----------

  function Decide(doc: Doc, c: Command, now: nat): Decision {
    match c
    case Sweep => Decision(true, [], Done)
    case Claim(_, _, _, _, _, _, _, _) => OnClaim(doc, c, now)
    case Touch(_, _, _, _, _) => OnTouch(doc, c, now)
    case Upload(_, _, _) => OnUpload(doc, c, now)
    case ReleaseLease(_, _, _) => OnRelease(doc, c, now)
    case RecordLeased(_, _, _, _, _) => OnRecordLeased(doc, c, now)
    case RecordQuota(_, _, _, _, _, _) => OnRecordQuota(doc, c, now)
    case UpsertJson(p) => Storing(Upsert(doc.accounts, p, now))
    case UpsertSnapshot(_, _) => OnUpsertSnapshot(doc, c, now)
    case AddAccount(id, name) => Storing(Create(doc.accounts, id, name, 0, now))
    case ImportLive(_) => OnImport(doc, c, now)
    case ListAccounts(entries, stamp) => Decision(false, Adds(Discovered(Ids(doc.accounts), entries, stamp, now)), Done)
    case SelectForRun(_, _, _, _) => OnSelect(doc, c, now)
    case SetStatus(id, status) =>
      if !status.Known? then Refuse(UnknownStatus)
      else Editing(doc.accounts, id, (a: Account) => a.(status := status.value, updatedAt := now))
    case SetOwner(_, _, _) => OnSetOwner(doc, c, now)
    case SetName(id, name) => Editing(doc.accounts, id, (a: Account) => a.(name := TrimSpace(name), updatedAt := now))
    case SetWorkspace(id, workspaceId, known) =>
      if !known then Refuse(WorkspaceNotFound)
      else Editing(doc.accounts, id, (a: Account) => a.(workspaceId := WorkspaceOrDefault(workspaceId), updatedAt := now))
    case Delete(_, _) => OnDelete(doc, c, now)
  }

  function Applied(doc: Doc, d: Decision, now: nat): Doc {
    PutAll(if d.sweep then Swept(doc, now) else doc, d.writes, now)
  }

  function Step(doc: Doc, c: Command, now: nat): Doc {
    Applied(doc, Decide(doc, c, now), now)
  }

  // ---------- The round-robin cursor ----------

  /** The command with the cursor its section reads. */
  function WithCursor(c: Command, cursor: string): Command {
    if c.Claim? || c.SelectForRun? then c.(cursor := cursor) else c
  }

  /** The cursor a section leaves: the account it handed out, nothing if it deleted that one, else what it was. */
  function NextCursor(cursor: string, c: Command, d: Decision): string {
    match c
    case Claim(_, _, _, _, _, _, _, _) => if d.writes != [] && d.writes[0].Grant? then d.writes[0].account.id else cursor
    case SelectForRun(_, _, _, _) => if d.reply.With? then d.reply.account.id else cursor
    case Delete(id, _) => if d.reply.With? && cursor == id then "" else cursor
    case _ => cursor
  }
}
