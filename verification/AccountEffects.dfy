/**
 What quota records, profile uploads, discovery and edits store, field by field.
 */
module AccountEffects {
  import opened Wrappers
  import opened Text
  import opened LoadBalance
  import opened LeaseMachine
  import opened LeaseInvariant
  import LeaseSteps
  import LeaseHolding
  import LeaseManager
  import opened LeaseEffects
  import FreshNames
  import Sorting

  lemma FindFirst(accounts: seq<Account>, id: string)
    ensures var i := Find(accounts, id); if i < |accounts| then FirstWith(accounts, id, i) else NoneWith(accounts, id)
  {
  }

  // ---------- Quota ----------

  /** The cache entry of a quota result: when and from whom it came, and its first five-hour window. */
  ghost predicate CachedAs(q: QuotaCache, result: QuotaResult, fromClient: bool, reporter: string, now: int) {
    && q.updatedAt == now && q.result == result && q.fromClient == fromClient && q.reporterClientId == TrimSpace(reporter)
    && (q.fiveHour.Some? ==> exists k :: FiveHourAt(result.quotas, k) && result.quotas[k] == q.fiveHour.value)
    && (forall k :: FiveHourAt(result.quotas, k) ==> q.fiveHour == Some(result.quotas[k]))
  }

  lemma CacheReads(result: QuotaResult, fromClient: bool, reporter: string, now: nat)
    ensures CachedAs(CacheOf(result, fromClient, reporter, now), result, fromClient, reporter, now)
  {
    FirstFiveHour(result.quotas);
    hide FiveHourAt, TrimSpace;
  }

  /** Ownership passes to the reporting client only where the report says so. */
  predicate OwnedAfter(a: Account, b: Account, c: Command)
    requires c.RecordQuota?
  {
    if c.flipOwner && c.fromClient then
      a.owner == Client && a.ownerClientId == if Blank(c.reporter) then b.ownerClientId else TrimSpace(c.reporter)
    else a.owner == b.owner && a.ownerClientId == b.ownerClientId
  }

  /**
   A result whose credentials cannot be refreshed drains a ready or recovering account, a supported
   one makes a recovering account ready; new credentials count as a generation unless they are refused.
   */
  predicate AssessedAfter(a: Account, b: Account, c: Command)
    requires c.RecordQuota?
  {
    match c.result.status
    case RefreshInvalid =>
      && a.status == (if b.status == Ready || b.status == Recovering then Drain else b.status)
      && a.lastError == QuotaDetail(c.result.detail) && a.plan == b.plan && a.generation == b.generation
    case Supported =>
      && a.status == (if b.status == Recovering then Ready else b.status)
      && a.lastError == NoError && a.plan == (if Blank(c.result.plan) then b.plan else c.result.plan)
      && a.generation == b.generation + (if c.authChanged then 1 else 0)
    case _ =>
      && a.status == b.status && a.lastError == b.lastError && a.plan == b.plan
      && a.generation == b.generation + (if c.authChanged then 1 else 0)
  }

  predicate RecordedAfter(a: Account, b: Account, c: Command)
    requires c.RecordQuota?
  {
    && OwnedAfter(a, b, c) && AssessedAfter(a, b, c)
    && a == b.(owner := a.owner, ownerClientId := a.ownerClientId, status := a.status, lastError := a.lastError,
               plan := a.plan, generation := a.generation, updatedAt := a.updatedAt)
  }

  lemma RecordReads(b: Account, c: Command, now: nat)
    requires c.RecordQuota?
    ensures RecordedAfter(Assessed(Reported(b, c.fromClient, c.reporter, c.flipOwner, now), c.result, c.authChanged, now), b, c)
  {
    hide TrimSpace;
  }

  lemma RecordStores(doc: Doc, c: Command, now: nat)
    requires c.RecordQuota?
    ensures var q, i := CacheOf(c.result, c.fromClient, c.reporter, now), Find(doc.accounts, c.id);
      Step(doc, c, now) ==
        if Blank(c.id) then doc
        else if i == |doc.accounts| then doc.(quota := doc.quota[c.id := q])
        else
          var a := Assessed(Reported(doc.accounts[i], c.fromClient, c.reporter, c.flipOwner, now), c.result, c.authChanged, now);
          doc.(quota := doc.quota[c.id := q], accounts := doc.accounts[i := a])
    ensures Decide(doc, c, now).reply == Done
  {
    hide CacheOf, Assessed, Reported, Blank;
    var q, i := CacheOf(c.result, c.fromClient, c.reporter, now), Find(doc.accounts, c.id);
    LeaseManager.PutOne(doc, Cache(c.id, q), now);
    if i < |doc.accounts| {
      var a := Assessed(Reported(doc.accounts[i], c.fromClient, c.reporter, c.flipOwner, now), c.result, c.authChanged, now);
      LeaseHolding.CacheAndUpdate(doc, c.id, q, i, a, now);
    }
  }

  /** A quota record is cached under its id even when no such account exists, and assesses the account if there is one. */
  lemma {:induction false} RecordQuotaEffect(doc: Doc, c: Command, now: nat) returns (i: nat)
    requires c.RecordQuota?
    ensures Decide(doc, c, now).reply == Done
    ensures var next := Step(doc, c, now);
      if Blank(c.id) then next == doc
      else
        && c.id in next.quota && CachedAs(next.quota[c.id], c.result, c.fromClient, c.reporter, now)
        && next.quota == doc.quota[c.id := next.quota[c.id]] && next.dispatches == doc.dispatches
        && (if NoneWith(doc.accounts, c.id) then next.accounts == doc.accounts
            else
              && FirstWith(doc.accounts, c.id, i) && OnlyAt(doc.accounts, next.accounts, i)
              && RecordedAfter(next.accounts[i], doc.accounts[i], c))
  {
    i := Find(doc.accounts, c.id);
    RecordStores(doc, c, now);
    hide Step, Decide, CacheOf, Assessed, Reported, CachedAs, RecordedAfter, Blank;
    FindFirst(doc.accounts, c.id);
    CacheReads(c.result, c.fromClient, c.reporter, now);
    if i < |doc.accounts| {
      RecordReads(doc.accounts[i], c, now);
    }
  }

  /** A holder's report counts exactly when the account is leased under that id by that very client beyond the instant. */
  lemma RecordLeasedSucceedsIff(doc: Doc, c: Command, now: nat)
    requires c.RecordLeased?
    ensures var at := if c.checkedAt == 0 then now else c.checkedAt;
      Decide(doc, c, now).reply == Done <==>
        && TrimSpace(c.accountId) != ""
        && exists i :: FirstWith(doc.accounts, TrimSpace(c.accountId), i)
             && !Blank(doc.accounts[i].lease.id)
             && TrimSpace(doc.accounts[i].lease.id) == TrimSpace(c.leaseId)
             && TrimSpace(doc.accounts[i].lease.clientId) == TrimSpace(c.clientId)
             && doc.accounts[i].lease.expiresAt != 0 && doc.accounts[i].lease.expiresAt > at
  {
    var id := TrimSpace(c.accountId);
    FindFirst(doc.accounts, id);
    var i := Find(doc.accounts, id);
    assert forall j :: FirstWith(doc.accounts, id, j) ==> j == i;
    hide TrimSpace, QuotaWrites;
  }

  /** It then stores what a client's report without new credentials and without a change of owner does; else nothing. */
  lemma RecordLeasedIsRecord(doc: Doc, c: Command, now: nat)
    requires c.RecordLeased?
    ensures Decide(doc, c, now).reply == Done ==>
      Step(doc, c, now) == Step(doc, RecordQuota(TrimSpace(c.accountId), c.result, false, true, c.clientId, false), now)
    ensures Decide(doc, c, now).reply != Done ==> Step(doc, c, now) == doc && Decide(doc, c, now).reply.Failed?
  {
    var r := RecordQuota(TrimSpace(c.accountId), c.result, false, true, c.clientId, false);
    SameDecision(doc, c, r, now);
    LeaseManager.PutNone(doc, now);
    hide Decide;
  }

  lemma SameDecision(doc: Doc, c: Command, r: Command, now: nat)
    requires c.RecordLeased? && r == RecordQuota(TrimSpace(c.accountId), c.result, false, true, c.clientId, false)
    ensures Decide(doc, c, now).reply == Done ==> Decide(doc, r, now) == Decide(doc, c, now)
    ensures Decide(doc, c, now).reply != Done ==> Decide(doc, c, now) == Decision(false, [], Decide(doc, c, now).reply)
    ensures Decide(doc, c, now).reply != Done ==> Decide(doc, c, now).reply.Failed?
  {
    TrimTwice(c.accountId);
    hide QuotaWrites, HeldBy, TrimSpace;
  }

  // ---------- Profiles ----------

  /** The account a profile is for: the one with its id, else the first with the same credentials. */
  predicate IsTarget(accounts: seq<Account>, p: Profile, id: string, i: int) {
    || FirstWith(accounts, id, i)
    || (NoneWith(accounts, id) && 0 <= i < |accounts| && accounts[i].id in p.sameIdentity
        && forall j :: 0 <= j < i ==> accounts[j].id !in p.sameIdentity)
  }

  predicate NoTarget(accounts: seq<Account>, p: Profile, id: string) {
    NoneWith(accounts, id) && forall j :: 0 <= j < |accounts| ==> accounts[j].id !in p.sameIdentity
  }

  lemma {:induction false} FindAnyFirst(accounts: seq<Account>, ids: set<string>)
    ensures var i := FindAny(accounts, ids); forall j :: 0 <= j < i ==> accounts[j].id !in ids
  {
    if accounts != [] && accounts[0].id !in ids { FindAnyFirst(accounts[1..], ids); }
  }

  /** The id a profile goes by: its own, else the cleaned one of its credentials, else a new one. */
  lemma {:induction false} WantedId(accounts: seq<Account>, p: Profile)
    ensures var id := IdFor(TrimSpace(p.id), p.derivedId, Ids(accounts), p.stamp);
      && (!Blank(p.id) ==> id == TrimSpace(p.id))
      && (Blank(p.id) && FreshNames.Sanitize(p.derivedId) != "" ==> id == FreshNames.Sanitize(p.derivedId))
      && (Blank(p.id) && FreshNames.Sanitize(p.derivedId) == "" && |accounts| < 999 && FreshNames.IsStamp(p.stamp) ==>
            NoneWith(accounts, id) && FreshNames.MatchesIdPattern(id))
  {
    TrimTwice(p.id);
    hide FreshNames.Sanitize, FreshNames.UniqueName, FreshNames.MatchesIdPattern, TrimSpace;
    assert Blank(TrimSpace(p.id)) <==> Blank(p.id);
    LeaseSteps.IdsAreFew(accounts);
    assert forall j :: 0 <= j < |accounts| ==> accounts[j].id in Ids(accounts);
    if |accounts| < 999 && FreshNames.IsStamp(p.stamp) {
      FreshNames.UniqueNameIsFresh("profile-" + p.stamp, Ids(accounts), p.stamp);
    }
  }

  predicate LeasedAt(a: Account, now: int) {
    !Blank(a.lease.id) && a.lease.expiresAt != 0 && a.lease.expiresAt > now
  }

  /** A new account: ready, in the cloud, without a lease, a plan or a note. */
  predicate IsNew(a: Account, id: string, name: string, generation: int, now: int) {
    a == Account(id, name, "", Ready, "", Cloud, "", generation, Lease("", "", "", 0, 0, 0), now, now, NoError)
  }

  /** What an upload of a profile comes to: a refusal, the account at `i` renewed, or a new account. */
  predicate Upserted(accounts: seq<Account>, p: Profile, id: string, stored: Stored, i: int, now: int) {
    var name := if Blank(p.name) then p.derivedName else TrimSpace(p.name);
    if p.auth != Object then stored == Refused(if p.auth == NoAuth then MissingAuth else BadAuth)
    else if 0 <= i < |accounts| then
      && IsTarget(accounts, p, id, i)
      && var b := accounts[i];
        if LeasedAt(b, now) then stored == Refused(StillLeased)
        else
          stored == Overwritten(i, b.(generation := b.generation + 1, name := if name == "" then b.name else name, updatedAt := now))
    else
      && NoTarget(accounts, p, id)
      && if !FreshNames.MatchesIdPattern(TrimSpace(id)) then stored == Refused(BadId)
        else if !NoneWith(accounts, TrimSpace(id)) then stored == Refused(AlreadyExists)
        else stored.Created? && IsNew(stored.account, TrimSpace(id), TrimSpace(name), 1, now)
  }

  lemma UpsertReads(accounts: seq<Account>, p: Profile, now: nat) returns (i: nat)
    ensures Upserted(accounts, p, IdFor(TrimSpace(p.id), p.derivedId, Ids(accounts), p.stamp), Upsert(accounts, p, now), i, now)
  {
    i := ProfileIndex(accounts, p);
    var id := IdFor(TrimSpace(p.id), p.derivedId, Ids(accounts), p.stamp);
    hide IdFor, TrimBy, FreshNames.MatchesIdPattern, Ids;
    FindFirst(accounts, id);
    FindFirst(accounts, TrimSpace(id));
    FindAnyFirst(accounts, p.sameIdentity);
  }

  /** What becomes of the document: one account changes, or one is added, or nothing happens. */
  ghost predicate Stores(doc: Doc, next: Doc, stored: Stored) {
    match stored
    case Refused(_) => next == doc
    case Overwritten(i, a) => i < |doc.accounts| && next == doc.(accounts := doc.accounts[i := a])
    case Created(a) => next == doc.(accounts := doc.accounts + [a])
  }

  function ReplyOf(stored: Stored): Reply {
    if stored.Refused? then Failed(stored.error) else With(stored.account)
  }

  lemma StoringStores(doc: Doc, c: Command, stored: Stored, now: nat)
    requires Decide(doc, c, now) == Storing(stored) && (stored.Overwritten? ==> stored.i < |doc.accounts|)
    ensures Stores(doc, Step(doc, c, now), stored) && Decide(doc, c, now).reply == ReplyOf(stored)
  {
    StepStores(doc, c, now);
    hide Decide, Step;
  }

  /** An uploaded profile renews its account, one generation on, unless that is leased; without one it makes a new account. */
  lemma {:induction false} UpsertEffect(doc: Doc, p: Profile, now: nat) returns (stored: Stored, i: nat)
    ensures Upserted(doc.accounts, p, IdFor(TrimSpace(p.id), p.derivedId, Ids(doc.accounts), p.stamp), stored, i, now)
    ensures Stores(doc, Step(doc, UpsertJson(p), now), stored) && Decide(doc, UpsertJson(p), now).reply == ReplyOf(stored)
  {
    stored := Upsert(doc.accounts, p, now);
    i := UpsertReads(doc.accounts, p, now);
    hide Upsert, IdFor, TrimSpace, Ids, Upserted;
    UpsertInRange(doc.accounts, p, now);
    StoringStores(doc, UpsertJson(p), stored, now);
  }

  lemma UpsertInRange(accounts: seq<Account>, p: Profile, now: nat)
    ensures Upsert(accounts, p, now).Overwritten? ==> Upsert(accounts, p, now).i < |accounts|
  {
    hide IdFor, FreshNames.MatchesIdPattern;
  }

  /** Adding an account makes a new one of generation zero under a valid id nobody has, or is refused. */
  lemma {:induction false} AddEffect(doc: Doc, id: string, name: string, now: nat)
    ensures var next, reply := Step(doc, Command.AddAccount(id, name), now), Decide(doc, Command.AddAccount(id, name), now).reply;
      if !FreshNames.MatchesIdPattern(TrimSpace(id)) then next == doc && reply == Failed(BadId)
      else if !NoneWith(doc.accounts, TrimSpace(id)) then next == doc && reply == Failed(AlreadyExists)
      else
        && reply.With? && IsNew(reply.account, TrimSpace(id), TrimSpace(name), 0, now)
        && next == doc.(accounts := doc.accounts + [reply.account])
  {
    FindFirst(doc.accounts, TrimSpace(id));
    hide TrimSpace, FreshNames.MatchesIdPattern;
    StoringStores(doc, Command.AddAccount(id, name), Create(doc.accounts, id, name, 0, now), now);
  }

  /** Importing a profile makes a new account of generation one, and is refused for an id or credentials already there. */
  lemma {:induction false} ImportEffect(doc: Doc, p: Profile, now: nat)
    ensures var next, reply := Step(doc, ImportLive(p), now), Decide(doc, ImportLive(p), now).reply;
      var id := IdFor(p.id, p.derivedId, Ids(doc.accounts), p.stamp);
      if p.auth == NoAuth then next == doc && reply == Failed(MissingAuth)
      else if !NoTarget(doc.accounts, p, id) then next == doc && reply == Failed(AlreadyExists)
      else if !FreshNames.MatchesIdPattern(TrimSpace(id)) then next == doc && reply == Failed(BadId)
      else if !NoneWith(doc.accounts, TrimSpace(id)) then next == doc && reply == Failed(AlreadyExists)
      else
        && reply.With? && next == doc.(accounts := doc.accounts + [reply.account])
        && IsNew(reply.account, TrimSpace(id), TrimSpace(if Blank(p.name) then p.derivedName else p.name), 1, now)
  {
    var id := IdFor(p.id, p.derivedId, Ids(doc.accounts), p.stamp);
    var name := if Blank(p.name) then p.derivedName else p.name;
    StepStores(doc, ImportLive(p), now);
    hide IdFor, TrimBy, FreshNames.MatchesIdPattern, Ids, Step;
    FindFirst(doc.accounts, id);
    FindFirst(doc.accounts, TrimSpace(id));
    FindAnyFirst(doc.accounts, p.sameIdentity);
  }

  // ---------- Snapshots ----------

  /** What the rest of a snapshot changes in the account its profile was stored in. */
  predicate RefinedFrom(a: Account, b: Account, s: Snapshot, now: int) {
    && a.name == (if Blank(s.name) then b.name else TrimSpace(s.name))
    && a.plan == (if Blank(s.plan) then b.plan else TrimSpace(s.plan))
    && a.status == (if s.status.Known? then s.status.value else b.status)
    && a.owner == (if s.owner.Known? then s.owner.value else b.owner)
    && (!Blank(s.ownerClientId) ==> a.ownerClientId == TrimSpace(s.ownerClientId))
    && (Blank(s.ownerClientId) && s.owner == Known(Client) && !Blank(s.sourceClient) ==>
          a.ownerClientId == TrimSpace(s.sourceClient))
    && (Blank(s.ownerClientId) && (s.owner != Known(Client) || Blank(s.sourceClient)) ==> a.ownerClientId == b.ownerClientId)
    && a == b.(name := a.name, plan := a.plan, status := a.status, owner := a.owner, ownerClientId := a.ownerClientId,
               updatedAt := now)
  }

  /**
   A snapshot first stores its profile, and then refines the first account with the id stored; the
   profile stays stored when a status or an owner nobody knows is refused.
   */
  lemma {:induction false} SnapshotEffect(doc: Doc, p: Profile, s: Snapshot, now: nat) returns (j: nat)
    ensures var u, first := Step(doc, UpsertJson(p), now), Decide(doc, UpsertJson(p), now).reply;
      var next, reply := Step(doc, UpsertSnapshot(p, s), now), Decide(doc, UpsertSnapshot(p, s), now).reply;
      if first.Failed? then next == doc && reply == first
      else if s.status == Unknown then next == u && reply == Failed(UnknownStatus)
      else if s.owner == Unknown then next == u && reply == Failed(UnknownOwner)
      else
        && FirstWith(u.accounts, first.account.id, j) && OnlyAt(u.accounts, next.accounts, j)
        && next == u.(accounts := next.accounts) && reply == With(next.accounts[j])
        && RefinedFrom(next.accounts[j], u.accounts[j], s, now)
  {
    var c, stored := UpsertSnapshot(p, s), Upsert(doc.accounts, p, now);
    UpsertInRange(doc.accounts, p, now);
    SnapshotDecides(doc, c, now);
    OverwrittenKeepsId(doc.accounts, p, now);
    CreatedIsNew(doc.accounts, p, now);
    hide Decide, Step, Upsert, Refined, RefinedFrom, Refining, FirstWith, NoneWith, OnlyAt;
    StoringStores(doc, UpsertJson(p), stored, now) by { UpsertDecides(doc, p, now); }
    j := 0;
    if stored.Refused? || s.status == Unknown || s.owner == Unknown {
      SnapshotStops(doc, c, stored, now);
    } else if stored.Created? {
      j := |doc.accounts|;
      RefinedReads(stored.account, s, now);
      StoringStores(doc, c, Created(Refined(stored.account, s, now)), now);
      AddedLast(doc.accounts, stored.account, Refined(stored.account, s, now));
    } else {
      j := Find(doc.accounts, stored.account.id);
      RefiningStores(doc, c, stored.i, stored.account, now);
    }
  }

  lemma UpsertDecides(doc: Doc, p: Profile, now: nat)
    ensures Decide(doc, UpsertJson(p), now) == Storing(Upsert(doc.accounts, p, now))
  {
    hide Upsert;
  }

  lemma AddedLast(accounts: seq<Account>, a: Account, b: Account)
    requires NoneWith(accounts, a.id)
    ensures FirstWith(accounts + [a], a.id, |accounts|) && OnlyAt(accounts + [a], accounts + [b], |accounts|)
  {
  }

  lemma SnapshotDecides(doc: Doc, c: Command, now: nat)
    requires c.UpsertSnapshot?
    ensures var d, stored := Decide(doc, c, now), Upsert(doc.accounts, c.profile, now);
      if stored.Refused? then d == Storing(stored)
      else if c.snapshot.status == Unknown then d == Storing(stored).(reply := Failed(UnknownStatus))
      else if c.snapshot.owner == Unknown then d == Storing(stored).(reply := Failed(UnknownOwner))
      else if stored.Created? then d == Storing(Created(Refined(stored.account, c.snapshot, now)))
      else d == Refining(doc.accounts, stored.i, stored.account, c.snapshot, now)
  {
    hide Upsert, Refined, Refining;
  }

  /** Where only the reply differs, the documents do not. */
  lemma SnapshotStops(doc: Doc, c: Command, stored: Stored, now: nat)
    requires Decide(doc, c, now).writes == Storing(stored).writes && !Decide(doc, c, now).sweep
    requires stored.Overwritten? ==> stored.i < |doc.accounts|
    ensures Stores(doc, Step(doc, c, now), stored)
  {
    StepStores(doc, c, now);
    hide Decide, Step;
  }

  lemma CreatedIsNew(accounts: seq<Account>, p: Profile, now: nat)
    ensures var stored := Upsert(accounts, p, now); stored.Created? ==> NoneWith(accounts, stored.account.id)
  {
    hide IdFor, TrimBy, FreshNames.MatchesIdPattern, Ids;
    FindFirst(accounts, TrimSpace(IdFor(TrimSpace(p.id), p.derivedId, Ids(accounts), p.stamp)));
  }

  lemma OverwrittenKeepsId(accounts: seq<Account>, p: Profile, now: nat)
    ensures var stored := Upsert(accounts, p, now);
      stored.Overwritten? ==> stored.i < |accounts| && stored.account.id == accounts[stored.i].id
  {
    hide IdFor, FreshNames.MatchesIdPattern;
  }

  lemma RefinedReads(b: Account, s: Snapshot, now: nat)
    ensures RefinedFrom(Refined(b, s, now), b, s, now) && Refined(b, s, now).id == b.id
  {
    hide TrimBy;
  }

  lemma RefiningStores(doc: Doc, c: Command, i: nat, a: Account, now: nat)
    requires c.UpsertSnapshot? && i < |doc.accounts| && a.id == doc.accounts[i].id
    requires Decide(doc, c, now) == Refining(doc.accounts, i, a, c.snapshot, now)
    ensures var u, next, j := doc.(accounts := doc.accounts[i := a]), Step(doc, c, now), Find(doc.accounts, a.id);
      && FirstWith(u.accounts, a.id, j) && OnlyAt(u.accounts, next.accounts, j) && next == u.(accounts := next.accounts)
      && Decide(doc, c, now).reply == With(next.accounts[j])
      && RefinedFrom(next.accounts[j], u.accounts[j], c.snapshot, now)
  {
    var s, j := c.snapshot, Find(doc.accounts, a.id);
    assert j <= i;
    hide Decide, Refined, RefinedFrom;
    if j < i {
      var b := doc.accounts[j];
      RefinedReads(b, s, now);
      LeaseManager.PutTwo(doc, Update(i, a), Update(j, Refined(b, s, now)), now);
    } else {
      RefinedReads(a, s, now);
      StepStores(doc, c, now);
    }
  }

  // ---------- Edits ----------

  /** An edit changes the first account with its id, and only that, and fails only if there is none. */
  ghost predicate EditsFirst(doc: Doc, next: Doc, reply: Reply, id: string, i: int) {
    if NoneWith(doc.accounts, id) then next == doc && reply == Failed(AccountNotFound)
    else
      && FirstWith(doc.accounts, id, i) && OnlyAt(doc.accounts, next.accounts, i)
      && next == doc.(accounts := next.accounts) && reply == Done
  }

  lemma {:induction false} EditingStores(doc: Doc, c: Command, id: string, edit: Account -> Account, now: nat)
    requires Decide(doc, c, now) == Editing(doc.accounts, id, edit)
    ensures var next, reply, i := Step(doc, c, now), Decide(doc, c, now).reply, Find(doc.accounts, id);
      EditsFirst(doc, next, reply, id, i) && (reply == Done ==> next.accounts[i] == edit(doc.accounts[i]))
  {
    StepStores(doc, c, now);
    FindFirst(doc.accounts, id);
    hide Decide, Step;
  }

  lemma {:induction false} StatusEffect(doc: Doc, id: string, status: Field<Status>, now: nat) returns (i: nat)
    ensures var next, reply := Step(doc, SetStatus(id, status), now), Decide(doc, SetStatus(id, status), now).reply;
      if !status.Known? then next == doc && reply == Failed(UnknownStatus)
      else
        && EditsFirst(doc, next, reply, id, i)
        && (reply == Done ==> next.accounts[i] == doc.accounts[i].(status := status.value, updatedAt := now))
  {
    i := Find(doc.accounts, id);
    StepStores(doc, SetStatus(id, status), now);
    if status.Known? {
      EditingStores(doc, SetStatus(id, status), id, (a: Account) => a.(status := status.value, updatedAt := now), now);
    }
  }

  lemma {:induction false} NameEffect(doc: Doc, id: string, name: string, now: nat) returns (i: nat)
    ensures var next, reply := Step(doc, SetName(id, name), now), Decide(doc, SetName(id, name), now).reply;
      && EditsFirst(doc, next, reply, id, i)
      && (reply == Done ==> next.accounts[i] == doc.accounts[i].(name := TrimSpace(name), updatedAt := now))
  {
    i := Find(doc.accounts, id);
    EditingStores(doc, SetName(id, name), id, (a: Account) => a.(name := TrimSpace(name), updatedAt := now), now);
  }

  lemma {:induction false} WorkspaceEffect(doc: Doc, id: string, workspaceId: string, known: bool, now: nat) returns (i: nat)
    ensures var c := Command.SetWorkspace(id, workspaceId, known);
      var next, reply := Step(doc, c, now), Decide(doc, c, now).reply;
      if !known then next == doc && reply == Failed(WorkspaceNotFound)
      else
        && EditsFirst(doc, next, reply, id, i)
        && var workspace := if Blank(workspaceId) then "default" else workspaceId;
          reply == Done ==> next.accounts[i] == doc.accounts[i].(workspaceId := workspace, updatedAt := now)
  {
    var c := Command.SetWorkspace(id, workspaceId, known);
    i := Find(doc.accounts, id);
    StepStores(doc, c, now);
    hide TrimSpace;
    if known {
      EditingStores(doc, c, id, (a: Account) => a.(workspaceId := WorkspaceOrDefault(workspaceId), updatedAt := now), now);
    }
  }

  /** An account is given the owner and the client named; given to a client, it loses its lease, else it keeps it. */
  lemma {:induction false} OwnerEffect(doc: Doc, id: string, owner: Field<OwnerMode>, clientId: string, now: nat) returns (i: nat)
    ensures var c := Command.SetOwner(id, owner, clientId);
      var next, reply := Step(doc, c, now), Decide(doc, c, now).reply;
      if !owner.Known? then next == doc && reply == Failed(UnknownOwner)
      else
        && EditsFirst(doc, next, reply, id, i)
        && (reply == Done ==>
              && (owner == Known(Client) ==> next.accounts[i].lease == Lease("", "", "", 0, 0, 0))
              && (owner == Known(Cloud) ==> next.accounts[i].lease == doc.accounts[i].lease)
              && next.accounts[i] == doc.accounts[i].(owner := owner.value, ownerClientId := TrimSpace(clientId),
                                                      lease := next.accounts[i].lease, updatedAt := now))
  {
    i := Find(doc.accounts, id);
    FindFirst(doc.accounts, id);
    StepStores(doc, Command.SetOwner(id, owner, clientId), now);
    hide TrimSpace;
  }

  /** A deletion takes out the first account with the id and nothing else, and a cursor on it is reset. */
  lemma {:induction false} DeleteEffect(doc: Doc, id: string, managed: bool, cursor: string, now: nat) returns (i: nat)
    ensures var c := Command.Delete(id, managed);
      var next, d := Step(doc, c, now), Decide(doc, c, now);
      if NoneWith(doc.accounts, id) then next == doc && d.reply == Failed(AccountNotFound) && NextCursor(cursor, c, d) == cursor
      else if !managed then next == doc && d.reply == Failed(Unmanaged) && NextCursor(cursor, c, d) == cursor
      else
        && FirstWith(doc.accounts, id, i) && d.reply == With(doc.accounts[i])
        && next == doc.(accounts := doc.accounts[..i] + doc.accounts[i + 1..])
        && NextCursor(cursor, c, d) == if cursor == id then "" else cursor
  {
    i := Find(doc.accounts, id);
    FindFirst(doc.accounts, id);
    StepStores(doc, Command.Delete(id, managed), now);
  }

  // ---------- Discovery ----------

  /** A new account for each directory, in order: under the cleaned name if nobody has it yet, else under a derived one. */
  lemma {:induction false} DiscoveryEffect(used: set<string>, entries: seq<Entry>, stamp: string, now: nat, k: nat)
    requires k < |entries|
    ensures var found := Discovered(used, entries, stamp, now);
      && |found| == |entries| && IsNew(found[k], found[k].id, entries[k].name, 0, now)
      && var before, id := used + Ids(found[..k]), FreshNames.Sanitize(entries[k].dir);
        && (id != "" && id !in before ==> found[k].id == id)
        && (|before| < 999 && FreshNames.IsStamp(stamp) ==> found[k].id !in before && FreshNames.MatchesIdPattern(found[k].id))
  {
    var n := |entries| - 1;
    var front, found := entries[..n], Discovered(used, entries, stamp, now);
    if n > 0 { DiscoveryEffect(used, front, stamp, now, 0); }
    assert |Discovered(used, front, stamp, now)| == n;
    if k < n {
      DiscoveryEffect(used, front, stamp, now, k);
      assert found[..k] == Discovered(used, front, stamp, now)[..k];
    } else {
      assert found[..k] == Discovered(used, front, stamp, now);
      DiscoveredIdReads(entries[k].dir, used + Ids(found[..k]), stamp);
    }
  }

  lemma DiscoveredIdReads(dir: string, used: set<string>, stamp: string)
    ensures var id, r := FreshNames.Sanitize(dir), DiscoveredId(dir, used, stamp);
      && (id != "" && id !in used ==> r == id)
      && (|used| < 999 && FreshNames.IsStamp(stamp) ==> r !in used && FreshNames.MatchesIdPattern(r))
  {
    FreshNames.SanitizeShape(dir);
    hide FreshNames.Sanitize, FreshNames.UniqueName, FreshNames.MatchesIdPattern;
    if |used| < 999 && FreshNames.IsStamp(stamp) { FreshNames.UniqueNameIsFresh("profile-" + dir, used, stamp); }
  }

  /** Listing and selecting add what they discover at the end of the accounts and change nothing else. */
  lemma {:induction false} DiscoveryIsAdded(doc: Doc, c: Command, now: nat)
    requires c.ListAccounts? || c.SelectForRun?
    ensures Step(doc, c, now) ==
      doc.(accounts := doc.accounts + Discovered(Ids(doc.accounts), c.entries, c.stamp, now))
  {
    hide Discovered, Available, Choose, PutAll, Adds, Ids, Find, Decide;
    DiscoveryDecides(doc, c, now);
    LeaseManager.PutAdds(doc, Discovered(Ids(doc.accounts), c.entries, c.stamp, now), now);
  }

  lemma DiscoveryDecides(doc: Doc, c: Command, now: nat)
    requires c.ListAccounts? || c.SelectForRun?
    ensures var d := Decide(doc, c, now); !d.sweep && d.writes == Adds(Discovered(Ids(doc.accounts), c.entries, c.stamp, now))
  {
    hide Discovered, Available, Choose, Adds, Ids, Find;
  }

  /** Accounts are listed in the order of their ids, each once. */
  lemma {:induction false} ViewsAscend(accounts: seq<Account>)
    requires UniqueIds(accounts)
    ensures var views := Sorting.InsertionSort(LeaseManager.AccountBefore, accounts);
      && multiset(views) == multiset(accounts)
      && forall i, j :: 0 <= i < j < |views| ==> StringLess(views[i].id, views[j].id)
  {
    Sorting.SortByKeyAscends(LeaseManager.AccountBefore, (a: Account) => a.id, accounts);
  }
}
