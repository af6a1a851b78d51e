/**
 The manager: one stored document and the round-robin cursor, changed in place by
 operations that load, change and save the document. Each operation is one
 critical section and stores exactly what the machine's step says; the clock, the
 random lease id, the file system's answers and the credentials are parameters.
 */
module LeaseManager {
  import opened Text
  import opened LoadBalance
  import opened Ledger
  import opened LeaseMachine
  import Sorting
  import FreshNames

  lemma PutOne(doc: Doc, x: Write, now: nat)
    ensures PutAll(doc, [x], now) == Put(doc, x, now)
  {
    assert [x][..0] == [];
  }

  lemma PutTwo(doc: Doc, x: Write, y: Write, now: nat)
    ensures PutAll(doc, [x, y], now) == Put(Put(doc, x, now), y, now)
  {
    assert [x, y][..1] == [x];
    PutOne(doc, x, now);
  }

  lemma OneEvent(dispatches: seq<Event>, e: Event)
    ensures AppendAll(dispatches, [e]) == Append(dispatches, e)
  {
    assert [e][..0] == [];
  }

  // ---------- Loops over a loaded document ----------

  method FindAccount(accounts: seq<Account>, id: string) returns (index: nat)
    ensures index == Find(accounts, id)
  {
    index := 0;
    while index < |accounts|
      invariant 0 <= index <= |accounts|
      invariant forall k :: 0 <= k < index ==> accounts[k].id != id
    {
      if accounts[index].id == id {
        return;
      }
      index := index + 1;
    }
  }

  method FindLeaseAccount(accounts: seq<Account>, accountId: string, leaseId: string) returns (index: nat)
    ensures index == FindLease(accounts, accountId, leaseId)
  {
    var account, lease := TrimSpace(accountId), TrimSpace(leaseId);
    index := 0;
    while index < |accounts|
      invariant 0 <= index <= |accounts|
      invariant forall k :: 0 <= k < index ==> !Matches(accounts[k], accountId, leaseId)
    {
      if !(account != "" && accounts[index].id != account) && !(lease != "" && accounts[index].lease.id != lease) {
        return;
      }
      index := index + 1;
    }
  }

  /** The accounts a sweep expires. */
  function ExpiredIds(accounts: seq<Account>, now: nat): seq<string> {
    if accounts == [] then []
    else
      var n := |accounts| - 1;
      ExpiredIds(accounts[..n], now) + (if Lapsed(accounts[n], now) then [accounts[n].id] else [])
  }

  lemma {:induction false} SweepOneMore(doc: Doc, state: Doc, i: nat, now: nat)
    requires i < |doc.accounts| && state == PutAll(doc, SweepWrites(doc.accounts[..i], now), now)
    ensures var accounts := doc.accounts[..i + 1];
      && PutAll(doc, SweepWrites(accounts, now), now)
         == (if Lapsed(doc.accounts[i], now) then Put(state, Expire(i), now) else state)
      && ExpiredIds(accounts, now)
         == ExpiredIds(doc.accounts[..i], now) + (if Lapsed(doc.accounts[i], now) then [doc.accounts[i].id] else [])
  {
    assert doc.accounts[..i + 1][..i] == doc.accounts[..i];
    var front := SweepWrites(doc.accounts[..i], now);
    assert (front + [Expire(i)])[..|front|] == front;
    assert front + [] == front;
  }

  method ExpireAccountLeases(doc: Doc, now: nat) returns (state: Doc, expired: seq<string>, changed: bool)
    ensures state == Swept(doc, now)
    ensures expired == ExpiredIds(doc.accounts, now) && changed == (expired != [])
  {
    state, expired, changed := doc, [], false;
    var i := 0;
    while i < |doc.accounts|
      invariant 0 <= i <= |doc.accounts| == |state.accounts|
      invariant state == PutAll(doc, SweepWrites(doc.accounts[..i], now), now)
      invariant forall k :: i <= k < |doc.accounts| ==> state.accounts[k] == doc.accounts[k]
      invariant expired == ExpiredIds(doc.accounts[..i], now) && changed == (expired != [])
    {
      SweepOneMore(doc, state, i, now);
      hide SweepWrites, PutAll, ExpiredIds;
      var account := state.accounts[i];
      if !Blank(account.lease.id) && account.lease.expiresAt != 0 && account.lease.expiresAt <= now {
        var leaseId := account.lease.id;
        var event := EventOf(account, EXPIRED, now);
        var dispatches := AppendDispatchEvent(state.dispatches, event);
        OneEvent(state.dispatches, event);
        account := account.(lease := NO_LEASE);
        if account.status == Ready {
          account := account.(status := Recovering);
        }
        account := account.(lastError := LeaseSwept(leaseId, now), updatedAt := now);
        state := state.(dispatches := dispatches, accounts := state.accounts[i := account]);
        expired := expired + [account.id];
        changed := true;
      }
      i := i + 1;
    }
    assert doc.accounts[..i] == doc.accounts;
  }

  method GatherCandidates(accounts: seq<Account>, quota: map<string, QuotaCache>, workspaceId: string,
      auth: set<string>, now: int)
    returns (available: seq<Candidate>)
    ensures available == Available(accounts, quota, workspaceId, auth, now)
  {
    available := [];
    var workspace := TrimSpace(workspaceId);
    var i := 0;
    while i < |accounts|
      invariant 0 <= i <= |accounts|
      invariant available == Available(accounts[..i], quota, workspaceId, auth, now)
    {
      assert accounts[..i + 1][..i] == accounts[..i];
      var a := accounts[i];
      if workspace == "" || WorkspaceOrDefault(a.workspaceId) == workspace {
        var evaluation := EvaluationOf(a, quota, auth, now);
        if evaluation.Eligible? {
          available := available + [Candidate(a.id, evaluation.score)];
        }
      }
      i := i + 1;
    }
    assert accounts[..i] == accounts;
  }

  predicate AccountBefore(a: Account, b: Account) {
    StringLess(a.id, b.id)
  }

  class Manager {
    var stored: Doc
    var cursor: string

    /** The first section of RecoverExpiredLeases: the sweep is saved only when it changed something. */
    method RecoverExpiredLeases(now: nat) returns (expired: seq<string>)
      modifies this`stored
      ensures stored == Step(old(stored), Sweep, now)
      ensures expired == ExpiredIds(old(stored).accounts, now)
    {
      var state, ids, changed := ExpireAccountLeases(stored, now);
      NothingLapsed(stored, now);
      if changed {
        stored := state;
      }
      expired := ids;
    }

    /** The second section of ClaimLease. */
    method ClaimLease(clientId: string, holder: string, workspaceId: string, ttl: int, auth: set<string>,
                      leaseId: string, exported: bool, now: nat) returns (reply: Reply)
      modifies this
      ensures var c := Claim(clientId, holder, workspaceId, ttl, auth, old(cursor), leaseId, exported);
        && stored == Step(old(stored), c, now) && reply == Decide(old(stored), c, now).reply
        && cursor == NextCursor(old(cursor), c, Decide(old(stored), c, now))
    {
      ghost var c := Claim(clientId, holder, workspaceId, ttl, auth, cursor, leaseId, exported);
      var state, _, _ := ExpireAccountLeases(stored, now);
      SweepKeepsQuota(stored, now);
      hide Swept, PutAll, Available, Choose;
      var available := GatherCandidates(state.accounts, state.quota, workspaceId, auth, now);
      if available == [] {
        stored := state;
        PutNone(state, now);
        return Failed(NoneAvailable);
      }
      var selected := SelectCandidate(available, cursor);
      ChoiceIsStored(state.accounts, state.quota, workspaceId, auth, cursor, now);
      var i := FindAccount(state.accounts, selected.id);
      var account := state.accounts[i];
      account := account.(lease := Lease(leaseId, TrimSpace(clientId), TrimSpace(holder), now, now, now + NormalizeTtl(ttl)),
                          updatedAt := now);
      var event := EventOf(account, CLAIMED, now);
      var dispatches := AppendDispatchEvent(state.dispatches, event);
      OneEvent(state.dispatches, event);
      PutOne(state, Write.Grant(i, account), now);
      stored := state.(accounts := state.accounts[i := account], dispatches := dispatches);
      cursor := account.id;
      reply := if exported then With(account) else Failed(ExportFailed);
    }

    method TouchLease(leaseId: string, accountId: string, clientId: string, holder: string, ttl: int, now: nat)
      returns (reply: Reply)
      modifies this`stored
      ensures var c := Touch(leaseId, accountId, clientId, holder, ttl);
        stored == Step(old(stored), c, now) && reply == Decide(old(stored), c, now).reply
    {
      var state, _, _ := ExpireAccountLeases(stored, now);
      hide Swept, PutAll, Validate, NormalizeTtl, FirstNonEmpty;
      PutNone(state, now);
      var i := FindLeaseAccount(state.accounts, accountId, leaseId);
      if i == |state.accounts| {
        stored := state;
        return Failed(LeaseNotFound);
      }
      var account := state.accounts[i];
      var error := Validate(account, leaseId, clientId, now);
      if error.Some? {
        stored := state;
        return Failed(error.value);
      }
      account := account.(lease := account.lease.(holder := FirstNonEmpty(holder, account.lease.holder)));
      account := account.(lease := account.lease.(heartbeatAt := now, expiresAt := now + NormalizeTtl(ttl)), updatedAt := now);
      PutOne(state, Renew(i, account), now);
      stored := state.(accounts := state.accounts[i := account]);
      reply := With(account);
    }

    method UpdateLeasedProfileSnapshot(s: Snapshot, clientId: string, ttl: int, now: nat) returns (reply: Reply)
      modifies this`stored
      ensures var c := Upload(s, clientId, ttl);
        stored == Step(old(stored), c, now) && reply == Decide(old(stored), c, now).reply
    {
      PutNone(stored, now);
      if Blank(s.id) {
        return Failed(MissingAccountId);
      }
      if Blank(s.leaseId) {
        return Failed(MissingLeaseId);
      }
      if s.auth == NoAuth {
        return Failed(MissingAuth);
      }
      if s.auth == NotJson {
        return Failed(BadAuth);
      }
      if s.status == Unknown {
        return Failed(UnknownStatus);
      }
      var state, _, _ := ExpireAccountLeases(stored, now);
      hide Swept, PutAll, Validate;
      PutNone(state, now);
      var i := FindLeaseAccount(state.accounts, s.id, s.leaseId);
      if i == |state.accounts| {
        stored := state;
        return Failed(LeaseNotFound);
      }
      var account := state.accounts[i];
      var error := Validate(account, s.leaseId, clientId, now);
      if error.Some? {
        stored := state;
        return Failed(error.value);
      }
      if s.generation != account.generation {
        return Failed(GenerationConflict);
      }
      account := UploadFields(account, s, ttl, now);
      PutOne(state, Renew(i, account), now);
      stored := state.(accounts := state.accounts[i := account]);
      reply := With(account);
    }

    method ReleaseLease(accountId: string, leaseId: string, clientId: string, now: nat) returns (reply: Reply)
      modifies this`stored
      ensures var c := Command.ReleaseLease(accountId, leaseId, clientId);
        stored == Step(old(stored), c, now) && reply == Decide(old(stored), c, now).reply
    {
      PutNone(stored, now);
      var state, _, _ := ExpireAccountLeases(stored, now);
      hide Swept, PutAll, Validate;
      PutNone(state, now);
      var i := FindLeaseAccount(state.accounts, accountId, leaseId);
      if i == |state.accounts| {
        stored := state;
        return Failed(LeaseNotFound);
      }
      var account := state.accounts[i];
      var error := Validate(account, leaseId, clientId, now);
      if error.Some? {
        return Failed(error.value);
      }
      var event := EventOf(account, RELEASED, now);
      var dispatches := AppendDispatchEvent(state.dispatches, event);
      OneEvent(state.dispatches, event);
      PutOne(state, Release(i), now);
      account := account.(lease := NO_LEASE);
      account := account.(updatedAt := now);
      stored := state.(dispatches := dispatches, accounts := state.accounts[i := account]);
      reply := Done;
    }

    // ----- Quota -----

    method WriteQuotaResult(id: string, result: QuotaResult, authChanged: bool, fromClient: bool, reporter: string,
                            flipOwner: bool, now: nat)
      modifies this`stored
      ensures stored
           == PutAll(old(stored),
                     QuotaWrites(old(stored).accounts, id, result, authChanged, fromClient, reporter, flipOwner, now), now)
    {
      var state := stored;
      var cache := QuotaCache(now, result, FirstWindow(result.quotas, IsFiveHour), fromClient, TrimSpace(reporter));
      state := state.(quota := state.quota[id := cache]);
      var i := FindAccount(state.accounts, id);
      PutOne(stored, Cache(id, cache), now);
      if i < |state.accounts| {
        var account := state.accounts[i];
        if flipOwner && fromClient {
          account := account.(owner := Client);
          if !Blank(reporter) {
            account := account.(ownerClientId := TrimSpace(reporter));
          }
          account := account.(updatedAt := now);
        }
        account := AssessFields(account, result, authChanged, now);
        state := state.(accounts := state.accounts[i := account]);
        PutTwo(stored, Cache(id, cache), Update(i, account), now);
      }
      stored := state;
    }

    method RecordQuotaResult(id: string, result: QuotaResult, authChanged: bool, fromClient: bool, reporter: string,
                             flipOwner: bool, now: nat)
      modifies this`stored
      ensures stored == Step(old(stored), RecordQuota(id, result, authChanged, fromClient, reporter, flipOwner), now)
    {
      hide PutAll, Swept, QuotaWrites, HeldBy;
      if Blank(id) {
        PutNone(stored, now);
        return;
      }
      WriteQuotaResult(id, result, authChanged, fromClient, reporter, flipOwner, now);
    }

    method RecordLeasedQuota(accountId: string, leaseId: string, clientId: string, result: QuotaResult,
        checkedAt: nat, now: nat)
      returns (reply: Reply)
      modifies this`stored
      ensures var c := RecordLeased(accountId, leaseId, clientId, result, checkedAt);
        stored == Step(old(stored), c, now) && reply == Decide(old(stored), c, now).reply
    {
      hide PutAll, Swept, QuotaWrites, HeldBy;
      PutNone(stored, now);
      var id := TrimSpace(accountId);
      if id == "" {
        return Failed(MissingAccountId);
      }
      var at := checkedAt;
      if at == 0 {
        at := now;
      }
      var i := FindAccount(stored.accounts, id);
      if i == |stored.accounts| {
        return Failed(AccountNotFound);
      }
      if !HeldBy(stored.accounts[i], leaseId, clientId, at) {
        return Failed(NotLeasedByClient);
      }
      WriteQuotaResult(id, result, false, true, clientId, false, now);
      reply := Done;
    }

    // ----- Accounts -----

    method SetStatus(id: string, status: Field<Status>, now: nat) returns (reply: Reply)
      modifies this`stored
      ensures var c := Command.SetStatus(id, status);
        stored == Step(old(stored), c, now) && reply == Decide(old(stored), c, now).reply
    {
      hide PutAll, Swept;
      PutNone(stored, now);
      if !status.Known? {
        return Failed(UnknownStatus);
      }
      var i := FindAccount(stored.accounts, id);
      if i == |stored.accounts| {
        return Failed(AccountNotFound);
      }
      var account := stored.accounts[i].(status := status.value, updatedAt := now);
      PutOne(stored, Update(i, account), now);
      stored := stored.(accounts := stored.accounts[i := account]);
      reply := Done;
    }

    method SetOwner(id: string, owner: Field<OwnerMode>, ownerClientId: string, now: nat) returns (reply: Reply)
      modifies this`stored
      ensures var c := Command.SetOwner(id, owner, ownerClientId);
        stored == Step(old(stored), c, now) && reply == Decide(old(stored), c, now).reply
    {
      hide PutAll, Swept;
      PutNone(stored, now);
      if !owner.Known? {
        return Failed(UnknownOwner);
      }
      var i := FindAccount(stored.accounts, id);
      if i == |stored.accounts| {
        return Failed(AccountNotFound);
      }
      var account := stored.accounts[i].(owner := owner.value, ownerClientId := TrimSpace(ownerClientId));
      if owner.value == Client {
        account := account.(lease := NO_LEASE);
      }
      account := account.(updatedAt := now);
      PutOne(stored, Update(i, account), now);
      PutOne(stored, Drop(i, account), now);
      stored := stored.(accounts := stored.accounts[i := account]);
      reply := Done;
    }

    method SetLabel(id: string, name: string, now: nat) returns (reply: Reply)
      modifies this`stored
      ensures var c := Command.SetName(id, name);
        stored == Step(old(stored), c, now) && reply == Decide(old(stored), c, now).reply
    {
      hide PutAll, Swept, WorkspaceOrDefault;
      PutNone(stored, now);
      var i := FindAccount(stored.accounts, id);
      if i == |stored.accounts| {
        return Failed(AccountNotFound);
      }
      var account := stored.accounts[i].(name := TrimSpace(name), updatedAt := now);
      PutOne(stored, Update(i, account), now);
      stored := stored.(accounts := stored.accounts[i := account]);
      reply := Done;
    }

    method SetAccountWorkspace(id: string, workspaceId: string, known: bool, now: nat) returns (reply: Reply)
      modifies this`stored
      ensures var c := Command.SetWorkspace(id, workspaceId, known);
        stored == Step(old(stored), c, now) && reply == Decide(old(stored), c, now).reply
    {
      hide PutAll, Swept, WorkspaceOrDefault;
      PutNone(stored, now);
      if !known {
        return Failed(WorkspaceNotFound);
      }
      var i := FindAccount(stored.accounts, id);
      if i == |stored.accounts| {
        return Failed(AccountNotFound);
      }
      var account := stored.accounts[i].(workspaceId := WorkspaceOrDefault(workspaceId), updatedAt := now);
      PutOne(stored, Update(i, account), now);
      stored := stored.(accounts := stored.accounts[i := account]);
      reply := Done;
    }

    /** The unlocked core of AddAccount. */
    method AddAccountLocked(id: string, name: string, now: nat) returns (outcome: Stored)
      modifies this`stored
      ensures outcome == Create(old(stored).accounts, id, name, 0, now) && !outcome.Overwritten?
      ensures stored
           == if outcome.Created? then old(stored).(accounts := old(stored).accounts + [outcome.account]) else old(stored)
    {
      var accountId := TrimSpace(id);
      if !FreshNames.MatchesIdPattern(accountId) {
        return Refused(BadId);
      }
      var i := FindAccount(stored.accounts, accountId);
      if i < |stored.accounts| {
        return Refused(AlreadyExists);
      }
      var account := NewAccount(accountId, TrimSpace(name), 0, now);
      stored := stored.(accounts := stored.accounts + [account]);
      outcome := Created(account);
    }

    /** Creating an account with credentials: it is stored first, then its generation is set to one. */
    method CreateWithAuth(id: string, name: string, now: nat) returns (outcome: Stored)
      modifies this`stored
      ensures outcome == Create(old(stored).accounts, id, name, 1, now) && !outcome.Overwritten?
      ensures stored
           == if outcome.Created? then old(stored).(accounts := old(stored).accounts + [outcome.account]) else old(stored)
    {
      ghost var before := stored.accounts;
      outcome := AddAccountLocked(id, name, now);
      if outcome.Refused? {
        return;
      }
      FindAppended(before, outcome.account);
      var i := FindAccount(stored.accounts, outcome.account.id);
      var account := stored.accounts[i].(generation := 1, updatedAt := now);
      stored := stored.(accounts := stored.accounts[i := account]);
      outcome := Created(account);
    }

    method AddAccount(id: string, name: string, now: nat) returns (reply: Reply)
      modifies this`stored
      ensures var c := Command.AddAccount(id, name);
        stored == Step(old(stored), c, now) && reply == Decide(old(stored), c, now).reply
    {
      ghost var before := stored;
      var outcome := AddAccountLocked(id, name, now);
      hide Create, PutAll;
      StoringPuts(before, outcome, now);
      reply := if outcome.Refused? then Failed(outcome.error) else With(outcome.account);
    }

    method ImportLiveProfile(p: Profile, now: nat) returns (reply: Reply)
      modifies this`stored
      ensures var c := ImportLive(p);
        stored == Step(old(stored), c, now) && reply == Decide(old(stored), c, now).reply
    {
      hide Create, PutAll;
      ghost var before := stored;
      PutNone(stored, now);
      if p.auth == NoAuth {
        return Failed(MissingAuth);
      }
      var id := ChooseId(p.id, p.derivedId, stored.accounts, p.stamp);
      var byId := FindAccount(stored.accounts, id);
      var byAuth := FindAnyAccount(stored.accounts, p.sameIdentity);
      if byId < |stored.accounts| || byAuth < |stored.accounts| {
        return Failed(AlreadyExists);
      }
      var name := p.name;
      if Blank(name) {
        name := p.derivedName;
      }
      var outcome := CreateWithAuth(id, name, now);
      StoringPuts(before, outcome, now);
      reply := if outcome.Refused? then Failed(outcome.error) else With(outcome.account);
    }

    /** The unlocked core of UpsertJSONProfile. */
    method UpsertJsonProfileLocked(p: Profile, now: nat) returns (outcome: Stored)
      modifies this`stored
      ensures outcome == Upsert(old(stored).accounts, p, now)
      ensures stored == PutAll(old(stored), Storing(outcome).writes, now)
    {
      hide Create, PutAll, IdFor, Active, Blank, Ids;
      ghost var before := stored;
      PutNone(stored, now);
      if p.auth == NoAuth {
        return Refused(MissingAuth);
      }
      if p.auth != Object {
        return Refused(BadAuth);
      }
      var id := ChooseId(TrimSpace(p.id), p.derivedId, stored.accounts, p.stamp);
      var i := FindAccount(stored.accounts, id);
      if i == |stored.accounts| {
        i := FindAnyAccount(stored.accounts, p.sameIdentity);
      }
      var name := if Blank(p.name) then p.derivedName else TrimSpace(p.name);
      if i < |stored.accounts| {
        var account := stored.accounts[i];
        if Active(account, now) {
          return Refused(StillLeased);
        }
        if name != "" {
          account := account.(name := name);
        }
        account := account.(generation := account.generation + 1, updatedAt := now);
        PutOne(stored, Update(i, account), now);
        stored := stored.(accounts := stored.accounts[i := account]);
        return Overwritten(i, account);
      }
      outcome := CreateWithAuth(id, name, now);
      StoringPuts(before, outcome, now);
    }

    method UpsertJsonProfile(p: Profile, now: nat) returns (reply: Reply)
      modifies this`stored
      ensures var c := UpsertJson(p);
        stored == Step(old(stored), c, now) && reply == Decide(old(stored), c, now).reply
    {
      hide Upsert, PutAll;
      var outcome := UpsertJsonProfileLocked(p, now);
      reply := if outcome.Refused? then Failed(outcome.error) else With(outcome.account);
    }

    method UpsertProfileSnapshot(p: Profile, s: Snapshot, now: nat) returns (reply: Reply)
      modifies this`stored
      ensures var c := UpsertSnapshot(p, s);
        stored == Step(old(stored), c, now) && reply == Decide(old(stored), c, now).reply
    {
      hide Upsert, PutAll, Refined, Refining;
      ghost var before := stored;
      var outcome := UpsertJsonProfileLocked(p, now);
      UpsertShape(before.accounts, p, now);
      if outcome.Refused? {
        return Failed(outcome.error);
      }
      if s.status == Unknown {
        return Failed(UnknownStatus);
      }
      if s.owner == Unknown {
        return Failed(UnknownOwner);
      }
      if outcome.Created? {
        CreatedRefined(before, outcome.account, s, now);
      } else {
        OverwrittenRefined(before, outcome.i, outcome.account, s, now);
      }
      var i := FindAccount(stored.accounts, outcome.account.id);
      var account := RefineFields(stored.accounts[i], s, now);
      stored := stored.(accounts := stored.accounts[i := account]);
      reply := With(account);
    }

    /** Lists the accounts by id, the discovered ones included; only those are stored. */
    method ListAccounts(entries: seq<Entry>, stamp: string, now: nat) returns (views: seq<Account>)
      modifies this
      ensures var c := Command.ListAccounts(entries, stamp);
        && stored == Step(old(stored), c, now)
        && cursor == NextCursor(old(cursor), c, Decide(old(stored), c, now))
      ensures views == Sorting.InsertionSort(AccountBefore, stored.accounts)
    {
      hide Discovered, PutAll, Sorting.InsertionSort;
      var state, changed := SyncManagedAccounts(stored.accounts, entries, stamp, now);
      PutAdds(stored, Discovered(Ids(stored.accounts), entries, stamp, now), now);
      stored := stored.(accounts := state);
      views := Sorting.SortSlice(AccountBefore, state);
    }

    method SelectAccountForRun(entries: seq<Entry>, auth: set<string>, stamp: string, now: nat) returns (reply: Reply)
      modifies this
      ensures var c := SelectForRun(entries, auth, old(cursor), stamp);
        && stored == Step(old(stored), c, now) && reply == Decide(old(stored), c, now).reply
        && cursor == NextCursor(old(cursor), c, Decide(old(stored), c, now))
    {
      hide Discovered, Available, Choose, PutAll;
      var state, changed := SyncManagedAccounts(stored.accounts, entries, stamp, now);
      PutAdds(stored, Discovered(Ids(stored.accounts), entries, stamp, now), now);
      stored := stored.(accounts := state);
      var gathered := GatherCandidates(state, stored.quota, "", auth, now);
      var available := Sorting.SortSlice(IdBefore, gathered);
      if available == [] {
        return Failed(NoneAvailable);
      }
      var selected := SelectCandidate(available, cursor);
      var i := FindAccount(state, selected.id);
      if i == |state| {
        return Failed(NoneAvailable);
      }
      cursor := selected.id;
      reply := With(state[i]);
    }

    method DeleteAccount(id: string, managed: bool, now: nat) returns (reply: Reply)
      modifies this
      ensures var c := Command.Delete(id, managed);
        && stored == Step(old(stored), c, now) && reply == Decide(old(stored), c, now).reply
        && cursor == NextCursor(old(cursor), c, Decide(old(stored), c, now))
    {
      hide PutAll, Swept, WorkspaceOrDefault;
      PutNone(stored, now);
      var i := FindAccount(stored.accounts, id);
      if i == |stored.accounts| {
        return Failed(AccountNotFound);
      }
      if !managed {
        return Failed(Unmanaged);
      }
      PutOne(stored, Remove(i), now);
      reply := With(stored.accounts[i]);
      stored := stored.(accounts := stored.accounts[..i] + stored.accounts[i + 1..]);
      if cursor == id {
        cursor := "";
      }
    }
  }

  /** An account that was just appended is found at the end. */
  lemma {:induction false} FindAppended(accounts: seq<Account>, a: Account)
    requires Find(accounts, a.id) == |accounts|
    ensures Find(accounts + [a], a.id) == |accounts|
  {
    var next := accounts + [a];
    assert next[|accounts|] == a;
    assert forall k :: 0 <= k < |accounts| ==> next[k] == accounts[k];
  }

  method FindAnyAccount(accounts: seq<Account>, ids: set<string>) returns (index: nat)
    ensures index == FindAny(accounts, ids)
  {
    index := 0;
    while index < |accounts|
      invariant 0 <= index <= |accounts|
      invariant FindAny(accounts, ids) == index + FindAny(accounts[index..], ids)
    {
      if accounts[index].id in ids {
        return;
      }
      assert accounts[index..][1..] == accounts[index + 1..];
      index := index + 1;
    }
  }

  /** The loop over the managed directories that have no account yet. */
  method SyncManagedAccounts(accounts: seq<Account>, entries: seq<Entry>, stamp: string, now: nat)
    returns (state: seq<Account>, changed: bool)
    ensures state == accounts + Discovered(Ids(accounts), entries, stamp, now)
    ensures changed == (entries != [])
  {
    hide Discovered, DiscoveredId, Ids;
    state, changed := accounts, false;
    NothingDiscovered(Ids(accounts), entries, stamp, now);
    var used := Ids(accounts);
    ghost var known := used;
    var i := 0;
    while i < |entries|
      invariant 0 <= i <= |entries|
      invariant var found := Discovered(known, entries[..i], stamp, now);
        state == accounts + found && used == known + Ids(found) && |found| == i
      invariant changed == (i > 0)
    {
      assert entries[..i + 1][..i] == entries[..i];
      ghost var found := Discovered(known, entries[..i], stamp, now);
      var id := FreeDirectoryId(entries[i].dir, used, stamp);
      var account := NewAccount(id, entries[i].name, 0, now);
      DiscoverOneMore(known, entries, i, stamp, now);
      IdsGrow(found, account);
      state := state + [account];
      used := used + {id};
      changed := true;
      i := i + 1;
    }
    assert entries[..i] == entries;
  }

  method FreeDirectoryId(dir: string, used: set<string>, stamp: string) returns (id: string)
    ensures id == DiscoveredId(dir, used, stamp)
  {
    id := FreshNames.SanitizeAccountId(dir);
    if id == "" || id in used {
      id := FreshNames.UniqueFromUsed("profile-" + dir, used, stamp);
    }
  }

  lemma NothingDiscovered(used: set<string>, entries: seq<Entry>, stamp: string, now: nat)
    ensures Discovered(used, entries[..0], stamp, now) == [] && Ids([]) == {}
  {
  }

  lemma {:induction false} DiscoverOneMore(used: set<string>, entries: seq<Entry>, i: nat, stamp: string, now: nat)
    requires i < |entries|
    ensures var found := Discovered(used, entries[..i], stamp, now);
      Discovered(used, entries[..i + 1], stamp, now)
      == found + [NewAccount(DiscoveredId(entries[i].dir, used + Ids(found), stamp), entries[i].name, 0, now)]
  {
    assert entries[..i + 1][..i] == entries[..i];
  }

  lemma IdsGrow(accounts: seq<Account>, a: Account)
    ensures Ids(accounts + [a]) == Ids(accounts) + {a.id}
  {
    var next := accounts + [a];
    assert next[|accounts|] == a;
    forall id | id in Ids(accounts) ensures id in Ids(next) {
      var i :| 0 <= i < |accounts| && accounts[i].id == id;
      assert next[i].id == id;
    }
  }

  lemma {:induction false} PutAdds(doc: Doc, found: seq<Account>, now: nat)
    ensures PutAll(doc, Adds(found), now) == doc.(accounts := doc.accounts + found)
  {
    if found == [] {
      assert doc.accounts + found == doc.accounts;
    } else {
      var n := |found| - 1;
      PutAdds(doc, found[..n], now);
      assert Adds(found)[..n] == Adds(found[..n]);
      assert doc.accounts + found == doc.accounts + found[..n] + [found[n]];
    }
  }

  method ChooseId(id: string, derived: string, accounts: seq<Account>, stamp: string) returns (r: string)
    ensures r == IdFor(id, derived, Ids(accounts), stamp)
  {
    r := id;
    if Blank(r) {
      r := FreshNames.SanitizeAccountId(derived);
      if r == "" {
        r := FreshNames.UniqueFromUsed("profile-" + stamp, Ids(accounts), stamp);
      }
    }
  }

  /** What storing a created or refused account amounts to. */
  lemma StoringPuts(doc: Doc, outcome: Stored, now: nat)
    requires !outcome.Overwritten?
    ensures PutAll(doc, Storing(outcome).writes, now)
         == if outcome.Created? then doc.(accounts := doc.accounts + [outcome.account]) else doc
  {
    PutNone(doc, now);
    if outcome.Created? { PutOne(doc, Add(outcome.account), now); }
  }

  lemma {:induction false} UpsertShape(accounts: seq<Account>, p: Profile, now: nat)
    ensures var s := Upsert(accounts, p, now);
      && (s.Overwritten? ==> s.i < |accounts| && s.account.id == accounts[s.i].id)
      && (s.Created? ==> Find(accounts, s.account.id) == |accounts|)
  {
    hide IdFor, Blank, Active, FreshNames.MatchesIdPattern;
  }

  lemma CreatedRefined(doc: Doc, a: Account, s: Snapshot, now: nat)
    requires Find(doc.accounts, a.id) == |doc.accounts|
    ensures var once, r := PutAll(doc, [Add(a)], now), Refined(a, s, now);
      && Find(once.accounts, a.id) == |doc.accounts| < |once.accounts| && once.accounts[|doc.accounts|] == a
      && PutAll(doc, [Add(r)], now) == once.(accounts := once.accounts[|doc.accounts| := r])
  {
    hide Refined;
    PutOne(doc, Add(a), now);
    PutOne(doc, Add(Refined(a, s, now)), now);
    FindAppended(doc.accounts, a);
  }

  /** The first account with the id just stored, whether or not it is the one just stored. */
  lemma OverwrittenRefined(doc: Doc, i: nat, a: Account, s: Snapshot, now: nat)
    requires i < |doc.accounts| && a.id == doc.accounts[i].id
    ensures var once, d := PutAll(doc, [Update(i, a)], now), Refining(doc.accounts, i, a, s, now);
      var j := Find(once.accounts, a.id);
      && j < |once.accounts| && !d.sweep
      && d.reply == With(Refined(once.accounts[j], s, now))
      && PutAll(doc, d.writes, now) == once.(accounts := once.accounts[j := Refined(once.accounts[j], s, now)])
  {
    hide Refined;
    var next := doc.accounts[i := a];
    PutOne(doc, Update(i, a), now);
    SameFind(doc.accounts, next, a.id);
    var j := Find(doc.accounts, a.id);
    if j < i {
      PutTwo(doc, Update(i, a), Update(j, Refined(doc.accounts[j], s, now)), now);
    } else {
      PutOne(doc, Update(i, Refined(a, s, now)), now);
    }
  }

  lemma SameFind(before: seq<Account>, after: seq<Account>, id: string)
    requires |before| == |after| && forall k :: 0 <= k < |before| ==> after[k].id == before[k].id
    ensures Find(after, id) == Find(before, id)
  {
  }

  method RefineFields(a: Account, s: Snapshot, now: nat) returns (account: Account)
    ensures account == Refined(a, s, now)
  {
    account := a;
    if !Blank(s.name) {
      account := account.(name := TrimSpace(s.name));
    }
    if !Blank(s.plan) {
      account := account.(plan := TrimSpace(s.plan));
    }
    if s.status.Known? {
      account := account.(status := s.status.value);
    }
    if s.owner.Known? {
      account := account.(owner := s.owner.value);
    }
    if !Blank(s.ownerClientId) {
      account := account.(ownerClientId := TrimSpace(s.ownerClientId));
    } else if s.owner == Known(Client) && !Blank(s.sourceClient) {
      account := account.(ownerClientId := TrimSpace(s.sourceClient));
    }
    account := account.(updatedAt := now);
  }

  method UploadFields(a: Account, s: Snapshot, ttl: int, now: nat) returns (account: Account)
    ensures account == Uploaded(a, s, ttl, now)
  {
    account := a;
    if !Blank(s.name) {
      account := account.(name := TrimSpace(s.name));
    }
    if !Blank(s.plan) {
      account := account.(plan := TrimSpace(s.plan));
    }
    if s.status.Known? {
      account := account.(status := s.status.value);
    }
    account := account.(generation := account.generation + 1);
    account := account.(lease := account.lease.(holder := FirstNonEmpty(s.sourceClient, account.lease.holder)));
    account := account.(lease := account.lease.(heartbeatAt := now, expiresAt := now + NormalizeTtl(ttl)), updatedAt := now);
  }

  method AssessFields(a: Account, result: QuotaResult, authChanged: bool, now: nat) returns (account: Account)
    ensures account == Assessed(a, result, authChanged, now)
  {
    account := a;
    if result.status == RefreshInvalid {
      if account.status == Ready || account.status == Recovering {
        account := account.(status := Drain);
      }
      account := account.(lastError := QuotaDetail(result.detail), updatedAt := now);
    } else if result.status == Supported {
      if !Blank(result.plan) {
        account := account.(plan := result.plan);
      }
      if account.status == Recovering {
        account := account.(status := Ready);
      }
      account := account.(lastError := NoError);
      if authChanged {
        account := account.(generation := account.generation + 1);
      }
      account := account.(updatedAt := now);
    } else if authChanged {
      account := account.(generation := account.generation + 1, updatedAt := now);
    }
  }

  lemma PutNone(doc: Doc, now: nat)
    ensures PutAll(doc, [], now) == doc
  {
  }

  lemma {:induction false} SweepsNothing(accounts: seq<Account>, now: nat)
    requires ExpiredIds(accounts, now) == []
    ensures SweepWrites(accounts, now) == []
  {
    if accounts != [] { SweepsNothing(accounts[..|accounts| - 1], now); }
  }

  /** A sweep that expires nothing changes nothing. */
  lemma NothingLapsed(doc: Doc, now: nat)
    ensures ExpiredIds(doc.accounts, now) == [] ==> Swept(doc, now) == doc
    ensures Step(doc, Sweep, now) == Swept(doc, now)
  {
    if ExpiredIds(doc.accounts, now) == [] { SweepsNothing(doc.accounts, now); }
    PutNone(Swept(doc, now), now);
  }

  lemma {:induction false} PutAllKeepsQuota(doc: Doc, xs: seq<Write>, now: nat)
    requires forall k :: 0 <= k < |xs| ==> !xs[k].Cache?
    ensures PutAll(doc, xs, now).quota == doc.quota
  {
    if xs != [] { PutAllKeepsQuota(doc, xs[..|xs| - 1], now); }
  }

  lemma {:induction false} SweepWritesNoCache(accounts: seq<Account>, now: nat)
    ensures forall k :: 0 <= k < |SweepWrites(accounts, now)| ==> !SweepWrites(accounts, now)[k].Cache?
  {
    if accounts != [] { SweepWritesNoCache(accounts[..|accounts| - 1], now); }
  }

  lemma SweepKeepsQuota(doc: Doc, now: nat)
    ensures Swept(doc, now).quota == doc.quota
  {
    SweepWritesNoCache(doc.accounts, now);
    PutAllKeepsQuota(doc, SweepWrites(doc.accounts, now), now);
  }
}
