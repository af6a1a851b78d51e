/**
 The conflict rules by which whole-state saves from several server processes meet
 in Postgres (internal/manager/store_postgres.go). Instants are integers and 0
 stands for a missing one.
 */
module RowMerge {
  import opened Wrappers

  /** The columns of `cube_accounts` that an update overwrites together; `name` is the label column. */
  datatype Columns = Columns(
    name: string, plan: string, status: string, codexHome: string, workspaceId: string,
    ownerMode: string, ownerClientId: string, generation: int,
    leaseId: string, leaseClientId: string, leaseHolder: string,
    leaseStartedAt: int, leaseHeartbeatAt: int, leaseExpiresAt: int,
    authJson: string, lastError: string)

  datatype AccountRow = AccountRow(id: string, createdAt: int, updatedAt: int, columns: Columns)

  datatype ClientRow = ClientRow(
    id: string, userId: string, name: string, tokenHash: string,
    createdAt: int, lastSeenAt: int, revokedAt: Option<int>)

  type AccountTable = map<string, AccountRow>
  type ClientTable = map<string, ClientRow>

  /** INSERT ... ON CONFLICT (id) DO UPDATE ... WHERE the stored row is not newer. */
  function UpsertAccount(table: AccountTable, row: AccountRow): AccountTable {
    if row.id !in table then table[row.id := row]
    else if table[row.id].updatedAt <= row.updatedAt
    then table[row.id := row.(createdAt := table[row.id].createdAt)]
    else table
  }

  function LaterSeen(stored: int, excluded: int): int {
    if stored == 0 then excluded else if excluded == 0 then stored
    else if excluded > stored then excluded else stored
  }

  /** Clients have no version column; each field has its own rule. */
  function UpsertClient(table: ClientTable, row: ClientRow): ClientTable {
    if row.id !in table then table[row.id := row]
    else
      var stored := table[row.id];
      table[row.id := ClientRow(
        row.id,
        if row.userId != "" then row.userId else stored.userId,
        row.name,
        if row.tokenHash != "" then row.tokenHash else stored.tokenHash,
        stored.createdAt,
        LaterSeen(stored.lastSeenAt, row.lastSeenAt),
        if row.revokedAt.Some? then row.revokedAt else stored.revokedAt)]
  }

  function MergeAccounts(table: AccountTable, rows: seq<AccountRow>): AccountTable {
    if rows == [] then table else UpsertAccount(MergeAccounts(table, rows[..|rows| - 1]), rows[|rows| - 1])
  }

  function MergeClients(table: ClientTable, rows: seq<ClientRow>): ClientTable {
    if rows == [] then table else UpsertClient(MergeClients(table, rows[..|rows| - 1]), rows[|rows| - 1])
  }

  /** A save stamps rows that carry no times yet. */
  function Stamp(row: AccountRow, now: int): AccountRow {
    row.(createdAt := if row.createdAt == 0 then now else row.createdAt,
         updatedAt := if row.updatedAt == 0 then now else row.updatedAt)
  }

  function StampAll(rows: seq<AccountRow>, now: int): seq<AccountRow> {
    seq(|rows|, i requires 0 <= i < |rows| => Stamp(rows[i], now))
  }

  function StampClients(rows: seq<ClientRow>, now: int): seq<ClientRow> {
    seq(|rows|, i requires 0 <= i < |rows| =>
      if rows[i].createdAt == 0 then rows[i].(createdAt := now) else rows[i])
  }

  class CloudTables {
    var accounts: AccountTable
    var clients: ClientTable

    constructor ()
      ensures accounts == map[] && clients == map[]
    {
      accounts, clients := map[], map[];
    }

    /** One transaction: every row of the caller's snapshot, however old, meets the stored rows. */
    method SaveState(accountRows: seq<AccountRow>, clientRows: seq<ClientRow>, now: int)
      modifies this
      ensures accounts == MergeAccounts(old(accounts), StampAll(accountRows, now))
      ensures clients == MergeClients(old(clients), StampClients(clientRows, now))
    {
      SaveAccounts(accountRows, now);
      SaveClients(clientRows, now);
    }

    method SaveAccounts(rows: seq<AccountRow>, now: int)
      modifies this`accounts
      ensures accounts == MergeAccounts(old(accounts), StampAll(rows, now))
    {
      ghost var stamped := StampAll(rows, now);
      var i := 0;
      while i < |rows|
        invariant 0 <= i <= |rows|
        invariant accounts == MergeAccounts(old(accounts), stamped[..i])
      {
        var account := rows[i];
        if account.createdAt == 0 {
          account := account.(createdAt := now);
        }
        if account.updatedAt == 0 {
          account := account.(updatedAt := now);
        }
        assert stamped[i] == account;
        MergeOneMore(old(accounts), stamped, i);
        hide MergeAccounts, StampAll;
        if account.id !in accounts {
          accounts := accounts[account.id := account];
        } else if accounts[account.id].updatedAt <= account.updatedAt {
          accounts := accounts[account.id := account.(createdAt := accounts[account.id].createdAt)];
        }
        i := i + 1;
      }
      assert stamped[..i] == stamped;
    }

    method SaveClients(rows: seq<ClientRow>, now: int)
      modifies this`clients
      ensures clients == MergeClients(old(clients), StampClients(rows, now))
    {
      ghost var stamped := StampClients(rows, now);
      var i := 0;
      while i < |rows|
        invariant 0 <= i <= |rows|
        invariant clients == MergeClients(old(clients), stamped[..i])
      {
        var client := rows[i];
        if client.createdAt == 0 {
          client := client.(createdAt := now);
        }
        assert stamped[..i + 1][..i] == stamped[..i] && stamped[i] == client;
        clients := UpsertClient(clients, client);
        i := i + 1;
      }
      assert stamped[..i] == stamped;
    }
  }

  lemma MergeOneMore(table: AccountTable, rows: seq<AccountRow>, i: nat)
    requires i < |rows|
    ensures MergeAccounts(table, rows[..i + 1]) == UpsertAccount(MergeAccounts(table, rows[..i]), rows[i])
  {
    assert rows[..i + 1][..i] == rows[..i];
  }

  // ---------- Accounts: last writer wins ----------

  /** The versions of a row: everything stored at the start or saved since. */
  ghost predicate IsVersion(table: AccountTable, rows: seq<AccountRow>, id: string, row: AccountRow) {
    (id in table && row == table[id]) || (row in rows && row.id == id)
  }

  /** Within one id a timestamp names one version, and the creation time never changes. */
  ghost predicate OneVersionPerTime(table: AccountTable, rows: seq<AccountRow>) {
    forall id, a, b :: IsVersion(table, rows, id, a) && IsVersion(table, rows, id, b) ==>
      a.createdAt == b.createdAt && (a.updatedAt == b.updatedAt ==> a == b)
  }

  ghost predicate Keyed(table: AccountTable) {
    forall id :: id in table ==> table[id].id == id
  }

  /** The update time of a row never decreases, whatever is saved. */
  lemma {:induction false} UpdatedAtNeverDecreases(table: AccountTable, rows: seq<AccountRow>, id: string)
    requires id in table
    ensures id in MergeAccounts(table, rows)
    ensures table[id].updatedAt <= MergeAccounts(table, rows)[id].updatedAt
  {
    if rows != [] { UpdatedAtNeverDecreases(table, rows[..|rows| - 1], id); }
  }

  lemma PrefixVersions(table: AccountTable, rows: seq<AccountRow>)
    requires rows != [] && OneVersionPerTime(table, rows)
    ensures OneVersionPerTime(table, rows[..|rows| - 1])
  {
    var front := rows[..|rows| - 1];
    forall id, a, b | IsVersion(table, front, id, a) && IsVersion(table, front, id, b)
      ensures a.createdAt == b.createdAt && (a.updatedAt == b.updatedAt ==> a == b)
    {
      assert IsVersion(table, rows, id, a) && IsVersion(table, rows, id, b);
    }
  }

  /** After any saves a row is the newest of its versions. */
  lemma {:induction false} MergeKeepsNewest(table: AccountTable, rows: seq<AccountRow>, id: string)
    requires Keyed(table) && OneVersionPerTime(table, rows)
    ensures id in MergeAccounts(table, rows) <==> exists row :: IsVersion(table, rows, id, row)
    ensures id in MergeAccounts(table, rows) ==> IsVersion(table, rows, id, MergeAccounts(table, rows)[id])
    ensures forall row :: IsVersion(table, rows, id, row) ==>
      row.updatedAt <= MergeAccounts(table, rows)[id].updatedAt
  {
    if rows == [] {
      assert id in table ==> IsVersion(table, rows, id, table[id]);
    } else {
      var front, last := rows[..|rows| - 1], rows[|rows| - 1];
      PrefixVersions(table, rows);
      MergeKeepsNewest(table, front, id);
      assert forall row :: IsVersion(table, rows, id, row) <==>
        IsVersion(table, front, id, row) || (row == last && last.id == id);
      if last.id == id {
        assert IsVersion(table, rows, id, last);
      }
    }
  }

  /** What the tables end up with depends only on which versions were saved, not on order or repetition. */
  lemma MergeOrderInsensitive(table: AccountTable, rows: seq<AccountRow>, others: seq<AccountRow>)
    requires Keyed(table) && OneVersionPerTime(table, rows)
    requires forall row :: row in rows <==> row in others
    ensures MergeAccounts(table, rows) == MergeAccounts(table, others)
  {
    var a, b := MergeAccounts(table, rows), MergeAccounts(table, others);
    assert forall id, row :: IsVersion(table, rows, id, row) <==> IsVersion(table, others, id, row);
    forall id ensures id in a <==> id in b
      ensures id in a ==> a[id] == b[id]
    {
      MergeKeepsNewest(table, rows, id);
      MergeKeepsNewest(table, others, id);
      if id in a {
        assert IsVersion(table, rows, id, a[id]) && IsVersion(table, rows, id, b[id]);
      }
    }
  }

  lemma {:induction false} MergeConcat(table: AccountTable, rows: seq<AccountRow>, more: seq<AccountRow>)
    ensures MergeAccounts(table, rows + more) == MergeAccounts(MergeAccounts(table, rows), more)
  {
    if more == [] {
      assert rows + more == rows;
    } else {
      MergeConcat(table, rows, more[..|more| - 1]);
      assert (rows + more)[..|rows + more| - 1] == rows + more[..|more| - 1];
    }
  }

  /** Saving the same snapshot again changes nothing, even after other saves came in between. */
  lemma MergeIdempotent(table: AccountTable, rows: seq<AccountRow>, between: seq<AccountRow>)
    requires Keyed(table) && OneVersionPerTime(table, rows + between)
    ensures MergeAccounts(MergeAccounts(table, rows + between), rows) == MergeAccounts(table, rows + between)
  {
    MergeConcat(table, rows + between, rows);
    MergeOrderInsensitive(table, rows + between, rows + between + rows);
  }

  /** A snapshot row that is a version already seen cannot roll the stored row back. */
  lemma {:induction false} UntouchedRowsSurvive(table: AccountTable, rows: seq<AccountRow>, stale: seq<AccountRow>,
      id: string)
    requires Keyed(table) && OneVersionPerTime(table, rows)
    requires forall row :: row in stale && row.id == id ==> IsVersion(table, rows, id, row)
    requires id in MergeAccounts(table, rows)
    ensures var merged := MergeAccounts(table, rows);
      id in MergeAccounts(merged, stale) && MergeAccounts(merged, stale)[id] == merged[id]
    decreases |stale|
  {
    if stale != [] {
      var front, last := stale[..|stale| - 1], stale[|stale| - 1];
      UntouchedRowsSurvive(table, rows, front, id);
      if last.id == id {
        MergeKeepsNewest(table, rows, id);
        assert last in stale && IsVersion(table, rows, id, last);
      }
    }
  }

  ghost predicate DistinctRows(rows: seq<AccountRow>) {
    forall i, j :: 0 <= i < j < |rows| ==> rows[i].id != rows[j].id
  }

  /** A row that a save does not mention is left as it is. */
  lemma {:induction false} UnmentionedRowsStay(table: AccountTable, rows: seq<AccountRow>, id: string)
    requires id in table && forall r :: r in rows ==> r.id != id
    ensures id in MergeAccounts(table, rows) && MergeAccounts(table, rows)[id] == table[id]
  {
    if rows != [] { UnmentionedRowsStay(table, rows[..|rows| - 1], id); }
  }

  /** The save of a snapshot replaces a stored row exactly when its version of the row is not older. */
  lemma {:induction false} ReplacesIffNotOlder(table: AccountTable, rows: seq<AccountRow>, i: nat)
    requires DistinctRows(rows) && i < |rows| && rows[i].id in table
    ensures var merged, id := MergeAccounts(table, rows), rows[i].id;
      && id in merged
      && merged[id] == if table[id].updatedAt <= rows[i].updatedAt then rows[i].(createdAt := table[id].createdAt) else table[id]
  {
    var front := rows[..|rows| - 1];
    if i < |front| {
      ReplacesIffNotOlder(table, front, i);
    } else {
      UnmentionedRowsStay(table, front, rows[i].id);
    }
  }

  /** A row saved without times counts as made now: it replaces any stored row that is not from the future. */
  lemma UntimedRowIsFromNow(table: AccountTable, rows: seq<AccountRow>, now: int, i: nat)
    requires DistinctRows(rows) && i < |rows| && rows[i].id in table && rows[i].updatedAt == 0
    ensures var stored, merged := table[rows[i].id], MergeAccounts(table, StampAll(rows, now));
      && rows[i].id in merged
      && (stored.updatedAt <= now ==>
            merged[rows[i].id] == AccountRow(rows[i].id, stored.createdAt, now, rows[i].columns))
      && (stored.updatedAt > now ==> merged[rows[i].id] == stored)
  {
    ReplacesIffNotOlder(table, StampAll(rows, now), i);
  }

  /** A row that carries a time is saved under it, and a new one with the time it was made. */
  lemma {:induction false} NewRowIsStored(table: AccountTable, rows: seq<AccountRow>, now: int, i: nat)
    requires DistinctRows(rows) && i < |rows| && rows[i].id !in table
    ensures var merged, row := MergeAccounts(table, StampAll(rows, now)), rows[i];
      && row.id in merged
      && merged[row.id] == AccountRow(row.id, if row.createdAt == 0 then now else row.createdAt,
                                      if row.updatedAt == 0 then now else row.updatedAt, row.columns)
  {
    var stamped := StampAll(rows, now);
    StoredByItsRow(table, stamped, i);
  }

  lemma {:induction false} StoredByItsRow(table: AccountTable, rows: seq<AccountRow>, i: nat)
    requires DistinctRows(rows) && i < |rows| && rows[i].id !in table
    ensures rows[i].id in MergeAccounts(table, rows) && MergeAccounts(table, rows)[rows[i].id] == rows[i]
  {
    var front := rows[..|rows| - 1];
    if i < |front| {
      StoredByItsRow(table, front, i);
    } else {
      AbsentUntilSaved(table, front, rows[i].id);
    }
  }

  lemma {:induction false} AbsentUntilSaved(table: AccountTable, rows: seq<AccountRow>, id: string)
    requires id !in table && forall r :: r in rows ==> r.id != id
    ensures id !in MergeAccounts(table, rows)
  {
    if rows != [] { AbsentUntilSaved(table, rows[..|rows| - 1], id); }
  }

  /**
   The rule protects rows, not fields: a process that relabels an account from a
   snapshot taken before another process leased it overwrites the lease columns.
   */
  lemma StaleEditErasesLease() returns (claimed: AccountTable, edit: AccountRow)
    ensures "a" in claimed && claimed["a"].columns.leaseId == "lease_1" && edit.columns.leaseId == ""
    ensures UpsertAccount(claimed, edit)["a"].columns.leaseId == ""
  {
    var free := Columns("old", "", "ready", "", "default", "cloud", "", 1, "", "", "", 0, 0, 0, "", "");
    var leased := free.(leaseId := "lease_1", leaseStartedAt := 20, leaseHeartbeatAt := 20, leaseExpiresAt := 110);
    claimed := map["a" := AccountRow("a", 10, 20, leased)];
    edit := AccountRow("a", 10, 30, free.(name := "new"));
  }

  /** A deleted row comes back exactly when some later save, however stale, still has it. */
  lemma {:induction false} DeletedReturnsIff(table: AccountTable, rows: seq<AccountRow>, id: string)
    ensures id in MergeAccounts(table - {id}, rows) <==> exists i :: 0 <= i < |rows| && rows[i].id == id
  {
    if rows != [] {
      var front := rows[..|rows| - 1];
      DeletedReturnsIff(table, front, id);
      assert (exists i :: 0 <= i < |front| && front[i].id == id) <==> (exists i :: 0 <= i < |front| && rows[i].id == id);
      assert rows[|front|].id == id ==> exists i :: 0 <= i < |rows| && rows[i].id == id;
    }
  }

  // ---------- Clients: field-wise joins ----------

  /** A revoked client stays revoked through every save. */
  lemma {:induction false} RevocationIsPermanent(table: ClientTable, rows: seq<ClientRow>, id: string)
    requires id in table
    ensures id in MergeClients(table, rows)
    ensures table[id].revokedAt.Some? ==> MergeClients(table, rows)[id].revokedAt.Some?
    ensures table[id].tokenHash != "" ==> MergeClients(table, rows)[id].tokenHash != ""
  {
    if rows != [] { RevocationIsPermanent(table, rows[..|rows| - 1], id); }
  }

  /** The last row of a client that has some property is the one at `i`. */
  ghost predicate LastRow(rows: seq<ClientRow>, id: string, has: ClientRow -> bool, i: int) {
    && 0 <= i < |rows| && rows[i].id == id && has(rows[i])
    && forall j :: i < j < |rows| ==> !(rows[j].id == id && has(rows[j]))
  }

  predicate IsRevoked(r: ClientRow) {
    r.revokedAt.Some?
  }

  predicate HasUser(r: ClientRow) {
    r.userId != ""
  }

  predicate HasToken(r: ClientRow) {
    r.tokenHash != ""
  }

  lemma {:induction false} LastRowExists(rows: seq<ClientRow>, id: string, has: ClientRow -> bool)
    ensures (exists j :: 0 <= j < |rows| && rows[j].id == id && has(rows[j])) ==> exists i :: LastRow(rows, id, has, i)
  {
    if rows != [] {
      var front, n := rows[..|rows| - 1], |rows| - 1;
      if rows[n].id == id && has(rows[n]) {
        assert LastRow(rows, id, has, n);
      } else {
        LastRowExists(front, id, has);
        if i :| LastRow(front, id, has, i) {
          assert LastRow(rows, id, has, i);
        }
        assert forall j :: 0 <= j < n ==> front[j] == rows[j];
      }
    }
  }

  lemma LastRowInFront(rows: seq<ClientRow>, id: string, has: ClientRow -> bool, i: int)
    requires LastRow(rows, id, has, i) && i < |rows| - 1
    ensures LastRow(rows[..|rows| - 1], id, has, i)
    ensures rows[|rows| - 1].id != id || !has(rows[|rows| - 1])
  {
  }

  /** The time of a revocation is that of the last saved row that has one, else the stored one. */
  lemma {:induction false} LastRevocationCounts(table: ClientTable, rows: seq<ClientRow>, id: string)
    requires id in MergeClients(table, rows)
    ensures forall i :: LastRow(rows, id, IsRevoked, i) ==> MergeClients(table, rows)[id].revokedAt == rows[i].revokedAt
    ensures (forall j :: 0 <= j < |rows| && rows[j].id == id ==> rows[j].revokedAt.None?) ==>
      MergeClients(table, rows)[id].revokedAt == if id in table then table[id].revokedAt else None
  {
    forall i | LastRow(rows, id, IsRevoked, i) ensures MergeClients(table, rows)[id].revokedAt == rows[i].revokedAt {
      LastRevocation(table, rows, id, i);
    }
    if forall j :: 0 <= j < |rows| && rows[j].id == id ==> rows[j].revokedAt.None? {
      assert forall r :: r in rows && r.id == id ==> !IsRevoked(r);
      RevocationStays(table, rows, id);
    }
  }

  lemma {:induction false} LastRevocation(table: ClientTable, rows: seq<ClientRow>, id: string, i: nat)
    requires LastRow(rows, id, IsRevoked, i)
    ensures id in MergeClients(table, rows) && MergeClients(table, rows)[id].revokedAt == rows[i].revokedAt
  {
    var front := rows[..|rows| - 1];
    if i < |front| {
      LastRowInFront(rows, id, IsRevoked, i);
      LastRevocation(table, front, id, i);
      NextRow(table, rows, id);
    }
  }

  lemma {:induction false} RevocationStays(table: ClientTable, rows: seq<ClientRow>, id: string)
    requires id in MergeClients(table, rows) && forall r :: r in rows && r.id == id ==> !IsRevoked(r)
    ensures MergeClients(table, rows)[id].revokedAt == if id in table then table[id].revokedAt else None
  {
    if rows != [] {
      var front := rows[..|rows| - 1];
      NeverSaved(table, front, id);
      if id in MergeClients(table, front) {
        RevocationStays(table, front, id);
        NextRow(table, rows, id);
      }
    }
  }

  /** A client without a row was neither stored nor saved. */
  lemma {:induction false} NeverSaved(table: ClientTable, rows: seq<ClientRow>, id: string)
    ensures id in MergeClients(table, rows) <==> id in table || exists i :: 0 <= i < |rows| && rows[i].id == id
  {
    if rows != [] {
      var front, n := rows[..|rows| - 1], |rows| - 1;
      NeverSaved(table, front, id);
      assert forall i :: 0 <= i < n ==> front[i] == rows[i];
    }
  }

  /** After any saves a client is revoked exactly when it was, or when some saved row of it is. */
  lemma {:induction false} RevokedIff(table: ClientTable, rows: seq<ClientRow>, id: string)
    requires id in MergeClients(table, rows)
    ensures MergeClients(table, rows)[id].revokedAt.Some? <==>
      (id in table && table[id].revokedAt.Some?) || exists i :: 0 <= i < |rows| && rows[i].id == id && rows[i].revokedAt.Some?
  {
    LastRevocationCounts(table, rows, id);
    LastRowExists(rows, id, IsRevoked);
    RevocationIsPermanentIf(table, rows, id);
  }

  lemma RevocationIsPermanentIf(table: ClientTable, rows: seq<ClientRow>, id: string)
    ensures id in table && table[id].revokedAt.Some? && id in MergeClients(table, rows) ==>
      MergeClients(table, rows)[id].revokedAt.Some?
  {
    if id in table { RevocationIsPermanent(table, rows, id); }
  }

  /** What the last row of a save does to a stored client. */
  lemma NextRow(table: ClientTable, rows: seq<ClientRow>, id: string)
    requires rows != [] && id in MergeClients(table, rows[..|rows| - 1])
    ensures id in MergeClients(table, rows)
    ensures var before, row, next := MergeClients(table, rows[..|rows| - 1])[id], rows[|rows| - 1], MergeClients(table, rows)[id];
      if row.id != id then next == before
      else
        && next.userId == (if HasUser(row) then row.userId else before.userId)
        && next.tokenHash == (if HasToken(row) then row.tokenHash else before.tokenHash)
        && next.name == row.name && next.createdAt == before.createdAt
        && next.revokedAt == (if IsRevoked(row) then row.revokedAt else before.revokedAt)
  {
  }

  /** The user of a client is that of the last row that has one. */
  lemma {:induction false} LastUserCounts(table: ClientTable, rows: seq<ClientRow>, id: string, i: nat)
    requires id in table && LastRow(rows, id, HasUser, i)
    ensures id in MergeClients(table, rows) && MergeClients(table, rows)[id].userId == rows[i].userId
  {
    var front := rows[..|rows| - 1];
    CreationStays(table, front, id);
    NextRow(table, rows, id);
    hide MergeClients;
    if i < |front| {
      LastRowInFront(rows, id, HasUser, i);
      LastUserCounts(table, front, id, i);
    }
  }

  lemma {:induction false} UserStays(table: ClientTable, rows: seq<ClientRow>, id: string)
    requires id in table && forall r :: r in rows && r.id == id ==> !HasUser(r)
    ensures id in MergeClients(table, rows) && MergeClients(table, rows)[id].userId == table[id].userId
  {
    if rows != [] {
      UserStays(table, rows[..|rows| - 1], id);
      NextRow(table, rows, id);
    }
  }

  /** The token of a client is that of the last row that has one. */
  lemma {:induction false} LastTokenCounts(table: ClientTable, rows: seq<ClientRow>, id: string, i: nat)
    requires id in table && LastRow(rows, id, HasToken, i)
    ensures id in MergeClients(table, rows) && MergeClients(table, rows)[id].tokenHash == rows[i].tokenHash
  {
    var front := rows[..|rows| - 1];
    CreationStays(table, front, id);
    NextRow(table, rows, id);
    hide MergeClients;
    if i < |front| {
      LastRowInFront(rows, id, HasToken, i);
      LastTokenCounts(table, front, id, i);
    }
  }

  lemma {:induction false} TokenStays(table: ClientTable, rows: seq<ClientRow>, id: string)
    requires id in table && forall r :: r in rows && r.id == id ==> !HasToken(r)
    ensures id in MergeClients(table, rows) && MergeClients(table, rows)[id].tokenHash == table[id].tokenHash
  {
    if rows != [] {
      TokenStays(table, rows[..|rows| - 1], id);
      NextRow(table, rows, id);
    }
  }

  /** The name of a client is the last one saved, and its creation time stays. */
  lemma {:induction false} LastNameCounts(table: ClientTable, rows: seq<ClientRow>, id: string, i: nat)
    requires id in table && i < |rows| && rows[i].id == id && forall j :: i < j < |rows| ==> rows[j].id != id
    ensures id in MergeClients(table, rows)
    ensures MergeClients(table, rows)[id].name == rows[i].name && MergeClients(table, rows)[id].createdAt == table[id].createdAt
  {
    var front := rows[..|rows| - 1];
    if i < |front| { LastNameCounts(table, front, id, i); } else { CreationStays(table, front, id); }
    NextRow(table, rows, id);
  }

  /** The creation time of a client stays, and so does the whole row when no save mentions it. */
  lemma {:induction false} CreationStays(table: ClientTable, rows: seq<ClientRow>, id: string)
    requires id in table
    ensures id in MergeClients(table, rows) && MergeClients(table, rows)[id].createdAt == table[id].createdAt
    ensures (forall j :: 0 <= j < |rows| ==> rows[j].id != id) ==> MergeClients(table, rows)[id] == table[id]
  {
    if rows != [] {
      var front := rows[..|rows| - 1];
      CreationStays(table, front, id);
      NextRow(table, rows, id);
      hide MergeClients;
      assert forall j :: 0 <= j < |front| ==> front[j] == rows[j];
    }
  }

  /** A client that was not stored is stored as its one row has it, with the time of the save if it has none. */
  lemma {:induction false} NewClientIsStored(table: ClientTable, rows: seq<ClientRow>, now: int, i: nat)
    requires i < |rows| && rows[i].id !in table && forall j :: 0 <= j < |rows| && j != i ==> rows[j].id != rows[i].id
    ensures var merged, row := MergeClients(table, StampClients(rows, now)), rows[i];
      && row.id in merged
      && merged[row.id] == row.(createdAt := if row.createdAt == 0 then now else row.createdAt)
  {
    var stamped, front := StampClients(rows, now), rows[..|rows| - 1];
    assert stamped[..|rows| - 1] == StampClients(front, now);
    if i < |front| {
      NewClientIsStored(table, front, now, i);
      NextRow(table, stamped, rows[i].id);
    } else {
      NeverSaved(table, StampClients(front, now), rows[i].id);
    }
  }

  /** The largest last-seen time among the stored row and the saved ones; 0 when none was ever seen. */
  function MaxSeen(table: ClientTable, rows: seq<ClientRow>, id: string): int {
    if rows == [] then (if id in table then table[id].lastSeenAt else 0)
    else
      var r, before := rows[|rows| - 1], MaxSeen(table, rows[..|rows| - 1], id);
      if r.id == id && r.lastSeenAt > before then r.lastSeenAt else before
  }

  ghost predicate SeenTimes(table: ClientTable, rows: seq<ClientRow>) {
    && (forall id :: id in table ==> table[id].lastSeenAt >= 0)
    && (forall r :: r in rows ==> r.lastSeenAt >= 0)
  }

  /** The stored last-seen time is the running maximum, however stale the snapshots are. */
  lemma {:induction false} LastSeenIsRunningMaximum(table: ClientTable, rows: seq<ClientRow>, id: string)
    requires SeenTimes(table, rows)
    ensures MaxSeen(table, rows, id) >= 0
    ensures id in MergeClients(table, rows) ==> MergeClients(table, rows)[id].lastSeenAt == MaxSeen(table, rows, id)
    ensures id !in MergeClients(table, rows) ==> MaxSeen(table, rows, id) == 0
  {
    if rows != [] {
      var front := rows[..|rows| - 1];
      assert forall r :: r in front ==> r in rows;
      LastSeenIsRunningMaximum(table, front, id);
    }
  }
}
