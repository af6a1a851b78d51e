/**
 What `Load` does to a stored document: defaults, the one-time move of a flat
 account pool into the default workspace, and the one-time creation of users for
 legacy clients (internal/manager/manager.go). Instants are integers.
 */
module Migration {
  import opened Text
  import opened FreshNames

  datatype Account = Account(id: string, status: string, ownerMode: string, workspaceId: string, generation: int)
  datatype Client = Client(id: string, userId: string, name: string, createdAt: int)
  datatype User = User(id: string, username: string, createdAt: int, updatedAt: int)
  datatype Workspace = Workspace(id: string, name: string, createdAt: int, updatedAt: int)
  datatype Membership = Membership(workspaceId: string, userId: string, clientId: string, role: string, createdAt: int)

  datatype State = State(
    version: int,
    accounts: seq<Account>, clients: seq<Client>, users: seq<User>,
    workspaces: seq<Workspace>, memberships: seq<Membership>,
    workspaceMigrated: bool, userDeviceMigrated: bool)

  const DEFAULT_WORKSPACE := "default"

  // ---------- Defaults ----------

  function NormalAccount(a: Account): Account {
    a.(status := if a.status == "ready" || a.status == "recovering" || a.status == "drain" || a.status == "disabled"
                 then a.status else "ready",
       ownerMode := if a.ownerMode == "cloud" || a.ownerMode == "client" then a.ownerMode else "cloud",
       workspaceId := if Blank(a.workspaceId) then DEFAULT_WORKSPACE else a.workspaceId,
       generation := if a.generation < 0 then 0 else a.generation)
  }

  function NormalAccounts(s: seq<Account>): seq<Account> {
    seq(|s|, i requires 0 <= i < |s| => NormalAccount(s[i]))
  }

  function NormalUsers(s: seq<User>): seq<User> {
    seq(|s|, i requires 0 <= i < |s| => s[i].(username := ToLower(TrimSpace(s[i].username))))
  }

  function Defaults(s: State): State {
    s.(version := if s.version == 0 then 1 else s.version,
       accounts := NormalAccounts(s.accounts),
       users := NormalUsers(s.users))
  }

  // ---------- The default workspace ----------

  predicate HasWorkspace(ws: seq<Workspace>, id: string) {
    exists i :: 0 <= i < |ws| && ws[i].id == id
  }

  predicate AccountInDefault(accounts: seq<Account>) {
    exists i :: 0 <= i < |accounts| && accounts[i].workspaceId == DEFAULT_WORKSPACE
  }

  /** The signature of a document that predates workspaces. */
  predicate LegacyFlatPool(s: State) {
    !s.workspaceMigrated && s.workspaces == [] && s.accounts != []
  }

  /** The key under which a membership is looked up: both ids joined by a NUL. */
  function Key(workspaceId: string, clientId: string): string {
    workspaceId + "\0" + clientId
  }

  function Keys(ms: seq<Membership>): set<string> {
    set i | 0 <= i < |ms| :: Key(ms[i].workspaceId, ms[i].clientId)
  }

  function Enrollment(c: Client, now: int): Membership {
    Membership(DEFAULT_WORKSPACE, "", c.id, "member", now)
  }

  /** Enrolls each client that is not a member yet. */
  function Enroll(ms: seq<Membership>, clients: seq<Client>, now: int): seq<Membership> {
    if clients == [] then ms
    else
      var before, c := Enroll(ms, clients[..|clients| - 1], now), clients[|clients| - 1];
      if Key(DEFAULT_WORKSPACE, c.id) in Keys(before) then before else before + [Enrollment(c, now)]
  }

  function WithDefaultWorkspace(s: State, now: int): State {
    var legacy := LegacyFlatPool(s);
    var added := s.(workspaces :=
      if (AccountInDefault(s.accounts) || legacy) && !HasWorkspace(s.workspaces, DEFAULT_WORKSPACE)
      then s.workspaces + [Workspace(DEFAULT_WORKSPACE, "Default", now, now)]
      else s.workspaces);
    if legacy then added.(memberships := Enroll(s.memberships, s.clients, now), workspaceMigrated := true)
    else added
  }

  // ---------- Users for legacy clients ----------

  /** The documents and the names handed out so far while users are created. */
  datatype Progress = Progress(
    clients: seq<Client>, users: seq<User>, memberships: seq<Membership>,
    usedIds: set<string>, usedNames: set<string>)

  function LoginName(c: Client): string {
    var base := if Blank(c.name) then c.id else TrimSpace(c.name);
    var name := ToLower(Sanitize(base));
    if name == "" then "user" else name
  }

  /** Points the memberships of a client at its new user, unless they already name one. */
  function Adopt(ms: seq<Membership>, clientId: string, userId: string): seq<Membership> {
    seq(|ms|, i requires 0 <= i < |ms| =>
      if ms[i].clientId == clientId && Blank(ms[i].userId) then ms[i].(userId := userId) else ms[i])
  }

  function NewUsername(p: Progress, i: nat, stamp: string): string
    requires i < |p.clients|
  {
    UniqueName(LoginName(p.clients[i]), p.usedNames, stamp)
  }

  function NewUserId(p: Progress, i: nat, stamp: string): string
    requires i < |p.clients|
  {
    UniqueName("user-" + NewUsername(p, i, stamp), p.usedIds, stamp)
  }

  function AddUser(p: Progress, i: nat, username: string, userId: string, now: int): Progress
    requires i < |p.clients|
  {
    var c := p.clients[i];
    Progress(p.clients[i := c.(userId := userId)],
             p.users + [User(userId, username, c.createdAt, now)],
             Adopt(p.memberships, c.id, userId),
             p.usedIds + {userId}, p.usedNames + {username})
  }

  function UserStep(p: Progress, i: nat, now: int, stamp: string): Progress
    requires i < |p.clients|
  {
    if !Blank(p.clients[i].userId) then p
    else AddUser(p, i, NewUsername(p, i, stamp), NewUserId(p, i, stamp), now)
  }

  function UserSteps(s: State, n: nat, now: int, stamp: string): (p: Progress)
    requires n <= |s.clients|
    ensures |p.clients| == |s.clients|
  {
    if n == 0 then Progress(s.clients, s.users, s.memberships, {}, {})
    else UserStep(UserSteps(s, n - 1, now, stamp), n - 1, now, stamp)
  }

  lemma UserStepsNext(s: State, n: nat, now: int, stamp: string)
    requires n < |s.clients|
    ensures UserSteps(s, n + 1, now, stamp) == UserStep(UserSteps(s, n, now, stamp), n, now, stamp)
  {
    hide UserStep;
  }

  lemma UserStepIs(p: Progress, i: nat, now: int, stamp: string)
    requires i < |p.clients|
    ensures var username := UniqueName(LoginName(p.clients[i]), p.usedNames, stamp);
      var userId := UniqueName("user-" + username, p.usedIds, stamp);
      UserStep(p, i, now, stamp) == if Blank(p.clients[i].userId) then AddUser(p, i, username, userId, now) else p
  {
    hide UniqueName, LoginName, AddUser;
  }

  lemma UserStepsStart(s: State, now: int, stamp: string)
    ensures UserSteps(s, 0, now, stamp) == Progress(s.clients, s.users, s.memberships, {}, {})
  {
    hide UserStep;
  }

  function WithUsers(s: State, now: int, stamp: string): State {
    if s.userDeviceMigrated then s
    else if s.users != [] || s.clients == [] then s.(userDeviceMigrated := true)
    else
      var p := UserSteps(s, |s.clients|, now, stamp);
      s.(clients := p.clients, users := p.users, memberships := p.memberships, userDeviceMigrated := true)
  }

  function Normalize(s: State, now: int, stamp: string): State {
    WithUsers(WithDefaultWorkspace(Defaults(s), now), now, stamp)
  }

  // ---------- The loops ----------

  /** The loaded document while it is being normalized in place. */
  class Document {
    var state: State

    constructor (state: State)
      ensures this.state == state
    {
      this.state := state;
    }

    method NormalizeState(now: int, stamp: string)
      modifies this
      ensures state == Normalize(old(state), now, stamp)
    {
      if state.version == 0 {
        state := state.(version := 1);
      }
      hide NormalAccounts, NormalUsers, WithDefaultWorkspace, WithUsers;
      var accounts := DefaultAccounts(state.accounts);
      state := state.(accounts := accounts);
      var users := LowerUsernames(state.users);
      state := state.(users := users);
      MigrateDefaultWorkspace(now);
      MigrateUsersAndDevices(now, stamp);
    }

    static method DefaultAccounts(accounts: seq<Account>) returns (r: seq<Account>)
      ensures r == NormalAccounts(accounts)
    {
      hide NormalAccount;
      r := accounts;
      var i := 0;
      while i < |r|
        invariant 0 <= i <= |r| == |accounts|
        invariant forall k :: 0 <= k < i ==> r[k] == NormalAccount(accounts[k])
        invariant forall k :: i <= k < |r| ==> r[k] == accounts[k]
      {
        r := r[i := NormalAccount(r[i])];
        i := i + 1;
      }
    }

    static method LowerUsernames(users: seq<User>) returns (r: seq<User>)
      ensures r == NormalUsers(users)
    {
      hide ToLower, TrimSpace;
      r := users;
      var i := 0;
      while i < |r|
        invariant 0 <= i <= |r| == |users|
        invariant forall k :: 0 <= k < i ==> r[k] == NormalUsers(users)[k]
        invariant forall k :: i <= k < |r| ==> r[k] == users[k]
      {
        var u := r[i];
        r := r[i := u.(username := ToLower(TrimSpace(u.username)))];
        i := i + 1;
      }
    }

    method MigrateDefaultWorkspace(now: int)
      modifies this
      ensures state == WithDefaultWorkspace(old(state), now)
    {
      var legacyFlatPool := !state.workspaceMigrated && |state.workspaces| == 0 && |state.accounts| > 0;
      var accountInDefault := false;
      var i := 0;
      while i < |state.accounts| && !accountInDefault
        invariant 0 <= i <= |state.accounts| && state == old(state)
        invariant accountInDefault ==> AccountInDefault(state.accounts)
        invariant !accountInDefault ==> forall k :: 0 <= k < i ==> state.accounts[k].workspaceId != DEFAULT_WORKSPACE
      {
        accountInDefault := state.accounts[i].workspaceId == DEFAULT_WORKSPACE;
        i := i + 1;
      }
      assert accountInDefault <==> AccountInDefault(state.accounts);
      if (accountInDefault || legacyFlatPool) && !HasWorkspace(state.workspaces, DEFAULT_WORKSPACE) {
        state := state.(workspaces := state.workspaces + [Workspace(DEFAULT_WORKSPACE, "Default", now, now)]);
      }
      if !legacyFlatPool {
        return;
      }
      ghost var added := state;
      var existing := Keys(state.memberships);
      var memberships := state.memberships;
      i := 0;
      while i < |state.clients|
        invariant 0 <= i <= |state.clients| && state == added
        invariant memberships == Enroll(state.memberships, state.clients[..i], now)
        invariant existing == Keys(memberships)
      {
        assert state.clients[..i + 1][..i] == state.clients[..i];
        var client := state.clients[i];
        var key := Key(DEFAULT_WORKSPACE, client.id);
        if key !in existing {
          KeysAppend(memberships, Enrollment(client, now));
          memberships := memberships + [Enrollment(client, now)];
          existing := existing + {key};
        }
        i := i + 1;
      }
      assert state.clients[..i] == state.clients;
      state := state.(memberships := memberships, workspaceMigrated := true);
    }

    method MigrateUsersAndDevices(now: int, stamp: string)
      modifies this
      ensures state == WithUsers(old(state), now, stamp)
    {
      hide UserSteps;
      if state.userDeviceMigrated {
        return;
      }
      if |state.users| > 0 || |state.clients| == 0 {
        state := state.(userDeviceMigrated := true);
        return;
      }
      GiveUsers(now, stamp);
      state := state.(userDeviceMigrated := true);
    }

    /** The loop over the clients: each one without a user is given one. */
    method GiveUsers(now: int, stamp: string)
      modifies this
      ensures var p := UserSteps(old(state), |old(state.clients)|, now, stamp);
        state == old(state).(clients := p.clients, users := p.users, memberships := p.memberships)
    {
      hide UserSteps, UniqueName, LoginName, Blank, Adopt, UserStep, NewUsername, NewUserId, AddUser, WithUser;
      var usedUserIds: set<string>, usedUsernames: set<string> := {}, {};
      ghost var before := state;
      UserStepsStart(before, now, stamp);
      var i := 0;
      while i < |state.clients|
        invariant 0 <= i <= |state.clients| == |before.clients|
        invariant UserSteps(before, i, now, stamp) ==
          Progress(state.clients, state.users, state.memberships, usedUserIds, usedUsernames)
        invariant state == before.(clients := state.clients, users := state.users, memberships := state.memberships)
      {
        var client := state.clients[i];
        UserStepsNext(before, i, now, stamp);
        UserStepIs(UserSteps(before, i, now, stamp), i, now, stamp);
        if Blank(client.userId) {
          var username := UniqueFromUsed(LoginName(client), usedUsernames, stamp);
          var userId := UniqueFromUsed("user-" + username, usedUserIds, stamp);
          WithUserIsAddUser(state, i, username, userId, usedUserIds, usedUsernames, now);
          usedUsernames := usedUsernames + {username};
          usedUserIds := usedUserIds + {userId};
          GiveUser(i, username, userId, now);
        }
        i := i + 1;
      }
    }

    method GiveUser(i: nat, username: string, userId: string, now: int)
      requires i < |state.clients|
      modifies this
      ensures state == WithUser(old(state), i, username, userId, now)
    {
      var client := state.clients[i];
      state := state.(users := state.users + [User(userId, username, client.createdAt, now)],
                      clients := state.clients[i := client.(userId := userId)]);
      var memberships := AdoptAll(state.memberships, client.id, userId);
      state := state.(memberships := memberships);
    }

    static method AdoptAll(ms: seq<Membership>, clientId: string, userId: string) returns (r: seq<Membership>)
      ensures r == Adopt(ms, clientId, userId)
    {
      r := ms;
      var j := 0;
      while j < |r|
        invariant 0 <= j <= |r| == |ms|
        invariant forall k :: 0 <= k < j ==> r[k] == Adopt(ms, clientId, userId)[k]
        invariant forall k :: j <= k < |r| ==> r[k] == ms[k]
      {
        if r[j].clientId == clientId && Blank(r[j].userId) {
          r := r[j := r[j].(userId := userId)];
        }
        j := j + 1;
      }
    }
  }

  /** The document after one client has been given its user. */
  function WithUser(s: State, i: nat, username: string, userId: string, now: int): State
    requires i < |s.clients|
  {
    var c := s.clients[i];
    s.(clients := s.clients[i := c.(userId := userId)],
       users := s.users + [User(userId, username, c.createdAt, now)],
       memberships := Adopt(s.memberships, c.id, userId))
  }

  lemma WithUserIsAddUser(s: State, i: nat, username: string, userId: string, usedIds: set<string>, usedNames: set<string>,
                          now: int)
    requires i < |s.clients|
    ensures var r := WithUser(s, i, username, userId, now);
      && |r.clients| == |s.clients|
      && r == s.(clients := r.clients, users := r.users, memberships := r.memberships)
      && AddUser(Progress(s.clients, s.users, s.memberships, usedIds, usedNames), i, username, userId, now)
         == Progress(r.clients, r.users, r.memberships, usedIds + {userId}, usedNames + {username})
  {
    hide Adopt;
  }

  lemma KeysAppend(ms: seq<Membership>, m: Membership)
    ensures Keys(ms + [m]) == Keys(ms) + {Key(m.workspaceId, m.clientId)}
  {
    var all := ms + [m];
    forall k | k in Keys(ms) + {Key(m.workspaceId, m.clientId)} ensures k in Keys(all) {
      if k in Keys(ms) {
        var i :| 0 <= i < |ms| && Key(ms[i].workspaceId, ms[i].clientId) == k;
        assert all[i] == ms[i];
      } else {
        assert all[|ms|] == m;
      }
    }
  }
}
