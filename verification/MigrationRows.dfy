/**
 The rows that normalization leaves behind: defaults, the workspace row, the new
 memberships, and whom each membership and each new user belongs to.
 */
module MigrationRows {
  import opened Text
  import opened FreshNames
  import opened Migration
  import opened MigrationLaws

  // ---------- Defaults and the workspace row ----------

  predicate KnownStatus(status: string) {
    status in ["ready", "recovering", "drain", "disabled"]
  }

  /** Fields that a document may have wrong or empty get their default, the others are kept. */
  lemma DefaultsRepairOnly(s: State, now: int, stamp: string, i: nat)
    requires i < |s.accounts|
    ensures var r := Normalize(s, now, stamp);
      && |r.accounts| == |s.accounts|
      && var a, b := r.accounts[i], s.accounts[i];
        && KnownStatus(a.status) && (a.status == b.status || (!KnownStatus(b.status) && a.status == "ready"))
        && (a.ownerMode == "cloud" || a.ownerMode == "client")
        && (b.ownerMode == "client" <==> a.ownerMode == "client")
        && a.id == b.id && a.generation >= 0 && (b.generation >= 0 ==> a.generation == b.generation)
        && (b.generation < 0 ==> a.generation == 0)
        && (if Blank(b.workspaceId) then a.workspaceId == "default" else a.workspaceId == b.workspaceId)
  {
    hide UserSteps, Enroll;
  }

  /** A document without a version gets the first one. */
  lemma VersionIsKept(s: State, now: int, stamp: string)
    ensures Normalize(s, now, stamp).version == if s.version == 0 then 1 else s.version
  {
    hide UserSteps, Enroll, NormalAccounts, NormalUsers;
  }

  /** The default workspace is added exactly when an account needs it or the pool is legacy, and it is not there. */
  lemma DefaultWorkspaceIff(s: State, now: int, stamp: string)
    ensures Normalize(s, now, stamp).workspaces ==
      if !HasWorkspace(s.workspaces, "default")
        && ((exists i :: 0 <= i < |s.accounts| && (Blank(s.accounts[i].workspaceId) || s.accounts[i].workspaceId == "default"))
            || (!s.workspaceMigrated && s.workspaces == [] && s.accounts != []))
      then s.workspaces + [Workspace("default", "Default", now, now)]
      else s.workspaces
  {
    hide UserSteps, Enroll, Blank;
    var accounts := Defaults(s).accounts;
    assert forall i :: 0 <= i < |s.accounts| ==>
      accounts[i].workspaceId == if Blank(s.accounts[i].workspaceId) then "default" else s.accounts[i].workspaceId;
  }

  // ---------- New memberships ----------

  /** Memberships before users are created: the stored ones, then one ordinary membership for each client enrolled now. */
  lemma {:induction false} EnrollmentsAreMembers(ms: seq<Membership>, clients: seq<Client>, now: int, j: nat)
    requires j < |Enroll(ms, clients, now)|
    ensures |ms| <= |Enroll(ms, clients, now)|
    ensures var m := Enroll(ms, clients, now)[j];
      if j < |ms| then m == ms[j]
      else m.workspaceId == "default" && m.role == "member" && m.userId == "" && m.createdAt == now && Listed(clients, m.clientId)
  {
    hide Keys, Key;
    if clients != [] {
      var front := clients[..|clients| - 1];
      EnrollNext(ms, clients, now);
      var before := Enroll(ms, front, now);
      if j < |before| {
        EnrollmentsAreMembers(ms, front, now, j);
        assert clients == front + [clients[|front|]];
        ListedAppend(front, clients[|front|], before[j].clientId);
      } else {
        if before != [] { EnrollmentsAreMembers(ms, front, now, 0); }
        EnrollKeeps(ms, front, now);
      }
    }
  }

  lemma {:induction false} EnrollKeeps(ms: seq<Membership>, clients: seq<Client>, now: int)
    ensures |ms| <= |Enroll(ms, clients, now)|
  {
    hide Keys, Key;
    if clients != [] { EnrollKeeps(ms, clients[..|clients| - 1], now); }
  }

  // ---------- Whose membership ----------

  /** The first client with this id that had no user is the one at `k`. */
  predicate FirstUnowned(clients: seq<Client>, clientId: string, k: int) {
    && 0 <= k < |clients| && clients[k].id == clientId && Blank(clients[k].userId)
    && forall j :: 0 <= j < k ==> !(clients[j].id == clientId && Blank(clients[j].userId))
  }

  /** What became of a membership after the first `n` clients. */
  ghost predicate Follows(clients: seq<Client>, after: seq<Client>, m: Membership, x: Membership, n: int)
    requires |after| == |clients|
  {
    if !Blank(m.userId) then x == m
    else
      && (forall k :: 0 <= k < n && FirstUnowned(clients, m.clientId, k) ==>
            !Blank(x.userId) && x == m.(userId := after[k].userId))
      && ((forall k :: 0 <= k < n ==> !FirstUnowned(clients, m.clientId, k)) ==> x == m)
  }

  lemma FollowsNext(clients: seq<Client>, p: Progress, m: Membership, j: nat, n: nat, now: int, stamp: string)
    requires n < |clients| == |p.clients| && j < |p.memberships| && Follows(clients, p.clients, m, p.memberships[j], n)
    requires p.clients[n] == clients[n] && !Blank(NewUserId(p, n, stamp))
    ensures var next := UserStep(p, n, now, stamp);
      && |next.clients| == |clients| && |next.memberships| == |p.memberships|
      && Follows(clients, next.clients, m, next.memberships[j], n + 1)
  {
    hide Blank, NewUserId, NewUsername;
    var x := p.memberships[j];
    assert forall k :: 0 <= k < n && FirstUnowned(clients, m.clientId, k) ==> !FirstUnowned(clients, m.clientId, n);
    if !Blank(m.userId) {
      assert x == m;
    } else if clients[n].id == m.clientId && Blank(clients[n].userId) && !FirstUnowned(clients, m.clientId, n) {
      var k := FirstBefore(clients, m.clientId, n);
    }
  }

  lemma {:induction false} FirstBefore(clients: seq<Client>, clientId: string, n: nat) returns (k: nat)
    requires n < |clients| && clients[n].id == clientId && Blank(clients[n].userId)
    ensures k <= n && FirstUnowned(clients, clientId, k)
  {
    hide Blank;
    k := 0;
    while !(clients[k].id == clientId && Blank(clients[k].userId))
      invariant k <= n
      invariant forall j :: 0 <= j < k ==> !(clients[j].id == clientId && Blank(clients[j].userId))
      decreases n - k
    {
      k := k + 1;
    }
  }

  lemma {:induction false} MembershipsSoFar(s: State, n: nat, now: int, stamp: string, j: nat)
    requires n <= |s.clients| && Unowned(s.clients, |s.clients|) <= NAME_LIMIT && IsStamp(stamp) && s.users == []
    requires j < |s.memberships|
    ensures var p := UserSteps(s, n, now, stamp);
      |p.memberships| == |s.memberships| && Follows(s.clients, p.clients, s.memberships[j], p.memberships[j], n)
  {
    hide Follows, UserSteps, UserStep, Served, Blank, NewUserId, IsStamp, Unowned;
    if n == 0 {
      UserStepsStart(s, now, stamp);
      StartFollows(s.clients, s.memberships[j]);
    } else {
      MembershipsSoFar(s, n - 1, now, stamp, j);
      UserStepsNext(s, n - 1, now, stamp);
      var p := UserSteps(s, n - 1, now, stamp);
      UserStepsServe(s, n - 1, now, stamp);
      if Blank(s.clients[n - 1].userId) {
        NewIdIsProper(s.clients, p, n - 1, stamp);
        FollowsNext(s.clients, p, s.memberships[j], j, n - 1, now, stamp);
      } else {
        OwnedIsLeftAlone(s.clients, p, s.memberships[j], j, n - 1, now, stamp);
      }
    }
  }

  lemma StartFollows(clients: seq<Client>, m: Membership)
    ensures Follows(clients, clients, m, m, 0)
  {
  }

  lemma NewIdIsProper(clients: seq<Client>, p: Progress, n: nat, stamp: string)
    requires n < |clients| && Unowned(clients, |clients|) <= NAME_LIMIT && IsStamp(stamp) && Served(clients, p, n)
    requires Blank(clients[n].userId)
    ensures |p.clients| == |clients| && p.clients[n] == clients[n] && !Blank(NewUserId(p, n, stamp))
  {
    hide NewUserId, NewUsername, Blank;
    UnownedBound(clients, n, |clients|);
    NewNamesAreFresh(p, n, Unowned(clients, n), stamp);
  }

  lemma OwnedIsLeftAlone(clients: seq<Client>, p: Progress, m: Membership, j: nat, n: nat, now: int, stamp: string)
    requires n < |clients| && Served(clients, p, n) && !Blank(clients[n].userId)
    requires j < |p.memberships| && |p.clients| == |clients| && Follows(clients, p.clients, m, p.memberships[j], n)
    ensures UserStep(p, n, now, stamp) == p && Follows(clients, p.clients, m, p.memberships[j], n + 1)
  {
    hide Blank;
    assert !FirstUnowned(clients, m.clientId, n);
  }

  /**
   When legacy clients are given users, a membership without a user goes to the user of the first
   client with its client id that had none, and every other membership stays as it was.
   */
  lemma {:induction false} MembershipsFollowTheirClients(s: State, now: int, stamp: string, j: nat)
    requires !s.userDeviceMigrated && s.users == [] && s.clients != []
    requires Unowned(s.clients, |s.clients|) <= NAME_LIMIT && IsStamp(stamp) && j < |s.memberships|
    ensures var r := Normalize(s, now, stamp);
      && |r.memberships| >= |s.memberships| && |r.clients| == |s.clients|
      && (!Blank(s.memberships[j].userId) ==> r.memberships[j] == s.memberships[j])
      && (forall k :: Blank(s.memberships[j].userId) && FirstUnowned(s.clients, s.memberships[j].clientId, k) ==>
            r.memberships[j] == s.memberships[j].(userId := r.clients[k].userId))
      && ((forall k :: !FirstUnowned(s.clients, s.memberships[j].clientId, k)) ==> r.memberships[j] == s.memberships[j])
  {
    var w := WithDefaultWorkspace(Defaults(s), now);
    StoredStay(s, now, j);
    hide Blank, FirstUnowned, Enroll, UserSteps;
    MembershipsSoFar(w, |w.clients|, now, stamp, j);
    hide WithDefaultWorkspace, Defaults;
    UserStepsServe(w, |w.clients|, now, stamp);
  }

  lemma StoredStay(s: State, now: int, j: nat)
    requires j < |s.memberships|
    ensures var w := WithDefaultWorkspace(Defaults(s), now);
      && |s.memberships| <= |w.memberships| && w.memberships[j] == s.memberships[j]
      && w.clients == s.clients && w.users == Defaults(s).users && w.userDeviceMigrated == s.userDeviceMigrated
      && (s.users == [] ==> w.users == [])
  {
    hide Keys, Key, Enroll;
    EnrollKeeps(s.memberships, s.clients, now);
    EnrollmentsAreMembers(s.memberships, s.clients, now, j);
  }

  // ---------- Whose user ----------

  /** The user made for a client without one carries the client's age and, when it is free, its cleaned name. */
  ghost predicate MadeFor(c: Client, users: seq<User>, u: nat, now: int) {
    && u < |users| && users[u].createdAt == c.createdAt && users[u].updatedAt == now
    && (users[u].username == LoginName(c) || exists v :: 0 <= v < u && users[v].username == LoginName(c))
  }

  /** A client with a proper name is called by it, one without a name by its proper id, in lower case. */
  lemma LoginNameIsTheirs(c: Client)
    ensures !Blank(c.name) && IsTidy(TrimSpace(c.name)) ==> LoginName(c) == ToLower(TrimSpace(c.name))
    ensures Blank(c.name) && IsTidy(c.id) ==> LoginName(c) == ToLower(c.id)
  {
    hide Sanitize, ToLower;
    if IsTidy(TrimSpace(c.name)) { SanitizeFixesIds(TrimSpace(c.name)); }
    if IsTidy(c.id) { SanitizeFixesIds(c.id); }
    assert forall s :: IsTidy(s) ==> |s| > 0 && |ToLower(s)| == |s|;
  }

  predicate IsTidy(id: string) {
    MatchesIdPattern(id) && !IsDash(id[|id| - 1])
  }

  ghost predicate NamesUsed(users: seq<User>, names: set<string>) {
    forall x :: x in names <==> exists v :: 0 <= v < |users| && users[v].username == x
  }

  ghost predicate KeptBut(clients: seq<Client>, after: seq<Client>) {
    && |clients| == |after|
    && forall i :: 0 <= i < |clients| ==> after[i] == clients[i].(userId := after[i].userId)
  }

  ghost predicate MadeForFirst(clients: seq<Client>, users: seq<User>, n: nat, now: int) {
    && n <= |clients|
    && forall i :: 0 <= i < n && Blank(clients[i].userId) ==> MadeFor(clients[i], users, Unowned(clients, i), now)
  }

  /** The clients keep all but their user; the first `n` have theirs made. */
  ghost predicate MadeSoFar(clients: seq<Client>, p: Progress, n: nat, now: int) {
    NamesUsed(p.users, p.usedNames) && KeptBut(clients, p.clients) && MadeForFirst(clients, p.users, n, now)
  }

  lemma CleanNameIsTaken(p: Progress, n: nat, c: Client, stamp: string)
    requires n < |p.clients| && p.clients[n].name == c.name && p.clients[n].id == c.id
    ensures LoginName(c) in p.usedNames || NewUsername(p, n, stamp) == LoginName(c)
  {
    LoginNameIsLower(c);
    assert LoginName(p.clients[n]) == LoginName(c);
    hide LoginName, Sanitize, FirstFree;
    SanitizeFixesIds(LoginName(c));
  }

  /** What a step does to the users, the names and the clients. */
  lemma StepMakes(p: Progress, n: nat, now: int, stamp: string)
    requires n < |p.clients| && Blank(p.clients[n].userId)
    ensures var next, c := UserStep(p, n, now, stamp), p.clients[n];
      && |next.users| == |p.users| + 1 && next.users[..|p.users|] == p.users
      && next.users[|p.users|].username == NewUsername(p, n, stamp)
      && next.users[|p.users|].createdAt == c.createdAt && next.users[|p.users|].updatedAt == now
      && next.usedNames == p.usedNames + {NewUsername(p, n, stamp)}
      && |next.clients| == |p.clients| && next.clients[n] == c.(userId := next.clients[n].userId)
      && forall k :: 0 <= k < |p.clients| && k != n ==> next.clients[k] == p.clients[k]
  {
    hide NewUsername, NewUserId, Adopt;
  }

  lemma MadeStays(c: Client, users: seq<User>, more: seq<User>, u: nat, now: int)
    requires MadeFor(c, users, u, now) && users <= more
    ensures MadeFor(c, more, u, now)
  {
    hide LoginName;
    if v :| 0 <= v < u && users[v].username == LoginName(c) {
      assert more[v].username == LoginName(c);
    }
  }

  lemma NamesStay(users: seq<User>, more: seq<User>, names: set<string>, name: string)
    requires |more| == |users| + 1 && more[..|users|] == users && more[|users|].username == name && NamesUsed(users, names)
    ensures NamesUsed(more, names + {name})
  {
    assert forall v :: 0 <= v < |users| ==> more[v] == users[v];
  }

  lemma MadeLast(c: Client, users: seq<User>, more: seq<User>, names: set<string>, now: int)
    requires |more| == |users| + 1 && more[..|users|] == users && NamesUsed(users, names)
    requires more[|users|].createdAt == c.createdAt && more[|users|].updatedAt == now
    requires LoginName(c) in names || more[|users|].username == LoginName(c)
    ensures MadeFor(c, more, |users|, now)
  {
    hide LoginName;
    assert forall v :: 0 <= v < |users| ==> more[v] == users[v];
  }

  lemma MadeForMore(clients: seq<Client>, users: seq<User>, more: seq<User>, n: nat, now: int)
    requires n < |clients| && MadeForFirst(clients, users, n, now) && users <= more
    requires Blank(clients[n].userId) ==> MadeFor(clients[n], more, Unowned(clients, n), now)
    ensures MadeForFirst(clients, more, n + 1, now)
  {
    hide Blank, Unowned, MadeFor;
    forall i | 0 <= i < n && Blank(clients[i].userId) ensures MadeFor(clients[i], more, Unowned(clients, i), now) {
      MadeStays(clients[i], users, more, Unowned(clients, i), now);
    }
  }

  lemma {:induction false} MadeNext(clients: seq<Client>, p: Progress, n: nat, now: int, stamp: string)
    requires n < |clients| && MadeSoFar(clients, p, n, now) && p.clients[n] == clients[n]
    requires Unowned(clients, n) == |p.users|
    ensures MadeSoFar(clients, UserStep(p, n, now, stamp), n + 1, now)
  {
    hide NewUsername, NewUserId, Blank, Adopt, LoginName, Unowned, MadeFor, MadeForFirst, NamesUsed;
    var next := UserStep(p, n, now, stamp);
    if Blank(clients[n].userId) {
      StepMakes(p, n, now, stamp);
      CleanNameIsTaken(p, n, clients[n], stamp);
      hide UserStep;
      NamesStay(p.users, next.users, p.usedNames, NewUsername(p, n, stamp));
      MadeLast(clients[n], p.users, next.users, p.usedNames, now);
    }
    MadeForMore(clients, p.users, next.users, n, now);
  }

  lemma NobodyMade(s: State, now: int, stamp: string)
    requires s.users == []
    ensures MadeSoFar(s.clients, UserSteps(s, 0, now, stamp), 0, now)
  {
    UserStepsStart(s, now, stamp);
  }

  lemma {:induction false} UsersMadeSoFar(s: State, n: nat, now: int, stamp: string)
    requires n <= |s.clients| && Unowned(s.clients, |s.clients|) <= NAME_LIMIT && IsStamp(stamp) && s.users == []
    ensures MadeSoFar(s.clients, UserSteps(s, n, now, stamp), n, now)
  {
    hide MadeSoFar, UserSteps, UserStep;
    if n == 0 {
      NobodyMade(s, now, stamp);
    } else {
      UsersMadeSoFar(s, n - 1, now, stamp);
      UserStepsNext(s, n - 1, now, stamp);
      UserStepsServe(s, n - 1, now, stamp);
      var p := UserSteps(s, n - 1, now, stamp);
      assert p.clients[n - 1] == s.clients[n - 1] && Unowned(s.clients, n - 1) == |p.users|;
      MadeNext(s.clients, p, n - 1, now, stamp);
    }
  }

  /** Each legacy client's user is as old as the client and has its cleaned name, unless an earlier one took it. */
  lemma {:induction false} UsersAreMadeForTheirClients(s: State, now: int, stamp: string, i: nat)
    requires !s.userDeviceMigrated && s.users == [] && s.clients != []
    requires Unowned(s.clients, |s.clients|) <= NAME_LIMIT && IsStamp(stamp) && i < |s.clients|
    ensures var r := Normalize(s, now, stamp);
      && |r.clients| == |s.clients| && r.clients[i] == s.clients[i].(userId := r.clients[i].userId)
      && (Blank(s.clients[i].userId) ==> MadeFor(s.clients[i], r.users, Unowned(s.clients, i), now))
  {
    var w := WithDefaultWorkspace(Defaults(s), now);
    assert w.users == [] && w.clients == s.clients && !w.userDeviceMigrated;
    hide Blank, Enroll, UserSteps, WithDefaultWorkspace, Defaults;
    UsersMadeSoFar(w, |w.clients|, now, stamp);
  }
}
