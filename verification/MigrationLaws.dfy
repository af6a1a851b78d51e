/**
 What normalization guarantees: it is idempotent, enrolls each legacy client once,
 gives each legacy client its own user, and leaves migrated documents alone.
 */
module MigrationLaws {
  import opened Text
  import opened FreshNames
  import opened Migration

  // ---------- Enrollment ----------

  /** How many default-workspace memberships a client id has. */
  function Enrollments(ms: seq<Membership>, clientId: string): nat {
    if ms == [] then 0
    else
      var m := ms[|ms| - 1];
      Enrollments(ms[..|ms| - 1], clientId)
        + if m.workspaceId == DEFAULT_WORKSPACE && m.clientId == clientId then 1 else 0
  }

  /** A workspace id without a NUL cannot be confused with another id by the joined key. */
  ghost predicate PlainIds(ms: seq<Membership>) {
    forall i :: 0 <= i < |ms| ==> '\0' !in ms[i].workspaceId
  }

  lemma KeyDecides(workspaceId: string, a: string, b: string)
    requires '\0' !in workspaceId && Key(DEFAULT_WORKSPACE, a) == Key(workspaceId, b)
    ensures workspaceId == DEFAULT_WORKSPACE && a == b
  {
    var k, n := Key(DEFAULT_WORKSPACE, a), |DEFAULT_WORKSPACE|;
    assert k[n] == '\0' && k[|workspaceId|] == '\0';
    assert forall i :: 0 <= i < n ==> k[i] == DEFAULT_WORKSPACE[i] && k[i] != '\0';
    assert forall i :: 0 <= i < |workspaceId| ==> k[i] == workspaceId[i] && workspaceId[i] in workspaceId;
    assert |workspaceId| == n;
    assert k[..n] == DEFAULT_WORKSPACE && k[..|workspaceId|] == workspaceId;
    assert k[n + 1..] == a && k[|workspaceId| + 1..] == b;
  }

  lemma {:induction false} KeyIffEnrolled(ms: seq<Membership>, clientId: string)
    requires PlainIds(ms)
    ensures Key(DEFAULT_WORKSPACE, clientId) in Keys(ms) <==> Enrollments(ms, clientId) > 0
  {
    if ms != [] {
      var front, m := ms[..|ms| - 1], ms[|ms| - 1];
      KeyIffEnrolled(front, clientId);
      KeysAppend(front, m);
      assert ms == front + [m];
      if Key(m.workspaceId, m.clientId) == Key(DEFAULT_WORKSPACE, clientId) {
        KeyDecides(m.workspaceId, clientId, m.clientId);
      }
    }
  }

  lemma EnrollmentsAppend(ms: seq<Membership>, m: Membership, clientId: string)
    ensures Enrollments(ms + [m], clientId) ==
      Enrollments(ms, clientId) + if m.workspaceId == DEFAULT_WORKSPACE && m.clientId == clientId then 1 else 0
  {
    assert (ms + [m])[..|ms|] == ms;
  }

  ghost predicate Listed(clients: seq<Client>, clientId: string) {
    exists i :: 0 <= i < |clients| && clients[i].id == clientId
  }

  lemma ListedAppend(clients: seq<Client>, c: Client, clientId: string)
    ensures Listed(clients + [c], clientId) <==> Listed(clients, clientId) || c.id == clientId
  {
    var all := clients + [c];
    assert all[|clients|] == c;
    assert forall i :: 0 <= i < |clients| ==> all[i] == clients[i];
  }

  lemma EnrollNext(ms: seq<Membership>, clients: seq<Client>, now: int)
    requires clients != []
    ensures var before, c := Enroll(ms, clients[..|clients| - 1], now), clients[|clients| - 1];
      Enroll(ms, clients, now) ==
        if Key(DEFAULT_WORKSPACE, c.id) in Keys(before) then before else before + [Enrollment(c, now)]
  {
    hide Keys, Key;
  }

  lemma NobodyEnrolled(ms: seq<Membership>, now: int, clientId: string)
    ensures Enroll(ms, [], now) == ms && !Listed([], clientId)
  {
  }

  /** One client's turn. */
  lemma EnrollOne(before: seq<Membership>, c: Client, now: int, clientId: string)
    requires PlainIds(before)
    ensures var after := if Key(DEFAULT_WORKSPACE, c.id) in Keys(before) then before else before + [Enrollment(c, now)];
      && PlainIds(after) && before <= after
      && Enrollments(after, clientId) ==
           Enrollments(before, clientId) + (if c.id == clientId && Enrollments(before, clientId) == 0 then 1 else 0)
  {
    hide Enrollments, Keys, Key;
    KeyIffEnrolled(before, c.id);
    EnrollmentsAppend(before, Enrollment(c, now), clientId);
  }

  /** Enrolling leaves every listed client with a membership, adds one only where none was, and drops none. */
  lemma {:induction false} EnrollCounts(ms: seq<Membership>, clients: seq<Client>, now: int, clientId: string)
    requires PlainIds(ms)
    ensures PlainIds(Enroll(ms, clients, now)) && ms <= Enroll(ms, clients, now)
    ensures Enrollments(Enroll(ms, clients, now), clientId) ==
      if Enrollments(ms, clientId) == 0 && Listed(clients, clientId) then 1 else Enrollments(ms, clientId)
  {
    hide Enroll, Enrollments, Listed, Keys, Key, PlainIds;
    if clients == [] {
      NobodyEnrolled(ms, now, clientId);
    } else {
      EnrollNext(ms, clients, now);
      var front, c := clients[..|clients| - 1], clients[|clients| - 1];
      EnrollCounts(ms, front, now, clientId);
      EnrollOne(Enroll(ms, front, now), c, now, clientId);
      ListedAppend(front, c, clientId);
      assert clients == front + [c];
    }
  }

  lemma {:induction false} AdoptKeepsEnrollments(ms: seq<Membership>, id: string, userId: string, clientId: string)
    ensures Enrollments(Adopt(ms, id, userId), clientId) == Enrollments(ms, clientId)
  {
    if ms != [] {
      AdoptKeepsEnrollments(ms[..|ms| - 1], id, userId, clientId);
      assert Adopt(ms, id, userId)[..|ms| - 1] == Adopt(ms[..|ms| - 1], id, userId);
    }
  }

  lemma {:induction false} UserStepsKeepEnrollments(s: State, n: nat, now: int, stamp: string, clientId: string)
    requires n <= |s.clients|
    ensures Enrollments(UserSteps(s, n, now, stamp).memberships, clientId) == Enrollments(s.memberships, clientId)
  {
    hide Enrollments, Adopt, NewUsername, NewUserId, UserSteps, Blank;
    if n == 0 {
      UserStepsStart(s, now, stamp);
    } else {
      UserStepsNext(s, n - 1, now, stamp);
      UserStepsKeepEnrollments(s, n - 1, now, stamp, clientId);
      var p := UserSteps(s, n - 1, now, stamp);
      AdoptKeepsEnrollments(p.memberships, p.clients[n - 1].id, NewUserId(p, n - 1, stamp), clientId);
    }
  }

  /**
   Exactly which normalizations enroll: a client gains a default membership if
   and only if the document looks like a flat pool and the client had none.
   */
  lemma EnrollsExactly(s: State, now: int, stamp: string, clientId: string)
    requires PlainIds(s.memberships)
    ensures Enrollments(Normalize(s, now, stamp).memberships, clientId) ==
      if LegacyFlatPool(s) && Listed(s.clients, clientId) && Enrollments(s.memberships, clientId) == 0 then 1
      else Enrollments(s.memberships, clientId)
  {
    var w := WithDefaultWorkspace(Defaults(s), now);
    assert LegacyFlatPool(Defaults(s)) <==> LegacyFlatPool(s);
    EnrollCounts(s.memberships, s.clients, now, clientId);
    UserStepsKeepEnrollments(w, |w.clients|, now, stamp, clientId);
  }

  /** A legacy flat pool ends with every client enrolled exactly once per client id, and is marked as migrated. */
  lemma LegacyPoolEnrollsEveryClientOnce(s: State, now: int, stamp: string, clientId: string)
    requires LegacyFlatPool(s) && PlainIds(s.memberships) && Listed(s.clients, clientId)
    requires Enrollments(s.memberships, clientId) <= 1
    ensures var r := Normalize(s, now, stamp);
      Enrollments(r.memberships, clientId) == 1 && r.workspaceMigrated && HasWorkspace(r.workspaces, DEFAULT_WORKSPACE)
  {
    EnrollsExactly(s, now, stamp, clientId);
    var w := WithDefaultWorkspace(Defaults(s), now);
    assert w.workspaces[0].id == DEFAULT_WORKSPACE;
  }

  /**
   Once both markers are set a later normalization enrolls nobody and invents no
   user, whichever clients, accounts or workspaces were added in between.
   */
  lemma MigratedDocumentsAreLeftAlone(s: State, now: int, stamp: string)
    requires s.workspaceMigrated && s.userDeviceMigrated
    ensures var r := Normalize(s, now, stamp);
      && r.memberships == s.memberships && r.clients == s.clients && |r.users| == |s.users|
      && (forall i :: 0 <= i < |s.users| ==> r.users[i].id == s.users[i].id)
      && r.workspaceMigrated && r.userDeviceMigrated
  {
  }

  /** Every later load of the document: each finds what was saved after the one before, edited but with its markers. */
  ghost predicate Loads(docs: seq<State>, nows: seq<int>, stamps: seq<string>) {
    && |nows| == |stamps| == |docs|
    && forall k :: 0 < k < |docs| ==> KeepsMarkers(Normalize(docs[k - 1], nows[k - 1], stamps[k - 1]), docs[k])
  }

  predicate KeepsMarkers(saved: State, edited: State) {
    edited.workspaceMigrated == saved.workspaceMigrated && edited.userDeviceMigrated == saved.userDeviceMigrated
  }

  /** A load that enrolls nobody and invents no user. */
  ghost predicate LeavesAlone(s: State, r: State) {
    && r.memberships == s.memberships && r.clients == s.clients && |r.users| == |s.users|
    && forall i :: 0 <= i < |s.users| ==> r.users[i].id == s.users[i].id
  }

  lemma {:induction false} MarkersStay(docs: seq<State>, nows: seq<int>, stamps: seq<string>, k: nat)
    requires Loads(docs, nows, stamps) && k < |docs| && docs[0].workspaceMigrated && docs[0].userDeviceMigrated
    ensures docs[k].workspaceMigrated && docs[k].userDeviceMigrated
  {
    if k > 0 {
      MarkersStay(docs, nows, stamps, k - 1);
      hide Normalize;
      MigratedDocumentsAreLeftAlone(docs[k - 1], nows[k - 1], stamps[k - 1]);
    }
  }

  /**
   The migrations run once: whatever clients, accounts and workspaces are added to a
   migrated legacy pool over any number of saves and loads, no load ever enrolls
   anyone or invents a user again.
   */
  lemma {:induction false} MigrationsRunOnce(s: State, now: int, stamp: string, docs: seq<State>, nows: seq<int>,
      stamps: seq<string>, k: nat)
    requires LegacyFlatPool(s)
    requires docs != [] && KeepsMarkers(Normalize(s, now, stamp), docs[0]) && Loads(docs, nows, stamps) && k < |docs|
    ensures LeavesAlone(docs[k], Normalize(docs[k], nows[k], stamps[k]))
  {
    MarkedAfterwards(s, now, stamp);
    hide Normalize;
    MarkersStay(docs, nows, stamps, k);
    MigratedDocumentsAreLeftAlone(docs[k], nows[k], stamps[k]);
  }

  lemma MarkedAfterwards(s: State, now: int, stamp: string)
    requires LegacyFlatPool(s)
    ensures Normalize(s, now, stamp).workspaceMigrated && Normalize(s, now, stamp).userDeviceMigrated
  {
    assert Defaults(s).accounts != [];
    hide UserSteps;
  }

  /**
   The marker is only set when accounts exist, so a pool that starts empty is
   still taken for a legacy one when its first account arrives: a client created
   before that account, and after the upgrade, is enrolled.
   */
  lemma FirstAccountEnrollsEarlierClients(now: int, later: int, stamp: string) returns (fresh_: State, grown: State)
    ensures fresh_ == Normalize(State(1, [], [], [], [], [], false, false), now, stamp)
    ensures grown == fresh_.(clients := [Client("c", "", "", now)], accounts := [Account("a", "ready", "cloud", "", 0)])
    ensures Enrollments(grown.memberships, "c") == 0
    ensures Enrollments(Normalize(grown, later, stamp).memberships, "c") == 1
  {
    var empty := State(1, [], [], [], [], [], false, false);
    fresh_ := Normalize(empty, now, stamp);
    assert NormalAccounts([]) == [] && NormalUsers([]) == [];
    assert fresh_ == empty.(userDeviceMigrated := true);
    grown := fresh_.(clients := [Client("c", "", "", now)], accounts := [Account("a", "ready", "cloud", "", 0)]);
    assert grown.clients[0].id == "c" && Listed(grown.clients, "c");
    EnrollsExactly(grown, later, stamp, "c");
  }

  // ---------- New users ----------

  ghost predicate DistinctUsers(users: seq<User>) {
    forall i, j :: 0 <= i < j < |users| ==> users[i].id != users[j].id && users[i].username != users[j].username
  }

  /** The names handed out so far are those of the users created so far. */
  ghost predicate Tracks(p: Progress, made: nat) {
    && |p.users| == made && |p.usedIds| == made && |p.usedNames| == made
    && DistinctUsers(p.users)
    && (forall i :: 0 <= i < |p.users| ==> p.users[i].id in p.usedIds && p.users[i].username in p.usedNames)
    && (forall i :: 0 <= i < |p.users| ==> MatchesIdPattern(p.users[i].id) && MatchesIdPattern(p.users[i].username))
  }

  lemma {:induction false} UserStepTracks(p: Progress, i: nat, made: nat, now: int, stamp: string)
    requires i < |p.clients| && made < NAME_LIMIT && IsStamp(stamp) && Tracks(p, made) && Blank(p.clients[i].userId)
    ensures |p.users| == made && |UserStep(p, i, now, stamp).users| == made + 1
    ensures |UserStep(p, i, now, stamp).clients| == |p.clients|
    ensures var next := UserStep(p, i, now, stamp);
      && Tracks(next, made + 1)
      && next.users[..made] == p.users
      && next.clients[i].userId == next.users[made].id
      && !Blank(next.clients[i].userId)
  {
    hide NewUsername, NewUserId, Adopt, MatchesIdPattern;
    var username, userId := NewUsername(p, i, stamp), NewUserId(p, i, stamp);
    NewNamesAreFresh(p, i, made, stamp);
    assert |p.usedIds + {userId}| == made + 1 && |p.usedNames + {username}| == made + 1;
  }

  lemma {:induction false} NewNamesAreFresh(p: Progress, i: nat, made: nat, stamp: string)
    requires i < |p.clients| && made < NAME_LIMIT && IsStamp(stamp) && |p.usedIds| == made && |p.usedNames| == made
    ensures NewUsername(p, i, stamp) !in p.usedNames && MatchesIdPattern(NewUsername(p, i, stamp))
    ensures NewUserId(p, i, stamp) !in p.usedIds && MatchesIdPattern(NewUserId(p, i, stamp))
    ensures !Blank(NewUserId(p, i, stamp))
  {
    hide UniqueName, LoginName;
    UniqueNameIsFresh(LoginName(p.clients[i]), p.usedNames, stamp);
    UniqueNameIsFresh("user-" + NewUsername(p, i, stamp), p.usedIds, stamp);
    IdsAreNotBlank(NewUserId(p, i, stamp));
  }

  lemma IdsAreNotBlank(id: string)
    requires MatchesIdPattern(id)
    ensures !Blank(id)
  {
    assert TrimSpace(id) == id;
  }

  /** How many of the first `n` clients have no user yet. */
  function Unowned(clients: seq<Client>, n: nat): nat
    requires n <= |clients|
  {
    if n == 0 then 0 else Unowned(clients, n - 1) + if Blank(clients[n - 1].userId) then 1 else 0
  }

  lemma {:induction false} UnownedBound(clients: seq<Client>, i: nat, n: nat)
    requires i <= n <= |clients|
    ensures Unowned(clients, i) <= Unowned(clients, n) <= n
    ensures i < n && Blank(clients[i].userId) ==> Unowned(clients, i) < Unowned(clients, n)
  {
    hide Blank;
    if i < n { UnownedBound(clients, i, n - 1); }
    else if n > 0 { UnownedBound(clients, n - 1, n - 1); }
  }

  /** Client `i` ends with the user made for it, or with the one it already had. */
  ghost predicate Owns(clients: seq<Client>, p: Progress, i: nat)
    requires i < |clients| == |p.clients|
  {
    if Blank(clients[i].userId)
    then Unowned(clients, i) < |p.users| && p.clients[i].userId == p.users[Unowned(clients, i)].id
    else p.clients[i].userId == clients[i].userId
  }

  /** After `n` steps the first `n` clients have been served, in order, and the others not touched. */
  ghost predicate Served(clients: seq<Client>, p: Progress, n: nat)
    requires n <= |clients|
  {
    && |p.clients| == |clients|
    && Tracks(p, Unowned(clients, n))
    && (forall i :: n <= i < |clients| ==> p.clients[i] == clients[i])
    && (forall i :: 0 <= i < n ==> Owns(clients, p, i))
  }

  lemma {:induction false} ServeNext(clients: seq<Client>, p: Progress, n: nat, now: int, stamp: string)
    requires n < |clients| && Unowned(clients, |clients|) <= NAME_LIMIT && IsStamp(stamp) && Served(clients, p, n)
    ensures Served(clients, UserStep(p, n, now, stamp), n + 1)
  {
    hide NewUsername, NewUserId, Blank, Adopt, Tracks;
    UnownedBound(clients, n, |clients|);
    assert p.clients[n] == clients[n];
    var next := UserStep(p, n, now, stamp);
    if Blank(clients[n].userId) {
      UserStepTracks(p, n, Unowned(clients, n), now, stamp);
      hide UserStep, Unowned;
      UserStepFrame(p, n, now, stamp);
      forall i | 0 <= i < n ensures Owns(clients, next, i) {
        assert Owns(clients, p, i);
        assert Unowned(clients, i) < |p.users| ==> next.users[Unowned(clients, i)] == p.users[Unowned(clients, i)];
      }
      assert Owns(clients, next, n);
      UnownedStep(clients, n);
    } else {
      assert next == p && Owns(clients, next, n);
    }
  }

  lemma UnownedStep(clients: seq<Client>, n: nat)
    requires n < |clients|
    ensures Unowned(clients, n + 1) == Unowned(clients, n) + if Blank(clients[n].userId) then 1 else 0
  {
  }

  lemma UserStepFrame(p: Progress, i: nat, now: int, stamp: string)
    requires i < |p.clients|
    ensures |UserStep(p, i, now, stamp).clients| == |p.clients|
    ensures forall k :: 0 <= k < |p.clients| && k != i ==> UserStep(p, i, now, stamp).clients[k] == p.clients[k]
  {
  }

  lemma ServeFrom(s: State, m: nat, now: int, stamp: string)
    requires m < |s.clients| && Unowned(s.clients, |s.clients|) <= NAME_LIMIT && IsStamp(stamp)
    requires Served(s.clients, UserSteps(s, m, now, stamp), m)
    ensures Served(s.clients, UserSteps(s, m + 1, now, stamp), m + 1)
  {
    hide Served, UserStep, UserSteps;
    UserStepsNext(s, m, now, stamp);
    ServeNext(s.clients, UserSteps(s, m, now, stamp), m, now, stamp);
  }

  lemma NobodyServed(s: State, now: int, stamp: string)
    requires s.users == []
    ensures Served(s.clients, UserSteps(s, 0, now, stamp), 0)
  {
    UserStepsStart(s, now, stamp);
  }

  lemma {:induction false} UserStepsServe(s: State, n: nat, now: int, stamp: string)
    requires n <= |s.clients| && Unowned(s.clients, |s.clients|) <= NAME_LIMIT && IsStamp(stamp) && s.users == []
    ensures Served(s.clients, UserSteps(s, n, now, stamp), n)
  {
    hide Served, UserSteps;
    if n == 0 {
      NobodyServed(s, now, stamp);
    } else {
      UserStepsServe(s, n - 1, now, stamp);
      ServeFrom(s, n - 1, now, stamp);
    }
  }

  /**
   Legacy clients without a user get one each, in order: ids and usernames are
   pairwise distinct and valid, no two clients share one, and other clients keep theirs.
   */
  lemma EachLegacyClientGetsItsOwnUser(s: State, now: int, stamp: string)
    requires !s.userDeviceMigrated && s.users == [] && s.clients != []
    requires Unowned(s.clients, |s.clients|) <= NAME_LIMIT && IsStamp(stamp)
    ensures var r := Normalize(s, now, stamp);
      && r.userDeviceMigrated && |r.clients| == |s.clients| && |r.users| == Unowned(s.clients, |s.clients|)
      && DistinctUsers(r.users)
      && (forall i :: 0 <= i < |r.users| ==> MatchesIdPattern(r.users[i].id) && MatchesIdPattern(r.users[i].username))
    ensures var r := Normalize(s, now, stamp);
      forall i :: 0 <= i < |s.clients| ==>
        if Blank(s.clients[i].userId)
        then Unowned(s.clients, i) < |r.users| && r.clients[i].userId == r.users[Unowned(s.clients, i)].id
        else r.clients[i].userId == s.clients[i].userId
  {
    var w := WithDefaultWorkspace(Defaults(s), now);
    assert w.users == [] && w.clients == s.clients;
    UserStepsServe(w, |w.clients|, now, stamp);
    var p := UserSteps(w, |w.clients|, now, stamp);
    var r := Normalize(s, now, stamp);
    assert r.users == p.users && r.clients == p.clients;
    forall i | 0 <= i < |s.clients|
      ensures if Blank(s.clients[i].userId)
        then Unowned(s.clients, i) < |r.users| && r.clients[i].userId == r.users[Unowned(s.clients, i)].id
        else r.clients[i].userId == s.clients[i].userId
    {
      assert Owns(s.clients, p, i);
    }
  }

  // ---------- Idempotence ----------

  predicate Plain(s: string) {
    ToLower(TrimSpace(s)) == s
  }

  lemma LowerTrimIsPlain(s: string)
    ensures Plain(ToLower(TrimSpace(s)))
  {
    var t := TrimSpace(s);
    var r := ToLower(t);
    assert forall i :: 0 <= i < |t| ==> IsSpace(r[i]) == IsSpace(t[i]);
    assert TrimSpace(r) == r;
    assert ToLower(r) == r;
  }

  ghost predicate LowerId(s: string) {
    && MatchesIdPattern(s) && !IsDash(s[|s| - 1])
    && forall i :: 0 <= i < |s| ==> !('A' <= s[i] <= 'Z')
  }

  lemma LowerIdIsPlain(s: string)
    requires LowerId(s)
    ensures Plain(s)
  {
    assert TrimSpace(s) == s;
    assert ToLower(s) == s;
  }

  lemma LowerSanitize(base: string)
    ensures var name := ToLower(Sanitize(base)); name == "" || LowerId(name)
  {
    SanitizeShape(base);
    hide Clean, TrimSpace;
    var t := Sanitize(base);
    var r := ToLower(t);
    if r != "" {
      forall i | 0 <= i < |r| ensures (IsAlnum(r[i]) || IsDash(r[i])) && (IsDash(r[i]) <==> IsDash(t[i])) {
        assert r[i] == LowerChar(t[i]);
      }
      assert IsAlnum(r[0]);
    }
  }

  lemma CandidateIsLower(base: string, i: nat)
    requires LowerId(base) && FIRST_SUFFIX <= i < LAST_SUFFIX
    ensures LowerId(Candidate(base, i))
  {
    ItoaLength(i);
    CandidateShape(base, i);
    var c := Candidate(base, i);
    assert c[|c| - 1] == Itoa(i)[|Itoa(i)| - 1];
  }

  lemma {:induction false} FirstFreeIsPlain(base: string, used: set<string>, i: nat, stamp: string)
    requires LowerId(base) && IsStamp(stamp) && FIRST_SUFFIX <= i <= LAST_SUFFIX
    ensures Plain(FirstFree(base, used, i, stamp))
    decreases LAST_SUFFIX - i
  {
    if i < LAST_SUFFIX {
      CandidateIsLower(base, i);
      LowerIdIsPlain(Candidate(base, i));
      FirstFreeIsPlain(base, used, i + 1, stamp);
    } else {
      var r := "profile-" + stamp;
      assert TrimSpace(r) == r;
      assert ToLower(r) == r;
    }
  }

  lemma {:induction false} LoginNameIsLower(c: Client)
    ensures LowerId(LoginName(c))
  {
    hide Sanitize, ToLower;
    LowerSanitize(if Blank(c.name) then c.id else TrimSpace(c.name));
    assert LowerId("user");
  }

  lemma {:induction false} NewUsernameIsPlain(c: Client, used: set<string>, stamp: string)
    requires IsStamp(stamp)
    ensures Plain(UniqueName(LoginName(c), used, stamp))
  {
    LoginNameIsLower(c);
    hide LoginName, Sanitize, FirstFree, Plain;
    var name := LoginName(c);
    SanitizeFixesIds(name);
    LowerIdIsPlain(name);
    FirstFreeIsPlain(name, used, FIRST_SUFFIX, stamp);
  }

  ghost predicate AllPlain(users: seq<User>) {
    forall i :: 0 <= i < |users| ==> Plain(users[i].username)
  }

  lemma {:induction false} UserStepPlain(p: Progress, i: nat, now: int, stamp: string)
    requires i < |p.clients| && IsStamp(stamp) && AllPlain(p.users)
    ensures AllPlain(UserStep(p, i, now, stamp).users)
  {
    hide Plain, UniqueName, LoginName, Adopt, NewUserId;
    NewUsernameIsPlain(p.clients[i], p.usedNames, stamp);
  }

  lemma {:induction false} NewUsersPlain(s: State, n: nat, now: int, stamp: string)
    requires n <= |s.clients| && IsStamp(stamp) && AllPlain(s.users)
    ensures AllPlain(UserSteps(s, n, now, stamp).users)
  {
    hide AllPlain, UserStep, UserSteps;
    if n == 0 {
      UserStepsStart(s, now, stamp);
    } else {
      UserStepsNext(s, n - 1, now, stamp);
      NewUsersPlain(s, n - 1, now, stamp);
      UserStepPlain(UserSteps(s, n - 1, now, stamp), n - 1, now, stamp);
    }
  }

  /** What a normalized document looks like; a second normalization has nothing left to do. */
  ghost predicate Settled(s: State) {
    && s.version != 0
    && (forall i :: 0 <= i < |s.accounts| ==> NormalAccount(s.accounts[i]) == s.accounts[i])
    && AllPlain(s.users)
    && !LegacyFlatPool(s) && s.userDeviceMigrated
    && (AccountInDefault(s.accounts) ==> HasWorkspace(s.workspaces, DEFAULT_WORKSPACE))
  }

  lemma SettledIsFixed(s: State, now: int, stamp: string)
    requires Settled(s)
    ensures Normalize(s, now, stamp) == s
  {
    assert NormalAccounts(s.accounts) == s.accounts;
    assert NormalUsers(s.users) == s.users;
  }

  lemma {:induction false} DefaultsSettle(s: State, now: int)
    ensures var w := WithDefaultWorkspace(Defaults(s), now);
      && w.version != 0
      && (forall i :: 0 <= i < |w.accounts| ==> NormalAccount(w.accounts[i]) == w.accounts[i])
      && AllPlain(w.users)
      && !LegacyFlatPool(w)
      && (AccountInDefault(w.accounts) ==> HasWorkspace(w.workspaces, DEFAULT_WORKSPACE))
  {
    var d := Defaults(s);
    forall i | 0 <= i < |d.accounts| ensures NormalAccount(d.accounts[i]) == d.accounts[i] {
      assert d.accounts[i] == NormalAccount(s.accounts[i]);
    }
    forall i | 0 <= i < |d.users| ensures Plain(d.users[i].username) {
      LowerTrimIsPlain(s.users[i].username);
    }
    var w := WithDefaultWorkspace(d, now);
    if w.workspaces != d.workspaces {
      assert w.workspaces[|d.workspaces|].id == DEFAULT_WORKSPACE;
    }
  }

  /** Normalizing twice, at any two clock readings, is the same as normalizing once. */
  lemma NormalizeIsIdempotent(s: State, now: int, later: int, stamp: string, laterStamp: string)
    requires IsStamp(stamp)
    ensures Normalize(Normalize(s, now, stamp), later, laterStamp) == Normalize(s, now, stamp)
  {
    var w := WithDefaultWorkspace(Defaults(s), now);
    DefaultsSettle(s, now);
    NewUsersPlain(w, |w.clients|, now, stamp);
    SettledIsFixed(Normalize(s, now, stamp), later, laterStamp);
  }
}
