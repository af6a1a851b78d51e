/**
 Round robin over successive selections (the cursor loops of
 internal/manager/lease.go): when it is fair, and when not.
 */
module RoundRobin {
  import opened Text
  import opened LoadBalance
  import Sorting

  // ---------- Rounds ----------

  /** The ids of the top group in ranking order. */
  function TopIds(s: seq<Candidate>): seq<string> {
    seq(TopLen(s), i requires 0 <= i < TopLen(s) => s[i].id)
  }

  function Ranking(available: seq<Candidate>): seq<Candidate> {
    Sorting.InsertionSort(Better, available)
  }

  /** Successive selections: the cursor is the id picked last. */
  function Picks(rounds: seq<seq<Candidate>>, cursor: string): seq<string>
    requires forall i :: 0 <= i < |rounds| ==> rounds[i] != []
  {
    if rounds == [] then []
    else
      var id := Choose(rounds[0], cursor).id;
      [id] + Picks(rounds[1..], id)
  }

  // ----- The order of turns -----

  function Position(ids: seq<string>, id: string): (i: nat)
    ensures i <= |ids| && (i < |ids| ==> ids[i] == id)
    ensures forall k :: 0 <= k < i ==> ids[k] != id
  {
    if ids == [] then 0 else if ids[0] == id then 0 else 1 + Position(ids[1..], id)
  }

  /** Whose turn it is after `id` when turns go round the list. */
  function NextUp(ids: seq<string>, id: string): string {
    var i := Position(ids, id);
    if i < |ids| then ids[Next(i, |ids|)] else ""
  }

  predicate DistinctIds(ids: seq<string>) {
    forall i, j :: 0 <= i < j < |ids| ==> ids[i] != ids[j]
  }

  lemma PositionAt(ids: seq<string>, i: nat)
    requires DistinctIds(ids) && i < |ids|
    ensures Position(ids, ids[i]) == i
  {
    var k := Position(ids, ids[i]);
    assert k <= i;
  }

  /** One round whose top group is `ids` in ranking order: the ids are distinct and not empty. */
  ghost predicate Round(available: seq<Candidate>, ids: seq<string>) {
    && available != [] && DistinctIds(ids) && "" !in ids && ids != []
    && TopIds(Ranking(available)) == ids
  }

  /** Both lists have the same members, and turns go round them alike. */
  ghost predicate SameTurns(a: seq<string>, b: seq<string>) {
    && (forall x :: x in a <==> x in b)
    && (forall x :: x in a ==> NextUp(a, x) == NextUp(b, x))
  }

  lemma PickIsTurn(available: seq<Candidate>, ids: seq<string>, cursor: string)
    requires Round(available, ids)
    ensures cursor in ids ==> Choose(available, cursor).id == NextUp(ids, cursor)
    ensures cursor !in ids ==> Choose(available, cursor).id == ids[0]
  {
    hide Better, TopLen, Sorting.InsertionSort, DistinctIds;
    Sorting.SortPermutes(Better, available);
    var s := Ranking(available);
    var top := s[..TopLen(s)];
    assert |top| == |ids| && forall i :: 0 <= i < |ids| ==> top[i].id == ids[i];
    SamePlace(top, ids, cursor);
    if cursor in ids {
      var i :| 0 <= i < |ids| && ids[i] == cursor;
      assert Position(ids, cursor) < |ids|;
    } else {
      assert Position(ids, cursor) == |ids|;
    }
  }

  lemma {:induction false} SamePlace(top: seq<Candidate>, ids: seq<string>, id: string)
    requires |top| == |ids| && forall i :: 0 <= i < |ids| ==> top[i].id == ids[i]
    ensures IndexOf(top, id) == Position(ids, id)
  {
    if ids != [] && ids[0] != id { SamePlace(top[1..], ids[1..], id); }
  }

  /** In every round the top group has these members, and turns go round it alike; all else may change. */
  ghost predicate SteadyTop(rounds: seq<seq<Candidate>>, members: set<string>) {
    && (forall i :: 0 <= i < |rounds| ==> Round(rounds[i], TopIds(Ranking(rounds[i]))) && TopSet(rounds[i]) == members)
    && (forall i, j :: 0 <= i < |rounds| && 0 <= j < |rounds| ==>
          SameTurns(TopIds(Ranking(rounds[i])), TopIds(Ranking(rounds[j]))))
  }

  function TopSet(available: seq<Candidate>): set<string> {
    set id | id in TopIds(Ranking(available))
  }

  function Wrap(i: nat, n: nat): (r: nat)
    ensures i < 2 * n ==> r < n
  {
    if i < n then i else i - n
  }

  /** The pick after member `i` is the next one, in every round whose turns go like the list's. */
  lemma NextTurn(available: seq<Candidate>, ids: seq<string>, i: nat)
    requires DistinctIds(ids) && i < |ids|
    requires Round(available, TopIds(Ranking(available))) && SameTurns(ids, TopIds(Ranking(available)))
    ensures Choose(available, ids[i]).id == ids[Next(i, |ids|)]
  {
    hide Choose, Round, Ranking, TopIds;
    PickIsTurn(available, TopIds(Ranking(available)), ids[i]);
    PositionAt(ids, i);
    assert ids[i] in ids;
  }

  /** Once a pick was member `at`, the pick `j` rounds later is `j` places further on. */
  lemma {:induction false} PicksRotate(rounds: seq<seq<Candidate>>, ids: seq<string>, cursor: string, at: nat, j: nat)
    requires DistinctIds(ids) && at < |ids| && j < |rounds| <= |ids|
    requires forall i :: 0 <= i < |rounds| ==> rounds[i] != []
    requires forall i :: 0 <= i < |rounds| ==>
      Round(rounds[i], TopIds(Ranking(rounds[i]))) && SameTurns(ids, TopIds(Ranking(rounds[i])))
    requires Choose(rounds[0], cursor).id == ids[at]
    ensures j < |Picks(rounds, cursor)| && Picks(rounds, cursor)[j] == ids[Wrap(at + j, |ids|)]
  {
    hide Round, Choose, SameTurns, DistinctIds, TopIds, Ranking;
    if j > 0 {
      NextTurn(rounds[1], ids, at);
      PicksRotate(rounds[1..], ids, ids[at], Next(at, |ids|), j - 1);
    }
  }

  lemma {:induction false} PicksLength(rounds: seq<seq<Candidate>>, cursor: string)
    requires forall i :: 0 <= i < |rounds| ==> rounds[i] != []
    ensures |Picks(rounds, cursor)| == |rounds|
  {
    if rounds != [] { PicksLength(rounds[1..], Choose(rounds[0], cursor).id); }
  }

  lemma {:induction false} DistinctSize(ids: seq<string>)
    requires DistinctIds(ids)
    ensures |set id | id in ids| == |ids|
  {
    if ids == [] {
      assert (set id | id in ids) == {};
    } else {
      var front, last := ids[..|ids| - 1], ids[|ids| - 1];
      DistinctSize(front);
      assert (set id | id in ids) == (set id | id in front) + {last};
    }
  }

  /** The picks hand out each member exactly once. */
  ghost predicate Fair(picks: seq<string>, members: set<string>) {
    && |picks| == |members| && DistinctIds(picks)
    && forall m :: m in picks <==> m in members
  }

  /**
   While the top group keeps the same k members and the order of their turns, any k
   selections in a row hand out each member exactly once, whatever the cursor was.
   */
  lemma {:induction false} RoundRobinIsFair(rounds: seq<seq<Candidate>>, members: set<string>, cursor: string)
    requires SteadyTop(rounds, members) && |rounds| == |members| > 0
    ensures Fair(Picks(rounds, cursor), members)
  {
    hide Picks, Choose, Ranking, TopIds, TopSet, DistinctIds, SameTurns, Wrap, Round;
    SteadyMembership(rounds, members);
    PicksLength(rounds, cursor);
    var at := FirstPick(rounds[0], TopIds(Ranking(rounds[0])), cursor);
    AllRotate(rounds, TopIds(Ranking(rounds[0])), cursor, at);
    RotationCovers(TopIds(Ranking(rounds[0])), Picks(rounds, cursor), at);
  }

  lemma AllRotate(rounds: seq<seq<Candidate>>, ids: seq<string>, cursor: string, at: nat)
    requires DistinctIds(ids) && at < |ids| && 0 < |rounds| <= |ids|
    requires forall i :: 0 <= i < |rounds| ==> rounds[i] != []
    requires forall i :: 0 <= i < |rounds| ==>
      Round(rounds[i], TopIds(Ranking(rounds[i]))) && SameTurns(ids, TopIds(Ranking(rounds[i])))
    requires Choose(rounds[0], cursor).id == ids[at]
    ensures |Picks(rounds, cursor)| == |rounds|
    ensures forall j :: 0 <= j < |rounds| ==> Picks(rounds, cursor)[j] == ids[Wrap(at + j, |ids|)]
  {
    hide Picks, Choose, Ranking, TopIds, DistinctIds, SameTurns, Wrap, Round;
    PicksLength(rounds, cursor);
    forall j | 0 <= j < |rounds| ensures Picks(rounds, cursor)[j] == ids[Wrap(at + j, |ids|)] {
      PicksRotate(rounds, ids, cursor, at, j);
    }
  }

  /** The first round's top group lists the members, each once. */
  lemma SteadyMembership(rounds: seq<seq<Candidate>>, members: set<string>)
    requires SteadyTop(rounds, members) && rounds != []
    ensures var ids := TopIds(Ranking(rounds[0]));
      Round(rounds[0], ids) && DistinctIds(ids) && |ids| == |members| && forall m :: m in ids <==> m in members
    ensures forall i :: 0 <= i < |rounds| ==> rounds[i] != []
  {
    var ids := TopIds(Ranking(rounds[0]));
    DistinctSize(ids);
    assert TopSet(rounds[0]) == (set id | id in ids) == members;
    forall m ensures m in ids <==> m in members {
      assert m in members <==> m in (set id | id in ids);
    }
    hide Ranking, TopIds, SameTurns;
  }

  lemma FirstPick(available: seq<Candidate>, ids: seq<string>, cursor: string) returns (at: nat)
    requires Round(available, ids)
    ensures at < |ids| && Choose(available, cursor).id == ids[at]
  {
    hide Choose;
    PickIsTurn(available, ids, cursor);
    at := if cursor in ids then Next(Position(ids, cursor), |ids|) else 0;
  }

  /** A rotation of a list without repetitions has the same members and no repetitions. */
  lemma RotationCovers(ids: seq<string>, picks: seq<string>, at: nat)
    requires DistinctIds(ids) && at < |ids| == |picks|
    requires forall j :: 0 <= j < |picks| ==> picks[j] == ids[Wrap(at + j, |ids|)]
    ensures DistinctIds(picks)
    ensures forall m :: m in picks <==> m in ids
  {
    var n := |ids|;
    forall m | m in ids ensures m in picks {
      var p :| 0 <= p < n && ids[p] == m;
      var j := if p >= at then p - at else p - at + n;
      assert picks[j] == ids[Wrap(at + j, n)] == m;
    }
    forall i, j | 0 <= i < j < n ensures picks[i] != picks[j] {
      assert Wrap(at + i, n) != Wrap(at + j, n);
    }
  }

  // ----- The order of turns is needed -----

  /** All rounds have this top group, in whatever order. */
  ghost predicate SameTop(pool: set<seq<Candidate>>, members: set<string>) {
    forall r :: r in pool ==> Round(r, TopIds(Ranking(r))) && TopSet(r) == members
  }

  ghost predicate SameOrder(pool: set<seq<Candidate>>) {
    forall r, t :: r in pool && t in pool ==> SameTurns(TopIds(Ranking(r)), TopIds(Ranking(t)))
  }

  ghost predicate Drawn(rounds: seq<seq<Candidate>>, pool: set<seq<Candidate>>) {
    forall i :: 0 <= i < |rounds| ==> rounds[i] in pool && rounds[i] != []
  }

  ghost predicate AlwaysFair(pool: set<seq<Candidate>>, members: set<string>) {
    forall rounds, cursor :: Drawn(rounds, pool) && |rounds| == |members| ==> Fair(Picks(rounds, cursor), members)
  }

  /** The same round n times. */
  function Again(r: seq<Candidate>, n: nat): (rounds: seq<seq<Candidate>>)
    ensures |rounds| == n && forall i :: 0 <= i < n ==> rounds[i] == r
  {
    seq(n, _ => r)
  }

  /** The picks of equal rounds go on by one place each. */
  lemma {:induction false} EqualRounds(r: seq<Candidate>, ids: seq<string>, cursor: string, at: nat, d: nat)
    requires Round(r, ids) && at < |ids| && d < |ids| && Choose(r, cursor).id == ids[at]
    ensures var picks := Picks(Again(r, d + 1), cursor);
      |picks| == d + 1 && picks[0] == ids[at] && picks[d] == ids[Wrap(at + d, |ids|)]
  {
    var rounds := Again(r, d + 1);
    SameAsItself(ids);
    PicksLength(rounds, cursor);
    PicksRotate(rounds, ids, cursor, at, d);
    PicksRotate(rounds, ids, cursor, at, 0);
  }

  lemma SameAsItself(ids: seq<string>)
    ensures SameTurns(ids, ids)
  {
  }

  lemma PicksOne(r: seq<Candidate>, cursor: string)
    requires r != []
    ensures Picks([r], cursor) == [Choose(r, cursor).id]
  {
    assert [r][1..] == [];
  }

  lemma {:induction false} PicksAppend(rounds: seq<seq<Candidate>>, last: seq<Candidate>, cursor: string)
    requires rounds != [] && last != [] && forall i :: 0 <= i < |rounds| ==> rounds[i] != []
    ensures var picks := Picks(rounds, cursor);
      |picks| == |rounds| && Picks(rounds + [last], cursor) == picks + [Choose(last, picks[|picks| - 1]).id]
  {
    hide Choose;
    var id := Choose(rounds[0], cursor).id;
    assert (rounds + [last])[1..] == rounds[1..] + [last];
    if |rounds| == 1 {
      assert rounds == [rounds[0]] && rounds[1..] + [last] == [last];
      PicksOne(rounds[0], cursor);
      PicksOne(last, id);
    } else {
      PicksAppend(rounds[1..], last, id);
    }
  }

  lemma {:induction false} PicksPrefix(rounds: seq<seq<Candidate>>, more: seq<seq<Candidate>>, cursor: string, k: nat)
    requires (forall i :: 0 <= i < |rounds| ==> rounds[i] != []) && (forall i :: 0 <= i < |more| ==> more[i] != [])
    requires k < |rounds|
    ensures k < |Picks(rounds, cursor)| <= |Picks(rounds + more, cursor)|
    ensures Picks(rounds + more, cursor)[k] == Picks(rounds, cursor)[k]
  {
    hide Choose;
    PicksLength(rounds + more, cursor);
    PicksLength(rounds, cursor);
    assert (rounds + more)[1..] == rounds[1..] + more;
    if k > 0 {
      PicksPrefix(rounds[1..], more, Choose(rounds[0], cursor).id, k - 1);
    }
  }

  /** Round `r` over and over, from member `z` to member `i`, and then round `t`, in which `z` comes after `i`. */
  lemma {:induction false} RoundAndBack(r: seq<Candidate>, t: seq<Candidate>, ids: seq<string>, other: seq<string>, i: nat,
      z: nat, d: nat) returns (rounds: seq<seq<Candidate>>, cursor: string)
    requires Round(r, ids) && Round(t, other) && i < |ids| && z < |ids| && d < |ids| && Wrap(z + d, |ids|) == i
    requires ids[i] in other && NextUp(other, ids[i]) == ids[z]
    ensures Drawn(rounds, {r, t}) && |rounds| == d + 2 == |Picks(rounds, cursor)|
    ensures Picks(rounds, cursor)[0] == Picks(rounds, cursor)[d + 1]
  {
    var equal := Again(r, d + 1);
    cursor := ids[if z == 0 then |ids| - 1 else z - 1];
    rounds := equal + [t];
    StartAt(r, ids, z);
    EqualRounds(r, ids, cursor, z, d);
    PickIsTurn(t, other, ids[i]);
    assert r != [] && t != [];
    hide Choose, Round, NextUp, Again, Drawn;
    PicksAppend(equal, t, cursor);
    DrawnFromTwo(equal, r, t);
  }

  lemma DrawnFromTwo(equal: seq<seq<Candidate>>, r: seq<Candidate>, t: seq<Candidate>)
    requires r != [] && t != [] && forall i :: 0 <= i < |equal| ==> equal[i] == r
    ensures Drawn(equal + [t], {r, t})
  {
  }

  lemma RepeatIsUnfair(picks: seq<string>, members: set<string>, k: nat)
    requires 0 < k < |picks| && picks[0] == picks[k]
    ensures !Fair(picks, members)
  {
  }

  /** How far it is from `z` round to `i`, if `z` does not come right after `i`. */
  lemma Distance(i: nat, z: nat, n: nat) returns (d: nat)
    requires i < n && z < n && z != Next(i, n)
    ensures d + 2 <= n && Wrap(z + d, n) == i
  {
    d := if i >= z then i - z else i - z + n;
  }

  /** More rounds do not undo a repetition. */
  lemma {:induction false} PaddedRepeats(start: seq<seq<Candidate>>, r: seq<Candidate>, t: seq<Candidate>, members: set<string>,
      cursor: string) returns (rounds: seq<seq<Candidate>>)
    requires Drawn(start, {r, t}) && r != [] && 2 <= |start| <= |members|
    requires |Picks(start, cursor)| == |start| && Picks(start, cursor)[0] == Picks(start, cursor)[|start| - 1]
    ensures Drawn(rounds, {r, t}) && |rounds| == |members| && !Fair(Picks(rounds, cursor), members)
  {
    hide Picks;
    var more := Again(r, |members| - |start|);
    PicksPrefix(start, more, cursor, 0);
    PicksPrefix(start, more, cursor, |start| - 1);
    rounds := start + more;
    RepeatIsUnfair(Picks(rounds, cursor), members, |start| - 1);
  }

  /** Where two rounds disagree about whose turn it is after somebody, some picks from them repeat. */
  lemma {:induction false} OtherTurnRepeats(r: seq<Candidate>, t: seq<Candidate>, ids: seq<string>, other: seq<string>,
      members: set<string>, i: nat)
    returns (rounds: seq<seq<Candidate>>, cursor: string)
    requires Round(r, ids) && Round(t, other) && TopSet(r) == TopSet(t) == members
    requires i < |ids| && NextUp(other, ids[i]) != ids[Next(i, |ids|)]
    ensures Drawn(rounds, {r, t}) && |rounds| == |members| && !Fair(Picks(rounds, cursor), members)
  {
    RoundSize(r, ids);
    RoundSize(t, other);
    hide Round, NextUp, TopSet, Picks, Fair, Drawn, Wrap;
    var z := TurnIsMember(t, other, r, ids, i);
    var d := Distance(i, z, |ids|);
    var start;
    start, cursor := RoundAndBack(r, t, ids, other, i, z, d);
    rounds := PaddedRepeats(start, r, t, members, cursor);
  }

  lemma RoundSize(r: seq<Candidate>, ids: seq<string>)
    requires Round(r, ids)
    ensures r != [] && |ids| == |TopSet(r)|
  {
    DistinctSize(ids);
  }

  lemma TurnIsMember(t: seq<Candidate>, other: seq<string>, r: seq<Candidate>, ids: seq<string>, i: nat) returns (z: nat)
    requires Round(r, ids) && Round(t, other) && TopSet(r) == TopSet(t) && i < |ids|
    ensures z < |ids| && ids[z] == NextUp(other, ids[i]) && ids[i] in other
  {
    assert ids[i] in ids && ids[i] in TopSet(r);
    var y := NextUp(other, ids[i]);
    assert Position(other, ids[i]) < |other|;
    assert y in other && y in TopSet(t) && y in ids;
    z := Position(ids, y);
  }

  lemma StartAt(r: seq<Candidate>, ids: seq<string>, z: nat)
    requires Round(r, ids) && z < |ids|
    ensures Choose(r, ids[if z == 0 then |ids| - 1 else z - 1]).id == ids[z]
  {
    hide Choose;
    var p := if z == 0 then |ids| - 1 else z - 1;
    PickIsTurn(r, ids, ids[p]);
    PositionAt(ids, p);
    assert ids[p] in ids;
  }

  lemma DrawnIsSteady(pool: set<seq<Candidate>>, members: set<string>, rounds: seq<seq<Candidate>>)
    requires SameTop(pool, members) && SameOrder(pool) && Drawn(rounds, pool)
    ensures SteadyTop(rounds, members)
  {
    hide Round, SameTurns, TopIds, TopSet, Ranking;
  }

  lemma NotAlways(pool: set<seq<Candidate>>, members: set<string>, rounds: seq<seq<Candidate>>, cursor: string)
    requires Drawn(rounds, pool) && |rounds| == |members| && !Fair(Picks(rounds, cursor), members)
    ensures !AlwaysFair(pool, members)
  {
    hide Fair, Picks;
  }

  /**
   Exactly when round robin is fair: for rounds that all have the same top group,
   every k picks drawn from them are fair, from any cursor, if and only if turns go
   round the top group alike in all of them.
   */
  lemma {:induction false} RoundRobinIsFairIff(pool: set<seq<Candidate>>, members: set<string>)
    requires SameTop(pool, members) && |members| > 0
    ensures AlwaysFair(pool, members) <==> SameOrder(pool)
  {
    hide Round, SameTurns, Fair, Picks, NextUp, TopIds, TopSet, Ranking;
    if SameOrder(pool) {
      forall rounds, cursor | Drawn(rounds, pool) && |rounds| == |members| ensures Fair(Picks(rounds, cursor), members) {
        DrawnIsSteady(pool, members, rounds);
        RoundRobinIsFair(rounds, members, cursor);
      }
    } else {
      var r, t :| r in pool && t in pool && !SameTurns(TopIds(Ranking(r)), TopIds(Ranking(t)));
      var i := TurnsDiffer(r, t);
      var rounds, cursor := OtherTurnRepeats(r, t, TopIds(Ranking(r)), TopIds(Ranking(t)), members, i);
      assert Drawn(rounds, pool);
      NotAlways(pool, members, rounds, cursor);
    }
  }

  lemma TurnsDiffer(r: seq<Candidate>, t: seq<Candidate>) returns (i: nat)
    requires TopSet(r) == TopSet(t) && !SameTurns(TopIds(Ranking(r)), TopIds(Ranking(t)))
    requires Round(r, TopIds(Ranking(r)))
    ensures var ids := TopIds(Ranking(r)); i < |ids| && NextUp(TopIds(Ranking(t)), ids[i]) != ids[Next(i, |ids|)]
  {
    var a, b := TopIds(Ranking(r)), TopIds(Ranking(t));
    forall x ensures x in a <==> x in b {
      assert x in TopSet(r) <==> x in a;
      assert x in TopSet(t) <==> x in b;
    }
    var x :| x in a && NextUp(a, x) != NextUp(b, x);
    i := Position(a, x);
  }

  // ----- When turns go alike -----

  /** If the top group is the same list in every round. */
  lemma SteadyList(rounds: seq<seq<Candidate>>, ids: seq<string>)
    requires forall i :: 0 <= i < |rounds| ==> Round(rounds[i], ids)
    ensures SteadyTop(rounds, set id | id in ids)
  {
    SameAsItself(ids);
    hide SameTurns, Ranking, DistinctIds;
  }

  /** Any two members of the top run count as tied. */
  ghost predicate CloseTop(available: seq<Candidate>) {
    var s := Ranking(available);
    forall i, j :: 0 <= i < j < TopLen(s) <= |s| ==> Close(s[i].score, s[j].score)
  }

  ghost predicate Ascending(ids: seq<string>) {
    forall i, j :: 0 <= i < j < |ids| ==> StringLess(ids[i], ids[j])
  }

  /** Then the order of the top run is the order of its ids. */
  lemma {:induction false} TopIdsAscend(available: seq<Candidate>)
    requires Sorting.StrictTotalOrder(Better, available) && Sorting.UniqueBy(IdOf, available) && CloseTop(available)
    ensures Ascending(TopIds(Ranking(available)))
  {
    var s := Ranking(available);
    SortIsOrdered(available);
    Sorting.PermutationKeepsUnique(IdOf, available, s);
    hide TopLen, Sorting.StrictTotalOrder, Sorting.InsertionSort;
    forall i, j | 0 <= i < j < TopLen(s) ensures StringLess(s[i].id, s[j].id) {
      assert Close(s[i].score, s[j].score);
      assert !Better(s[j], s[i]);
      StringLessTotal(s[i].id, s[j].id);
    }
  }

  lemma TailMembers(ids: seq<string>)
    requires Ascending(ids) && ids != []
    ensures forall x :: x in ids[1..] <==> x in ids && x != ids[0]
  {
    forall x ensures x in ids[1..] <==> x in ids && x != ids[0] {
      StringLessIrreflexive(ids[0]);
      if x in ids && x != ids[0] {
        var k :| 0 <= k < |ids| && ids[k] == x;
        assert ids[1..][k - 1] == x;
      }
    }
  }

  /** Two ascending lists with the same members are equal. */
  lemma {:induction false} AscendingUnique(a: seq<string>, b: seq<string>)
    requires Ascending(a) && Ascending(b) && forall x :: x in a <==> x in b
    ensures a == b
  {
    if b != [] {
      assert b[0] in b && b[0] in a;
    }
    if a != [] {
      assert a[0] in a && a[0] in b;
      if a[0] != b[0] {
        assert StringLess(a[0], b[0]) && StringLess(b[0], a[0]);
        StringLessTransitive(a[0], b[0], a[0]);
        StringLessIrreflexive(a[0]);
      }
      TailMembers(a);
      TailMembers(b);
      AscendingUnique(a[1..], b[1..]);
    }
  }

  lemma AscendingDistinct(ids: seq<string>)
    requires Ascending(ids)
    ensures DistinctIds(ids)
  {
    forall i, j | 0 <= i < j < |ids| ensures ids[i] != ids[j] {
      StringLessIrreflexive(ids[i]);
    }
  }

  /** Rounds in which the comparator is an order, ids are distinct and usable, and the top run is pairwise tied. */
  ghost predicate Tied(rounds: seq<seq<Candidate>>) {
    forall i :: 0 <= i < |rounds| ==>
      && rounds[i] != [] && Sorting.StrictTotalOrder(Better, rounds[i]) && Sorting.UniqueBy(IdOf, rounds[i])
      && CloseTop(rounds[i]) && (forall c :: c in rounds[i] ==> c.id != "")
  }

  /** In such rounds the same members are enough: whatever else is among the candidates, they always take turns alike. */
  lemma {:induction false} SteadyMembers(rounds: seq<seq<Candidate>>, members: set<string>)
    requires Tied(rounds) && forall i :: 0 <= i < |rounds| ==> TopSet(rounds[i]) == members
    ensures SteadyTop(rounds, members)
  {
    if rounds == [] {
      return;
    }
    var ids := TopIds(Ranking(rounds[0]));
    forall i | 0 <= i < |rounds| ensures Round(rounds[i], ids) {
      TiedRound(rounds[0]);
      TiedRound(rounds[i]);
      var other := TopIds(Ranking(rounds[i]));
      assert forall x :: x in ids <==> x in TopSet(rounds[0]);
      assert forall x :: x in other <==> x in TopSet(rounds[i]);
      hide TopIds, Ranking, Round;
      AscendingUnique(ids, other);
    }
    hide Round;
    SteadyList(rounds, ids);
    assert (set id | id in ids) == members;
  }

  lemma {:induction false} TiedRound(available: seq<Candidate>)
    requires available != [] && Sorting.StrictTotalOrder(Better, available) && Sorting.UniqueBy(IdOf, available)
    requires CloseTop(available) && forall c :: c in available ==> c.id != ""
    ensures Ascending(TopIds(Ranking(available))) && Round(available, TopIds(Ranking(available)))
  {
    hide Better, TopLen, Sorting.InsertionSort, Sorting.StrictTotalOrder, CloseTop;
    TopIdsAscend(available);
    AscendingDistinct(TopIds(Ranking(available)));
    var s := Ranking(available);
    Sorting.SortPermutes(Better, available);
    forall i | 0 <= i < TopLen(s) ensures s[i].id != "" {
      assert s[i] in multiset(s) && s[i] in multiset(available);
    }
  }

  /** Transitive closeness of all candidates is more than enough. */
  lemma {:induction false} RankedIsTied(available: seq<Candidate>)
    requires Ranked(available)
    ensures Sorting.StrictTotalOrder(Better, available) && Sorting.UniqueBy(IdOf, available) && CloseTop(available)
  {
    BetterIsOrder(available);
    RankedIsUnique(available);
    SortKeepsRanked(available);
    var s := Ranking(available);
    TopLenMeans(s);
    hide TopLen, Better, Sorting.InsertionSort;
    forall i, j | 0 <= i < j < TopLen(s) <= |s| ensures Close(s[i].score, s[j].score) {
      assert s[0] in s && s[i] in s && s[j] in s;
      assert Close(s[i].score, s[0].score) && Close(s[0].score, s[j].score);
    }
  }

  // ----- A top group that keeps its members but not their order -----

  function EvenScores(): (s: seq<Candidate>)
    ensures s != []
  {
    [Candidate("a", 50.0), Candidate("b", 50.0), Candidate("c", 50.0)]
  }

  function UnevenScores(): (s: seq<Candidate>)
    ensures s != []
  {
    [Candidate("a", 50.0), Candidate("c", 50.008), Candidate("b", 49.992)]
  }

  lemma LettersAscend()
    ensures StringLess("a", "b") && StringLess("b", "c") && StringLess("a", "c")
    ensures !StringLess("b", "a") && !StringLess("c", "b") && !StringLess("c", "a")
    ensures !StringLess("a", "a") && !StringLess("b", "b") && !StringLess("c", "c")
  {
  }

  /** An element that nothing at the end beats stays at the end. */
  lemma SortOneMore(less: (Candidate, Candidate) -> bool, s: seq<Candidate>, x: Candidate)
    requires Sorting.InsertionSort(less, s) == s && (s != [] ==> !less(x, s[|s| - 1]))
    ensures Sorting.InsertionSort(less, s + [x]) == s + [x]
  {
    assert (s + [x])[..|s|] == s;
  }

  /** A list of three in order that ties with its first is its own ranking and all of its top group. */
  lemma ThreeInOrder(s: seq<Candidate>)
    requires |s| == 3 && Close(s[0].score, s[1].score) && Close(s[0].score, s[2].score)
    requires !Better(s[1], s[0]) && !Better(s[2], s[1])
    ensures Ranking(s) == s && TopIds(s) == [s[0].id, s[1].id, s[2].id]
  {
    hide Better, Close, Sorting.Insert;
    assert s[..2][..1] == [s[0]] && s[..1][..0] == [] && s[..2] == [s[0], s[1]] && s == [s[0], s[1]] + [s[2]];
    assert [] + [s[0]] == [s[0]] && [s[0]] + [s[1]] == [s[0], s[1]];
    SortOneMore(Better, [], s[0]);
    SortOneMore(Better, [s[0]], s[1]);
    SortOneMore(Better, [s[0], s[1]], s[2]);
    assert Sorting.InsertionSort(Better, []) == [];
    assert TopLen([s[0]]) == 1 && TopLen([s[0], s[1]]) == 2 && TopLen(s) == 3;
  }

  lemma EvenIsOrdered()
    ensures var r := EvenScores();
      Sorting.StrictTotalOrder(Better, r) && Ranking(r) == r && TopIds(r) == ["a", "b", "c"]
  {
    var r := EvenScores();
    LettersAscend();
    assert !Tangled(r);
    BetterIsOrderIff(r);
    ThreeInOrder(r);
  }

  lemma UnevenIsOrdered()
    ensures var t := UnevenScores();
      Sorting.StrictTotalOrder(Better, t) && Ranking(t) == t && TopIds(t) == ["a", "c", "b"]
  {
    var t := UnevenScores();
    LettersAscend();
    assert !Tangled(t);
    BetterIsOrderIff(t);
    ThreeInOrder(t);
  }

  lemma LettersTurn()
    ensures DistinctIds(["a", "b", "c"]) && DistinctIds(["a", "c", "b"])
    ensures NextUp(["a", "b", "c"], "a") == "b" && NextUp(["a", "c", "b"], "b") == "a"
  {
    var e, u := ["a", "b", "c"], ["a", "c", "b"];
    PositionAt(e, 0);
    PositionAt(u, 2);
  }

  /** The two orderings of one top group in turn. */
  function MixedRounds(): (rounds: seq<seq<Candidate>>)
    ensures |rounds| == 3 && forall i :: 0 <= i < |rounds| ==> rounds[i] != []
  {
    [EvenScores(), UnevenScores(), EvenScores()]
  }

  /** Both have the same top group and the comparator orders both, but three selections from them miss a member. */
  lemma {:induction false} ReorderedTopIsUnfair()
    ensures forall r :: r in MixedRounds() ==> Sorting.StrictTotalOrder(Better, r) && TopSet(r) == {"a", "b", "c"}
    ensures Picks(MixedRounds(), "a") == ["b", "a", "b"]
  {
    hide Better, Ranking, TopIds, TopSet, Picks, EvenScores, UnevenScores, Sorting.StrictTotalOrder;
    MixedTops();
    EvenIsOrdered();
    UnevenIsOrdered();
    MixedPicks(EvenScores(), UnevenScores());
  }

  lemma MixedTops()
    ensures TopSet(EvenScores()) == {"a", "b", "c"} == TopSet(UnevenScores())
  {
    EvenIsOrdered();
    UnevenIsOrdered();
    hide Better, Ranking, TopIds, EvenScores, UnevenScores;
  }

  lemma MixedPicks(r: seq<Candidate>, t: seq<Candidate>)
    requires r != [] && t != [] && TopIds(Ranking(r)) == ["a", "b", "c"] && TopIds(Ranking(t)) == ["a", "c", "b"]
    ensures Picks([r, t, r], "a") == ["b", "a", "b"]
  {
    LettersTurn();
    hide Ranking, TopIds, Choose, NextUp, DistinctIds, Picks;
    PickIsTurn(r, ["a", "b", "c"], "a");
    PickIsTurn(t, ["a", "c", "b"], "b");
    assert ["a", "b", "c"][0] == "a" && ["a", "c", "b"][2] == "b";
    ThreePicks(r, t, r, "a");
  }

  lemma ThreePicks(r: seq<Candidate>, s: seq<Candidate>, t: seq<Candidate>, cursor: string)
    requires r != [] && s != [] && t != []
    ensures var x := Choose(r, cursor).id;
      var y := Choose(s, x).id;
      Picks([r, s, t], cursor) == [x, y, Choose(t, y).id]
  {
    hide Choose;
    assert [r, s, t][1..] == [s, t] && [s, t][1..] == [t];
    PicksOne(t, Choose(s, Choose(r, cursor).id).id);
  }
}
