/**
 SelectAccountForRun, called again and again with the cursor it stores, rotates
 through the accounts of the top group.
 */
module LeaseRotation {
  import opened LoadBalance
  import opened RoundRobin
  import opened Text
  import opened LeaseMachine
  import opened LeaseInvariant
  import Sorting

  /** One call of SelectAccountForRun: the stored document, the command and the clock. */
  datatype Turn = Turn(doc: Doc, c: Command, now: nat)

  function AccountsOf(t: Turn): seq<Account>
    requires t.c.SelectForRun?
  {
    t.doc.accounts + Discovered(Ids(t.doc.accounts), t.c.entries, t.c.stamp, t.now)
  }

  /** The candidates in the order in which the loop meets them. */
  function CandidatesOf(t: Turn): seq<Candidate>
    requires t.c.SelectForRun?
  {
    Sorting.InsertionSort(IdBefore, Available(AccountsOf(t), t.doc.quota, "", t.c.auth, t.now))
  }

  lemma {:induction false} AvailableIsUnique(accounts: seq<Account>, quota: map<string, QuotaCache>, workspaceId: string,
      auth: set<string>, now: int)
    requires UniqueIds(accounts)
    ensures Sorting.UniqueBy(IdOf, Available(accounts, quota, workspaceId, auth, now))
  {
    if accounts != [] {
      var n := |accounts| - 1;
      var front := Available(accounts[..n], quota, workspaceId, auth, now);
      AvailableIsUnique(accounts[..n], quota, workspaceId, auth, now);
      forall o | o in front ensures o.id != accounts[n].id {
        var j := AvailableFrom(accounts[..n], quota, workspaceId, auth, now, o);
        assert accounts[j].id == o.id;
      }
      hide EvaluationOf, InPool;
      assert forall k :: 0 <= k < |front| ==> front[k] in front;
    }
  }

  /** A selection meets its candidates in the order of their ids. */
  lemma {:induction false} CandidatesAscend(t: Turn)
    requires t.c.SelectForRun? && UniqueIds(AccountsOf(t))
    ensures multiset(CandidatesOf(t)) == multiset(Available(AccountsOf(t), t.doc.quota, "", t.c.auth, t.now))
    ensures forall i, j :: 0 <= i < j < |CandidatesOf(t)| ==> StringLess(CandidatesOf(t)[i].id, CandidatesOf(t)[j].id)
  {
    AvailableIsUnique(AccountsOf(t), t.doc.quota, "", t.c.auth, t.now);
    hide Available, AccountsOf, StringLess;
    Sorting.SortByKeyAscends(IdBefore, IdOf, Available(AccountsOf(t), t.doc.quota, "", t.c.auth, t.now));
  }

  lemma ChoiceIsFound(t: Turn)
    requires t.c.SelectForRun? && CandidatesOf(t) != []
    ensures Find(AccountsOf(t), Choose(CandidatesOf(t), t.c.cursor).id) < |AccountsOf(t)|
  {
    var available := Available(AccountsOf(t), t.doc.quota, "", t.c.auth, t.now);
    var o := Choose(CandidatesOf(t), t.c.cursor);
    ChooseIsCandidate(CandidatesOf(t), t.c.cursor);
    Sorting.SortPermutes(IdBefore, available);
    assert o in multiset(available);
    var j := AvailableFrom(AccountsOf(t), t.doc.quota, "", t.c.auth, t.now, o);
    assert AccountsOf(t)[j].id == o.id;
  }

  lemma SelectDecides(t: Turn)
    requires t.c.SelectForRun?
    ensures var accounts, found := AccountsOf(t), CandidatesOf(t);
      var i := if found == [] then |accounts| else Find(accounts, Choose(found, t.c.cursor).id);
      Decide(t.doc, t.c, t.now).reply == if i == |accounts| then Failed(NoneAvailable) else With(accounts[i])
  {
    hide Available, Choose, Discovered, Ids, Sorting.InsertionSort, Find;
  }

  /** A selection replies with the account of the chosen candidate, and fails only without candidates. */
  lemma SelectReplies(t: Turn)
    requires t.c.SelectForRun?
    ensures var reply := Decide(t.doc, t.c, t.now).reply;
      && (reply.With? <==> CandidatesOf(t) != [])
      && (reply.With? ==> reply.account.id == Choose(CandidatesOf(t), t.c.cursor).id)
  {
    SelectDecides(t);
    hide CandidatesOf, AccountsOf, Decide, Choose;
    if CandidatesOf(t) != [] { ChoiceIsFound(t); }
  }

  /** Selections in a row: each finds the cursor the one before stored. */
  ghost predicate InARow(turns: seq<Turn>, cursor: string) {
    && (forall i :: 0 <= i < |turns| ==> turns[i].c.SelectForRun? && Decide(turns[i].doc, turns[i].c, turns[i].now).reply.With?)
    && (turns != [] ==> turns[0].c.cursor == cursor)
    && (forall i :: 0 < i < |turns| ==> turns[i].c.cursor == Selected(turns[i - 1]))
  }

  function Selected(t: Turn): string {
    var reply := Decide(t.doc, t.c, t.now).reply;
    if reply.With? then reply.account.id else ""
  }

  function RoundsOf(turns: seq<Turn>): seq<seq<Candidate>>
    requires forall i :: 0 <= i < |turns| ==> turns[i].c.SelectForRun?
  {
    seq(|turns|, i requires 0 <= i < |turns| => CandidatesOf(turns[i]))
  }

  lemma {:induction false} RowPicks(turns: seq<Turn>, cursor: string, i: nat)
    requires InARow(turns, cursor) && i < |turns|
    requires forall k :: 0 <= k < |turns| ==> RoundsOf(turns)[k] != []
    ensures i < |Picks(RoundsOf(turns), cursor)| && Picks(RoundsOf(turns), cursor)[i] == Selected(turns[i])
  {
    hide Decide, CandidatesOf, Choose;
    SelectReplies(turns[0]);
    var rounds := RoundsOf(turns);
    if i > 0 {
      var rest := turns[1..];
      assert RoundsOf(rest) == rounds[1..];
      assert forall k :: 0 <= k < |rest| ==> RoundsOf(rest)[k] == rounds[k + 1];
      RowPicks(rest, Selected(turns[0]), i - 1);
    }
  }

  /**
   While the top group keeps the same k members and the order of their turns, k
   selections in a row hand out each of them exactly once, from any cursor;
   documents and scores may change otherwise between them.
   */
  lemma SelectionsRotate(turns: seq<Turn>, members: set<string>, cursor: string)
    requires InARow(turns, cursor) && |turns| == |members| > 0
    requires SteadyTop(RoundsOf(turns), members)
    ensures forall i, j :: 0 <= i < j < |turns| ==> Selected(turns[i]) != Selected(turns[j])
    ensures forall m :: m in members <==> exists i :: 0 <= i < |turns| && Selected(turns[i]) == m
  {
    var rounds := RoundsOf(turns);
    assert forall i :: 0 <= i < |rounds| ==> rounds[i] != [];
    RoundRobinIsFair(rounds, members, cursor);
    hide InARow, SteadyTop, Picks, Selected, Ranking, TopIds;
    var picks := Picks(rounds, cursor);
    forall i | 0 <= i < |turns| ensures picks[i] == Selected(turns[i]) {
      RowPicks(turns, cursor, i);
    }
    SamePicks(turns, picks, members);
  }

  lemma SamePicks(turns: seq<Turn>, picks: seq<string>, members: set<string>)
    requires |picks| == |turns| && forall i :: 0 <= i < |turns| ==> picks[i] == Selected(turns[i])
    requires forall m :: m in picks <==> m in members
    ensures forall m :: m in members <==> exists i :: 0 <= i < |turns| && Selected(turns[i]) == m
  {
    hide Selected;
    forall m ensures m in members <==> exists i :: 0 <= i < |turns| && Selected(turns[i]) == m {
      assert m in members <==> m in picks;
      if m in picks {
        var i :| 0 <= i < |picks| && picks[i] == m;
        assert Selected(turns[i]) == m;
      }
    }
  }
}
