/**
 The client's run loop (cmd/cube/main.go): a run claims the next lease before it
 releases the one it leaves, and releases the last one when it ends. What the
 network, the file system and the child process answer is given round by round.
 */
module Swap {
  import opened Wrappers

  /**
   What a claim comes to: the server refused it; it granted a lease but the answer
   was lost or unusable, so the run sees an error; or the run got the lease.
   */
  datatype Claimed = Refused | Lost(id: string) | Got(id: string)

  /**
   What happens about the run's leases: the server grants one, or the run asks for
   the release of one and the server carries it out or not.
   */
  datatype Ask = Take(id: string) | Give(id: string, done: bool)

  /** One round: how the child ended and what became of the calls around it; `released` is about the lease left. */
  datatype Round = Round(
    swap: bool, runFailed: bool, authFailed: bool, sessionFound: bool, claimed: Claimed, released: bool, written: bool)

  /** How a run ends: whether it was cancelled, and whether the server carries out its last release request. */
  datatype Ending = Ending(cancelled: bool, released: bool)

  /** The loop's variables: the current lease, what happened so far and the last errors; `lost` is not known to the run. */
  datatype Run = Run(lease: string, asks: seq<Ask>, looping: bool, runFailed: bool, authFailed: bool, lost: Option<string>)

  function Iterate(s: Run, r: Round): Run {
    if !s.looping then s
    else
      var t := s.(authFailed := r.authFailed, runFailed := r.runFailed && !r.swap);
      if !r.swap || !r.sessionFound then t.(looping := false)
      else
        match r.claimed
        case Refused => t.(looping := false)
        case Lost(id) => t.(looping := false, asks := t.asks + [Take(id)], lost := Some(id))
        case Got(id) =>
          var u := t.(lease := id, asks := t.asks + [Take(id), Give(t.lease, r.released)]);
          if r.written then u else u.(looping := false, runFailed := true)
  }

  function Rounds(first: string, rounds: seq<Round>): Run {
    if rounds == [] then Run(first, [Take(first)], true, false, false, None)
    else Iterate(Rounds(first, rounds[..|rounds| - 1]), rounds[|rounds| - 1])
  }

  lemma RoundsNext(first: string, rounds: seq<Round>, k: nat)
    requires k < |rounds|
    ensures Rounds(first, rounds[..k + 1]) == Iterate(Rounds(first, rounds[..k]), rounds[k])
  {
    assert rounds[..k + 1][..k] == rounds[..k];
    hide Iterate;
  }

  /** The end of the loop: the current lease is released unless its last upload failed on its own. */
  predicate Releases(s: Run, cancelled: bool) {
    !s.authFailed || cancelled
  }

  function LastGive(s: Run, end: Ending): seq<Ask> {
    if !s.looping && Releases(s, end.cancelled) then [Give(s.lease, end.released)] else []
  }

  function Asks(first: Claimed, homeOk: bool, writtenOk: bool, rounds: seq<Round>, end: Ending): seq<Ask> {
    match first
    case Refused => []
    case Lost(id) => [Take(id)]
    case Got(id) =>
      if !homeOk || !writtenOk then [Take(id)]
      else
        var s := Rounds(id, rounds);
        s.asks + LastGive(s, end)
  }

  /** The run is over: it never got a lease, or stopped in its set-up, or left its loop. */
  predicate Over(first: Claimed, homeOk: bool, writtenOk: bool, rounds: seq<Round>) {
    !first.Got? || !homeOk || !writtenOk || !Rounds(first.id, rounds).looping
  }

  lemma {:induction false} EndedStays(first: string, rounds: seq<Round>, k: nat)
    requires k <= |rounds| && !Rounds(first, rounds[..k]).looping
    ensures Rounds(first, rounds) == Rounds(first, rounds[..k])
  {
    if k < |rounds| {
      var front := rounds[..|rounds| - 1];
      assert front[..k] == rounds[..k];
      EndedStays(first, front, k);
    } else {
      assert rounds[..k] == rounds;
    }
  }

  /** The round leads to another: a swap whose next lease was claimed and written down. */
  predicate GoesOn(r: Round) {
    r.swap && r.sessionFound && r.claimed.Got? && r.written
  }

  /** A run loops as long as every round leads to another. */
  lemma {:induction false} LoopsIff(first: string, rounds: seq<Round>)
    ensures Rounds(first, rounds).looping <==> forall k :: 0 <= k < |rounds| ==> GoesOn(rounds[k])
  {
    if rounds != [] { LoopsIff(first, rounds[..|rounds| - 1]); }
  }

  /**
   The first round that does not lead to another ends the run: its last upload decides whether the
   lease is kept, and the run fails if its child did without asking for a swap, or the new profile was not written.
   */
  lemma {:induction false} EndsAt(first: string, rounds: seq<Round>, k: nat)
    requires k < |rounds| && !GoesOn(rounds[k]) && forall j :: 0 <= j < k ==> GoesOn(rounds[j])
    ensures var s, r := Rounds(first, rounds), rounds[k];
      && s == Rounds(first, rounds[..k + 1]) && !s.looping && s.authFailed == r.authFailed
      && (s.runFailed <==> (r.runFailed && !r.swap) || (r.swap && r.sessionFound && r.claimed.Got? && !r.written))
  {
    LoopsIff(first, rounds[..k]);
    LoopsIff(first, rounds[..k + 1]);
    assert rounds[..k + 1][k] == rounds[k];
    EndedStays(first, rounds, k + 1);
    RoundsNext(first, rounds, k);
  }

  /** `rounds` is what happens as far as the run is followed; it may still be looping after them. */
  method RunCloudRun(first: Claimed, homeOk: bool, writtenOk: bool, rounds: seq<Round>, end: Ending)
    returns (asks: seq<Ask>, ended: bool)
    ensures asks == Asks(first, homeOk, writtenOk, rounds, end)
    ensures ended == Over(first, homeOk, writtenOk, rounds)
  {
    hide Rounds;
    if first.Refused? {
      return [], true;
    }
    if first.Lost? || !homeOk || !writtenOk {
      return [Take(first.id)], true;
    }
    var s := RunLoop(first.id, rounds);
    asks, ended := s.asks, !s.looping;
    if ended && (!s.authFailed || end.cancelled) {
      asks := asks + [Give(s.lease, end.released)];
    }
  }

  method RunLoop(first: string, rounds: seq<Round>) returns (s: Run)
    ensures s == Rounds(first, rounds)
  {
    var lease, asks, runFailed, authFailed := first, [Take(first)], false, false;
    var k := 0;
    while k < |rounds|
      invariant 0 <= k <= |rounds|
      invariant Rounds(first, rounds[..k]) == Run(lease, asks, true, runFailed, authFailed, None)
    {
      RoundsNext(first, rounds, k);
      var r := rounds[k];
      k := k + 1;
      if k < |rounds| && !Rounds(first, rounds[..k]).looping { EndedStays(first, rounds, k); }
      assert k == |rounds| ==> rounds[..k] == rounds;
      hide Rounds;
      runFailed, authFailed := r.runFailed && !r.swap, r.authFailed;
      if !r.swap {
        return Run(lease, asks, false, runFailed, authFailed, None);
      }
      if !r.sessionFound {
        return Run(lease, asks, false, runFailed, authFailed, None);
      }
      if r.claimed.Refused? {
        return Run(lease, asks, false, runFailed, authFailed, None);
      }
      asks := asks + [Take(r.claimed.id)];
      if r.claimed.Lost? {
        return Run(lease, asks, false, runFailed, authFailed, Some(r.claimed.id));
      }
      asks := asks + [Give(lease, r.released)];
      lease := r.claimed.id;
      if !r.written {
        runFailed := true;
        return Run(lease, asks, false, runFailed, authFailed, None);
      }
    }
    assert rounds[..|rounds|] == rounds;
    s := Run(lease, asks, true, runFailed, authFailed, None);
  }

  // ---------- The shape of a run ----------

  /** What happens to a run that has held these leases in turn, when every request is carried out. */
  function InTurn(ids: seq<string>): seq<Ask> {
    if ids == [] then []
    else if |ids| == 1 then [Take(ids[0])]
    else InTurn(ids[..|ids| - 1]) + [Take(ids[|ids| - 1]), Give(ids[|ids| - 2], true)]
  }

  /** The leases a run got, in order. */
  function Leases(first: string, rounds: seq<Round>): seq<string> {
    if rounds == [] then [first]
    else
      var front, r := rounds[..|rounds| - 1], rounds[|rounds| - 1];
      Leases(first, front)
      + (if Rounds(first, front).looping && r.swap && r.sessionFound && r.claimed.Got? then [r.claimed.id] else [])
  }

  /** The grant of a lease that the run never learned of. */
  function LostTake(lost: Option<string>): seq<Ask> {
    if lost.Some? then [Take(lost.value)] else []
  }

  /** The same asks with every request carried out. */
  function Plain(asks: seq<Ask>): seq<Ask> {
    seq(|asks|, i requires 0 <= i < |asks| => PlainAsk(asks[i]))
  }

  function PlainAsk(ask: Ask): Ask {
    if ask.Take? then ask else Give(ask.id, true)
  }

  lemma PlainAppend(a: seq<Ask>, b: seq<Ask>)
    ensures Plain(a + b) == Plain(a) + Plain(b)
  {
  }

  lemma {:induction false} RunIsInTurn(first: string, rounds: seq<Round>)
    ensures var ids, s := Leases(first, rounds), Rounds(first, rounds);
      && ids != [] && Plain(s.asks) == InTurn(ids) + LostTake(s.lost) && s.lease == ids[|ids| - 1]
      && (s.lost.Some? ==> !s.looping)
  {
    if rounds == [] {
      assert [first][0] == first;
    } else {
      hide InTurn, Plain;
      var front, r := rounds[..|rounds| - 1], rounds[|rounds| - 1];
      RunIsInTurn(first, front);
      var before, s := Leases(first, front), Rounds(first, front);
      if s.looping {
        assert Plain(s.asks) == InTurn(before);
        if r.swap && r.sessionFound && r.claimed.Got? {
          InTurnGrows(before, r.claimed.id);
          PlainAppend(s.asks, [Take(r.claimed.id), Give(s.lease, r.released)]);
          PlainSwap(r.claimed.id, s.lease, r.released);
        } else {
          assert Leases(first, rounds) == before;
          if LosesClaim(r) {
            PlainAppend(s.asks, [Take(r.claimed.id)]);
            PlainTake(r.claimed.id);
          }
        }
      } else {
        assert Leases(first, rounds) == before;
      }
    }
  }

  lemma PlainSwap(id: string, former: string, done: bool)
    ensures Plain([Take(id), Give(former, done)]) == [Take(id), Give(former, true)]
  {
  }

  lemma PlainTake(id: string)
    ensures Plain([Take(id)]) == [Take(id)]
  {
  }

  lemma PlainGive(id: string, done: bool)
    ensures Plain([Give(id, done)]) == [Give(id, true)]
  {
  }

  lemma InTurnGrows(ids: seq<string>, id: string)
    requires ids != []
    ensures InTurn(ids + [id]) == InTurn(ids) + [Take(id), Give(ids[|ids| - 1], true)]
  {
    var all := ids + [id];
    assert all[..|all| - 1] == ids && all[|all| - 1] == id && all[|all| - 2] == ids[|ids| - 1];
    assert InTurn(all) == InTurn(all[..|all| - 1]) + [Take(all[|all| - 1]), Give(all[|all| - 2], true)];
  }

  /** The round ends with a claim that the server granted and the run saw fail. */
  predicate LosesClaim(r: Round) {
    r.swap && r.sessionFound && r.claimed.Lost?
  }

  /** Some round that was reached lost its claim. */
  ghost predicate LostOne(first: string, rounds: seq<Round>) {
    exists k :: 0 <= k < |rounds| && Rounds(first, rounds[..k]).looping && LosesClaim(rounds[k])
  }

  lemma LostOneMore(first: string, rounds: seq<Round>)
    requires rounds != []
    ensures var front, last := rounds[..|rounds| - 1], rounds[|rounds| - 1];
      LostOne(first, rounds) <==> LostOne(first, front) || (Rounds(first, front).looping && LosesClaim(last))
  {
    hide Rounds, LosesClaim;
    var front, n := rounds[..|rounds| - 1], |rounds| - 1;
    assert forall k :: 0 <= k < n ==> front[..k] == rounds[..k] && front[k] == rounds[k];
    if Rounds(first, front).looping && LosesClaim(rounds[n]) {
      assert Rounds(first, rounds[..n]).looping && LosesClaim(rounds[n]);
    }
  }

  lemma {:induction false} LostIff(first: string, rounds: seq<Round>)
    ensures Rounds(first, rounds).lost.Some? <==> LostOne(first, rounds)
  {
    hide LostOne, Leases, InTurn, LostTake;
    if rounds == [] {
      NothingLost(first);
    } else {
      var front := rounds[..|rounds| - 1];
      LostIff(first, front);
      LostOneMore(first, rounds);
      RunIsInTurn(first, front);
    }
  }

  lemma NothingLost(first: string)
    ensures !LostOne(first, []) && Rounds(first, []).lost == None
  {
  }

  /** The leases granted and not given back by a request that was carried out. */
  function Held(asks: seq<Ask>): multiset<string> {
    if asks == [] then multiset{}
    else
      var before := Held(asks[..|asks| - 1]);
      match asks[|asks| - 1]
      case Take(id) => before + multiset{id}
      case Give(id, done) => if done then before - multiset{id} else before
  }

  lemma {:induction false} HeldInTurn(ids: seq<string>)
    requires ids != []
    ensures |InTurn(ids)| == 2 * |ids| - 1
    ensures Held(InTurn(ids)) == multiset{ids[|ids| - 1]}
  {
    hide Held;
    if |ids| > 1 {
      var front := ids[..|ids| - 1];
      HeldInTurn(front);
      HeldAfterSwap(InTurn(front), ids[|ids| - 2], ids[|ids| - 1]);
    } else {
      HeldOne(ids[0]);
    }
  }

  lemma HeldOne(id: string)
    ensures Held([Take(id)]) == multiset{id}
  {
    assert [Take(id)][..0] == [];
  }

  lemma {:induction false} HeldAfterSwap(asks: seq<Ask>, former: string, next: string)
    requires Held(asks) == multiset{former}
    ensures Held(asks + [Take(next)]) == multiset{former, next}
    ensures Held(asks + [Take(next), Give(former, true)]) == multiset{next}
  {
    hide Held;
    HeldAdd(asks, Take(next));
    HeldAdd(asks + [Take(next)], Give(former, true));
    assert asks + [Take(next)] + [Give(former, true)] == asks + [Take(next), Give(former, true)];
    TwoAndOne(former, next);
  }

  lemma TwoAndOne(former: string, next: string)
    ensures multiset{former} + multiset{next} == multiset{former, next}
    ensures multiset{former, next} - multiset{former} == multiset{next}
  {
  }

  lemma {:induction false} InTurnPrefix(ids: seq<string>, j: nat)
    requires j <= |ids|
    ensures InTurn(ids[..j]) <= InTurn(ids)
  {
    if j == |ids| {
      assert ids[..j] == ids;
    } else {
      var front := ids[..|ids| - 1];
      InTurnPrefix(front, j);
      assert front[..j] == ids[..j];
      assert InTurn(front) <= InTurn(ids);
    }
  }

  lemma HeldPrefix(part: seq<Ask>, whole: seq<Ask>, k: nat)
    requires part <= whole && k == |part|
    ensures Held(whole[..k]) == Held(part)
  {
    assert whole[..k] == part;
  }

  lemma {:induction false} HeldEarly(ids: seq<string>, j: nat)
    requires j < |ids|
    ensures |InTurn(ids)| == 2 * |ids| - 1
    ensures Held(InTurn(ids)[..2 * j + 1]) == multiset{ids[j]}
    ensures j > 0 ==> Held(InTurn(ids)[..2 * j]) == multiset{ids[j - 1], ids[j]}
  {
    hide InTurn, Held;
    HeldInTurn(ids);
    var now := ids[..j + 1];
    HeldInTurn(now);
    InTurnPrefix(ids, j + 1);
    HeldPrefix(InTurn(now), InTurn(ids), 2 * j + 1);
    if j > 0 {
      var before := ids[..j];
      HeldInTurn(before);
      SwapInTurn(ids, j);
      HeldAfterSwap(InTurn(before), ids[j - 1], ids[j]);
      HeldPrefix(InTurn(before) + [Take(ids[j])], InTurn(ids), 2 * j);
    }
  }

  lemma SwapInTurn(ids: seq<string>, j: nat)
    requires 0 < j < |ids|
    ensures InTurn(ids[..j + 1]) == InTurn(ids[..j]) + [Take(ids[j]), Give(ids[j - 1], true)]
    ensures InTurn(ids[..j]) + [Take(ids[j])] <= InTurn(ids[..j + 1])
  {
    assert ids[..j + 1][..j] == ids[..j];
  }

  lemma HeldNothing(asks: seq<Ask>)
    ensures Held(asks[..0]) == multiset{}
  {
  }

  lemma HeldAdd(asks: seq<Ask>, ask: Ask)
    ensures Held(asks + [ask]) ==
      if ask.Take? then Held(asks) + multiset{ask.id} else if ask.done then Held(asks) - multiset{ask.id} else Held(asks)
  {
    assert (asks + [ask])[..|asks|] == asks;
  }

  // ---------- Requests that are not carried out ----------

  /** The leases whose release was asked for and not carried out. */
  function Unreleased(asks: seq<Ask>): multiset<string> {
    if asks == [] then multiset{}
    else
      var before, last := Unreleased(asks[..|asks| - 1]), asks[|asks| - 1];
      if last.Give? && !last.done then before + multiset{last.id} else before
  }

  lemma UnreleasedAdd(asks: seq<Ask>, ask: Ask)
    ensures Unreleased(asks + [ask]) == if ask.Give? && !ask.done then Unreleased(asks) + multiset{ask.id} else Unreleased(asks)
  {
    assert (asks + [ask])[..|asks|] == asks;
  }

  /** Only leases that would be held are asked to be released. */
  ghost predicate WellGiven(asks: seq<Ask>) {
    asks == []
    || (var front, last := asks[..|asks| - 1], asks[|asks| - 1];
        WellGiven(front) && (last.Give? ==> last.id in Held(Plain(front))))
  }

  lemma {:induction false} WellGivenPrefix(asks: seq<Ask>, k: nat)
    requires WellGiven(asks) && k <= |asks|
    ensures WellGiven(asks[..k])
  {
    if k == |asks| {
      assert asks[..k] == asks;
    } else {
      WellGivenPrefix(asks[..|asks| - 1], k);
      assert asks[..|asks| - 1][..k] == asks[..k];
    }
  }

  lemma WellGivenAdd(asks: seq<Ask>, ask: Ask)
    requires WellGiven(asks) && (ask.Give? ==> ask.id in Held(Plain(asks)))
    ensures WellGiven(asks + [ask])
  {
    assert (asks + [ask])[..|asks|] == asks;
  }

  lemma TakeOutOfSum(a: multiset<string>, b: multiset<string>, id: string)
    requires id in a
    ensures a + b - multiset{id} == a - multiset{id} + b
    ensures a + b == a - multiset{id} + (b + multiset{id})
  {
  }

  /** What a run holds is what it would hold if every request were carried out, and the leases whose request was not. */
  lemma {:induction false} HeldIsPlainAndFailed(asks: seq<Ask>)
    requires WellGiven(asks)
    ensures Held(asks) == Held(Plain(asks)) + Unreleased(asks)
  {
    hide Plain;
    if asks == [] {
      assert Plain(asks) == [] by { PlainLength(asks); }
    } else {
      var front, last := asks[..|asks| - 1], asks[|asks| - 1];
      HeldIsPlainAndFailed(front);
      assert asks == front + [last];
      PlainAppend(front, [last]);
      PlainOne(last);
      HeldAdd(Plain(front), PlainAsk(last));
      if last.Give? { TakeOutOfSum(Held(Plain(front)), Unreleased(front), last.id); }
      hide Held, Unreleased;
      HeldAdd(front, last);
      UnreleasedAdd(front, last);
    }
  }

  lemma PlainOne(ask: Ask)
    ensures Plain([ask]) == [PlainAsk(ask)]
  {
  }

  lemma PlainLength(asks: seq<Ask>)
    ensures |Plain(asks)| == |asks|
  {
  }

  // ---------- What a run holds ----------

  /** What a run holds after its first `k` asks when it gets every lease it is granted and every request is carried out. */
  function HeldThen(ids: seq<string>, k: nat): multiset<string>
    requires k <= 2 * |ids| - 1
  {
    if k == 0 then multiset{}
    else if k % 2 == 1 then multiset{ids[k / 2]}
    else multiset{ids[k / 2 - 1], ids[k / 2]}
  }

  /** The asks of a run that got past its set-up: its leases in turn, perhaps a lost one, and the last release. */
  lemma {:induction false} AsksInTurn(first: string, rounds: seq<Round>, end: Ending)
    ensures var ids, s := Leases(first, rounds), Rounds(first, rounds);
      var asks := Asks(Got(first), true, true, rounds, end);
      && ids != [] && |InTurn(ids)| == 2 * |ids| - 1 && s.lease == ids[|ids| - 1]
      && Plain(asks) == InTurn(ids) + LostTake(s.lost) + Plain(LastGive(s, end))
      && asks == s.asks + LastGive(s, end)
  {
    hide InTurn, Leases, Rounds, Plain;
    RunIsInTurn(first, rounds);
    HeldInTurn(Leases(first, rounds));
    PlainAppend(Rounds(first, rounds).asks, LastGive(Rounds(first, rounds), end));
  }

  lemma {:induction false} RoundsWellGiven(first: string, rounds: seq<Round>)
    ensures WellGiven(Rounds(first, rounds).asks)
  {
    hide WellGiven, InTurn, Leases, Plain, Held, Iterate;
    if rounds == [] {
      OneTake(first);
    } else {
      var front := rounds[..|rounds| - 1];
      RoundsWellGiven(first, front);
      RunIsInTurn(first, front);
      HeldInTurn(Leases(first, front));
      var s := Rounds(first, front);
      hide Rounds;
      if s.looping { assert InTurn(Leases(first, front)) + [] == InTurn(Leases(first, front)); }
      IterateWellGiven(s, rounds[|rounds| - 1]);
      RoundsNext(first, rounds, |rounds| - 1);
      assert rounds[..|rounds|] == rounds;
    }
  }

  lemma OneTake(first: string)
    ensures WellGiven(Rounds(first, []).asks)
  {
    assert [Take(first)][..0] == [];
  }

  lemma IterateWellGiven(s: Run, r: Round)
    requires WellGiven(s.asks) && (s.looping ==> Held(Plain(s.asks)) == multiset{s.lease})
    ensures WellGiven(Iterate(s, r).asks)
  {
    hide WellGiven, Held, Plain;
    if s.looping && r.swap && r.sessionFound && !r.claimed.Refused? {
      WellGivenSwap(s.asks, s.lease, r.claimed.id, r.released);
      assert s.asks + [Take(r.claimed.id)] + [Give(s.lease, r.released)]
          == s.asks + [Take(r.claimed.id), Give(s.lease, r.released)];
    }
  }

  lemma WellGivenSwap(asks: seq<Ask>, former: string, next: string, done: bool)
    requires WellGiven(asks) && Held(Plain(asks)) == multiset{former}
    ensures WellGiven(asks + [Take(next)]) && WellGiven(asks + [Take(next)] + [Give(former, done)])
  {
    hide WellGiven, Held, Plain;
    WellGivenAdd(asks, Take(next));
    PlainAppend(asks, [Take(next)]);
    PlainTake(next);
    HeldAdd(Plain(asks), Take(next));
    WellGivenAdd(asks + [Take(next)], Give(former, done));
  }

  lemma {:induction false} AsksWellGiven(first: string, rounds: seq<Round>, end: Ending)
    ensures WellGiven(Asks(Got(first), true, true, rounds, end))
  {
    hide WellGiven, InTurn, Leases, Plain, Held, Rounds, LostTake;
    RoundsWellGiven(first, rounds);
    var s := Rounds(first, rounds);
    if LastGive(s, end) == [] {
      assert s.asks + [] == s.asks;
    } else {
      RunIsInTurn(first, rounds);
      HeldInTurn(Leases(first, rounds));
      HeldTail(InTurn(Leases(first, rounds)), s.lease, s.lost);
      WellGivenAdd(s.asks, Give(s.lease, end.released));
    }
  }

  lemma HeldTail(asks: seq<Ask>, last: string, lost: Option<string>)
    requires Held(asks) == multiset{last}
    ensures Held(asks + LostTake(lost)) == multiset{last} + LostHeld(lost)
    ensures Held(asks + LostTake(lost) + [Give(last, true)]) == LostHeld(lost)
  {
    hide Held;
    if lost.Some? { HeldAdd(asks, Take(lost.value)); }
    assert asks + [] == asks;
    HeldAdd(asks + LostTake(lost), Give(last, true));
  }

  function LostHeld(lost: Option<string>): multiset<string> {
    if lost.Some? then multiset{lost.value} else multiset{}
  }

  lemma PlainPrefix(asks: seq<Ask>, k: nat)
    requires k <= |asks|
    ensures k <= |Plain(asks)| && Plain(asks[..k]) == Plain(asks)[..k]
  {
  }

  /**
   At every moment of its loop a run holds one lease (after an odd number of asks),
   or between the grant of a new one and the release request for the old (after an
   even number) those two; and besides, the leases whose request was not carried out.
   */
  lemma {:induction false} AtMostTwoLeases(first: string, rounds: seq<Round>, end: Ending, k: nat)
    requires k <= 2 * |Leases(first, rounds)| - 1
    ensures var asks := Asks(Got(first), true, true, rounds, end);
      && k <= |asks| && Held(asks[..k]) == HeldThen(Leases(first, rounds), k) + Unreleased(asks[..k])
  {
    hide Asks, Leases, InTurn, Held, Rounds, Plain, WellGiven, LastGive;
    AsksInTurn(first, rounds, end);
    AsksWellGiven(first, rounds, end);
    var ids, asks := Leases(first, rounds), Asks(Got(first), true, true, rounds, end);
    PlainLength(asks);
    WellGivenPrefix(asks, k);
    HeldIsPlainAndFailed(asks[..k]);
    PlainPrefix(asks, k);
    assert Plain(asks)[..k] == InTurn(ids)[..k];
    HeldInTurnThen(ids, k);
  }

  lemma {:induction false} HeldInTurnThen(ids: seq<string>, k: nat)
    requires ids != [] && k <= 2 * |ids| - 1
    ensures k <= |InTurn(ids)| && Held(InTurn(ids)[..k]) == HeldThen(ids, k)
  {
    hide InTurn, Held;
    HeldInTurn(ids);
    if k == 0 {
      HeldNothing(InTurn(ids));
    } else {
      HeldEarly(ids, k / 2);
      assert k == 2 * (k / 2) || k == 2 * (k / 2) + 1;
    }
  }

  /**
   After its loop: a claim the run saw fail may have left it a second lease, which it
   does not release; the last one it got is released or not; and again the leases
   whose request was not carried out.
   */
  lemma {:induction false} HeldAtTheEnd(first: string, rounds: seq<Round>, end: Ending)
    ensures var s, ids := Rounds(first, rounds), Leases(first, rounds);
      var asks := Asks(Got(first), true, true, rounds, end);
      && ids != [] && Held(s.asks) == multiset{ids[|ids| - 1]} + LostHeld(s.lost) + Unreleased(s.asks)
      && Held(asks)
         == (if LastGive(s, end) == [] then multiset{ids[|ids| - 1]} else multiset{}) + LostHeld(s.lost) + Unreleased(asks)
  {
    hide Leases, InTurn, Held, Rounds, Asks, Releases, LostTake, Plain, WellGiven;
    AsksInTurn(first, rounds, end);
    RunIsInTurn(first, rounds);
    RoundsWellGiven(first, rounds);
    AsksWellGiven(first, rounds, end);
    var s, ids := Rounds(first, rounds), Leases(first, rounds);
    HeldInTurn(ids);
    HeldTail(InTurn(ids), s.lease, s.lost);
    HeldIsPlainAndFailed(s.asks);
    HeldIsPlainAndFailed(Asks(Got(first), true, true, rounds, end));
    if LastGive(s, end) == [] {
      assert s.asks + [] == s.asks;
    } else {
      PlainGive(s.lease, end.released);
    }
  }

  /** Besides those, a run never holds more than two leases, known to it or not. */
  lemma {:induction false} NeverMoreThanTwo(first: Claimed, homeOk: bool, writtenOk: bool, rounds: seq<Round>, end: Ending,
      k: nat)
    requires k <= |Asks(first, homeOk, writtenOk, rounds, end)|
    ensures var asks := Asks(first, homeOk, writtenOk, rounds, end);
      |Held(asks[..k])| <= 2 + |Unreleased(asks[..k])|
  {
    if first.Got? && homeOk && writtenOk {
      NeverMoreInTheLoop(first.id, rounds, end, k);
    } else if !first.Refused? && k == 1 {
      HeldAdd([], Take(first.id));
      assert [] + [Take(first.id)] == [Take(first.id)] == [Take(first.id)][..1];
    }
  }

  lemma {:induction false} NeverMoreInTheLoop(first: string, rounds: seq<Round>, end: Ending, k: nat)
    requires k <= |Asks(Got(first), true, true, rounds, end)|
    ensures var asks := Asks(Got(first), true, true, rounds, end);
      |Held(asks[..k])| <= 2 + |Unreleased(asks[..k])|
  {
    hide Leases, InTurn, Held, Unreleased, Rounds, Asks, Releases, LostHeld, LostTake, Plain;
    AsksInTurn(first, rounds, end);
    var s, ids := Rounds(first, rounds), Leases(first, rounds);
    var asks := Asks(Got(first), true, true, rounds, end);
    if k <= 2 * |ids| - 1 {
      AtMostTwoLeases(first, rounds, end, k);
    } else {
      HeldAtTheEnd(first, rounds, end);
      RunIsInTurn(first, rounds);
      LostHeldIsSmall(s.lost);
      PlainLength(s.asks);
      assert k == |s.asks| ==> asks[..k] == s.asks;
      assert k == |asks| ==> asks[..k] == asks;
    }
  }

  lemma LostHeldIsSmall(lost: Option<string>)
    ensures |LostHeld(lost)| <= 1 && |LostTake(lost)| == |LostHeld(lost)|
  {
  }

  // ---------- Release requests ----------

  /** How often the release of a lease was asked for. */
  function Requests(asks: seq<Ask>, id: string): nat {
    if asks == [] then 0
    else
      var last := asks[|asks| - 1];
      Requests(asks[..|asks| - 1], id) + (if last.Give? && last.id == id then 1 else 0)
  }

  ghost predicate Distinct(ids: seq<string>) {
    forall i, j :: 0 <= i < j < |ids| ==> ids[i] != ids[j]
  }

  lemma RequestsAdd(asks: seq<Ask>, ask: Ask, id: string)
    ensures Requests(asks + [ask], id) == Requests(asks, id) + (if ask.Give? && ask.id == id then 1 else 0)
  {
    assert (asks + [ask])[..|asks|] == asks;
  }

  lemma {:induction false} PlainRequests(asks: seq<Ask>, id: string)
    ensures Requests(Plain(asks), id) == Requests(asks, id)
  {
    if asks != [] {
      PlainRequests(asks[..|asks| - 1], id);
      PlainPrefix(asks, |asks| - 1);
    }
  }

  lemma RequestsSwap(asks: seq<Ask>, next: string, former: string, id: string)
    ensures Requests(asks + [Take(next), Give(former, true)], id) == Requests(asks, id) + (if former == id then 1 else 0)
  {
    RequestsAdd(asks, Take(next), id);
    RequestsAdd(asks + [Take(next)], Give(former, true), id);
    assert asks + [Take(next)] + [Give(former, true)] == asks + [Take(next), Give(former, true)];
  }

  lemma {:induction false} RequestsInTurn(ids: seq<string>, i: nat)
    requires Distinct(ids) && i < |ids|
    ensures Requests(InTurn(ids), ids[i]) == if i < |ids| - 1 then 1 else 0
  {
    var n := |ids|;
    if n == 1 {
      assert InTurn(ids)[..0] == [];
    } else {
      var front := ids[..n - 1];
      RequestsSwap(InTurn(front), ids[n - 1], ids[n - 2], ids[i]);
      if i < n - 1 {
        RequestsInTurn(front, i);
      } else {
        NeverRequested(front, ids[i]);
      }
    }
  }

  lemma {:induction false} NeverRequested(ids: seq<string>, id: string)
    requires id !in ids
    ensures Requests(InTurn(ids), id) == 0
  {
    if |ids| == 1 {
      assert InTurn(ids)[..0] == [];
    } else if |ids| > 1 {
      NeverRequested(ids[..|ids| - 1], id);
      RequestsSwap(InTurn(ids[..|ids| - 1]), ids[|ids| - 1], ids[|ids| - 2], id);
    }
  }

  /**
   Of a run that got past its set-up, every lease it left for another has had
   exactly one release request; the current one has one iff the loop has ended and
   the last upload succeeded or the run was cancelled, and never more.
   */
  lemma {:induction false} EachLeaseReleasedOnce(first: string, rounds: seq<Round>, end: Ending, i: nat)
    requires Distinct(Leases(first, rounds)) && i < |Leases(first, rounds)|
    ensures var ids, s := Leases(first, rounds), Rounds(first, rounds);
      Requests(Asks(Got(first), true, true, rounds, end), ids[i])
      == if i < |ids| - 1 || (!s.looping && (!s.authFailed || end.cancelled)) then 1 else 0
  {
    hide Leases, InTurn, Rounds, Requests, Plain;
    var ids, s := Leases(first, rounds), Rounds(first, rounds);
    AsksInTurn(first, rounds, end);
    RequestsInTurn(ids, i);
    RequestsAtEnd(InTurn(ids), s, end, ids[i]);
    PlainRequests(Asks(Got(first), true, true, rounds, end), ids[i]);
  }

  /** A lease the run never learned of is never released by it. */
  lemma {:induction false} LostIsNeverReleased(first: string, rounds: seq<Round>, end: Ending)
    requires var s := Rounds(first, rounds); s.lost.Some? && s.lost.value !in Leases(first, rounds)
    ensures Requests(Asks(Got(first), true, true, rounds, end), Rounds(first, rounds).lost.value) == 0
  {
    hide Leases, InTurn, Rounds, Requests, Plain;
    var ids, s := Leases(first, rounds), Rounds(first, rounds);
    AsksInTurn(first, rounds, end);
    NeverRequested(ids, s.lost.value);
    RequestsAtEnd(InTurn(ids), s, end, s.lost.value);
    PlainRequests(Asks(Got(first), true, true, rounds, end), s.lost.value);
  }

  lemma RequestsAtEnd(asks: seq<Ask>, s: Run, end: Ending, id: string)
    ensures Requests(asks + LostTake(s.lost) + Plain(LastGive(s, end)), id)
         == Requests(asks, id) + (if LastGive(s, end) != [] && s.lease == id then 1 else 0)
  {
    hide Requests, Plain;
    var more := asks + LostTake(s.lost);
    if s.lost.Some? { RequestsAdd(asks, Take(s.lost.value), id); }
    RequestsAdd(more, Give(s.lease, true), id);
    PlainGive(s.lease, end.released);
    PlainLength([]);
    assert asks + [] == asks && more + [] == more;
  }

  // ---------- Leaks ----------

  /** The round leaves a lease whose release the server does not carry out. */
  predicate FailsRelease(r: Round) {
    r.swap && r.sessionFound && r.claimed.Got? && !r.released
  }

  /** Some round that was reached did so. */
  ghost predicate FailedOne(first: string, rounds: seq<Round>) {
    exists k :: 0 <= k < |rounds| && Rounds(first, rounds[..k]).looping && FailsRelease(rounds[k])
  }

  lemma FailedOneMore(first: string, rounds: seq<Round>)
    requires rounds != []
    ensures var front, last := rounds[..|rounds| - 1], rounds[|rounds| - 1];
      FailedOne(first, rounds) <==> FailedOne(first, front) || (Rounds(first, front).looping && FailsRelease(last))
  {
    hide Rounds, FailsRelease;
    var front, n := rounds[..|rounds| - 1], |rounds| - 1;
    assert forall k :: 0 <= k < n ==> front[..k] == rounds[..k] && front[k] == rounds[k];
    if Rounds(first, front).looping && FailsRelease(rounds[n]) {
      assert Rounds(first, rounds[..n]).looping && FailsRelease(rounds[n]);
    }
  }

  lemma NoneFailed(first: string)
    ensures !FailedOne(first, []) && Unreleased(Rounds(first, []).asks) == multiset{}
  {
    UnreleasedAdd([], Take(first));
    assert [] + [Take(first)] == [Take(first)];
  }

  lemma FailedAfterSwap(asks: seq<Ask>, next: string, former: string, done: bool)
    ensures Unreleased(asks + [Take(next)]) == Unreleased(asks)
    ensures Unreleased(asks + [Take(next), Give(former, done)]) == if done then Unreleased(asks) else Unreleased(asks) + multiset{former}
  {
    hide Unreleased;
    UnreleasedAdd(asks, Take(next));
    UnreleasedAdd(asks + [Take(next)], Give(former, done));
    assert asks + [Take(next)] + [Give(former, done)] == asks + [Take(next), Give(former, done)];
  }

  lemma {:induction false} FailedIff(first: string, rounds: seq<Round>)
    ensures Unreleased(Rounds(first, rounds).asks) != multiset{} <==> FailedOne(first, rounds)
  {
    hide FailedOne, Unreleased;
    if rounds == [] {
      NoneFailed(first);
    } else {
      var front, r := rounds[..|rounds| - 1], rounds[|rounds| - 1];
      FailedIff(first, front);
      FailedOneMore(first, rounds);
      var s := Rounds(first, front);
      if s.looping && r.swap && r.sessionFound && !r.claimed.Refused? {
        FailedAfterSwap(s.asks, r.claimed.id, s.lease, r.released);
        NotEmpty(Unreleased(s.asks), s.lease);
      }
    }
  }

  lemma NotEmpty(m: multiset<string>, id: string)
    ensures m + multiset{id} != multiset{}
  {
    assert id in m + multiset{id};
  }

  /** The ways a run leaves a lease to expire. */
  ghost predicate Leaks(first: Claimed, homeOk: bool, writtenOk: bool, rounds: seq<Round>, end: Ending) {
    match first
    case Refused => false
    case Lost(_) => true
    case Got(id) =>
      || !homeOk || !writtenOk
      || LostOne(id, rounds) || FailedOne(id, rounds)
      || (if Releases(Rounds(id, rounds), end.cancelled) then !end.released else true)
  }

  /**
   A run that is over leaves a lease that no request gave back iff the answer to one
   of its claims was lost, or it ended in its set-up, or one of its release requests
   was not carried out, or its last upload failed and nobody cancelled it.
   */
  lemma {:induction false} LeaksIff(first: Claimed, homeOk: bool, writtenOk: bool, rounds: seq<Round>, end: Ending)
    requires Over(first, homeOk, writtenOk, rounds)
    ensures Held(Asks(first, homeOk, writtenOk, rounds, end)) != multiset{} <==> Leaks(first, homeOk, writtenOk, rounds, end)
  {
    if first.Got? && homeOk && writtenOk {
      LeaksAtTheEnd(first.id, rounds, end);
    } else if !first.Refused? {
      HeldAdd([], Take(first.id));
      assert [] + [Take(first.id)] == [Take(first.id)];
      assert first.id in Held(Asks(first, homeOk, writtenOk, rounds, end));
    }
  }

  lemma {:induction false} LeaksAtTheEnd(first: string, rounds: seq<Round>, end: Ending)
    requires !Rounds(first, rounds).looping
    ensures Held(Asks(Got(first), true, true, rounds, end)) != multiset{} <==> Leaks(Got(first), true, true, rounds, end)
  {
    hide Held, Unreleased, Rounds, Leases, LostOne, FailedOne;
    var s, ids := Rounds(first, rounds), Leases(first, rounds);
    LostIff(first, rounds);
    FailedIff(first, rounds);
    HeldAtTheEnd(first, rounds, end);
    UnreleasedAdd(s.asks, Give(s.lease, end.released));
    NotEmpty(Unreleased(s.asks), s.lease);
    assert s.asks + [] == s.asks;
    LostIsSomething(s.lost);
    EmptySum(if LastGive(s, end) == [] then multiset{ids[|ids| - 1]} else multiset{}, LostHeld(s.lost),
             Unreleased(Asks(Got(first), true, true, rounds, end)));
    assert ids[|ids| - 1] in multiset{ids[|ids| - 1]};
  }

  lemma LostIsSomething(lost: Option<string>)
    ensures LostHeld(lost) != multiset{} <==> lost.Some?
  {
    if lost.Some? { assert lost.value in LostHeld(lost); }
  }

  lemma EmptySum(a: multiset<string>, b: multiset<string>, c: multiset<string>)
    ensures a + b + c == multiset{} <==> a == multiset{} && b == multiset{} && c == multiset{}
  {
    if a + b + c == multiset{} {
      forall x ensures x !in a && x !in b && x !in c {
        assert (a + b + c)[x] == a[x] + b[x] + c[x];
      }
    }
  }

  /** A run whose every upload succeeded leaves a lease when the answer to its swap claim is lost. */
  lemma LostAnswerLeaks() returns (rounds: seq<Round>)
    ensures !Rounds("a", rounds).looping && !Rounds("a", rounds).authFailed && !FailedOne("a", rounds)
    ensures Held(Asks(Got("a"), true, true, rounds, Ending(false, true))) == multiset{"b"}
  {
    var end, r := Ending(false, true), Round(true, false, false, true, Lost("b"), true, true);
    rounds := [r];
    assert rounds[..0] == [];
    NoneFailed("a");
    FailedIff("a", rounds);
    var s := Rounds("a", rounds);
    assert Rounds("a", []) == Run("a", [Take("a")], true, false, false, None);
    assert s == Run("a", [Take("a"), Take("b")], false, false, false, Some("b"));
    FailedAfterSwap([Take("a")], "b", "a", true);
    assert [Take("a")] + [Take("b")] == s.asks;
    HeldAtTheEnd("a", rounds, end);
    UnreleasedAdd(s.asks, Give("a", true));
  }

  function FailingSwap(id: string): Round {
    Round(true, false, false, true, Got(id), false, true)
  }

  lemma TwoFailingSwaps()
    ensures var one := [Take("a")] + [Take("b"), Give("a", false)];
      Rounds("a", [FailingSwap("b"), FailingSwap("c")])
      == Run("c", one + [Take("c"), Give("b", false)], true, false, false, None)
  {
    var rounds := [FailingSwap("b"), FailingSwap("c")];
    assert rounds[..1] == [FailingSwap("b")] && rounds[..0] == [] && rounds[..2] == rounds;
    RoundsNext("a", rounds, 0);
    RoundsNext("a", rounds, 1);
    assert Rounds("a", []) == Run("a", [Take("a")], true, false, false, None);
  }

  /** And two swaps whose release requests fail leave a run that got every answer with three leases. */
  lemma FailedReleasesLeak() returns (rounds: seq<Round>)
    ensures Rounds("a", rounds).looping && !Rounds("a", rounds).authFailed && !LostOne("a", rounds)
    ensures Held(Rounds("a", rounds).asks) == multiset{"a", "b", "c"}
  {
    rounds := [FailingSwap("b"), FailingSwap("c")];
    hide Held, Unreleased, Rounds, FailingSwap, LostOne;
    var one := [Take("a")] + [Take("b"), Give("a", false)];
    TwoFailingSwaps();
    UnreleasedTake("a");
    FailedAfterSwap([Take("a")], "b", "a", false);
    FailedAfterSwap(one, "c", "b", false);
    LostIff("a", rounds);
    HeldAtTheEnd("a", rounds, Ending(false, true));
    RunIsInTurn("a", rounds);
  }

  lemma UnreleasedTake(id: string)
    ensures Unreleased([Take(id)]) == multiset{}
  {
    UnreleasedAdd([], Take(id));
    assert [] + [Take(id)] == [Take(id)];
  }
}
