/**
 Which accounts may be leased, how they are ranked and which one is picked
 (internal/manager/loadbalance.go and the selection loops of lease.go). Instants
 are nanoseconds, 0 meaning none; percentages and scores are reals.
 */
module LoadBalance {
  import opened Wrappers
  import opened Text
  import Sorting

  const SECOND := 1_000_000_000
  const MINUTE := 60 * SECOND

  const MIN_REMAINING := 5.0
  const NEAR_RESET := 90 * MINUTE
  const NEAR_RESET_BONUS := 25.0
  const EPSILON := 0.01

  datatype Status = Ready | Recovering | Drain | Disabled
  datatype OwnerMode = Cloud | Client

  /** `Unchecked` is the empty status of an account whose quota was never fetched. */
  datatype QuotaStatus = Unchecked | Supported | RefreshInvalid | OtherStatus(text: string)

  /** A quota window; `tag` is its label and `resetsAt` its parsed reset time. */
  datatype Window = Window(key: string, tag: string, remaining: real, resetsAt: int)

  datatype QuotaResult = QuotaResult(status: QuotaStatus, plan: string, detail: string, quotas: seq<Window>)

  datatype QuotaCache = QuotaCache(
    updatedAt: int, result: QuotaResult, fiveHour: Option<Window>, fromClient: bool, reporterClientId: string)

  const NO_CACHE := QuotaCache(0, QuotaResult(Unchecked, "", "", []), None, false, "")

  predicate IsFiveHour(w: Window) {
    w.key == "five_hour" || w.tag == "5h" || w.tag == "5H"
  }

  predicate IsSevenDay(w: Window) {
    w.key == "seven_day" || w.tag == "7d" || w.tag == "7D"
  }

  function FirstWindow(quotas: seq<Window>, matches: Window -> bool): Option<Window> {
    if quotas == [] then None
    else if matches(quotas[0]) then Some(quotas[0])
    else FirstWindow(quotas[1..], matches)
  }

  /** The more constrained of two windows; a missing one does not constrain. */
  function BindingWindow(fiveHour: Option<Window>, sevenDay: Option<Window>): Option<Window> {
    if fiveHour.None? then sevenDay
    else if sevenDay.None? then fiveHour
    else if sevenDay.value.remaining < fiveHour.value.remaining then sevenDay
    else fiveHour
  }

  function Clamp(value: real): real {
    if value < 0.0 then 0.0 else if value > 100.0 then 100.0 else value
  }

  function Score(w: Window, now: int): real {
    var remaining := Clamp(w.remaining);
    if remaining <= MIN_REMAINING then 0.0
    else if w.resetsAt == 0 || w.resetsAt - now <= 0 || w.resetsAt - now >= NEAR_RESET then remaining
    else remaining + (1.0 - (w.resetsAt - now) as real / NEAR_RESET as real) * NEAR_RESET_BONUS
  }

  datatype Reason =
    | WrongOwner | NotReady | AuthMissing | Leased | QuotaNotChecked | QuotaUnusable
    | FiveHourMissing | FiveHourResetUnknown | FiveHourResetPassed | FiveHourExhausted
    | SevenDayResetPassed | SevenDayExhausted

  datatype Evaluation = Eligible(score: real) | Excluded(reason: Reason)

  function Evaluate(owner: OwnerMode, status: Status, authPresent: bool, leaseActive: bool,
                    cache: QuotaCache, now: int): Evaluation {
    if owner != Cloud then Excluded(WrongOwner)
    else if status != Ready then Excluded(NotReady)
    else if !authPresent then Excluded(AuthMissing)
    else if leaseActive then Excluded(Leased)
    else if cache.result.status == Unchecked then Excluded(QuotaNotChecked)
    else if cache.result.status != Supported then Excluded(QuotaUnusable)
    else if cache.fiveHour.None? then Excluded(FiveHourMissing)
    else if cache.fiveHour.value.resetsAt == 0 then Excluded(FiveHourResetUnknown)
    else if cache.fiveHour.value.resetsAt <= now then Excluded(FiveHourResetPassed)
    else if cache.fiveHour.value.remaining <= MIN_REMAINING then Excluded(FiveHourExhausted)
    else
      var sevenDay := FirstWindow(cache.result.quotas, IsSevenDay);
      if sevenDay.Some? && sevenDay.value.resetsAt != 0 && sevenDay.value.resetsAt <= now then Excluded(SevenDayResetPassed)
      else if sevenDay.Some? && sevenDay.value.remaining <= MIN_REMAINING then Excluded(SevenDayExhausted)
      else Eligible(Score(BindingWindow(cache.fiveHour, sevenDay).value, now))
  }

  /** An eligible account is a ready, unleased cloud account, and its score is positive and bounded. */
  lemma EligibleMeans(owner: OwnerMode, status: Status, authPresent: bool, leaseActive: bool, cache: QuotaCache, now: int)
    requires Evaluate(owner, status, authPresent, leaseActive, cache, now).Eligible?
    ensures owner == Cloud && status == Ready && authPresent && !leaseActive
    ensures MIN_REMAINING < Evaluate(owner, status, authPresent, leaseActive, cache, now).score < 100.0 + NEAR_RESET_BONUS
  {
    var w := BindingWindow(cache.fiveHour, FirstWindow(cache.result.quotas, IsSevenDay)).value;
    ScoreRange(w, now);
  }

  lemma ScoreRange(w: Window, now: int)
    requires w.remaining > MIN_REMAINING
    ensures Clamp(w.remaining) <= Score(w, now) < Clamp(w.remaining) + NEAR_RESET_BONUS
  {
    var until := w.resetsAt - now;
    if w.resetsAt != 0 && 0 < until < NEAR_RESET {
      assert 0.0 < until as real / NEAR_RESET as real < 1.0;
    }
  }

  /** The first window with this key, or this label in either case, is the one at `k`. */
  predicate FirstAt(quotas: seq<Window>, key: string, low: string, high: string, k: int) {
    && 0 <= k < |quotas| && (quotas[k].key == key || quotas[k].tag == low || quotas[k].tag == high)
    && forall j :: 0 <= j < k ==> quotas[j].key != key && quotas[j].tag != low && quotas[j].tag != high
  }

  predicate SevenDayAt(quotas: seq<Window>, k: int) {
    FirstAt(quotas, "seven_day", "7d", "7D", k)
  }

  predicate FiveHourAt(quotas: seq<Window>, k: int) {
    FirstAt(quotas, "five_hour", "5h", "5H", k)
  }

  lemma {:induction false} FirstWindowAt(quotas: seq<Window>, matches: Window -> bool) returns (k: nat)
    ensures k <= |quotas| && (k < |quotas| ==> matches(quotas[k])) && forall j :: 0 <= j < k ==> !matches(quotas[j])
    ensures FirstWindow(quotas, matches) == if k < |quotas| then Some(quotas[k]) else None
  {
    if quotas == [] || matches(quotas[0]) {
      return 0;
    }
    k := FirstWindowAt(quotas[1..], matches);
    k := k + 1;
  }

  lemma FirstSevenDay(quotas: seq<Window>)
    ensures var w := FirstWindow(quotas, IsSevenDay);
      && (w.Some? ==> exists k :: SevenDayAt(quotas, k) && quotas[k] == w.value)
      && forall k :: SevenDayAt(quotas, k) ==> w == Some(quotas[k])
  {
    var k := FirstWindowAt(quotas, IsSevenDay);
    assert k < |quotas| ==> SevenDayAt(quotas, k);
    assert forall j :: 0 <= j < k ==> !IsSevenDay(quotas[j]);
  }

  lemma FirstFiveHour(quotas: seq<Window>)
    ensures var w := FirstWindow(quotas, IsFiveHour);
      && (w.Some? ==> exists k :: FiveHourAt(quotas, k) && quotas[k] == w.value)
      && forall k :: FiveHourAt(quotas, k) ==> w == Some(quotas[k])
  {
    var k := FirstWindowAt(quotas, IsFiveHour);
    assert k < |quotas| ==> FiveHourAt(quotas, k);
    assert forall j :: 0 <= j < k ==> !IsFiveHour(quotas[j]);
  }

  /** The conditions on the quota entry: both windows leave more than five percent and have not been reset since. */
  ghost predicate Usable(cache: QuotaCache, now: int) {
    && cache.result.status == Supported
    && cache.fiveHour.Some? && cache.fiveHour.value.resetsAt != 0 && cache.fiveHour.value.resetsAt > now
    && cache.fiveHour.value.remaining > 5.0
    && forall k :: SevenDayAt(cache.result.quotas, k) ==>
         var w := cache.result.quotas[k]; (w.resetsAt == 0 || w.resetsAt > now) && w.remaining > 5.0
  }

  /** Exactly when an account is eligible. */
  lemma EligibleIff(owner: OwnerMode, status: Status, authPresent: bool, leaseActive: bool, cache: QuotaCache, now: int)
    ensures Evaluate(owner, status, authPresent, leaseActive, cache, now).Eligible? <==>
      owner == Cloud && status == Ready && authPresent && !leaseActive && Usable(cache, now)
  {
    FirstSevenDay(cache.result.quotas);
    hide FirstWindow, FirstAt, Score, BindingWindow;
  }

  /**
   The score of an eligible account is the quota left in the window that leaves least,
   the five-hour one on a tie, and up to 25 points more in the last 90 minutes before its reset.
   */
  lemma ScoreIsScarcest(owner: OwnerMode, status: Status, authPresent: bool, leaseActive: bool, cache: QuotaCache, now: int)
    returns (w: Window)
    requires Evaluate(owner, status, authPresent, leaseActive, cache, now).Eligible?
    ensures cache.fiveHour == Some(w)
      || (w.remaining < cache.fiveHour.value.remaining && exists k :: SevenDayAt(cache.result.quotas, k) && cache.result.quotas[k] == w)
    ensures forall k :: SevenDayAt(cache.result.quotas, k) ==> w.remaining <= cache.result.quotas[k].remaining
    ensures var left, until := if w.remaining > 100.0 then 100.0 else w.remaining, w.resetsAt - now;
      Evaluate(owner, status, authPresent, leaseActive, cache, now).score ==
        if w.resetsAt != 0 && 0 < until < 5_400_000_000_000 then left + 25.0 * (1.0 - until as real / 5_400_000_000_000.0)
        else left
  {
    FirstSevenDay(cache.result.quotas);
    w := BindingWindow(cache.fiveHour, FirstWindow(cache.result.quotas, IsSevenDay)).value;
    hide FirstWindow, FirstAt;
    assert NEAR_RESET == 5_400_000_000_000;
  }

  /** For one reset time, more quota left never ranks lower, nor does waiting closer to the reset. */
  lemma ScoreIsMonotone(a: Window, b: Window, now: int, later: int)
    requires a.resetsAt == b.resetsAt && a.remaining <= b.remaining
    requires now <= later && (a.resetsAt == 0 || later < a.resetsAt)
    ensures Score(a, now) <= Score(b, later)
  {
    var u, v := a.resetsAt - now, a.resetsAt - later;
    assert v as real / NEAR_RESET as real <= u as real / NEAR_RESET as real;
    if a.resetsAt != 0 && 0 < v < NEAR_RESET {
      assert v as real / NEAR_RESET as real < 1.0;
    }
  }

  // ---------- Ranking ----------

  datatype Candidate = Candidate(id: string, score: real)

  function IdOf(c: Candidate): string {
    c.id
  }

  /** Two scores within the tolerance count as equal. */
  predicate Close(a: real, b: real) {
    -EPSILON <= a - b <= EPSILON
  }

  predicate Better(a: Candidate, b: Candidate) {
    if !Close(a.score, b.score) then a.score > b.score else StringLess(a.id, b.id)
  }

  /** An account with little left of its week ranks below one with less left of its five hours. */
  lemma ScarceWeekLoses(now: int)
    requires now > 0
    ensures var hours, far := now + 18_000_000_000_000, now + 600_000_000_000_000;
      var five, week := Window("five_hour", "", 80.0, hours), Window("seven_day", "", 10.0, far);
      var x := QuotaCache(1, QuotaResult(Supported, "", "", [five, week]), Some(five), false, "");
      var only := Window("five_hour", "", 50.0, hours);
      var y := QuotaCache(1, QuotaResult(Supported, "", "", [only]), Some(only), false, "");
      && Evaluate(Cloud, Ready, true, false, x, now) == Eligible(10.0)
      && Evaluate(Cloud, Ready, true, false, y, now) == Eligible(50.0)
      && Better(Candidate("y", 50.0), Candidate("x", 10.0))
  {
    var hours := now + 18_000_000_000_000;
    var five, week, only := Window("five_hour", "", 80.0, hours), Window("seven_day", "", 10.0, now + 600_000_000_000_000),
      Window("five_hour", "", 50.0, hours);
    assert [five, week][1..] == [week] && [only][1..] == [];
    assert FirstWindow([five, week], IsSevenDay) == Some(week);
    assert FirstWindow([only], IsSevenDay) == None;
  }

  /** The hypothesis under which "within the tolerance" is an equivalence on the candidates. */
  ghost predicate Ranked(cs: seq<Candidate>) {
    && Sorting.UniqueBy(IdOf, cs)
    && forall x, y, z :: x in cs && y in cs && z in cs && Close(x.score, y.score) && Close(y.score, z.score) ==>
         Close(x.score, z.score)
  }

  /** Ids ascend over neighbours that count as tied, but the last beats the first by more than the tolerance. */
  predicate Tangle(x: Candidate, y: Candidate, z: Candidate) {
    && Close(x.score, y.score) && Close(y.score, z.score)
    && StringLess(x.id, y.id) && StringLess(y.id, z.id)
    && z.score - x.score > EPSILON
  }

  ghost predicate Tangled(cs: seq<Candidate>) {
    exists x, y, z :: x in cs && y in cs && z in cs && Tangle(x, y, z)
  }

  /** Where the comparator is not transitive, the three candidates tangle in some order. */
  lemma IntransitiveTangles(x: Candidate, y: Candidate, z: Candidate)
    requires Better(x, y) && Better(y, z) && !Better(x, z) && x.id != z.id
    ensures Tangle(x, y, z) || Tangle(y, z, x) || Tangle(z, x, y)
  {
    StringLessTotal(x.id, z.id);
    if StringLess(x.id, y.id) && StringLess(y.id, z.id) { StringLessTransitive(x.id, y.id, z.id); }
    hide StringLess;
  }

  lemma TangleIsIntransitive(x: Candidate, y: Candidate, z: Candidate)
    requires Tangle(x, y, z)
    ensures Better(x, y) && Better(y, z) && !Better(x, z)
  {
    hide StringLess;
  }

  lemma SameId(cs: seq<Candidate>, x: Candidate, y: Candidate)
    requires Sorting.UniqueBy(IdOf, cs) && x in cs && y in cs && x.id == y.id
    ensures x == y
  {
    var i :| 0 <= i < |cs| && cs[i] == x;
    var j :| 0 <= j < |cs| && cs[j] == y;
    assert i == j;
  }

  lemma BetterIsAsymmetric(x: Candidate, y: Candidate)
    requires Better(x, y)
    ensures !Better(y, x)
  {
    if Close(x.score, y.score) && Better(y, x) {
      StringLessTransitive(x.id, y.id, x.id);
      StringLessIrreflexive(x.id);
    }
  }

  lemma UntangledIsTransitive(cs: seq<Candidate>, x: Candidate, y: Candidate, z: Candidate)
    requires Sorting.UniqueBy(IdOf, cs) && !Tangled(cs) && x in cs && y in cs && z in cs && Better(x, y) && Better(y, z)
    ensures Better(x, z)
  {
    hide Better, Tangle;
    if !Better(x, z) {
      if x.id == z.id {
        SameId(cs, x, z);
        BetterIsAsymmetric(x, y);
      } else {
        IntransitiveTangles(x, y, z);
      }
    }
  }

  /** With distinct ids, the comparator is a strict total order exactly when no three candidates tangle. */
  lemma BetterIsOrderIff(cs: seq<Candidate>)
    requires Sorting.UniqueBy(IdOf, cs)
    ensures Sorting.StrictTotalOrder(Better, cs) <==> !Tangled(cs)
  {
    if Tangled(cs) {
      var x, y, z :| x in cs && y in cs && z in cs && Tangle(x, y, z);
      TangleIsIntransitive(x, y, z);
    } else {
      UntangledIsOrder(cs);
    }
  }

  lemma UntangledIsOrder(cs: seq<Candidate>)
    requires Sorting.UniqueBy(IdOf, cs) && !Tangled(cs)
    ensures Sorting.StrictTotalOrder(Better, cs)
  {
    forall x | x in cs ensures !Better(x, x) {
      StringLessIrreflexive(x.id);
    }
    forall x, y, z | x in cs && y in cs && z in cs && Better(x, y) && Better(y, z) ensures Better(x, z) {
      UntangledIsTransitive(cs, x, y, z);
    }
    forall x, y | x in cs && y in cs ensures x == y || Better(x, y) || Better(y, x) {
      StringLessTotal(x.id, y.id);
      if x.id == y.id { SameId(cs, x, y); }
    }
  }

  /** In particular it is one when closeness is transitive on the candidates. */
  lemma BetterIsOrder(cs: seq<Candidate>)
    requires Ranked(cs)
    ensures Sorting.StrictTotalOrder(Better, cs)
  {
    assert !Tangled(cs);
    hide Ranked, Tangled, Better;
    RankedIsUnique(cs);
    UntangledIsOrder(cs);
  }

  lemma RankedIsUnique(cs: seq<Candidate>)
    requires Ranked(cs)
    ensures Sorting.UniqueBy(IdOf, cs)
  {
  }

  /** Tangled candidates can beat one another in a circle. */
  lemma BetterCanCycle() returns (x: Candidate, y: Candidate, z: Candidate)
    ensures x.id != y.id && y.id != z.id && x.id != z.id
    ensures Better(x, y) && Better(y, z) && Better(z, x)
  {
    x, y, z := Candidate("a", 50.0), Candidate("b", 50.008), Candidate("c", 50.016);
  }

  /** The length of the run of candidates that count as tied with the first. */
  function TopLen(s: seq<Candidate>): (n: nat)
    ensures n <= |s| && (s != [] ==> n >= 1)
  {
    if |s| <= 1 then |s|
    else if Close(s[0].score, s[|s| - 1].score) && TopLen(s[..|s| - 1]) == |s| - 1 then |s|
    else TopLen(s[..|s| - 1])
  }

  lemma {:induction false} TopLenMeans(s: seq<Candidate>)
    ensures forall i :: 0 <= i < TopLen(s) ==> Close(s[0].score, s[i].score)
    ensures TopLen(s) < |s| ==> !Close(s[0].score, s[TopLen(s)].score)
  {
    if |s| > 1 {
      TopLenMeans(s[..|s| - 1]);
    }
  }

  method TopGroupLen(s: seq<Candidate>) returns (out: nat)
    ensures out == TopLen(s)
  {
    if |s| == 0 {
      return 0;
    }
    TopLenMeans(s);
    out := 1;
    while out < |s| && Close(s[0].score, s[out].score)
      invariant 1 <= out <= |s|
      invariant forall i :: 0 <= i < out ==> Close(s[0].score, s[i].score)
    {
      out := out + 1;
    }
  }

  /** No candidate beats it by more than the tolerance. */
  ghost predicate AmongBest(cs: seq<Candidate>, c: Candidate) {
    forall d :: d in cs ==> d.score - c.score <= EPSILON
  }

  /** On a ranked, sorted list the top run is exactly the set of best candidates. */
  lemma {:induction false} TopGroupIsBest(s: seq<Candidate>, i: nat)
    requires Ranked(s) && Sorting.Sorted(Better, s) && i < |s|
    ensures i < TopLen(s) <==> AmongBest(s, s[i])
  {
    TopLenMeans(s);
    var n := TopLen(s);
    if i < n {
      forall d | d in s ensures d.score - s[i].score <= EPSILON {
        var j :| 0 <= j < |s| && s[j] == d;
        assert s[0] in s && s[i] in s;
        assert j == 0 || !Better(s[j], s[0]);
      }
    } else {
      assert s[0] in s && s[n] in s && s[i] in s;
      assert !Better(s[n], s[0]);
      assert i == n || !Better(s[i], s[n]);
      assert !Better(s[i], s[0]);
    }
  }

  // ---------- Picking ----------

  function IndexOf(s: seq<Candidate>, id: string): (i: nat)
    ensures i <= |s| && (i < |s| ==> s[i].id == id)
    ensures forall k :: 0 <= k < i ==> s[k].id != id
  {
    if s == [] then 0 else if s[0].id == id then 0 else 1 + IndexOf(s[1..], id)
  }

  function Next(i: nat, n: nat): nat
    requires i < n
  {
    if i + 1 == n then 0 else i + 1
  }

  lemma NextIsRemainder(i: nat, n: nat)
    requires i < n
    ensures (i + 1) % n == Next(i, n)
  {
  }

  /** The successor, within the top group, of the account handed out last; otherwise the first. */
  function Pick(s: seq<Candidate>, last: string): Candidate
    requires s != []
  {
    var top := s[..TopLen(s)];
    var i := IndexOf(top, last);
    if last != "" && i < |top| then top[Next(i, |top|)] else s[0]
  }

  function Choose(available: seq<Candidate>, last: string): Candidate
    requires available != []
  {
    Sorting.SortPermutes(Better, available);
    Pick(Sorting.InsertionSort(Better, available), last)
  }

  method SelectCandidate(available: seq<Candidate>, last: string) returns (selected: Candidate)
    requires available != []
    ensures selected == Choose(available, last)
  {
    var sorted := Sorting.SortSlice(Better, available);
    Sorting.SortPermutes(Better, available);
    selected := NextInTop(sorted, last);
  }

  method NextInTop(sorted: seq<Candidate>, last: string) returns (selected: Candidate)
    requires sorted != []
    ensures selected == Pick(sorted, last)
  {
    selected := sorted[0];
    if last != "" {
      var topLen := TopGroupLen(sorted);
      ghost var top := sorted[..topLen];
      var i := 0;
      while i < topLen
        invariant 0 <= i <= topLen == |top|
        invariant selected == sorted[0]
        invariant forall k :: 0 <= k < i ==> top[k].id != last
      {
        if sorted[i].id == last {
          NextIsRemainder(i, topLen);
          selected := sorted[(i + 1) % topLen];
          assert top[i].id == last && selected == top[Next(i, topLen)];
          return;
        }
        i := i + 1;
      }
    }
  }

  lemma PickFromTop(s: seq<Candidate>, last: string)
    requires s != []
    ensures exists i :: 0 <= i < TopLen(s) && s[i] == Pick(s, last)
  {
    var top := s[..TopLen(s)];
    var i := IndexOf(top, last);
    if last != "" && i < |top| {
      assert s[Next(i, |top|)] == Pick(s, last);
    }
  }

  lemma {:induction false} SortKeepsRanked(available: seq<Candidate>)
    requires Ranked(available)
    ensures var s := Sorting.InsertionSort(Better, available);
      Ranked(s) && Sorting.Sorted(Better, s) && multiset(s) == multiset(available)
    ensures forall c :: c in Sorting.InsertionSort(Better, available) <==> c in available
  {
    var s := Sorting.InsertionSort(Better, available);
    BetterIsOrder(available);
    hide Better, Sorting.InsertionSort, Sorting.Sorted, Sorting.StrictTotalOrder;
    Sorting.SortPermutes(Better, available);
    Sorting.SortSorts(Better, available);
    Sorting.PermutationKeepsUnique(IdOf, available, s);
    forall c ensures c in s <==> c in available {
      assert c in multiset(s) <==> c in multiset(available);
    }
  }

  /** The pick is one of the candidates, whatever their scores. */
  lemma ChooseIsCandidate(available: seq<Candidate>, last: string)
    requires available != []
    ensures Choose(available, last) in available
  {
    var s := Sorting.InsertionSort(Better, available);
    Sorting.SortPermutes(Better, available);
    PickFromTop(s, last);
    assert Choose(available, last) in multiset(s);
  }

  /** No candidate beats it by more than twice the tolerance. */
  ghost predicate NearBest(cs: seq<Candidate>, c: Candidate) {
    forall d :: d in cs ==> d.score - c.score <= 2.0 * EPSILON
  }

  /** On a sorted list, whether or not closeness is transitive, the top run is near the best. */
  lemma TopGroupIsNearBest(s: seq<Candidate>, i: nat)
    requires Sorting.Sorted(Better, s) && i < TopLen(s)
    ensures NearBest(s, s[i])
  {
    TopLenMeans(s);
    forall d | d in s ensures d.score - s[i].score <= 2.0 * EPSILON {
      var j :| 0 <= j < |s| && s[j] == d;
      assert j == 0 || !Better(s[j], s[0]);
    }
  }

  /** Where the comparator is an order the pick is near the best. */
  lemma {:induction false} ChooseIsNearBest(available: seq<Candidate>, last: string)
    requires available != [] && Sorting.StrictTotalOrder(Better, available)
    ensures NearBest(available, Choose(available, last))
  {
    hide Better, Pick;
    var s := Sorting.InsertionSort(Better, available);
    SortIsOrdered(available);
    Sorting.SortPermutes(Better, available);
    PickFromTop(s, last);
    var i :| 0 <= i < TopLen(s) && s[i] == Pick(s, last);
    TopGroupIsNearBest(s, i);
    forall d ensures d in available ==> d in s {
      assert d in multiset(available) <==> d in multiset(s);
    }
  }

  /** And not better than that: an ordered list whose top run has a member that another beats by more than the tolerance. */
  lemma NearBestIsNotBest() returns (s: seq<Candidate>)
    ensures Sorting.UniqueBy(IdOf, s) && Sorting.StrictTotalOrder(Better, s) && Sorting.Sorted(Better, s)
    ensures TopLen(s) == |s| == 3 && s[1].score - s[2].score > EPSILON
    ensures !AmongBest(s, s[2])
  {
    s := [Candidate("a", 50.0), Candidate("b", 50.008), Candidate("c", 49.992)];
    assert s[..2] == [s[0], s[1]] && s[..2][..1] == [s[0]];
    assert TopLen([s[0]]) == 1 && TopLen([s[0], s[1]]) == 2;
    assert s[1] in s;
    NotTangledExample(s);
    BetterIsOrderIff(s);
  }

  lemma NotTangledExample(s: seq<Candidate>)
    requires s == [Candidate("a", 50.0), Candidate("b", 50.008), Candidate("c", 49.992)]
    ensures !Tangled(s)
  {
    assert !StringLess("a", "a") && !StringLess("b", "b") && !StringLess("c", "c");
    assert !StringLess("b", "a") && !StringLess("c", "a") && !StringLess("c", "b");
  }

  /** The pick is among the best. */
  lemma ChooseIsBest(available: seq<Candidate>, last: string)
    requires available != [] && Ranked(available)
    ensures AmongBest(available, Choose(available, last))
  {
    var s := Sorting.InsertionSort(Better, available);
    SortKeepsRanked(available);
    Sorting.SortPermutes(Better, available);
    PickFromTop(s, last);
    var i :| 0 <= i < TopLen(s) && s[i] == Pick(s, last);
    TopGroupIsBest(s, i);
  }

  /** Where the comparator is an order, the pick does not depend on the order in which accounts are stored. */
  lemma {:induction false} ChooseIgnoresOrder(available: seq<Candidate>, others: seq<Candidate>, last: string)
    requires available != [] && Sorting.StrictTotalOrder(Better, available) && multiset(available) == multiset(others)
    ensures others != [] && Choose(others, last) == Choose(available, last)
  {
    hide Better, Pick;
    assert |multiset(available)| == |multiset(others)|;
    OrderPermutes(available, others);
    SortIsOrdered(available);
    SortIsOrdered(others);
    Sorting.SortedUnique(Better, Sorting.InsertionSort(Better, available), Sorting.InsertionSort(Better, others));
  }

  lemma OrderPermutes(cs: seq<Candidate>, ds: seq<Candidate>)
    requires Sorting.StrictTotalOrder(Better, cs) && multiset(cs) == multiset(ds)
    ensures Sorting.StrictTotalOrder(Better, ds)
  {
    forall x ensures x in ds ==> x in cs {
      assert x in multiset(ds) <==> x in multiset(cs);
    }
    hide Better;
    Sorting.OrderOnSubset(Better, cs, ds);
  }

  lemma SortIsOrdered(cs: seq<Candidate>)
    requires Sorting.StrictTotalOrder(Better, cs)
    ensures var s := Sorting.InsertionSort(Better, cs);
      Sorting.Sorted(Better, s) && multiset(s) == multiset(cs) && Sorting.StrictTotalOrder(Better, s)
  {
    hide Better;
    Sorting.SortPermutes(Better, cs);
    Sorting.SortSorts(Better, cs);
    OrderPermutes(cs, Sorting.InsertionSort(Better, cs));
  }
}
