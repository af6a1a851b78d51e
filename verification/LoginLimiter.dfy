/**
 The sliding-window limiter in front of register and login
 (internal/web/auth_handlers.go). Instants are nanoseconds.
 */
module LoginLimiter {

  const WINDOW: int := 60_000_000_000 // one minute
  const MAX_HITS := 8

  /** The entries strictly later than `cutoff`, in order. */
  function After(hits: seq<int>, cutoff: int): (r: seq<int>)
    ensures |r| <= |hits|
  {
    if hits == [] then []
    else if hits[|hits| - 1] > cutoff then After(hits[..|hits| - 1], cutoff) + [hits[|hits| - 1]]
    else After(hits[..|hits| - 1], cutoff)
  }

  /** The entries t with from <= t < to, in order. */
  ghost function Between(hits: seq<int>, from: int, to: int): seq<int> {
    if hits == [] then []
    else if from <= hits[|hits| - 1] < to then Between(hits[..|hits| - 1], from, to) + [hits[|hits| - 1]]
    else Between(hits[..|hits| - 1], from, to)
  }

  ghost predicate Ascending(s: seq<int>) {
    forall i, j :: 0 <= i < j < |s| ==> s[i] <= s[j]
  }

  /** A grant and the eighth one after it are at least a full window apart. */
  ghost predicate Spaced(grants: seq<int>) {
    forall i, j :: 0 <= i && i + MAX_HITS <= j < |grants| ==> grants[i] + WINDOW <= grants[j]
  }

  lemma {:induction false} BetweenBefore(s: seq<int>, from: int, to: int)
    requires forall i :: 0 <= i < |s| ==> s[i] < from
    ensures Between(s, from, to) == []
  {
    if s != [] { BetweenBefore(s[..|s| - 1], from, to); }
  }

  lemma {:induction false} BetweenGrowth(s: seq<int>, from: int, to: int, k: nat)
    requires k <= |s|
    ensures |Between(s, from, to)| <= |Between(s[..|s| - k], from, to)| + k
  {
    if k > 0 {
      var front := s[..|s| - 1];
      BetweenGrowth(front, from, to, k - 1);
      assert front[..|front| - (k - 1)] == s[..|s| - k];
    } else {
      assert s[..|s|] == s;
    }
  }

  /** At most eight grants fall in any half-open interval one minute long. */
  lemma {:induction false} WindowBound(grants: seq<int>, from: int)
    requires Spaced(grants)
    ensures |Between(grants, from, from + WINDOW)| <= MAX_HITS
  {
    var n := |grants|;
    if n > MAX_HITS {
      if from <= grants[n - 1] < from + WINDOW {
        BetweenGrowth(grants, from, from + WINDOW, MAX_HITS);
        BetweenBefore(grants[..n - MAX_HITS], from, from + WINDOW);
      } else {
        WindowBound(grants[..n - 1], from);
      }
    } else {
      BetweenGrowth(grants, from, from + WINDOW, n);
    }
  }

  /** Entries that are already out of the window can be dropped before filtering. */
  lemma {:induction false} AfterIgnoresOld(g: seq<int>, skip: nat, cutoff: int)
    requires skip <= |g| && forall i :: 0 <= i < skip ==> g[i] <= cutoff
    ensures After(g[skip..], cutoff) == After(g, cutoff)
  {
    if skip == |g| {
      AfterNone(g, cutoff);
    } else {
      AfterIgnoresOld(g[..|g| - 1], skip, cutoff);
      assert g[skip..][..|g| - skip - 1] == g[..|g| - 1][skip..];
    }
  }

  lemma {:induction false} AfterNone(g: seq<int>, cutoff: int)
    requires forall i :: 0 <= i < |g| ==> g[i] <= cutoff
    ensures After(g, cutoff) == []
  {
    if g != [] { AfterNone(g[..|g| - 1], cutoff); }
  }

  /** On an ascending sequence the recent entries are a suffix, and all others are old. */
  lemma {:induction false} AfterIsSuffix(s: seq<int>, cutoff: int)
    requires Ascending(s)
    ensures After(s, cutoff) == s[|s| - |After(s, cutoff)|..]
    ensures forall i :: 0 <= i < |s| - |After(s, cutoff)| ==> s[i] <= cutoff
  {
    if s != [] && s[|s| - 1] > cutoff {
      var front, x := s[..|s| - 1], s[|s| - 1];
      AfterIsSuffix(front, cutoff);
      var r := After(front, cutoff);
      assert After(s, cutoff) == r + [x] && s == front + [x];
      assert s[|s| - |r| - 1..] == front[|front| - |r|..] + [x];
    } else {
      AfterNone(s, cutoff);
    }
  }

  /** The kept hits are the newest grants; those pruned away are out of the window. */
  ghost predicate Tracks(kept: seq<int>, grants: seq<int>, clock: int) {
    && |kept| <= |grants| && |kept| <= MAX_HITS
    && kept == grants[|grants| - |kept|..]
    && (forall i :: 0 <= i < |grants| - |kept| ==> grants[i] <= clock - WINDOW)
    && (forall i :: 0 <= i < |grants| ==> grants[i] <= clock)
    && Ascending(grants) && Spaced(grants)
  }

  /** Pruning keeps exactly the recent grants. */
  lemma PruneTracks(kept: seq<int>, grants: seq<int>, clock: int, now: int)
    requires Tracks(kept, grants, clock) && clock <= now
    ensures After(kept, now - WINDOW) == After(grants, now - WINDOW)
    ensures Tracks(After(kept, now - WINDOW), grants, now)
  {
    hide After, Ascending, Spaced;
    AfterIgnoresOld(grants, |grants| - |kept|, now - WINDOW);
    AfterIsSuffix(grants, now - WINDOW);
  }

  /** With fewer than eight recent grants, one more keeps every window within the limit. */
  lemma GrantTracks(recent: seq<int>, grants: seq<int>, now: int)
    requires Tracks(recent, grants, now) && |recent| < MAX_HITS
    ensures Tracks(recent + [now], grants + [now], now)
  {
    var g := grants + [now];
    assert forall i :: 0 <= i < |g| ==> g[i] <= now;
    assert Ascending(g);
    forall i, j | 0 <= i && i + MAX_HITS <= j < |g| ensures g[i] + WINDOW <= g[j] {
      if j == |grants| {
        assert i < |grants| - |recent|;
      }
    }
    assert g[|g| - |recent + [now]|..] == grants[|grants| - |recent|..] + [now];
  }

  lemma TracksLater(kept: seq<int>, grants: seq<int>, clock: int, now: int)
    requires Tracks(kept, grants, clock) && clock <= now
    ensures Tracks(kept, grants, now)
  {
  }

  /** Moves the recent entries to the front of the slice that is being read. */
  method Prune(hits: seq<int>, cutoff: int) returns (kept: seq<int>)
    ensures kept == After(hits, cutoff)
  {
    var slots, n := hits, 0;
    var i := 0;
    while i < |slots|
      invariant n <= i <= |slots| == |hits|
      invariant slots[..n] == After(hits[..i], cutoff)
      invariant forall k :: i <= k < |slots| ==> slots[k] == hits[k]
    {
      assert hits[..i + 1][..i] == hits[..i];
      var t := slots[i];
      if t > cutoff {
        ghost var done := slots[..n];
        slots := slots[n := t];
        n := n + 1;
        assert slots[..n] == done + [t];
      }
      i := i + 1;
    }
    assert hits[..i] == hits;
    kept := slots[..n];
  }

  /** One call of the limiter: its key and the clock reading it takes. */
  datatype Call = Call(key: string, at: int)

  ghost predicate InClockOrder(calls: seq<Call>) {
    forall i, j :: 0 <= i < j < |calls| ==> calls[i].at <= calls[j].at
  }

  /** The grants of a key over a whole history: a call is granted when fewer than eight are recent. */
  ghost function Granted(calls: seq<Call>, key: string): seq<int> {
    if calls == [] then []
    else
      var earlier, call := Granted(calls[..|calls| - 1], key), calls[|calls| - 1];
      if call.key == key && |After(earlier, call.at - WINDOW)| < MAX_HITS then earlier + [call.at] else earlier
  }

  /** Over any history of calls, every one-minute interval holds at most eight grants of a key. */
  lemma {:induction false} NoBurstBeyondLimit(calls: seq<Call>, key: string, from: int)
    requires InClockOrder(calls)
    ensures |Between(Granted(calls, key), from, from + 60_000_000_000)| <= 8
  {
    GrantedIsSpaced(calls, key);
    WindowBound(Granted(calls, key), from);
  }

  /** What counts at a call is what was granted in the minute up to it, its start not included. */
  lemma RecentIsBetween(kept: seq<int>, grants: seq<int>, clock: int, now: int)
    requires Tracks(kept, grants, clock) && clock <= now
    ensures After(grants, now - WINDOW) == Between(grants, now - 60_000_000_000 + 1, now + 1)
  {
    hide Ascending, Spaced;
    AfterIsBetween(grants, now - WINDOW, now);
  }

  lemma {:induction false} AfterIsBetween(hits: seq<int>, cutoff: int, now: int)
    requires forall i :: 0 <= i < |hits| ==> hits[i] <= now
    ensures After(hits, cutoff) == Between(hits, cutoff + 1, now + 1)
  {
    if hits != [] { AfterIsBetween(hits[..|hits| - 1], cutoff, now); }
  }

  lemma {:induction false} GrantedIsPast(calls: seq<Call>, key: string)
    requires InClockOrder(calls)
    ensures forall i :: 0 <= i < |Granted(calls, key)| ==>
      calls != [] && Granted(calls, key)[i] <= calls[|calls| - 1].at
  {
    if calls != [] {
      var front, last := calls[..|calls| - 1], calls[|calls| - 1];
      GrantedIsPast(front, key);
      var earlier := Granted(front, key);
      assert forall i :: 0 <= i < |front| ==> front[i].at <= last.at;
      assert forall i :: 0 <= i < |earlier| ==> earlier[i] <= last.at;
      assert Granted(calls, key) == earlier || Granted(calls, key) == earlier + [last.at];
      assert forall i :: 0 <= i < |Granted(calls, key)| ==> Granted(calls, key)[i] <= last.at;
    } else {
      assert Granted(calls, key) == [];
    }
  }

  lemma SpacedGrows(earlier: seq<int>, recent: seq<int>, at: int)
    requires Ascending(earlier) && Spaced(earlier) && |recent| < MAX_HITS && |recent| <= |earlier|
    requires recent == earlier[|earlier| - |recent|..]
    requires forall i :: 0 <= i < |earlier| - |recent| ==> earlier[i] <= at - WINDOW
    requires forall i :: 0 <= i < |earlier| ==> earlier[i] <= at
    ensures Ascending(earlier + [at]) && Spaced(earlier + [at])
  {
    GrantTracks(recent, earlier, at);
  }

  lemma NothingGranted(key: string)
    ensures Granted([], key) == [] && Spaced([]) && Ascending([])
  {
  }

  lemma {:induction false} GrantedIsSpaced(calls: seq<Call>, key: string)
    requires InClockOrder(calls)
    ensures Spaced(Granted(calls, key)) && Ascending(Granted(calls, key))
  {
    hide After, Granted, Ascending, Spaced;
    NothingGranted(key);
    if calls != [] {
      var front, last := calls[..|calls| - 1], calls[|calls| - 1];
      GrantedIsSpaced(front, key);
      GrantedIsPast(front, key);
      GrantedStep(front, last, key);
      assert calls == front + [last];
      var earlier := Granted(front, key);
      assert forall i :: 0 <= i < |earlier| ==> earlier[i] <= front[|front| - 1].at <= last.at;
      AfterIsSuffix(earlier, last.at - WINDOW);
      var recent := After(earlier, last.at - WINDOW);
      if Granted(calls, key) != earlier {
        SpacedGrows(earlier, recent, last.at);
      }
    }
  }

  /** The stored hits of one key, nothing being stored for a key never seen. */
  function Stored(hits: map<string, seq<int>>, key: string): seq<int> {
    if key in hits then hits[key] else []
  }

  /** What the limiter stores for the key of a call. */
  function Updated(stored: seq<int>, now: int): seq<int> {
    var recent := After(stored, now - WINDOW);
    if |recent| >= MAX_HITS then recent else recent + [now]
  }

  lemma GrantedStep(calls: seq<Call>, call: Call, key: string)
    ensures var earlier := Granted(calls, key);
      Granted(calls + [call], key) ==
        if call.key == key && |After(earlier, call.at - WINDOW)| < MAX_HITS then earlier + [call.at] else earlier
  {
    assert (calls + [call])[..|calls|] == calls;
  }

  /** A call on this key: the stored hits decide it as the full history would. */
  lemma {:induction false} CallOnKey(stored: seq<int>, calls: seq<Call>, clock: int, call: Call)
    requires Tracks(stored, Granted(calls, call.key), clock) && clock <= call.at
    ensures After(stored, call.at - WINDOW) == After(Granted(calls, call.key), call.at - WINDOW)
    ensures Tracks(Updated(stored, call.at), Granted(calls + [call], call.key), call.at)
  {
    hide Tracks, Granted, After;
    var earlier := Granted(calls, call.key);
    GrantedStep(calls, call, call.key);
    PruneTracks(stored, earlier, clock, call.at);
    if |After(earlier, call.at - WINDOW)| < MAX_HITS {
      GrantTracks(After(earlier, call.at - WINDOW), earlier, call.at);
    }
  }

  class Limiter {
    var hits: map<string, seq<int>>
    ghost var calls: seq<Call> // every call so far
    ghost var clock: int

    ghost predicate Valid()
      reads this
    {
      forall key :: Tracks(Stored(hits, key), Granted(calls, key), clock)
    }

    constructor ()
      ensures Valid() && calls == []
    {
      hits, calls, clock := map[], [], 0;
    }

    /** Decides one call. Calls arrive in clock order because the mutex is held. */
    method Allow(key: string, now: int) returns (allowed: bool)
      requires Valid() && clock <= now
      modifies this
      ensures Valid() && clock == now
      ensures calls == old(calls) + [Call(key, now)]
      ensures allowed <==> |Between(Granted(old(calls), key), now - 60_000_000_000 + 1, now + 1)| < 8
      ensures allowed <==> Granted(calls, key) == Granted(old(calls), key) + [now]
      ensures !allowed <==> Granted(calls, key) == Granted(old(calls), key)
    {
      hide Tracks, Granted, After;
      var before := if key in hits then hits[key] else [];
      CallOnKey(before, calls, clock, Call(key, now));
      GrantedStep(calls, Call(key, now), key);
      RecentIsBetween(before, Granted(calls, key), clock, now);
      var kept := Prune(before, now - WINDOW);
      if |kept| >= MAX_HITS {
        hits := hits[key := kept];
        allowed := false;
      } else {
        hits := hits[key := kept + [now]];
        allowed := true;
      }
      forall k ensures Tracks(Stored(hits, k), Granted(calls + [Call(key, now)], k), now) {
        if k != key {
          GrantedStep(calls, Call(key, now), k);
          TracksLater(Stored(hits, k), Granted(calls, k), clock, now);
        }
      }
      calls := calls + [Call(key, now)];
      clock := now;
    }
  }
}
