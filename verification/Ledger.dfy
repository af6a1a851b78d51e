/**
 The dispatch ledger: one event for each claim, release and expiry, newest first
 and bounded (internal/manager/usage.go).
 */
module Ledger {
  import opened Text

  const MAX_HISTORY := 200

  const CLAIMED := "claimed"
  const RELEASED := "released"
  const EXPIRED := "expired"

  /** `name` is the account label. Client and user labels are not kept here. */
  datatype Event = Event(
    id: string, leaseId: string, accountId: string, name: string, clientId: string, holder: string,
    kind: string, generation: int, createdAt: int, startedAt: int, expiresAt: int)

  function EventId(leaseId: string, accountId: string, kind: string, now: nat): string {
    if !Blank(leaseId) then TrimSpace(leaseId) + ":" + kind
    else TrimSpace(accountId) + ":" + kind + ":" + Itoa(now)
  }

  function Without(events: seq<Event>, id: string): seq<Event> {
    if events == [] then []
    else
      var last := events[|events| - 1];
      Without(events[..|events| - 1], id) + (if last.id == id then [] else [last])
  }

  function Newest(events: seq<Event>): seq<Event> {
    if |events| <= MAX_HISTORY then events else events[..MAX_HISTORY]
  }

  function Append(events: seq<Event>, event: Event): seq<Event> {
    if Blank(event.id) then events else Newest([event] + Without(events, event.id))
  }

  function AppendAll(events: seq<Event>, more: seq<Event>): seq<Event> {
    if more == [] then events else Append(AppendAll(events, more[..|more| - 1]), more[|more| - 1])
  }

  lemma {:induction false} WithoutConcat(a: seq<Event>, b: seq<Event>, id: string)
    ensures Without(a + b, id) == Without(a, id) + Without(b, id)
  {
    if b == [] {
      assert a + b == a;
    } else {
      WithoutConcat(a, b[..|b| - 1], id);
      assert (a + b)[..|a + b| - 1] == a + b[..|b| - 1];
    }
  }

  lemma {:induction false} WithoutNothing(events: seq<Event>, id: string)
    requires forall i :: 0 <= i < |events| ==> events[i].id != id
    ensures Without(events, id) == events
  {
    if events != [] {
      WithoutNothing(events[..|events| - 1], id);
      assert events == events[..|events| - 1] + [events[|events| - 1]];
    }
  }

  lemma WithoutNext(events: seq<Event>, i: nat, id: string)
    requires i < |events|
    ensures Without(events[..i + 1], id) == Without(events[..i], id) + (if events[i].id == id then [] else [events[i]])
  {
    assert events[..i + 1][..i] == events[..i];
  }

  lemma NothingToDrop(events: seq<Event>, id: string)
    ensures Without(events[..0], id) == []
  {
  }

  /** Once the list is full the events left over do not matter. */
  lemma FullIsNewest(events: seq<Event>, i: nat, event: Event)
    requires i <= |events| && !Blank(event.id) && |Without(events[..i], event.id)| + 1 == MAX_HISTORY
    ensures Append(events, event) == [event] + Without(events[..i], event.id)
  {
    hide Without, Blank;
    WithoutConcat(events[..i], events[i..], event.id);
    assert events == events[..i] + events[i..];
  }

  method AppendDispatchEvent(events: seq<Event>, event: Event) returns (next: seq<Event>)
    ensures next == Append(events, event)
  {
    hide Without;
    assert Without(events[..0], event.id) == [] by { NothingToDrop(events, event.id); }
    if Blank(event.id) {
      return events;
    }
    next := [event];
    var i := 0;
    while i < |events|
      invariant 0 <= i <= |events|
      invariant next == [event] + Without(events[..i], event.id) && |next| < MAX_HISTORY
    {
      WithoutNext(events, i, event.id);
      if events[i].id != event.id {
        next := next + [events[i]];
        if |next| >= MAX_HISTORY {
          FullIsNewest(events, i + 1, event);
          return;
        }
      }
      i := i + 1;
    }
    assert events[..i] == events;
  }

  /** The whole history, newest first, after more events; nothing is ever dropped from it. */
  function Record(log: seq<Event>, more: seq<Event>): seq<Event> {
    if more == [] then log else [more[|more| - 1]] + Record(log, more[..|more| - 1])
  }

  ghost predicate DistinctIds(log: seq<Event>) {
    forall i, j :: 0 <= i < j < |log| ==> log[i].id != log[j].id
  }

  /** As long as ids do not repeat, the stored list is the newest part of the history. */
  lemma {:induction false} AppendAllIsNewest(log: seq<Event>, more: seq<Event>)
    requires DistinctIds(Record(log, more)) && forall i :: 0 <= i < |more| ==> !Blank(more[i].id)
    ensures AppendAll(Newest(log), more) == Newest(Record(log, more))
  {
    if more != [] {
      var front, e := more[..|more| - 1], more[|more| - 1];
      var before := Record(log, front);
      var all := Record(log, more);
      assert forall i :: 0 <= i < |before| ==> before[i] == all[i + 1];
      AppendAllIsNewest(log, front);
      forall i | 0 <= i < |Newest(before)| ensures Newest(before)[i].id != e.id {
        assert all[0].id != all[i + 1].id;
      }
      WithoutNothing(Newest(before), e.id);
      assert Newest([e] + Newest(before)) == Newest([e] + before);
    }
  }

  /** From an empty ledger on, the newest two hundred events of the history are kept. */
  lemma NewestTwoHundred(more: seq<Event>)
    requires DistinctIds(Record([], more)) && forall i :: 0 <= i < |more| ==> !Blank(more[i].id)
    ensures var all := Record([], more); AppendAll([], more) == if |all| <= 200 then all else all[..200]
  {
    AppendAllIsNewest([], more);
    assert Newest([]) == [];
  }

  /** Two event ids built from lease ids are equal only for the same lease and kind. */
  lemma EventIdDecides(a: string, b: string, kind: string, other: string)
    requires a + ":" + kind == b + ":" + other && ':' !in kind && ':' !in other
    ensures a == b && kind == other
  {
    var s, m, n := a + ":" + kind, |kind|, |other|;
    assert s[|a|] == ':' && s[|b|] == ':';
    assert forall i :: |a| < i < |s| ==> s[i] == kind[i - |a| - 1] && s[i] in kind;
    assert forall i :: |b| < i < |s| ==> s[i] == other[i - |b| - 1] && s[i] in other;
    assert |a| == |b|;
    assert s[..|a|] == a && s[..|b|] == b;
    assert s[|a| + 1..] == kind && s[|b| + 1..] == other;
  }
}
