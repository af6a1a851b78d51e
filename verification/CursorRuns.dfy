/**
 The round-robin cursor under concurrency: it is read and written inside the
 sections that hand out or delete accounts, and can be reset at any time without a
 lock (internal/manager/roundrobin.go). Selections in a row rotate all the same.
 */
module CursorRuns {
  import RoundRobin
  import opened LeaseMachine
  import opened LeaseRuns
  import opened LeaseRotation
  import opened Concurrency

  function Calls(trail: seq<Happening>): seq<Call> {
    if trail == [] then []
    else
      var front, last := trail[..|trail| - 1], trail[|trail| - 1];
      Calls(front) + (if last.Did? then [last.call] else [])
  }

  /** The document the first entries of a trail leave. */
  function DocAt(origin: System, trail: seq<Happening>): Doc {
    Serial(origin.doc, Calls(trail))
  }

  /** The cursor they leave. */
  function CursorAt(origin: System, trail: seq<Happening>): string {
    if trail == [] then origin.cursor
    else
      var front, last := trail[..|trail| - 1], trail[|trail| - 1];
      if last.Reset? then ""
      else
        NextCursor(CursorAt(origin, front), last.call.command,
                   LeaseMachine.Decide(DocAt(origin, front), last.call.command, last.call.at))
  }

  ghost predicate OnlyResets(trail: seq<Happening>, m: nat, i: nat)
    requires i <= |trail|
  {
    forall k :: m <= k < i ==> trail[k].Reset?
  }

  predicate Carries(c: Command, cursor: string) {
    c == WithCursor(c, cursor)
  }

  /** The command carries the cursor that the entries before place `i` leave, but for resets that fell within its own section. */
  ghost predicate ReadAt(origin: System, trail: seq<Happening>, i: nat, c: Command)
    requires i <= |trail|
  {
    exists m :: 0 <= m <= i && OnlyResets(trail, m, i) && Carries(c, CursorAt(origin, trail[..m]))
  }

  ghost predicate TrailOk(origin: System, s: System) {
    && Calls(s.trail) == s.log && s.cursor == CursorAt(origin, s.trail)
    && forall i :: 0 <= i < |s.trail| && s.trail[i].Did? ==> ReadAt(origin, s.trail, i, s.trail[i].call.command)
  }

  ghost predicate ReadersOk(origin: System, s: System) {
    forall t :: 0 <= t < |s.threads| && s.threads[t].Decided? ==> ReadAt(origin, s.trail, |s.trail|, s.threads[t].c)
  }

  lemma ReadAtGrows(origin: System, trail: seq<Happening>, e: Happening, i: nat, c: Command)
    requires i <= |trail| && ReadAt(origin, trail, i, c)
    ensures ReadAt(origin, trail + [e], i, c)
  {
    hide Carries, CursorAt;
    var more := trail + [e];
    var m :| 0 <= m <= i && OnlyResets(trail, m, i) && Carries(c, CursorAt(origin, trail[..m]));
    assert more[..m] == trail[..m];
    assert OnlyResets(more, m, i);
  }

  lemma ReadOverReset(origin: System, trail: seq<Happening>, c: Command)
    requires ReadAt(origin, trail, |trail|, c)
    ensures ReadAt(origin, trail + [Reset], |trail| + 1, c)
  {
    hide Carries, CursorAt;
    var more := trail + [Reset];
    var m :| 0 <= m <= |trail| && OnlyResets(trail, m, |trail|) && Carries(c, CursorAt(origin, trail[..m]));
    assert more[..m] == trail[..m];
    assert OnlyResets(more, m, |more|);
  }

  lemma ReadsNow(origin: System, trail: seq<Happening>, c: Command)
    ensures ReadAt(origin, trail, |trail|, WithCursor(c, CursorAt(origin, trail)))
  {
    assert trail[..|trail|] == trail;
    var r := WithCursor(c, CursorAt(origin, trail));
    assert Carries(r, CursorAt(origin, trail[..|trail|]));
    assert OnlyResets(trail, |trail|, |trail|);
  }

  lemma TrailGrows(origin: System, trail: seq<Happening>, e: Happening)
    ensures Calls(trail + [e]) == Calls(trail) + (if e.Did? then [e.call] else [])
    ensures CursorAt(origin, trail + [e]) ==
      if e.Reset? then ""
      else NextCursor(CursorAt(origin, trail), e.call.command,
                      LeaseMachine.Decide(DocAt(origin, trail), e.call.command, e.call.at))
  {
    assert (trail + [e])[..|trail|] == trail;
    hide NextCursor, LeaseMachine.Decide, DocAt;
  }

  lemma ResetKeeps(origin: System, s: System)
    requires TrailOk(origin, s) && ReadersOk(origin, s)
    ensures TrailOk(origin, Next(s, ResetCursor)) && ReadersOk(origin, Next(s, ResetCursor))
  {
    var n := Next(s, ResetCursor);
    TrailGrows(origin, s.trail, Reset);
    hide ReadAt, CursorAt, Calls;
    forall i | 0 <= i < |n.trail| && n.trail[i].Did? ensures ReadAt(origin, n.trail, i, n.trail[i].call.command) {
      assert n.trail[i] == s.trail[i];
      ReadAtGrows(origin, s.trail, Reset, i, n.trail[i].call.command);
    }
    forall t | 0 <= t < |n.threads| && n.threads[t].Decided? ensures ReadAt(origin, n.trail, |n.trail|, n.threads[t].c) {
      ReadOverReset(origin, s.trail, s.threads[t].c);
    }
  }

  lemma SaveKeeps(origin: System, s: System, a: Action)
    requires Sound(s, origin.doc) && Enabled(s, a) && a.Save? && TrailOk(origin, s) && ReadersOk(origin, s)
    ensures TrailOk(origin, Next(s, a)) && ReadersOk(origin, Next(s, a))
  {
    var n, p := Next(s, a), s.threads[a.t];
    var e := Did(Call(p.c, p.at));
    assert View(s, p) && s.doc == DocAt(origin, s.trail);
    TrailGrows(origin, s.trail, e);
    hide Step, NextCursor, LeaseMachine.Decide, ReadAt, CursorAt, Calls, Serial, DocAt;
    forall i | 0 <= i < |n.trail| && n.trail[i].Did? ensures ReadAt(origin, n.trail, i, n.trail[i].call.command) {
      if i < |s.trail| {
        assert n.trail[i] == s.trail[i];
        ReadAtGrows(origin, s.trail, e, i, s.trail[i].call.command);
      } else {
        ReadAtGrows(origin, s.trail, e, |s.trail|, p.c);
      }
    }
    forall t | 0 <= t < |n.threads| && n.threads[t].Decided? ensures t == a.t {
      assert HoldsMutex(s.threads[t]) && HoldsMutex(p);
    }
  }

  lemma OthersKeep(origin: System, s: System, a: Action)
    requires Enabled(s, a) && !a.Save? && !a.ResetCursor? && TrailOk(origin, s) && ReadersOk(origin, s)
    ensures TrailOk(origin, Next(s, a)) && ReadersOk(origin, Next(s, a))
  {
    hide Step, LeaseMachine.Decide, ReadAt, CursorAt, Calls, LeasedNow, NeedsFile;
    if a.Decide? {
      ReadsNow(origin, s.trail, s.threads[a.t].c);
    }
    hide WithCursor;
    var n := Next(s, a);
    assert n.trail == s.trail && n.log == s.log && n.cursor == s.cursor;
  }

  /**
   Over every interleaving the stored cursor is the one the sections leave one after
   the other, and each section that hands out an account carries the cursor the
   entries before it leave, but for resets within its own section.
   */
  lemma {:induction false} CursorsAreSerial(s: System, actions: seq<Action>)
    requires Initial(s) && Reach(s, actions).Some?
    ensures TrailOk(s, Reach(s, actions).value) && ReadersOk(s, Reach(s, actions).value)
  {
    if actions != [] {
      var front, a := actions[..|actions| - 1], actions[|actions| - 1];
      CursorsAreSerial(s, front);
      EveryInterleavingIsSerial(s, front);
      var v := Reach(s, front).value;
      hide Sound, Next, Enabled, Initial, TrailOk, ReadersOk;
      if a.Save? {
        SaveKeeps(s, v, a);
      } else if a.ResetCursor? {
        ResetKeeps(s, v);
      } else {
        OthersKeep(s, v, a);
      }
    }
  }

  // ---------- Selections in a row ----------

  /** An entry that neither hands out nor deletes an account nor resets the cursor. */
  predicate LeavesCursor(e: Happening) {
    e.Did? && !e.call.command.Claim? && !e.call.command.SelectForRun? && !e.call.command.Delete?
  }

  /** A saved selection as a turn of round robin. */
  function TurnAt(origin: System, trail: seq<Happening>, i: nat): Turn
    requires i < |trail| && trail[i].Did?
  {
    Turn(DocAt(origin, trail[..i]), trail[i].call.command, trail[i].call.at)
  }

  /** Places of successful selections, with nothing between them that touches the cursor. */
  ghost predicate Selections(origin: System, trail: seq<Happening>, at: seq<nat>) {
    && (forall j :: 0 <= j < |at| ==> at[j] < |trail| && trail[at[j]].Did? && trail[at[j]].call.command.SelectForRun?)
    && (forall j :: 0 <= j < |at| ==> SelectsAt(origin, trail, at[j]))
    && (forall j :: 0 < j < |at| ==> at[j - 1] < at[j])
    && (forall j, k :: 0 < j < |at| && at[j - 1] < k < at[j] ==> LeavesCursor(trail[k]))
  }

  predicate SelectsAt(origin: System, trail: seq<Happening>, i: nat)
    requires i < |trail| && trail[i].Did?
  {
    var t := TurnAt(origin, trail, i);
    LeaseMachine.Decide(t.doc, t.c, t.now).reply.With?
  }

  lemma {:induction false} CursorStands(origin: System, trail: seq<Happening>, i: nat, k: nat)
    requires i <= k <= |trail| && forall m :: i <= m < k ==> LeavesCursor(trail[m])
    ensures CursorAt(origin, trail[..k]) == CursorAt(origin, trail[..i])
  {
    if i < k {
      CursorStands(origin, trail, i, k - 1);
      assert trail[..k] == trail[..k - 1] + [trail[k - 1]];
      TrailGrows(origin, trail[..k - 1], trail[k - 1]);
      hide LeaseMachine.Decide, CursorAt;
    }
  }

  lemma CursorAfterSelection(origin: System, trail: seq<Happening>, i: nat)
    requires i < |trail| && trail[i].Did? && trail[i].call.command.SelectForRun? && SelectsAt(origin, trail, i)
    ensures CursorAt(origin, trail[..i + 1]) == Selected(TurnAt(origin, trail, i))
  {
    assert trail[..i + 1] == trail[..i] + [trail[i]];
    TrailGrows(origin, trail[..i], trail[i]);
    hide LeaseMachine.Decide, CursorAt, DocAt;
  }

  /** Right after a saved section a command carries the very cursor the entries before it leave. */
  lemma CarriesLatest(origin: System, trail: seq<Happening>, k: nat, c: Command)
    requires 0 < k <= |trail| && trail[k - 1].Did? && ReadAt(origin, trail, k, c) && c.SelectForRun?
    ensures c.cursor == CursorAt(origin, trail[..k])
  {
    hide CursorAt;
    assert !trail[k - 1].Reset?;
    assert forall m :: 0 <= m < k ==> !OnlyResets(trail, m, k);
    var m :| 0 <= m <= k && OnlyResets(trail, m, k) && Carries(c, CursorAt(origin, trail[..m]));
  }

  /** Selections of an interleaving that nothing comes between pass the cursor on from one to the next. */
  lemma {:induction false} NextCarriesSelected(origin: System, s: System, at: seq<nat>, j: nat)
    requires TrailOk(origin, s) && Selections(origin, s.trail, at) && 0 < j < |at|
    ensures s.trail[at[j]].call.command.cursor == Selected(TurnAt(origin, s.trail, at[j - 1]))
  {
    hide CursorAt, SelectsAt, TurnAt, Selected, Calls, ReadAt;
    var trail, i, k := s.trail, at[j - 1], at[j];
    assert trail[k - 1].Did?;
    assert forall m :: i + 1 <= m < k ==> LeavesCursor(trail[m]);
    hide Selections;
    CarriesLatest(origin, trail, k, trail[k].call.command);
    CursorStands(origin, trail, i + 1, k);
    CursorAfterSelection(origin, trail, i);
  }

  function TurnsAt(origin: System, trail: seq<Happening>, at: seq<nat>): seq<Turn>
    requires forall j :: 0 <= j < |at| ==> at[j] < |trail| && trail[at[j]].Did?
  {
    seq(|at|, j requires 0 <= j < |at| => TurnAt(origin, trail, at[j]))
  }

  lemma TurnSucceeds(origin: System, trail: seq<Happening>, i: nat)
    requires i < |trail| && trail[i].Did? && trail[i].call.command.SelectForRun? && SelectsAt(origin, trail, i)
    ensures var t := TurnAt(origin, trail, i);
      t.c == trail[i].call.command && LeaseMachine.Decide(t.doc, t.c, t.now).reply.With?
  {
    hide LeaseMachine.Decide, DocAt;
  }

  lemma {:induction false} SelectionsAreInARow(origin: System, s: System, at: seq<nat>)
    requires TrailOk(origin, s) && Selections(origin, s.trail, at) && at != []
    ensures InARow(TurnsAt(origin, s.trail, at), s.trail[at[0]].call.command.cursor)
  {
    hide LeaseMachine.Decide, CursorAt, DocAt, TrailOk, SelectsAt, Selected, TurnAt;
    var turns := TurnsAt(origin, s.trail, at);
    forall j | 0 <= j < |turns| ensures
      turns[j].c == s.trail[at[j]].call.command && LeaseMachine.Decide(turns[j].doc, turns[j].c, turns[j].now).reply.With?
    {
      TurnSucceeds(origin, s.trail, at[j]);
    }
    forall j | 0 < j < |turns| ensures turns[j].c.cursor == Selected(turns[j - 1]) {
      NextCarriesSelected(origin, s, at, j);
    }
  }

  /**
   So in any interleaving, k successful selections with nothing between them that
   touches the cursor hand out each member of a top group of k exactly once, while
   it keeps its members and the order of their turns.
   */
  lemma {:induction false} InterleavedSelectionsRotate(s: System, actions: seq<Action>, at: seq<nat>, members: set<string>)
    requires Initial(s) && Reach(s, actions).Some?
    requires Selections(s, Reach(s, actions).value.trail, at) && |at| == |members| > 0
    requires var turns := TurnsAt(s, Reach(s, actions).value.trail, at);
      (forall j :: 0 <= j < |turns| ==> turns[j].c.SelectForRun?) && RoundRobin.SteadyTop(RoundsOf(turns), members)
    ensures var turns := TurnsAt(s, Reach(s, actions).value.trail, at);
      && (forall i, j :: 0 <= i < j < |turns| ==> Selected(turns[i]) != Selected(turns[j]))
      && (forall m :: m in members <==> exists i :: 0 <= i < |turns| && Selected(turns[i]) == m)
  {
    var r := Reach(s, actions).value;
    CursorsAreSerial(s, actions);
    hide Reach, TrailOk, ReadersOk, RoundRobin.SteadyTop, InARow, Selected, Initial;
    SelectionsAreInARow(s, r, at);
    SelectionsRotate(TurnsAt(s, r.trail, at), members, r.trail[at[0]].call.command.cursor);
  }
}
