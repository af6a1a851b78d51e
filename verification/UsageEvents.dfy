/**
 Turning a usage report into durable events, one for each model
 (internal/manager/usage_events.go), and the conservation law over the whole path.
 */
module UsageEvents {
  import opened Wrappers
  import opened Text
  import opened TokenSums
  import opened SessionUsage
  import Sorting

  /** The storage partition of an event; the parts are trimmed. */
  datatype EventKey = EventKey(accountId: string, clientId: string, leaseId: string, runId: string)

  datatype UsageEvent = UsageEvent(
    key: EventKey, reportedAt: int, usage: ModelUsage,
    summaryFilesScanned: nat, summaryEvents: nat, summaryLatestAt: Option<int>, summaryLatestModel: string)

  function TrimKey(k: EventKey): EventKey {
    EventKey(TrimSpace(k.accountId), TrimSpace(k.clientId), TrimSpace(k.leaseId), TrimSpace(k.runId))
  }

  /** The three token fields of a bucket. */
  datatype Field = Today | SevenDays | AllTimes

  function Select(m: ModelUsage, field: Field): Tokens {
    match field
    case Today => m.today
    case SevenDays => m.sevenDays
    case AllTimes => m.allTime
  }

  function Latest(a: Option<int>, b: Option<int>): Option<int> {
    if a.None? then b else if b.None? then a else if b.value > a.value then b else a
  }

  function EventModel(model: string): string {
    FirstNonEmpty(model, "unknown")
  }

  function FieldItems(models: seq<ModelUsage>, field: Field): seq<Item> {
    seq(|models|, i requires 0 <= i < |models| => Item(EventModel(models[i].model), Select(models[i], field)))
  }

  function LatestUnder(models: seq<ModelUsage>, name: string): Option<int> {
    if models == [] then None
    else
      var m, before := models[|models| - 1], LatestUnder(models[..|models| - 1], name);
      if EventModel(m.model) == name then Latest(before, m.latestAt) else before
  }

  /** All usage whose trimmed name is `name`. */
  function Group(models: seq<ModelUsage>, name: string): ModelUsage {
    ModelUsage(name,
               SumKey(FieldItems(models, Today), name),
               SumKey(FieldItems(models, SevenDays), name),
               SumKey(FieldItems(models, AllTimes), name),
               LatestUnder(models, name))
  }

  ghost function EventNames(models: seq<ModelUsage>): set<string> {
    set i | 0 <= i < |models| :: EventModel(models[i].model)
  }

  predicate NameLess(a: ModelUsage, b: ModelUsage) {
    StringLess(a.model, b.model)
  }

  function SingleModel(r: Report): ModelUsage {
    ModelUsage(EventModel(r.latestModel), r.today, r.sevenDays, r.allTime, r.latestAt)
  }

  /** The buckets the events are made of: one for each trimmed name, in name order. */
  ghost predicate Regroups(out: seq<ModelUsage>, r: Report) {
    if r.models == [] then out == [SingleModel(r)]
    else
      && Sorting.UniqueBy(ModelName, out) && Sorting.Sorted(NameLess, out)
      && (set m | m in out :: m.model) == EventNames(r.models)
      && (forall m :: m in out ==> m == Group(r.models, m.model))
  }

  // ---------- Regrouping ----------

  lemma FieldAppend(models: seq<ModelUsage>, m: ModelUsage, field: Field, name: string)
    ensures SumKey(FieldItems(models + [m], field), name) ==
      if EventModel(m.model) == name then Add(SumKey(FieldItems(models, field), name), Select(m, field))
      else SumKey(FieldItems(models, field), name)
  {
    var items := FieldItems(models + [m], field);
    assert items[..|models|] == FieldItems(models, field);
  }

  function Merge(a: ModelUsage, m: ModelUsage): ModelUsage {
    ModelUsage(a.model, Add(a.today, m.today), Add(a.sevenDays, m.sevenDays), Add(a.allTime, m.allTime),
               Latest(a.latestAt, m.latestAt))
  }

  lemma GroupAppend(models: seq<ModelUsage>, m: ModelUsage, name: string)
    ensures Group(models + [m], name) ==
      if EventModel(m.model) == name then Merge(Group(models, name), m) else Group(models, name)
  {
    hide FieldItems, SumKey, EventModel;
    FieldAppend(models, m, Today, name);
    FieldAppend(models, m, SevenDays, name);
    FieldAppend(models, m, AllTimes, name);
    assert (models + [m])[..|models|] == models;
  }

  lemma {:induction false} GroupAbsent(models: seq<ModelUsage>, name: string)
    requires name !in EventNames(models)
    ensures Group(models, name) == ModelUsage(name, ZERO, ZERO, ZERO, None)
  {
    hide EventModel;
    if models == [] {
      NothingGrouped(name);
    } else {
      hide Group;
      var front, m := models[..|models| - 1], models[|models| - 1];
      assert EventModel(m.model) in EventNames(models);
      assert forall i :: 0 <= i < |front| ==> EventModel(front[i].model) == EventModel(models[i].model);
      GroupAbsent(front, name);
      GroupAppend(front, m, name);
      assert models == front + [m];
    }
  }

  lemma NothingGrouped(name: string)
    ensures Group([], name) == ModelUsage(name, ZERO, ZERO, ZERO, None)
  {
  }

  /** The map built so far holds exactly the groups of the models seen. */
  ghost predicate Grouped(byModel: map<string, ModelUsage>, models: seq<ModelUsage>) {
    && byModel.Keys == EventNames(models)
    && (forall n :: n in byModel ==> byModel[n] == Group(models, n))
  }

  lemma GroupedAppend(byModel: map<string, ModelUsage>, models: seq<ModelUsage>, m: ModelUsage)
    requires Grouped(byModel, models)
    ensures var name := EventModel(m.model);
      var current := if name in byModel then byModel[name] else ModelUsage(name, ZERO, ZERO, ZERO, None);
      Grouped(byModel[name := Merge(current, m)], models + [m])
  {
    hide Group, Merge, EventModel;
    var name := EventModel(m.model);
    var all := models + [m];
    var current := if name in byModel then byModel[name] else ModelUsage(name, ZERO, ZERO, ZERO, None);
    if name !in byModel {
      GroupAbsent(models, name);
    }
    forall n ensures Group(all, n) == if name == n then Merge(Group(models, n), m) else Group(models, n) {
      GroupAppend(models, m, n);
    }
    forall n | n in EventNames(models) + {name} ensures n in EventNames(all) {
      if n == name {
        assert EventModel(all[|models|].model) == n;
      } else {
        var i :| 0 <= i < |models| && EventModel(models[i].model) == n;
        assert EventModel(all[i].model) == n;
      }
    }
    assert EventNames(all) == EventNames(models) + {name};
  }

  lemma NameOrder(models: seq<ModelUsage>)
    requires Sorting.UniqueBy(ModelName, models)
    ensures Sorting.StrictTotalOrder(NameLess, models)
  {
    Sorting.KeyOrder(NameLess, ModelName, models);
  }

  lemma {:induction false} SortedByName(out: seq<ModelUsage>, byModel: map<string, ModelUsage>)
    requires Lists(out, byModel, byModel.Keys)
    ensures Lists(Sorting.InsertionSort(NameLess, out), byModel, byModel.Keys)
    ensures Sorting.Sorted(NameLess, Sorting.InsertionSort(NameLess, out))
  {
    var sorted := Sorting.InsertionSort(NameLess, out);
    NameOrder(out);
    Sorting.SortPermutes(NameLess, out);
    Sorting.SortSorts(NameLess, out);
    hide Sorting.InsertionSort, Sorting.Sorted;
    Sorting.PermutationKeepsUnique(ModelName, out, sorted);
    SameMembers(out, sorted);
  }

  lemma SameMembers<T>(a: seq<T>, b: seq<T>)
    requires multiset(a) == multiset(b)
    ensures forall x :: x in a <==> x in b
  {
    assert forall x :: x in a <==> x in multiset(a);
    assert forall x :: x in b <==> x in multiset(b);
  }

  /** The groups of a report's buckets, sorted by name, regroup it. */
  method SortedModels(byModel: map<string, ModelUsage>, ghost r: Report) returns (models: seq<ModelUsage>)
    requires r.models != [] && Grouped(byModel, r.models)
    ensures Regroups(models, r)
  {
    models := ListSorted(byModel, r.models);
    hide Group;
  }

  method UsageEventModels(r: Report) returns (models: seq<ModelUsage>)
    ensures Regroups(models, r)
  {
    if r.models == [] {
      return [SingleModel(r)];
    }
    var byModel: map<string, ModelUsage> := map[];
    assert Grouped(byModel, []);
    assert r.models[..0] == [];
    var i := 0;
    while i < |r.models|
      invariant 0 <= i <= |r.models|
      invariant Grouped(byModel, r.models[..i])
    {
      hide Grouped, Group, Merge, EventModel, Regroups;
      GroupedAppend(byModel, r.models[..i], r.models[i]);
      assert r.models[..i + 1] == r.models[..i] + [r.models[i]];
      var name := EventModel(r.models[i].model);
      var current := if name in byModel then byModel[name] else ModelUsage(name, ZERO, ZERO, ZERO, None);
      byModel := byModel[name := Merge(current, r.models[i])];
      i := i + 1;
    }
    assert r.models[..i] == r.models;
    models := SortedModels(byModel, r);
  }

  /** Reads the groups out of the map, whatever order the map yields, and sorts them. */
  method ListSorted(byModel: map<string, ModelUsage>, ghost models: seq<ModelUsage>) returns (sorted: seq<ModelUsage>)
    requires Grouped(byModel, models)
    ensures Lists(sorted, byModel, byModel.Keys) && Sorting.Sorted(NameLess, sorted)
  {
    assert forall n :: n in byModel ==> byModel[n].model == n;
    hide Grouped, Group, Lists;
    ListsNothing(byModel);
    var rest, out := byModel.Keys, [];
    ghost var listed := {};
    while rest != {}
      invariant rest + listed == byModel.Keys && rest !! listed
      invariant Lists(out, byModel, listed)
      decreases rest
    {
      var name :| name in rest;
      ListsAppend(out, byModel, listed, name);
      out := out + [byModel[name]];
      rest, listed := rest - {name}, listed + {name};
    }
    assert listed == byModel.Keys;
    sorted := Sorting.SortSlice(NameLess, out);
    SortedByName(out, byModel);
  }

  function EventOf(context: EventKey, reportedAt: int, r: Report, m: ModelUsage): UsageEvent {
    UsageEvent(TrimKey(context), reportedAt, m,
               r.filesScanned, r.events, r.latestAt, TrimSpace(r.latestModel))
  }

  /** An event names its account, client, lease and run, and repeats what the report says of itself. */
  predicate Carries(e: UsageEvent, context: EventKey, reportedAt: int, r: Report) {
    && e.key.accountId == TrimSpace(context.accountId) && e.key.clientId == TrimSpace(context.clientId)
    && e.key.leaseId == TrimSpace(context.leaseId) && e.key.runId == TrimSpace(context.runId)
    && e.reportedAt == reportedAt && e.summaryFilesScanned == r.filesScanned && e.summaryEvents == r.events
    && e.summaryLatestAt == r.latestAt && e.summaryLatestModel == TrimSpace(r.latestModel)
  }

  lemma UsagesAppend(events: seq<UsageEvent>, event: UsageEvent)
    ensures Usages(events + [event]) == Usages(events) + [event.usage]
  {
  }

  method UsageEventsFromSummary(context: EventKey, reportedAt: int, r: Report) returns (events: seq<UsageEvent>)
    ensures Regroups(Usages(events), r)
    ensures forall e :: e in events ==> Carries(e, context, reportedAt, r)
  {
    var models := UsageEventModels(r);
    events := [];
    var i := 0;
    while i < |models|
      invariant 0 <= i <= |models|
      invariant Usages(events) == models[..i]
      invariant forall e :: e in events ==> Carries(e, context, reportedAt, r)
    {
      var event := EventOf(context, reportedAt, r, models[i]);
      assert event.usage == models[i];
      assert Carries(event, context, reportedAt, r);
      hide EventOf, Usages, Regroups, Carries;
      UsagesAppend(events, event);
      events := events + [event];
      i := i + 1;
    }
    assert models[..i] == models;
  }

  // ---------- Names and times ----------

  /** The newest time among the buckets under a name is the name's. */
  lemma {:induction false} LatestUnderIsNewest(models: seq<ModelUsage>, name: string)
    ensures LatestUnder(models, name).None? <==>
      forall m :: m in models && EventModel(m.model) == name ==> m.latestAt.None?
    ensures LatestUnder(models, name).Some? ==>
      && (exists m :: m in models && EventModel(m.model) == name && m.latestAt == LatestUnder(models, name))
      && (forall m :: m in models && EventModel(m.model) == name && m.latestAt.Some? ==>
            m.latestAt.value <= LatestUnder(models, name).value)
  {
    hide EventModel;
    if models != [] {
      var front, last := models[..|models| - 1], models[|models| - 1];
      LatestUnderIsNewest(front, name);
      assert forall m :: m in models <==> m in front || m == last;
    }
  }

  /** An event's name is never blank: each bucket goes under its trimmed name, and one without a name under "unknown". */
  lemma EventNamesAreTheirs(out: seq<ModelUsage>, r: Report)
    requires Regroups(out, r) && r.models != []
    ensures forall m :: m in out ==> m.model == TrimSpace(m.model) != ""
    ensures forall b :: b in r.models ==>
      exists m :: m in out && m.model == (if Blank(b.model) then "unknown" else TrimSpace(b.model))
  {
    hide Group, TrimBy;
    forall m | m in out ensures m.model == TrimSpace(m.model) != "" {
      assert m.model in EventNames(r.models);
      var i :| 0 <= i < |r.models| && EventModel(r.models[i].model) == m.model;
      NameIsTrimmed(r.models[i].model);
    }
    forall b | b in r.models
      ensures exists m :: m in out && m.model == (if Blank(b.model) then "unknown" else TrimSpace(b.model))
    {
      var i :| 0 <= i < |r.models| && r.models[i] == b;
      NameIsTrimmed(b.model);
      assert EventModel(r.models[i].model) in EventNames(r.models);
    }
  }

  /** A report without buckets makes one event, under its latest model and time. */
  lemma SingleEventReads(out: seq<ModelUsage>, r: Report)
    requires Regroups(out, r) && r.models == []
    ensures |out| == 1 && out[0].latestAt == r.latestAt
    ensures out[0].model == if Blank(r.latestModel) then "unknown" else TrimSpace(r.latestModel)
  {
    NameIsTrimmed(r.latestModel);
    hide TrimSpace;
  }

  lemma NameIsTrimmed(model: string)
    ensures EventModel(model) == if Blank(model) then "unknown" else TrimSpace(model)
    ensures TrimSpace(EventModel(model)) == EventModel(model) != ""
  {
    assert TrimSpace("unknown") == "unknown";
    TrimTwice(model);
  }

  // ---------- Conservation ----------

  function Usages(events: seq<UsageEvent>): seq<ModelUsage> {
    seq(|events|, i requires 0 <= i < |events| => events[i].usage)
  }

  /** The plain sum of one token field over a list of buckets. */
  function Totalled(models: seq<ModelUsage>, field: Field): Tokens {
    if models == [] then ZERO
    else Add(Totalled(models[..|models| - 1], field), Select(models[|models| - 1], field))
  }

  function ReportField(r: Report, field: Field): Tokens {
    match field
    case Today => r.today
    case SevenDays => r.sevenDays
    case AllTimes => r.allTime
  }

  function SpanOf(field: Field, startToday: int, startSevenDays: int): Span {
    match field
    case Today => Since(startToday)
    case SevenDays => Since(startSevenDays)
    case AllTimes => AllTime
  }

  /** When every bucket holds the sum of its name, adding the buckets adds the names. */
  lemma {:induction false} TotalledIsSumKeys(models: seq<ModelUsage>, items: seq<Item>, field: Field)
    requires forall i :: 0 <= i < |models| ==> Select(models[i], field) == SumKey(items, models[i].model)
    ensures Totalled(models, field) == SumKeys(items, ModelNames(models))
  {
    if models != [] {
      TotalledIsSumKeys(models[..|models| - 1], items, field);
      assert ModelNames(models)[..|models| - 1] == ModelNames(models[..|models| - 1]);
    }
  }

  lemma {:induction false} TotalledIsSum(models: seq<ModelUsage>, field: Field)
    ensures Totalled(models, field) == Sum(FieldItems(models, field))
  {
    if models != [] {
      TotalledIsSum(models[..|models| - 1], field);
      assert FieldItems(models, field)[..|models| - 1] == FieldItems(models[..|models| - 1], field);
    }
  }

  lemma NamesDistinct(models: seq<ModelUsage>)
    requires Sorting.UniqueBy(ModelName, models)
    ensures Distinct(ModelNames(models))
    ensures forall m :: m in models ==> m.model in ModelNames(models)
  {
    forall m | m in models ensures m.model in ModelNames(models) {
      var i :| 0 <= i < |models| && models[i] == m;
      assert ModelNames(models)[i] == m.model;
    }
  }

  /** The buckets of a report add up to its totals. */
  lemma ReportBucketsSum(r: Report, accepted: seq<Accepted>, startToday: int, startSevenDays: int, field: Field)
    requires Reports(r, accepted, startToday, startSevenDays)
    ensures Totalled(r.models, field) == ReportField(r, field)
    ensures r.models == [] ==> accepted == []
  {
    var items := Items(accepted, SpanOf(field, startToday, startSevenDays));
    assert forall i :: 0 <= i < |r.models| ==> r.models[i] in r.models;
    TotalledIsSumKeys(r.models, items, field);
    NamesDistinct(r.models);
    forall i | 0 <= i < |items| ensures items[i].key in ModelNames(r.models) {
      assert accepted[i].model in Names(accepted);
    }
    PartitionSum(items, ModelNames(r.models));
    if accepted != [] {
      assert accepted[0].model in Names(accepted);
    }
  }

  /** Regrouping by trimmed name keeps every total. */
  lemma RegroupingConserves(out: seq<ModelUsage>, r: Report, field: Field)
    requires Regroups(out, r) && r.models != []
    ensures Totalled(out, field) == Totalled(r.models, field)
  {
    var items := FieldItems(r.models, field);
    assert forall i :: 0 <= i < |out| ==> out[i] in out;
    TotalledIsSumKeys(out, items, field);
    NamesDistinct(out);
    forall i | 0 <= i < |items| ensures items[i].key in ModelNames(out) {
      assert items[i].key in EventNames(r.models);
      assert items[i].key in (set m | m in out :: m.model);
    }
    PartitionSum(items, ModelNames(out));
    TotalledIsSum(r.models, field);
  }

  /** A report without buckets becomes one event that carries the totals themselves. */
  lemma SingleEventTotals(out: seq<ModelUsage>, r: Report, field: Field)
    requires Regroups(out, r) && r.models == []
    ensures Totalled(out, field) == ReportField(r, field)
  {
    assert out[..0] == [];
  }

  /**
   End to end: for each window the events add up to the report, and the report
   adds up the deltas accepted from the session files.
   */
  lemma EventsConserveTokens(files: seq<seq<Record>>, r: Report, events: seq<UsageEvent>,
                             startToday: int, startSevenDays: int, field: Field)
    requires Reports(r, AllAccepted(files), startToday, startSevenDays)
    requires Regroups(Usages(events), r)
    ensures Totalled(Usages(events), field) == ReportField(r, field)
    ensures ReportField(r, field) == Sum(Items(AllAccepted(files), SpanOf(field, startToday, startSevenDays)))
  {
    ReportBucketsSum(r, AllAccepted(files), startToday, startSevenDays, field);
    hide AllAccepted, Items, Sum, Regroups, Usages;
    if r.models != [] {
      RegroupingConserves(Usages(events), r, field);
    } else {
      SingleEventTotals(Usages(events), r, field);
    }
  }

  ghost predicate Consistent(m: ModelUsage) {
    && WellFormed(m.today) && WellFormed(m.sevenDays) && WellFormed(m.allTime)
    && AtMost(m.today, m.sevenDays) && AtMost(m.sevenDays, m.allTime)
  }

  ghost predicate Capped(accepted: seq<Accepted>) {
    forall i :: 0 <= i < |accepted| ==> accepted[i].delta.cachedInput <= accepted[i].delta.input
  }

  lemma BucketConsistent(accepted: seq<Accepted>, model: string, startToday: int, startSevenDays: int)
    requires Capped(accepted) && startSevenDays <= startToday
    ensures Consistent(Bucket(accepted, model, startToday, startSevenDays))
    ensures Consistent(ModelUsage("", Sum(Items(accepted, Since(startToday))),
      Sum(Items(accepted, Since(startSevenDays))), Sum(Items(accepted, AllTime)), None))
  {
    AcceptedWellFormed(accepted, Since(startToday), model);
    AcceptedWellFormed(accepted, Since(startSevenDays), model);
    AcceptedWellFormed(accepted, AllTime, model);
    SumsAtMost(Items(accepted, Since(startToday)), Items(accepted, Since(startSevenDays)), model);
    SumsAtMost(Items(accepted, Since(startSevenDays)), Items(accepted, AllTime), model);
  }

  lemma {:induction false} GroupConsistent(models: seq<ModelUsage>, name: string)
    requires forall i :: 0 <= i < |models| ==> Consistent(models[i])
    ensures Consistent(Group(models, name))
  {
    var a, b, c := FieldItems(models, Today), FieldItems(models, SevenDays), FieldItems(models, AllTimes);
    SumsWellFormed(a, name);
    SumsWellFormed(b, name);
    SumsWellFormed(c, name);
    SumsAtMost(a, b, name);
    SumsAtMost(b, c, name);
  }

  /**
   In the report, in every bucket of it and in every event: the total is input
   plus output, cached input is part of input, and each window is contained in
   the next larger one.
   */
  lemma EventsAreConsistent(files: seq<seq<Record>>, r: Report, events: seq<UsageEvent>,
                            startToday: int, startSevenDays: int)
    requires startSevenDays <= startToday
    requires Reports(r, AllAccepted(files), startToday, startSevenDays)
    requires Regroups(Usages(events), r)
    ensures Consistent(ModelUsage("", r.today, r.sevenDays, r.allTime, None))
    ensures forall m :: m in r.models ==> Consistent(m)
    ensures forall e :: e in events ==> Consistent(e.usage)
  {
    var accepted := AllAccepted(files);
    FilesCapped(files);
    hide AllAccepted, Usages, Consistent, Bucket, Regroups, Items, Sum;
    BucketConsistent(accepted, "", startToday, startSevenDays);
    forall m | m in r.models ensures Consistent(m) {
      BucketConsistent(accepted, m.model, startToday, startSevenDays);
    }
    forall e | e in events ensures Consistent(e.usage) {
      EventConsistent(r, events, e);
    }
  }

  lemma EventConsistent(r: Report, events: seq<UsageEvent>, e: UsageEvent)
    requires Regroups(Usages(events), r) && e in events
    requires Consistent(ModelUsage("", r.today, r.sevenDays, r.allTime, None)) && forall m :: m in r.models ==> Consistent(m)
    ensures Consistent(e.usage)
  {
    hide Group;
    var i :| 0 <= i < |events| && events[i] == e;
    assert Usages(events)[i] == e.usage;
    if r.models != [] {
      assert forall k :: 0 <= k < |r.models| ==> r.models[k] in r.models;
      GroupConsistent(r.models, e.usage.model);
    }
  }
}
