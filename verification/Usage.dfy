/**
 Token sums: the arithmetic shared by the session scanner and the usage events.
 */
module TokenSums {

  /** What a bucket of usage counts (internal/usage/codex.go). */
  datatype Tokens = Tokens(input: int, cachedInput: int, output: int, total: int)

  const ZERO := Tokens(0, 0, 0, 0)

  function Add(a: Tokens, b: Tokens): Tokens {
    Tokens(a.input + b.input, a.cachedInput + b.cachedInput, a.output + b.output, a.total + b.total)
  }

  predicate WellFormed(t: Tokens) {
    0 <= t.cachedInput <= t.input && 0 <= t.output && t.total == t.input + t.output
  }

  predicate AtMost(a: Tokens, b: Tokens) {
    a.input <= b.input && a.cachedInput <= b.cachedInput && a.output <= b.output && a.total <= b.total
  }

  /** Tokens booked under a name. */
  datatype Item = Item(key: string, tokens: Tokens)

  function Sum(items: seq<Item>): Tokens {
    if items == [] then ZERO else Add(Sum(items[..|items| - 1]), items[|items| - 1].tokens)
  }

  function SumKey(items: seq<Item>, key: string): Tokens {
    if items == [] then ZERO
    else if items[|items| - 1].key == key then Add(SumKey(items[..|items| - 1], key), items[|items| - 1].tokens)
    else SumKey(items[..|items| - 1], key)
  }

  lemma SumOneMore(items: seq<Item>, item: Item, key: string)
    ensures Sum(items + [item]) == Add(Sum(items), item.tokens)
    ensures SumKey(items + [item], key) ==
      if item.key == key then Add(SumKey(items, key), item.tokens) else SumKey(items, key)
  {
    assert (items + [item])[..|items|] == items;
  }

  lemma AddZero(t: Tokens)
    ensures Add(t, ZERO) == t
  {
  }

  /** The sum of the per-name sums over a list of names. */
  function SumKeys(items: seq<Item>, keys: seq<string>): Tokens {
    if keys == [] then ZERO else Add(SumKeys(items, keys[..|keys| - 1]), SumKey(items, keys[|keys| - 1]))
  }

  ghost predicate Distinct(keys: seq<string>) {
    forall i, j :: 0 <= i < j < |keys| ==> keys[i] != keys[j]
  }

  lemma {:induction false} SumKeysAppend(items: seq<Item>, item: Item, keys: seq<string>)
    requires Distinct(keys)
    ensures SumKeys(items + [item], keys) ==
      if item.key in keys then Add(SumKeys(items, keys), item.tokens) else SumKeys(items, keys)
  {
    assert (items + [item])[..|items|] == items;
    if keys != [] {
      var front, k := keys[..|keys| - 1], keys[|keys| - 1];
      SumKeysAppend(items, item, front);
      assert item.key in keys <==> item.key in front || item.key == k;
    }
  }

  lemma {:induction false} SumKeysEmpty(keys: seq<string>)
    ensures SumKeys([], keys) == ZERO
  {
    if keys != [] { SumKeysEmpty(keys[..|keys| - 1]); }
  }

  /** Splitting a list of items by name and adding the parts up loses nothing. */
  lemma {:induction false} PartitionSum(items: seq<Item>, keys: seq<string>)
    requires Distinct(keys) && forall i :: 0 <= i < |items| ==> items[i].key in keys
    ensures SumKeys(items, keys) == Sum(items)
  {
    if items == [] {
      SumKeysEmpty(keys);
    } else {
      hide Sum, SumKeys, Add, Distinct;
      var front, last := items[..|items| - 1], items[|items| - 1];
      PartitionSum(front, keys);
      SumKeysAppend(front, last, keys);
      SumOneMore(front, last, last.key);
      assert items == front + [last];
    }
  }

  lemma {:induction false} SumsWellFormed(items: seq<Item>, key: string)
    requires forall i :: 0 <= i < |items| ==> WellFormed(items[i].tokens)
    ensures WellFormed(Sum(items)) && WellFormed(SumKey(items, key))
  {
    if items != [] { SumsWellFormed(items[..|items| - 1], key); }
  }

  lemma {:induction false} SumsAtMost(a: seq<Item>, b: seq<Item>, key: string)
    requires |a| == |b|
    requires forall i :: 0 <= i < |a| ==> a[i].key == b[i].key && AtMost(a[i].tokens, b[i].tokens)
    ensures AtMost(Sum(a), Sum(b)) && AtMost(SumKey(a, key), SumKey(b, key))
  {
    if a != [] { SumsAtMost(a[..|a| - 1], b[..|b| - 1], key); }
  }
}

/**
 Scanning Codex session files for token usage (internal/usage/codex.go). A file
 is a sequence of parsed records; an instant of 0 stands for a missing time.
 */
module SessionUsage {
  import opened Wrappers
  import opened Text
  import opened TokenSums
  import Sorting

  const SECOND := 1_000_000_000
  const SEVEN_DAYS := 7 * 24 * 3600 * SECOND

  datatype Counters = Counters(input: nat, cachedInput: nat, output: nat)

  /** The token field of a record: a running total, a last-turn count, or neither. */
  datatype Reading = Total(counters: Counters) | Last(counters: Counters) | NoReading

  datatype Record =
    | TurnContext(model: Option<string>)
    | TokenCount(model: Option<string>, reading: Reading, at: int)

  datatype FileState = FileState(currentModel: string, prevTotal: Option<Counters>)

  const START := FileState("unknown", None)

  /** One delta that was counted, with the model in force and the bucket it went to. */
  datatype Accepted = Accepted(source: string, model: string, delta: Counters, at: int)

  function AfterLastSlash(s: string): string {
    if s == "" || s[|s| - 1] == '/' then "" else AfterLastSlash(s[..|s| - 1]) + [s[|s| - 1]]
  }

  function NormalizeModel(raw: string): string {
    AfterLastSlash(ToLower(TrimSpace(raw)))
  }

  function BucketName(model: string): string {
    var name := NormalizeModel(model);
    if name == "" then "unknown" else name
  }

  function Drop(current: nat, previous: nat): nat {
    if current > previous then current - previous else 0
  }

  function NextModel(state: FileState, model: Option<string>): string {
    if model.Some? then NormalizeModel(model.value) else state.currentModel
  }

  function NextState(state: FileState, record: Record): FileState {
    FileState(NextModel(state, record.model),
              if record.TokenCount? && record.reading.Total? then Some(record.reading.counters)
              else state.prevTotal)
  }

  /** The increase a reading stands for, before the cached share is capped. */
  function RawDelta(state: FileState, reading: Reading): Counters {
    match reading
    case Total(current) =>
      if state.prevTotal.None? then current
      else Counters(Drop(current.input, state.prevTotal.value.input),
                    Drop(current.cachedInput, state.prevTotal.value.cachedInput),
                    Drop(current.output, state.prevTotal.value.output))
    case Last(counters) => counters
    case NoReading => Counters(0, 0, 0)
  }

  /** What a record contributes: nothing, or one accepted delta. */
  function Contribution(state: FileState, record: Record): (r: seq<Accepted>)
    ensures |r| <= 1
  {
    if record.TurnContext? || RawDelta(state, record.reading) == Counters(0, 0, 0) then []
    else
      var d := RawDelta(state, record.reading);
      var capped := if d.cachedInput > d.input then d.(cachedInput := d.input) else d;
      var model := NextModel(state, record.model);
      [Accepted(model, BucketName(model), capped, record.at)]
  }

  function StateAfter(records: seq<Record>): FileState {
    if records == [] then START
    else NextState(StateAfter(records[..|records| - 1]), records[|records| - 1])
  }

  function FileAccepted(records: seq<Record>): seq<Accepted> {
    if records == [] then []
    else
      var front := records[..|records| - 1];
      FileAccepted(front) + Contribution(StateAfter(front), records[|records| - 1])
  }

  function AllAccepted(files: seq<seq<Record>>): seq<Accepted> {
    if files == [] then [] else AllAccepted(files[..|files| - 1]) + FileAccepted(files[|files| - 1])
  }

  // ---------- Counter deltas telescope ----------

  /** The readings of the running totals of a file, in order. */
  function Totals(records: seq<Record>): seq<Counters> {
    if records == [] then []
    else
      var r := records[|records| - 1];
      Totals(records[..|records| - 1])
        + if r.TokenCount? && r.reading.Total? then [r.reading.counters] else []
  }

  /** The two counters that are never capped. */
  datatype Part = Input | Output

  function Get(c: Counters, part: Part): nat {
    if part.Input? then c.input else c.output
  }

  /** The positive variation of a counter that starts at zero. */
  function Variation(readings: seq<Counters>, part: Part): nat {
    if readings == [] then 0
    else
      var n := |readings|;
      Variation(readings[..n - 1], part)
        + Drop(Get(readings[n - 1], part), if n == 1 then 0 else Get(readings[n - 2], part))
  }

  /** What the last-turn records of a file add. */
  function LastTurns(records: seq<Record>, part: Part): nat {
    if records == [] then 0
    else
      var r := records[|records| - 1];
      LastTurns(records[..|records| - 1], part)
        + if r.TokenCount? && r.reading.Last? then Get(r.reading.counters, part) else 0
  }

  function SumDeltas(accepted: seq<Accepted>, part: Part): nat {
    if accepted == [] then 0
    else SumDeltas(accepted[..|accepted| - 1], part) + Get(accepted[|accepted| - 1].delta, part)
  }

  lemma SumDeltasAppend(a: seq<Accepted>, b: seq<Accepted>, part: Part)
    requires |b| <= 1
    ensures SumDeltas(a + b, part) == SumDeltas(a, part) + SumDeltas(b, part)
  {
    if b == [] {
      assert a + b == a;
    } else {
      assert (a + b)[..|a|] == a && b[..0] == [];
    }
  }

  lemma {:induction false} PrevTotalIsLastReading(records: seq<Record>)
    ensures var readings := Totals(records);
      StateAfter(records).prevTotal == if readings == [] then None else Some(readings[|readings| - 1])
  {
    if records != [] { PrevTotalIsLastReading(records[..|records| - 1]); }
  }

  /** One record adds its raw increase, whether or not it is booked. */
  lemma ContributionSum(state: FileState, r: Record, part: Part)
    ensures SumDeltas(Contribution(state, r), part) ==
      if r.TurnContext? then 0 else Get(RawDelta(state, r.reading), part)
  {
    var c := Contribution(state, r);
    assert c != [] ==> c[..0] == [];
  }

  lemma VariationAppend(readings: seq<Counters>, next: Counters, part: Part)
    ensures Variation(readings + [next], part) ==
      Variation(readings, part)
        + Drop(Get(next, part), if readings == [] then 0 else Get(readings[|readings| - 1], part))
  {
    assert (readings + [next])[..|readings|] == readings;
  }

  /** The deltas of a file add up to the variation of its running totals plus its last-turn counts. */
  lemma {:induction false} DeltasTelescope(records: seq<Record>, part: Part)
    ensures SumDeltas(FileAccepted(records), part) == Variation(Totals(records), part) + LastTurns(records, part)
  {
    hide Contribution, SumDeltas, Variation, FileAccepted, Totals, StateAfter, LastTurns;
    if records == [] {
      NothingRecorded(part);
    } else {
      var front, r := records[..|records| - 1], records[|records| - 1];
      DeltasTelescope(front, part);
      OneMoreRecord(records, part);
      PrevTotalIsLastReading(front);
      ContributionSum(StateAfter(front), r, part);
      SumDeltasAppend(FileAccepted(front), Contribution(StateAfter(front), r), part);
      if r.TokenCount? && r.reading.Total? {
        VariationAppend(Totals(front), r.reading.counters, part);
      }
    }
  }

  lemma NothingRecorded(part: Part)
    ensures SumDeltas(FileAccepted([]), part) == Variation(Totals([]), part) + LastTurns([], part)
  {
  }

  /** What the last record of a file adds to its deltas, its running totals and its last-turn counts. */
  lemma OneMoreRecord(records: seq<Record>, part: Part)
    requires records != []
    ensures var front, r := records[..|records| - 1], records[|records| - 1];
      && FileAccepted(records) == FileAccepted(front) + Contribution(StateAfter(front), r)
      && Totals(records) == (if r.TokenCount? && r.reading.Total? then Totals(front) + [r.reading.counters] else Totals(front))
      && LastTurns(records, part)
         == LastTurns(front, part) + (if r.TokenCount? && r.reading.Last? then Get(r.reading.counters, part) else 0)
  {
    hide Contribution, Get;
  }

  /** A counter that never drops varies by its last reading. */
  lemma {:induction false} VariationOfMonotone(readings: seq<Counters>, part: Part)
    requires forall i, j :: 0 <= i < j < |readings| ==> Get(readings[i], part) <= Get(readings[j], part)
    ensures Variation(readings, part) == if readings == [] then 0 else Get(readings[|readings| - 1], part)
  {
    if readings != [] { VariationOfMonotone(readings[..|readings| - 1], part); }
  }

  /** A counter that may reset varies by at least every reading it ever showed. */
  lemma {:induction false} VariationCoversReadings(readings: seq<Counters>, part: Part, k: nat)
    requires k < |readings|
    ensures Variation(readings, part) >= Get(readings[k], part)
  {
    var n := |readings|;
    if k < n - 1 {
      VariationCoversReadings(readings[..n - 1], part, k);
    } else if n > 1 {
      VariationCoversReadings(readings[..n - 1], part, n - 2);
    }
  }

  // ----- The cached counter -----

  function Least(a: nat, b: nat): nat {
    if a < b then a else b
  }

  /** Between readings, the first against zero, the increase of cached input as far as input increased. */
  function CachedVariation(readings: seq<Counters>): nat {
    if readings == [] then 0
    else
      var n := |readings|;
      var before := if n == 1 then Counters(0, 0, 0) else readings[n - 2];
      CachedVariation(readings[..n - 1])
        + Least(Drop(readings[n - 1].cachedInput, before.cachedInput), Drop(readings[n - 1].input, before.input))
  }

  function CachedLastTurns(records: seq<Record>): nat {
    if records == [] then 0
    else
      var r := records[|records| - 1];
      CachedLastTurns(records[..|records| - 1])
        + if r.TokenCount? && r.reading.Last? then Least(r.reading.counters.cachedInput, r.reading.counters.input) else 0
  }

  function SumCached(accepted: seq<Accepted>): nat {
    if accepted == [] then 0
    else SumCached(accepted[..|accepted| - 1]) + accepted[|accepted| - 1].delta.cachedInput
  }

  lemma SumCachedAppend(a: seq<Accepted>, b: seq<Accepted>)
    requires |b| <= 1
    ensures SumCached(a + b) == SumCached(a) + if b == [] then 0 else b[0].delta.cachedInput
  {
    if b == [] {
      assert a + b == a;
    } else {
      assert (a + b)[..|a|] == a;
    }
  }

  /** What one record adds to the cached tokens, by the total reading before it. */
  lemma CachedContribution(state: FileState, r: Record)
    ensures var c, before := Contribution(state, r), if state.prevTotal.Some? then state.prevTotal.value else Counters(0, 0, 0);
      (if c == [] then 0 else c[0].delta.cachedInput) ==
        if r.TurnContext? || r.reading.NoReading? then 0
        else if r.reading.Last? then Least(r.reading.counters.cachedInput, r.reading.counters.input)
        else Least(Drop(r.reading.counters.cachedInput, before.cachedInput), Drop(r.reading.counters.input, before.input))
  {
    hide NormalizeModel;
  }

  lemma CachedVariationAppend(readings: seq<Counters>, next: Counters)
    ensures var before := if readings == [] then Counters(0, 0, 0) else readings[|readings| - 1];
      CachedVariation(readings + [next]) ==
        CachedVariation(readings) + Least(Drop(next.cachedInput, before.cachedInput), Drop(next.input, before.input))
  {
    assert (readings + [next])[..|readings|] == readings;
  }

  /** The cached tokens of a file's deltas are those increases, and the cached share of its last-turn counts. */
  lemma {:induction false} CachedTelescopes(records: seq<Record>)
    ensures SumCached(FileAccepted(records)) == CachedVariation(Totals(records)) + CachedLastTurns(records)
  {
    hide Contribution, SumCached, CachedVariation, FileAccepted, Totals, StateAfter, CachedLastTurns, LastTurns;
    if records == [] {
      NothingCached();
    } else {
      var front, r := records[..|records| - 1], records[|records| - 1];
      CachedTelescopes(front);
      OneMoreRecord(records, Input);
      OneMoreCached(records);
      PrevTotalIsLastReading(front);
      CachedContribution(StateAfter(front), r);
      SumCachedAppend(FileAccepted(front), Contribution(StateAfter(front), r));
      if r.TokenCount? && r.reading.Total? {
        CachedVariationAppend(Totals(front), r.reading.counters);
      }
    }
  }

  lemma NothingCached()
    ensures SumCached(FileAccepted([])) == CachedVariation(Totals([])) + CachedLastTurns([])
  {
  }

  lemma OneMoreCached(records: seq<Record>)
    requires records != []
    ensures var r := records[|records| - 1];
      CachedLastTurns(records) == CachedLastTurns(records[..|records| - 1])
        + if r.TokenCount? && r.reading.Last? then Least(r.reading.counters.cachedInput, r.reading.counters.input) else 0
  {
  }

  /** From one reading to the next the cached counter does not drop, nor grow by more than the input. */
  predicate SteadyStep(before: Counters, next: Counters) {
    0 <= next.cachedInput - before.cachedInput <= next.input - before.input
  }

  ghost predicate CachedIsSteady(readings: seq<Counters>) {
    && (readings != [] ==> SteadyStep(Counters(0, 0, 0), readings[0]))
    && (forall k :: 0 < k < |readings| ==> SteadyStep(readings[k - 1], readings[k]))
  }

  /** Then the file's cached tokens are those of its last reading. */
  lemma {:induction false} CachedOfSteady(readings: seq<Counters>)
    requires CachedIsSteady(readings)
    ensures CachedVariation(readings) == if readings == [] then 0 else readings[|readings| - 1].cachedInput
  {
    if readings != [] { CachedOfSteady(readings[..|readings| - 1]); }
  }

  // ----- The model in force -----

  /** The last record up to `k` that names a model is the one at `i`. */
  predicate NamesModelLast(records: seq<Record>, i: int) {
    && 0 <= i < |records| && records[i].model.Some?
    && forall j :: i < j < |records| ==> records[j].model.None?
  }

  /** A delta is booked at its record's time to the model the file named last, by that record at the latest. */
  lemma {:induction false} ModelInForce(records: seq<Record>)
    ensures forall i :: NamesModelLast(records, i) ==> StateAfter(records).currentModel == NormalizeModel(records[i].model.value)
    ensures (forall i :: 0 <= i < |records| ==> records[i].model.None?) ==> StateAfter(records).currentModel == "unknown"
    ensures records != [] ==>
      forall a :: a in Contribution(StateAfter(records[..|records| - 1]), records[|records| - 1]) ==>
        a.source == StateAfter(records).currentModel && a.at == records[|records| - 1].at && a.model == BucketName(a.source)
  {
    hide NormalizeModel, RawDelta, BucketName;
    if records != [] {
      var front := records[..|records| - 1];
      ModelInForce(front);
      assert forall i :: 0 <= i < |front| ==> front[i] == records[i];
      forall i | NamesModelLast(records, i) ensures StateAfter(records).currentModel == NormalizeModel(records[i].model.value) {
        assert i < |front| ==> NamesModelLast(front, i);
      }
    }
  }

  // ---------- Buckets ----------

  /** The three accounting windows. */
  datatype Span = AllTime | Since(start: int)

  predicate Counts(span: Span, at: int) {
    span.AllTime? || (at != 0 && at >= span.start)
  }

  function ToTokens(d: Counters): Tokens {
    Tokens(d.input, d.cachedInput, d.output, d.input + d.output)
  }

  function AddTokens(target: Tokens, delta: Counters): Tokens {
    Tokens(target.input + delta.input, target.cachedInput + delta.cachedInput,
           target.output + delta.output, target.total + (delta.input + delta.output))
  }

  function Items(accepted: seq<Accepted>, span: Span): seq<Item> {
    seq(|accepted|, i requires 0 <= i < |accepted| =>
      Item(accepted[i].model, if Counts(span, accepted[i].at) then ToTokens(accepted[i].delta) else ZERO))
  }

  function FloorSecond(t: int): int {
    t - t % SECOND
  }

  /** The newest time seen, kept to the second as the source formats it. */
  function Newer(latest: Option<int>, at: int): Option<int> {
    if at != 0 && (latest.None? || at > latest.value) then Some(FloorSecond(at)) else latest
  }

  function LatestOf(accepted: seq<Accepted>, model: Option<string>): Option<int> {
    if accepted == [] then None
    else
      var a, before := accepted[|accepted| - 1], LatestOf(accepted[..|accepted| - 1], model);
      if model.None? || model.value == a.model then Newer(before, a.at) else before
  }

  /** The model in force when the newest time last advanced. */
  function LatestModelOf(accepted: seq<Accepted>): string {
    if accepted == [] then ""
    else
      var front, a := accepted[..|accepted| - 1], accepted[|accepted| - 1];
      var before := LatestOf(front, None);
      if a.at != 0 && (before.None? || a.at > before.value) then a.source else LatestModelOf(front)
  }

  datatype ModelUsage = ModelUsage(model: string, today: Tokens, sevenDays: Tokens, allTime: Tokens, latestAt: Option<int>)

  /** Usage booked under one bucket. */
  function Bucket(accepted: seq<Accepted>, model: string, startToday: int, startSevenDays: int): ModelUsage {
    ModelUsage(model,
               SumKey(Items(accepted, Since(startToday)), model),
               SumKey(Items(accepted, Since(startSevenDays)), model),
               SumKey(Items(accepted, AllTime), model),
               LatestOf(accepted, Some(model)))
  }

  lemma ItemsAppend(accepted: seq<Accepted>, a: Accepted, span: Span)
    ensures Items(accepted + [a], span) ==
      Items(accepted, span) + [Item(a.model, if Counts(span, a.at) then ToTokens(a.delta) else ZERO)]
  {
  }

  /** How one more accepted delta changes the sums of a span. */
  lemma SumsAppend(accepted: seq<Accepted>, a: Accepted, span: Span, model: string)
    ensures Sum(Items(accepted + [a], span)) ==
      if Counts(span, a.at) then Add(Sum(Items(accepted, span)), ToTokens(a.delta)) else Sum(Items(accepted, span))
    ensures SumKey(Items(accepted + [a], span), model) ==
      if a.model == model && Counts(span, a.at)
      then Add(SumKey(Items(accepted, span), model), ToTokens(a.delta))
      else SumKey(Items(accepted, span), model)
  {
    hide Items, Sum, SumKey, Add, ToTokens;
    var items := Items(accepted, span);
    var tokens := if Counts(span, a.at) then ToTokens(a.delta) else ZERO;
    ItemsAppend(accepted, a, span);
    SumOneMore(items, Item(a.model, tokens), model);
    AddZero(Sum(items));
    AddZero(SumKey(items, model));
  }

  lemma LatestAppend(accepted: seq<Accepted>, a: Accepted, model: Option<string>)
    ensures var before := LatestOf(accepted, None);
      LatestModelOf(accepted + [a]) ==
        if a.at != 0 && (before.None? || a.at > before.value) then a.source else LatestModelOf(accepted)
    ensures LatestOf(accepted + [a], model) ==
      if model.None? || model.value == a.model then Newer(LatestOf(accepted, model), a.at) else LatestOf(accepted, model)
  {
    assert (accepted + [a])[..|accepted|] == accepted;
  }

  lemma NotBooked(accepted: seq<Accepted>, model: string)
    requires model !in Names(accepted)
    ensures forall i :: 0 <= i < |accepted| ==> accepted[i].model != model
  {
  }

  /** A bucket nothing was booked under is empty. */
  lemma {:induction false} AbsentBucket(accepted: seq<Accepted>, model: string, startToday: int, startSevenDays: int)
    requires forall i :: 0 <= i < |accepted| ==> accepted[i].model != model
    ensures Bucket(accepted, model, startToday, startSevenDays) == ModelUsage(model, ZERO, ZERO, ZERO, None)
  {
    if accepted != [] {
      var front, a := accepted[..|accepted| - 1], accepted[|accepted| - 1];
      AbsentBucket(front, model, startToday, startSevenDays);
      assert accepted == front + [a];
      BucketAppend(front, a, model, startToday, startSevenDays);
    }
  }

  /** One bucket after one more accepted delta. */
  function Booked(b: ModelUsage, delta: Counters, at: int, startToday: int, startSevenDays: int): ModelUsage {
    ModelUsage(b.model,
               if Counts(Since(startToday), at) then AddTokens(b.today, delta) else b.today,
               if Counts(Since(startSevenDays), at) then AddTokens(b.sevenDays, delta) else b.sevenDays,
               AddTokens(b.allTime, delta),
               Newer(b.latestAt, at))
  }

  /** The buckets anything was booked under. */
  ghost function Names(accepted: seq<Accepted>): set<string> {
    set i | 0 <= i < |accepted| :: accepted[i].model
  }

  lemma NamesAppend(accepted: seq<Accepted>, a: Accepted)
    ensures Names(accepted + [a]) == Names(accepted) + {a.model}
  {
    var all := accepted + [a];
    forall m | m in Names(accepted) + {a.model} ensures m in Names(all) {
      if m in Names(accepted) {
        var i :| 0 <= i < |accepted| && accepted[i].model == m;
        assert all[i].model == m;
      } else {
        assert all[|accepted|].model == m;
      }
    }
  }

  lemma BucketAppend(accepted: seq<Accepted>, a: Accepted, model: string, startToday: int, startSevenDays: int)
    ensures var b := Bucket(accepted, model, startToday, startSevenDays);
      Bucket(accepted + [a], model, startToday, startSevenDays) ==
        if a.model == model then Booked(b, a.delta, a.at, startToday, startSevenDays) else b
  {
    hide Items, SumKey, Sum, LatestOf, LatestModelOf, Newer;
    SumsAppend(accepted, a, Since(startToday), model);
    SumsAppend(accepted, a, Since(startSevenDays), model);
    SumsAppend(accepted, a, AllTime, model);
    LatestAppend(accepted, a, Some(model));
  }

  lemma AcceptedWellFormed(accepted: seq<Accepted>, span: Span, model: string)
    requires forall i :: 0 <= i < |accepted| ==> accepted[i].delta.cachedInput <= accepted[i].delta.input
    ensures WellFormed(Sum(Items(accepted, span))) && WellFormed(SumKey(Items(accepted, span), model))
  {
    SumsWellFormed(Items(accepted, span), model);
  }

  lemma {:induction false} FilesCapped(files: seq<seq<Record>>)
    ensures forall i :: 0 <= i < |AllAccepted(files)| ==>
      AllAccepted(files)[i].delta.cachedInput <= AllAccepted(files)[i].delta.input
  {
    if files != [] {
      FilesCapped(files[..|files| - 1]);
      FileCapped(files[|files| - 1]);
    }
  }

  lemma {:induction false} FileCapped(records: seq<Record>)
    ensures forall i :: 0 <= i < |FileAccepted(records)| ==>
      FileAccepted(records)[i].delta.cachedInput <= FileAccepted(records)[i].delta.input
  {
    if records != [] { FileCapped(records[..|records| - 1]); }
  }

  // ---------- The scan ----------

  /** What a scan reports, as it travels to the server. */
  datatype Report = Report(
    filesScanned: nat, events: nat,
    today: Tokens, sevenDays: Tokens, allTime: Tokens,
    latestAt: Option<int>, latestModel: string,
    models: seq<ModelUsage>)

  function ModelName(m: ModelUsage): string {
    m.model
  }

  function ModelNames(models: seq<ModelUsage>): seq<string> {
    seq(|models|, i requires 0 <= i < |models| => models[i].model)
  }

  /** Busiest of the last seven days first, then by name. */
  predicate Busier(a: ModelUsage, b: ModelUsage) {
    if a.sevenDays.total != b.sevenDays.total then a.sevenDays.total > b.sevenDays.total
    else StringLess(a.model, b.model)
  }

  /** What a report must say about the deltas that were accepted. */
  ghost predicate Reports(r: Report, accepted: seq<Accepted>, startToday: int, startSevenDays: int) {
    && r.events == |accepted|
    && r.today == Sum(Items(accepted, Since(startToday)))
    && r.sevenDays == Sum(Items(accepted, Since(startSevenDays)))
    && r.allTime == Sum(Items(accepted, AllTime))
    && r.latestAt == LatestOf(accepted, None) && r.latestModel == LatestModelOf(accepted)
    && Sorting.UniqueBy(ModelName, r.models)
    && (set m | m in r.models :: m.model) == Names(accepted)
    && (forall m :: m in r.models ==> m == Bucket(accepted, m.model, startToday, startSevenDays))
    && Sorting.Sorted(Busier, r.models)
  }

  /** With distinct names the report order is total, so the report does not depend on map order. */
  lemma BusierIsOrder(models: seq<ModelUsage>)
    requires Sorting.UniqueBy(ModelName, models)
    ensures Sorting.StrictTotalOrder(Busier, models)
  {
    forall x | x in models ensures !Busier(x, x) {
      StringLessIrreflexive(x.model);
    }
    forall x, y, z | x in models && y in models && z in models && Busier(x, y) && Busier(y, z)
      ensures Busier(x, z)
    {
      if x.sevenDays.total == y.sevenDays.total == z.sevenDays.total {
        StringLessTransitive(x.model, y.model, z.model);
      }
    }
    forall x, y | x in models && y in models ensures x == y || Busier(x, y) || Busier(y, x) {
      StringLessTotal(x.model, y.model);
      var i :| 0 <= i < |models| && models[i] == x;
      var j :| 0 <= j < |models| && models[j] == y;
      assert x.model == y.model ==> i == j;
    }
  }

  /** The running state of a scan, as a value. */
  datatype Books = Books(
    events: nat, today: Tokens, sevenDays: Tokens, allTime: Tokens,
    latestAt: Option<int>, latestModel: string, models: map<string, ModelUsage>)

  /** The books agree with the deltas accepted so far. */
  ghost predicate Balanced(b: Books, accepted: seq<Accepted>, startToday: int, startSevenDays: int) {
    && b.events == |accepted|
    && b.today == Sum(Items(accepted, Since(startToday)))
    && b.sevenDays == Sum(Items(accepted, Since(startSevenDays)))
    && b.allTime == Sum(Items(accepted, AllTime))
    && b.latestAt == LatestOf(accepted, None) && b.latestModel == LatestModelOf(accepted)
    && b.models.Keys == Names(accepted)
    && (forall m :: m in b.models ==> b.models[m] == Bucket(accepted, m, startToday, startSevenDays))
  }

  function BookedModel(models: map<string, ModelUsage>, a: Accepted, startToday: int, startSevenDays: int): ModelUsage {
    Booked(if a.model in models then models[a.model] else ModelUsage(a.model, ZERO, ZERO, ZERO, None),
           a.delta, a.at, startToday, startSevenDays)
  }

  /** The books after one more accepted delta. */
  function AfterBooking(b: Books, a: Accepted, startToday: int, startSevenDays: int): Books {
    var advances := a.at != 0 && (b.latestAt.None? || a.at > b.latestAt.value);
    Books(b.events + 1,
          if Counts(Since(startToday), a.at) then AddTokens(b.today, a.delta) else b.today,
          if Counts(Since(startSevenDays), a.at) then AddTokens(b.sevenDays, a.delta) else b.sevenDays,
          AddTokens(b.allTime, a.delta),
          if advances then Some(FloorSecond(a.at)) else b.latestAt,
          if advances then a.source else b.latestModel,
          b.models[a.model := BookedModel(b.models, a, startToday, startSevenDays)])
  }

  /** Booking a delta keeps the books balanced. */
  lemma BookingBalances(b: Books, accepted: seq<Accepted>, a: Accepted, startToday: int, startSevenDays: int)
    requires Balanced(b, accepted, startToday, startSevenDays)
    ensures Balanced(AfterBooking(b, a, startToday, startSevenDays), accepted + [a], startToday, startSevenDays)
  {
    hide Items, Sum, SumKey, LatestOf, LatestModelOf, Bucket, Names;
    SumsAppend(accepted, a, AllTime, "");
    SumsAppend(accepted, a, Since(startSevenDays), "");
    SumsAppend(accepted, a, Since(startToday), "");
    LatestAppend(accepted, a, None);
    NamesAppend(accepted, a);
    var next := AfterBooking(b, a, startToday, startSevenDays);
    forall m | m in next.models
      ensures next.models[m] == Bucket(accepted + [a], m, startToday, startSevenDays)
    {
      BucketAppend(accepted, a, m, startToday, startSevenDays);
      if m == a.model && m !in b.models {
        NotBooked(accepted, m);
        AbsentBucket(accepted, m, startToday, startSevenDays);
      }
    }
  }

  /** The list holds exactly the buckets of the given names, each once. */
  ghost predicate Lists(out: seq<ModelUsage>, models: map<string, ModelUsage>, names: set<string>) {
    && Sorting.UniqueBy(ModelName, out)
    && (set m | m in out :: m.model) == names
    && (forall m :: m in out ==> m.model in models && m == models[m.model])
  }

  lemma ListsNothing(models: map<string, ModelUsage>)
    ensures Lists([], models, {})
  {
  }

  lemma ListsAppend(out: seq<ModelUsage>, models: map<string, ModelUsage>, names: set<string>, name: string)
    requires Lists(out, models, names) && name in models && models[name].model == name && name !in names
    ensures Lists(out + [models[name]], models, names + {name})
  {
    assert forall m :: m in out ==> m.model in (set m | m in out :: m.model);
    var next := out + [models[name]];
    assert forall m :: m in next <==> m in out || m == models[name];
    forall n | n in names + {name} ensures n in (set m | m in next :: m.model) {
      if n == name {
        assert models[name] in next;
      } else {
        var m :| m in out && m.model == n;
        assert m in next;
      }
    }
  }

  lemma SortedLists(out: seq<ModelUsage>, models: map<string, ModelUsage>, names: set<string>)
    requires Lists(out, models, names)
    ensures Lists(Sorting.InsertionSort(Busier, out), models, names)
    ensures Sorting.Sorted(Busier, Sorting.InsertionSort(Busier, out))
  {
    var sorted := Sorting.InsertionSort(Busier, out);
    BusierIsOrder(out);
    Sorting.SortPermutes(Busier, out);
    Sorting.SortSorts(Busier, out);
    Sorting.PermutationKeepsUnique(ModelName, out, sorted);
    assert forall m :: m in sorted <==> m in multiset(sorted);
    assert forall m :: m in out <==> m in multiset(out);
  }

  class Summary {
    const startToday: int
    const startSevenDays: int
    var events: nat
    var today: Tokens
    var sevenDays: Tokens
    var allTime: Tokens
    var latestAt: Option<int>
    var latestModel: string
    var models: map<string, ModelUsage>
    ghost var accepted: seq<Accepted>

    ghost function View(): Books
      reads this
    {
      Books(events, today, sevenDays, allTime, latestAt, latestModel, models)
    }

    ghost predicate Valid()
      reads this
    {
      Balanced(View(), accepted, startToday, startSevenDays)
    }

    constructor (startToday: int, startSevenDays: int)
      ensures Valid() && accepted == []
      ensures this.startToday == startToday && this.startSevenDays == startSevenDays
    {
      this.startToday, this.startSevenDays := startToday, startSevenDays;
      events, today, sevenDays, allTime := 0, ZERO, ZERO, ZERO;
      latestAt, latestModel, models, accepted := None, "", map[], [];
    }

    /** Books a delta under its bucket, creating the bucket on first use. */
    method AddModelTokens(model: string, delta: Counters, at: int)
      modifies this`models
      ensures var a := Accepted(model, BucketName(model), delta, at);
        models == old(models)[a.model := BookedModel(old(models), a, startToday, startSevenDays)]
    {
      var name := NormalizeModel(model);
      if name == "" {
        name := "unknown";
      }
      var bucket := if name in models then models[name] else ModelUsage(name, ZERO, ZERO, ZERO, None);
      bucket := bucket.(allTime := AddTokens(bucket.allTime, delta));
      if at != 0 {
        if at >= startSevenDays {
          bucket := bucket.(sevenDays := AddTokens(bucket.sevenDays, delta));
        }
        if at >= startToday {
          bucket := bucket.(today := AddTokens(bucket.today, delta));
        }
        if bucket.latestAt.None? || at > bucket.latestAt.value {
          bucket := bucket.(latestAt := Some(FloorSecond(at)));
        }
      }
      models := models[name := bucket];
    }

    /** Applies one `token_count` or `turn_context` record. */
    method ParseRecord(state: FileState, record: Record) returns (next: FileState)
      requires Valid()
      modifies this
      ensures Valid()
      ensures next == NextState(state, record)
      ensures accepted == old(accepted) + Contribution(state, record)
    {
      hide Balanced, NormalizeModel;
      next := state;
      if record.model.Some? {
        next := next.(currentModel := NormalizeModel(record.model.value));
      }
      if record.TurnContext? {
        return;
      }
      var delta;
      match record.reading {
        case Total(current) =>
          if state.prevTotal.None? {
            delta := current;
          } else {
            var previous := state.prevTotal.value;
            delta := Counters(Drop(current.input, previous.input),
                              Drop(current.cachedInput, previous.cachedInput),
                              Drop(current.output, previous.output));
          }
          next := next.(prevTotal := Some(current));
        case Last(counters) =>
          delta := counters;
        case NoReading =>
          return;
      }
      if delta.input == 0 && delta.cachedInput == 0 && delta.output == 0 {
        return;
      }
      if delta.cachedInput > delta.input {
        delta := delta.(cachedInput := delta.input);
      }
      Book(next.currentModel, delta, record.at);
    }

    /** Books one accepted delta in the totals and in its bucket. */
    method Book(model: string, delta: Counters, at: int)
      requires Valid()
      modifies this
      ensures Valid()
      ensures accepted == old(accepted) + [Accepted(model, BucketName(model), delta, at)]
    {
      hide Balanced, BookedModel, BucketName;
      ghost var a := Accepted(model, BucketName(model), delta, at);
      BookingBalances(View(), accepted, a, startToday, startSevenDays);
      allTime := AddTokens(allTime, delta);
      if at != 0 {
        if at >= startSevenDays {
          sevenDays := AddTokens(sevenDays, delta);
        }
        if at >= startToday {
          today := AddTokens(today, delta);
        }
        if latestAt.None? || at > latestAt.value {
          latestAt := Some(FloorSecond(at));
          latestModel := model;
        }
      }
      AddModelTokens(model, delta, at);
      events := events + 1;
      accepted := accepted + [a];
      assert View() == AfterBooking(old(View()), a, startToday, startSevenDays);
    }

    /** Scans one file from its own starting state. */
    method ScanFile(records: seq<Record>)
      requires Valid()
      modifies this
      ensures Valid() && accepted == old(accepted) + FileAccepted(records)
    {
      hide Balanced, Contribution;
      var state := START;
      var i := 0;
      while i < |records|
        invariant 0 <= i <= |records|
        invariant Valid() && state == StateAfter(records[..i])
        invariant accepted == old(accepted) + FileAccepted(records[..i])
      {
        assert records[..i + 1][..i] == records[..i];
        state := ParseRecord(state, records[i]);
        i := i + 1;
      }
      assert records[..i] == records;
    }

    /** Lists the buckets in report order. */
    method FinishModels() returns (sorted: seq<ModelUsage>)
      requires Valid()
      ensures Lists(sorted, models, models.Keys) && Sorting.Sorted(Busier, sorted)
    {
      hide Balanced, Lists;
      KeysAreNames(View(), accepted, startToday, startSevenDays);
      ListsNothing(models);
      var rest, out := models.Keys, [];
      ghost var listed := {};
      while rest != {}
        invariant rest + listed == models.Keys && rest !! listed
        invariant Lists(out, models, listed)
        decreases rest
      {
        var name :| name in rest;
        ListsAppend(out, models, listed, name);
        out := out + [models[name]];
        rest, listed := rest - {name}, listed + {name};
      }
      assert listed == models.Keys;
      sorted := Sorting.SortSlice(Busier, out);
      SortedLists(out, models, models.Keys);
    }
  }

  lemma KeysAreNames(b: Books, accepted: seq<Accepted>, startToday: int, startSevenDays: int)
    requires Balanced(b, accepted, startToday, startSevenDays)
    ensures forall m :: m in b.models ==> b.models[m].model == m
  {
  }

  /**
   Scans every session file of a Codex home. `startToday` is midnight of the
   current day, which never lies before the last seven days.
   */
  method SummarizeCodexHome(files: seq<seq<Record>>, now: int, startToday: int) returns (report: Report)
    requires now - SEVEN_DAYS <= startToday
    ensures Reports(report, AllAccepted(files), startToday, now - 604_800_000_000_000)
    ensures report.filesScanned == |files|
  {
    var summary := new Summary(startToday, now - SEVEN_DAYS);
    var i := 0;
    while i < |files|
      invariant 0 <= i <= |files|
      invariant summary.Valid() && fresh(summary)
      invariant summary.startToday == startToday && summary.startSevenDays == now - SEVEN_DAYS
      invariant summary.accepted == AllAccepted(files[..i])
    {
      assert files[..i + 1][..i] == files[..i];
      summary.ScanFile(files[i]);
      i := i + 1;
    }
    assert files[..i] == files;
    var models := summary.FinishModels();
    report := Report(|files|, summary.events, summary.today, summary.sevenDays, summary.allTime,
                     summary.latestAt, summary.latestModel, models);
  }
}
