/**
 What a usage report says, in terms of the records of the session files: its
 counters, its windows, its newest time and the names of its buckets.
 */
module UsageLaws {
  import opened Wrappers
  import opened Text
  import opened TokenSums
  import opened SessionUsage

  // ---------- The counters of a report ----------

  /** What the files together come to, counter by counter. */
  function FilesInput(files: seq<seq<Record>>): nat {
    if files == [] then 0
    else
      var f := files[|files| - 1];
      FilesInput(files[..|files| - 1]) + Variation(Totals(f), Input) + LastTurns(f, Input)
  }

  function FilesOutput(files: seq<seq<Record>>): nat {
    if files == [] then 0
    else
      var f := files[|files| - 1];
      FilesOutput(files[..|files| - 1]) + Variation(Totals(f), Output) + LastTurns(f, Output)
  }

  function FilesCached(files: seq<seq<Record>>): nat {
    if files == [] then 0
    else
      var f := files[|files| - 1];
      FilesCached(files[..|files| - 1]) + CachedVariation(Totals(f)) + CachedLastTurns(f)
  }

  /** The three counters of a list of deltas. */
  function Counted(accepted: seq<Accepted>): Tokens {
    var input, output := SumDeltas(accepted, Input), SumDeltas(accepted, Output);
    Tokens(input, SumCached(accepted), output, input + output)
  }

  lemma CountedAppend(accepted: seq<Accepted>, a: Accepted)
    ensures Counted(accepted + [a]) == Add(Counted(accepted), ToTokens(a.delta))
  {
    assert (accepted + [a])[..|accepted|] == accepted;
  }

  lemma CountedNothing()
    ensures Counted([]) == ZERO
  {
  }

  lemma {:induction false} AllTimeIsCounted(accepted: seq<Accepted>)
    ensures Sum(Items(accepted, AllTime)) == Counted(accepted)
  {
    if accepted != [] {
      var front, a := accepted[..|accepted| - 1], accepted[|accepted| - 1];
      AllTimeIsCounted(front);
      assert accepted == front + [a];
      hide Sum, SumKey, Items, Counted, ToTokens, Add;
      SumsAppend(front, a, AllTime, "");
      CountedAppend(front, a);
    }
  }

  lemma {:induction false} CountedConcat(a: seq<Accepted>, b: seq<Accepted>)
    ensures Counted(a + b) == Add(Counted(a), Counted(b))
  {
    hide Counted, ToTokens;
    if b == [] {
      assert a + b == a;
      CountedNothing();
      AddZero(Counted(a));
    } else {
      var front, last := b[..|b| - 1], b[|b| - 1];
      CountedConcat(a, front);
      CountedAppend(front, last);
      CountedAppend(a + front, last);
      assert b == front + [last] && a + b == a + front + [last];
    }
  }

  lemma {:induction false} FilesCounted(files: seq<seq<Record>>)
    ensures Counted(AllAccepted(files))
         == Tokens(FilesInput(files), FilesCached(files), FilesOutput(files), FilesInput(files) + FilesOutput(files))
  {
    hide FileAccepted, Variation, LastTurns, CachedVariation, CachedLastTurns, Totals, Counted;
    if files == [] {
      CountedNothing();
    } else {
      var front, f := files[..|files| - 1], files[|files| - 1];
      FilesCounted(front);
      CountedConcat(AllAccepted(front), FileAccepted(f));
      FileCounted(f);
    }
  }

  lemma FileCounted(f: seq<Record>)
    ensures var input, output := Variation(Totals(f), Input) + LastTurns(f, Input), Variation(Totals(f), Output) + LastTurns(f, Output);
      Counted(FileAccepted(f)) == Tokens(input, CachedVariation(Totals(f)) + CachedLastTurns(f), output, input + output)
  {
    hide FileAccepted, Variation, LastTurns, CachedVariation, CachedLastTurns, Totals, SumDeltas, SumCached;
    DeltasTelescope(f, Input);
    DeltasTelescope(f, Output);
    CachedTelescopes(f);
  }

  /** The all-time totals of a report are what the readings in the files come to, counter by counter. */
  lemma ReportReadsFiles(r: Report, files: seq<seq<Record>>, startToday: int, startSevenDays: int)
    requires Reports(r, AllAccepted(files), startToday, startSevenDays)
    ensures r.allTime.input == FilesInput(files) && r.allTime.output == FilesOutput(files)
    ensures r.allTime.cachedInput == FilesCached(files) && r.allTime.total == FilesInput(files) + FilesOutput(files)
  {
    AllTimeIsCounted(AllAccepted(files));
    FilesCounted(files);
    hide Items, Sum, AllAccepted, FilesInput, FilesOutput, FilesCached;
  }

  // ---------- Windows ----------

  /** The deltas with a time that is not before `start`. */
  function Within(accepted: seq<Accepted>, start: int): seq<Accepted> {
    if accepted == [] then []
    else
      var a, before := accepted[|accepted| - 1], Within(accepted[..|accepted| - 1], start);
      if a.at == 0 || a.at < start then before else before + [a]
  }

  /** A window counts exactly the deltas with a time from its start on. */
  lemma {:induction false} WindowCounts(accepted: seq<Accepted>, start: int)
    ensures Sum(Items(accepted, Since(start))) == Counted(Within(accepted, start))
  {
    hide Sum, SumKey, Items, Counted, ToTokens, Add;
    if accepted == [] {
      NothingCounts(start);
    } else {
      var front, a := accepted[..|accepted| - 1], accepted[|accepted| - 1];
      WindowCounts(front, start);
      assert accepted == front + [a];
      SumsAppend(front, a, Since(start), "");
      CountedAppend(Within(front, start), a);
    }
  }

  lemma NothingCounts(start: int)
    ensures Sum(Items([], Since(start))) == Counted([])
  {
  }

  // ---------- The newest time ----------

  predicate Dated(a: Accepted, model: Option<string>) {
    a.at != 0 && (model.None? || model.value == a.model)
  }

  /** The latest time of a report or a bucket is the newest time of its deltas, cut to the second. */
  lemma {:induction false} LatestIsNewest(accepted: seq<Accepted>, model: Option<string>)
    ensures LatestOf(accepted, model).None? <==> forall a :: a in accepted ==> !Dated(a, model)
    ensures LatestOf(accepted, model).Some? ==>
      && (exists a :: a in accepted && Dated(a, model) && LatestOf(accepted, model).value == a.at - a.at % 1_000_000_000)
      && (forall a :: a in accepted && Dated(a, model) ==> a.at - a.at % 1_000_000_000 <= LatestOf(accepted, model).value)
  {
    if accepted != [] {
      var front, last := accepted[..|accepted| - 1], accepted[|accepted| - 1];
      LatestIsNewest(front, model);
      LatestAppend(front, last, model);
      assert accepted == front + [last];
      assert forall a :: a in accepted <==> a in front || a == last;
      assert forall t: int :: (t - t % 1_000_000_000) % 1_000_000_000 == 0;
      hide LatestOf, LatestModelOf, Newer, Dated;
      NewerReads(LatestOf(front, model), last, model);
    }
  }

  lemma NewerReads(before: Option<int>, a: Accepted, model: Option<string>)
    requires before.Some? ==> before.value % 1_000_000_000 == 0
    ensures var floor := a.at - a.at % 1_000_000_000;
      var after := if model.None? || model.value == a.model then Newer(before, a.at) else before;
      if !Dated(a, model) then after == before
      else
        && after.Some? && (after == before || after.value == floor) && floor <= after.value
        && (before.Some? ==> before.value <= after.value)
  {
  }

  // ---------- The order of a report ----------

  /** The busiest bucket of the last seven days comes first, and equally busy ones come in the order of their names. */
  lemma BusiestFirst(r: Report, accepted: seq<Accepted>, startToday: int, startSevenDays: int, i: nat, j: nat)
    requires Reports(r, accepted, startToday, startSevenDays) && i < j < |r.models|
    ensures r.models[i].sevenDays.total >= r.models[j].sevenDays.total
    ensures r.models[i].sevenDays.total == r.models[j].sevenDays.total ==> StringLess(r.models[i].model, r.models[j].model)
  {
    hide Items, Sum, Bucket, Names, StringLess;
    assert !Busier(r.models[j], r.models[i]);
    assert ModelName(r.models[i]) != ModelName(r.models[j]);
    StringLessTotal(r.models[i].model, r.models[j].model);
  }

  // ---------- Bucket names ----------

  /** A bucket is named by what follows the last slash of the model's name, in lower case. */
  lemma NamesAreBare(raw: string)
    ensures forall c :: c in NormalizeModel(raw) ==> c != '/' && !('A' <= c <= 'Z')
    ensures BucketName(raw) == NormalizeModel(raw) != "" || (NormalizeModel(raw) == "" && BucketName(raw) == "unknown")
  {
    var s := TrimSpace(raw);
    AfterSlashIsBare(ToLower(s));
    forall c | c in ToLower(s) ensures !('A' <= c <= 'Z') {
      var i :| 0 <= i < |s| && ToLower(s)[i] == c;
    }
  }

  lemma {:induction false} AfterSlashIsBare(s: string)
    ensures forall c :: c in AfterLastSlash(s) ==> c != '/' && c in s
  {
    if s != "" && s[|s| - 1] != '/' { AfterSlashIsBare(s[..|s| - 1]); }
  }

  lemma {:induction false} SlashCutsOff(prefix: string, name: string)
    requires '/' !in name
    ensures AfterLastSlash(prefix + "/" + name) == name && AfterLastSlash(name) == name
  {
    var s := prefix + "/" + name;
    if name != "" {
      var n := |name| - 1;
      SlashCutsOff(prefix, name[..n]);
      assert s[..|s| - 1] == prefix + "/" + name[..n] && name == name[..n] + [name[n]];
      assert name[n] in name;
    }
  }

  lemma LowerConcat(a: string, b: string)
    ensures ToLower(a + b) == ToLower(a) + ToLower(b)
  {
  }

  /** Names that differ only in case or in what stands before the last slash share a bucket. */
  lemma VendorDoesNotMatter(prefix: string, name: string)
    requires '/' !in name && TrimSpace(prefix + "/" + name) == prefix + "/" + name
    ensures NormalizeModel(prefix + "/" + name) == ToLower(name)
  {
    var p := prefix + "/";
    LowerConcat(p, name);
    LowerConcat(prefix, "/");
    assert ToLower("/") == "/";
    forall c | c in ToLower(name) ensures c != '/' {
      var i :| 0 <= i < |name| && ToLower(name)[i] == c;
      assert name[i] in name;
    }
    hide ToLower;
    SlashCutsOff(ToLower(prefix), ToLower(name));
  }
}
