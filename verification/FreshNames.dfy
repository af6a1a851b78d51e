/**
 Account, client and user identifiers: cleaning a free-form name, and deriving a
 name that is not in use yet (internal/manager/identity.go).
 */
module FreshNames {
  import opened Text

  const MAX_ID_LENGTH := 64

  predicate IsAlnum(c: char) {
    'a' <= c <= 'z' || 'A' <= c <= 'Z' || IsDigit(c)
  }

  predicate IsDash(c: char) {
    c == '-' || c == '_'
  }

  /** The account id pattern: a letter or digit, then at most 63 letters, digits, `_` or `-`. */
  predicate MatchesIdPattern(s: string) {
    && 1 <= |s| <= MAX_ID_LENGTH
    && IsAlnum(s[0])
    && forall i :: 0 <= i < |s| ==> IsAlnum(s[i]) || IsDash(s[i])
  }

  /** What one character of the input contributes to the cleaned name. */
  function CleanChar(c: char): (r: string)
    ensures |r| <= 1
    ensures r != "" ==> IsAlnum(r[0]) || IsDash(r[0])
  {
    if IsAlnum(c) || IsDash(c) then [c]
    else if c == '.' || c == '@' || c == ' ' then "-"
    else ""
  }

  function Clean(s: string): (r: string)
    ensures |r| <= |s|
    ensures forall i :: 0 <= i < |r| ==> IsAlnum(r[i]) || IsDash(r[i])
  {
    if s == "" then "" else Clean(s[..|s| - 1]) + CleanChar(s[|s| - 1])
  }

  function Truncate(s: string, n: nat): string {
    if |s| <= n then s else s[..n]
  }

  function Sanitize(value: string): string {
    TrimBy(Truncate(Clean(TrimSpace(value)), MAX_ID_LENGTH), IsDash)
  }

  lemma {:induction false} CleanAppend(s: string, t: string)
    ensures Clean(s + t) == Clean(s) + Clean(t)
  {
    hide CleanChar;
    if t == "" {
      assert s + t == s;
    } else {
      CleanAppend(s, t[..|t| - 1]);
      assert (s + t)[..|s + t| - 1] == s + t[..|t| - 1];
    }
  }

  /** One step of the cleaning loop; once the length limit is reached the rest is cut off. */
  lemma CleanStep(v: string, i: nat)
    requires i < |v|
    ensures Clean(v[..i + 1]) == Clean(v[..i]) + CleanChar(v[i])
    ensures |Clean(v[..i + 1])| == MAX_ID_LENGTH ==> Truncate(Clean(v), MAX_ID_LENGTH) == Clean(v[..i + 1])
  {
    assert v[..i + 1][..i] == v[..i];
    CleanAppend(v[..i + 1], v[i + 1..]);
    assert v == v[..i + 1] + v[i + 1..];
  }

  method SanitizeAccountId(value: string) returns (out: string)
    ensures out == Sanitize(value)
  {
    var v := TrimSpace(value);
    if v == "" {
      return "";
    }
    var builder := "";
    var i := 0;
    while i < |v|
      invariant 0 <= i <= |v|
      invariant builder == Clean(v[..i]) && |builder| < MAX_ID_LENGTH
      invariant i == |v| ==> v[..i] == v
    {
      CleanStep(v, i);
      builder := builder + CleanChar(v[i]);
      i := i + 1;
      if |builder| >= MAX_ID_LENGTH {
        break;
      }
    }
    assert v[..|v|] == v;
    out := TrimBy(builder, IsDash);
    if out == "" {
      return;
    }
    SanitizeShape(value);
    if !IsAlnum(out[0]) { // never taken: trimming leaves a letter or digit in front
      out := "profile-" + out;
    }
  }

  lemma {:induction false} CleanFixesCleanText(s: string)
    requires forall i :: 0 <= i < |s| ==> IsAlnum(s[i]) || IsDash(s[i])
    ensures Clean(s) == s
  {
    if s != "" {
      CleanFixesCleanText(s[..|s| - 1]);
      assert s == s[..|s| - 1] + [s[|s| - 1]];
    }
  }

  lemma TrimByKeeps(s: string, drop: char -> bool)
    requires s != "" && !drop(s[0]) && !drop(s[|s| - 1])
    ensures TrimBy(s, drop) == s
  {
  }

  /** An id that is valid and does not end in a dash is left alone. */
  lemma SanitizeFixesIds(id: string)
    requires MatchesIdPattern(id) && !IsDash(id[|id| - 1])
    ensures Sanitize(id) == id
  {
    hide TrimBy, Clean, IsSpace;
    CleanFixesCleanText(id);
    NotSpace(id[0]);
    NotSpace(id[|id| - 1]);
    TrimByKeeps(id, IsSpace);
    TrimByKeeps(id, IsDash);
  }

  lemma NotSpace(c: char)
    requires IsAlnum(c) || IsDash(c)
    ensures !IsSpace(c)
  {
  }

  lemma SanitizeIsClean(value: string)
    ensures forall i :: 0 <= i < |Sanitize(value)| ==> IsAlnum(Sanitize(value)[i]) || IsDash(Sanitize(value)[i])
    ensures |Sanitize(value)| <= MAX_ID_LENGTH
  {
    hide TrimBy, Clean, TrimSpace;
    var clean, r := Truncate(Clean(TrimSpace(value)), MAX_ID_LENGTH), Sanitize(value);
    forall i | 0 <= i < |r| ensures IsAlnum(r[i]) || IsDash(r[i]) {
      assert r[i] in r && r[i] in clean;
    }
  }

  /** A cleaned name is empty or a valid account id, and cleaning it again changes nothing. */
  lemma SanitizeShape(value: string)
    ensures Sanitize(value) == "" || MatchesIdPattern(Sanitize(value))
    ensures Sanitize(Sanitize(value)) == Sanitize(value)
  {
    SanitizeIsClean(value);
    var r := Sanitize(value);
    if r != "" {
      hide TrimBy, Clean, TrimSpace;
      SanitizeFixesIds(r);
    }
  }

  /** A dot, an at sign, a space and a dash become a dash, an underscore stays, and other marks are dropped. */
  lemma MarksAreCleaned(s: string, c: char, t: string)
    requires !IsAlnum(c)
    ensures Clean(s + [c] + t) == Clean(s) + (if c in ['.', '@', ' ', '-'] then "-" else if c == '_' then "_" else "") + Clean(t)
  {
    hide Clean;
    CleanAppend(s + [c], t);
    CleanAppend(s, [c]);
    CleanOne(c);
  }

  lemma CleanOne(c: char)
    ensures Clean([c]) == CleanChar(c)
  {
    assert [c][..0] == "";
  }

  /** The letters and digits of a text, in order. */
  function Alnums(s: string): string {
    if s == "" then "" else Alnums(s[..|s| - 1]) + if IsAlnum(s[|s| - 1]) then [s[|s| - 1]] else ""
  }

  lemma {:induction false} AlnumsConcat(s: string, t: string)
    ensures Alnums(s + t) == Alnums(s) + Alnums(t)
  {
    if t == "" {
      assert s + t == s;
    } else {
      AlnumsConcat(s, t[..|t| - 1]);
      assert (s + t)[..|s + t| - 1] == s + t[..|t| - 1];
    }
  }

  lemma {:induction false} AlnumsOfTrimmed(s: string, drop: char -> bool)
    requires forall c: char :: IsAlnum(c) ==> !drop(c)
    ensures Alnums(TrimBy(s, drop)) == Alnums(s)
    decreases |s|
  {
    if s != "" && drop(s[0]) {
      AlnumsOfTrimmed(s[1..], drop);
      AlnumsConcat(s[..1], s[1..]);
      assert s == s[..1] + s[1..] && Alnums(s[..1]) == "";
    } else if s != "" && drop(s[|s| - 1]) {
      AlnumsOfTrimmed(s[..|s| - 1], drop);
    }
  }

  lemma {:induction false} AlnumsOfClean(s: string)
    ensures Alnums(Clean(s)) == Alnums(s)
  {
    if s != "" {
      var front, last := s[..|s| - 1], s[|s| - 1];
      AlnumsOfClean(front);
      AlnumsConcat(Clean(front), CleanChar(last));
      assert CleanChar(last) != "" ==> CleanChar(last)[..0] == "";
      assert Alnums(CleanChar(last)) == if IsAlnum(last) then [last] else "";
    }
  }

  /** Cleaning loses no letter or digit and changes none, but for what the limit on the length cuts off at the end. */
  lemma SanitizeKeepsAlnums(value: string)
    ensures Alnums(Sanitize(value)) <= Alnums(value)
    ensures |Clean(TrimSpace(value))| <= 64 ==> Alnums(Sanitize(value)) == Alnums(value)
  {
    var t := TrimSpace(value);
    var c := Clean(t);
    hide Alnums, Clean, TrimBy;
    AlnumsOfTrimmed(value, IsSpace);
    AlnumsOfClean(t);
    AlnumsOfTrimmed(Truncate(c, MAX_ID_LENGTH), IsDash);
    if |c| > MAX_ID_LENGTH {
      assert c == c[..MAX_ID_LENGTH] + c[MAX_ID_LENGTH..];
      AlnumsConcat(c[..MAX_ID_LENGTH], c[MAX_ID_LENGTH..]);
    }
  }

  // ---------- Names not in use ----------

  const FIRST_SUFFIX := 2
  const LAST_SUFFIX := 1000 // exclusive

  /** With fewer names in use than this a derived name is free. */
  const NAME_LIMIT := 999

  function Suffix(i: nat): string {
    "-" + Itoa(i)
  }

  /** The i-th derived name: the base, shortened if need be, and a numeral. */
  function Candidate(base: string, i: nat): string
    requires FIRST_SUFFIX <= i < LAST_SUFFIX
  {
    ItoaLength(i);
    Truncate(base, MAX_ID_LENGTH - |Suffix(i)|) + Suffix(i)
  }

  function FirstFree(base: string, used: set<string>, i: nat, stamp: string): string
    requires FIRST_SUFFIX <= i <= LAST_SUFFIX
    decreases LAST_SUFFIX - i
  {
    if i == LAST_SUFFIX then "profile-" + stamp
    else if Candidate(base, i) !in used then Candidate(base, i)
    else FirstFree(base, used, i + 1, stamp)
  }

  function Base(name: string): string {
    if Sanitize(name) == "" then "profile" else Sanitize(name)
  }

  /** `stamp` is the clock reading the source formats when every candidate is taken. */
  function UniqueName(name: string, used: set<string>, stamp: string): string {
    if Base(name) !in used then Base(name) else FirstFree(Base(name), used, FIRST_SUFFIX, stamp)
  }

  method UniqueFromUsed(name: string, used: set<string>, stamp: string) returns (r: string)
    ensures r == UniqueName(name, used, stamp)
  {
    var base := SanitizeAccountId(name);
    hide Sanitize;
    if base == "" {
      base := "profile";
    }
    if base !in used {
      return base;
    }
    var i := FIRST_SUFFIX;
    while i < LAST_SUFFIX
      invariant FIRST_SUFFIX <= i <= LAST_SUFFIX
      invariant UniqueName(name, used, stamp) == FirstFree(base, used, i, stamp)
    {
      var suffix := "-" + Itoa(i);
      ItoaLength(i);
      var candidate := base;
      if |candidate| + |suffix| > MAX_ID_LENGTH {
        candidate := candidate[..MAX_ID_LENGTH - |suffix|];
      }
      candidate := candidate + suffix;
      if candidate !in used {
        return candidate;
      }
      i := i + 1;
    }
    r := "profile-" + stamp;
  }

  lemma BaseShape(name: string)
    ensures MatchesIdPattern(Base(name))
  {
    SanitizeShape(name);
  }

  lemma CandidateShape(base: string, i: nat)
    requires MatchesIdPattern(base) && FIRST_SUFFIX <= i < LAST_SUFFIX
    ensures MatchesIdPattern(Candidate(base, i))
  {
    ItoaLength(i);
  }

  /** Two strings with numerals as endings are equal only if the numerals are. */
  lemma SuffixDecides(a: string, b: string, i: nat, j: nat)
    requires a + Suffix(i) == b + Suffix(j)
    ensures i == j
  {
    var s, m, n := a + Suffix(i), |Itoa(i)|, |Itoa(j)|;
    AtoiItoa(i);
    AtoiItoa(j);
    hide Itoa, Atoi;
    assert s[|s| - m..] == Itoa(i) && s[|s| - n..] == Itoa(j);
    assert s[|s| - m - 1] == '-' && s[|s| - n - 1] == '-';
    assert forall k :: |s| - m <= k < |s| ==> IsDigit(s[k]);
    assert forall k :: |s| - n <= k < |s| ==> IsDigit(s[k]);
  }

  /** The names tried before the i-th one. */
  ghost function Tried(base: string, i: nat): set<string>
    requires FIRST_SUFFIX <= i <= LAST_SUFFIX
  {
    set k | FIRST_SUFFIX <= k < i :: Candidate(base, k)
  }

  lemma CandidatesDiffer(base: string, i: nat, j: nat)
    requires FIRST_SUFFIX <= i < LAST_SUFFIX && FIRST_SUFFIX <= j < LAST_SUFFIX
    requires Candidate(base, i) == Candidate(base, j)
    ensures i == j
  {
    ItoaLength(i);
    ItoaLength(j);
    SuffixDecides(Truncate(base, MAX_ID_LENGTH - |Suffix(i)|), Truncate(base, MAX_ID_LENGTH - |Suffix(j)|), i, j);
  }

  lemma {:induction false} TriedSize(base: string, i: nat)
    requires FIRST_SUFFIX <= i <= LAST_SUFFIX
    ensures |Tried(base, i)| == i - FIRST_SUFFIX
  {
    if i == FIRST_SUFFIX {
      assert Tried(base, i) == {};
    } else {
      TriedSize(base, i - 1);
      var c := Candidate(base, i - 1);
      forall k | FIRST_SUFFIX <= k < i - 1 ensures Candidate(base, k) != c {
        if Candidate(base, k) == c { CandidatesDiffer(base, k, i - 1); }
      }
      assert c !in Tried(base, i - 1);
      assert Tried(base, i) == Tried(base, i - 1) + {c};
    }
  }

  lemma SubsetSize(a: set<string>, b: set<string>)
    requires a <= b
    ensures |a| <= |b|
  {
    assert b == a + (b - a);
  }

  /** The clock reading of the fallback: eight digits, a dash and six digits. */
  predicate IsStamp(stamp: string) {
    |stamp| == 15 && stamp[8] == '-' && forall i :: 0 <= i < |stamp| && i != 8 ==> IsDigit(stamp[i])
  }

  ghost predicate AllTaken(base: string, used: set<string>, i: nat)
    requires FIRST_SUFFIX <= i <= LAST_SUFFIX
  {
    forall k :: i <= k < LAST_SUFFIX ==> Candidate(base, k) in used
  }

  /** The loop ends at a free candidate, or at the fallback when every candidate is taken. */
  lemma {:induction false} FirstFreeMeans(base: string, used: set<string>, i: nat, stamp: string)
    requires MatchesIdPattern(base) && FIRST_SUFFIX <= i <= LAST_SUFFIX
    ensures var r := FirstFree(base, used, i, stamp);
      if AllTaken(base, used, i) then r == "profile-" + stamp else r !in used && MatchesIdPattern(r)
    decreases LAST_SUFFIX - i
  {
    if i < LAST_SUFFIX {
      hide Candidate, MatchesIdPattern;
      CandidateShape(base, i);
      if Candidate(base, i) in used {
        FirstFreeMeans(base, used, i + 1, stamp);
        assert AllTaken(base, used, i) <==> AllTaken(base, used, i + 1);
      }
    }
  }

  /** The candidate the loop ends at is the first free one, or there is none. */
  lemma {:induction false} FirstFreeIsFirst(base: string, used: set<string>, i: nat, stamp: string) returns (k: nat)
    requires FIRST_SUFFIX <= i <= LAST_SUFFIX
    ensures i <= k <= 1000 && forall j :: i <= j < k ==> Candidate(base, j) in used
    ensures FirstFree(base, used, i, stamp) == if k < 1000 then Candidate(base, k) else "profile-" + stamp
    ensures k < 1000 ==> Candidate(base, k) !in used
    decreases LAST_SUFFIX - i
  {
    hide Candidate;
    if i == LAST_SUFFIX || Candidate(base, i) !in used {
      return i;
    }
    k := FirstFreeIsFirst(base, used, i + 1, stamp);
  }

  /** A numbered name is the base, a dash and the numeral, the base shortened only to keep 64 characters. */
  lemma CandidateReads(base: string, i: nat)
    requires 2 <= i < 1000
    ensures |base| + 1 + |Itoa(i)| <= 64 ==> Candidate(base, i) == base + "-" + Itoa(i)
    ensures |base| + 1 + |Itoa(i)| > 64 ==> |Candidate(base, i)| == 64 && exists n :: 0 <= n <= |base| && Candidate(base, i) == base[..n] + "-" + Itoa(i)
  {
    ItoaLength(i);
    hide Itoa;
    assert |base| + 1 + |Itoa(i)| > 64 ==> Candidate(base, i) == base[..63 - |Itoa(i)|] + "-" + Itoa(i);
  }

  /** The derived name is the cleaned one if it is free, else the first free numbered one from 2 to 999, else the fallback. */
  lemma UniqueNameIsFirst(name: string, used: set<string>, stamp: string) returns (base: string, k: nat)
    ensures base == if Sanitize(name) == "" then "profile" else Sanitize(name)
    ensures base !in used ==> UniqueName(name, used, stamp) == base
    ensures base in used ==>
      && 2 <= k <= 1000 && (forall j :: 2 <= j < k ==> Candidate(base, j) in used)
      && UniqueName(name, used, stamp) == (if k < 1000 then Candidate(base, k) else "profile-" + stamp)
      && (k < 1000 ==> Candidate(base, k) !in used)
  {
    hide Sanitize, Candidate;
    base := Base(name);
    k := FirstFreeIsFirst(base, used, 2, stamp);
  }

  lemma FallbackShape(stamp: string)
    requires IsStamp(stamp)
    ensures MatchesIdPattern("profile-" + stamp)
  {
  }

  /** The derived name is a valid id, whatever is in use. */
  lemma UniqueNameShape(name: string, used: set<string>, stamp: string)
    requires IsStamp(stamp)
    ensures MatchesIdPattern(UniqueName(name, used, stamp))
  {
    BaseShape(name);
    FallbackShape(stamp);
    FirstFreeMeans(Base(name), used, FIRST_SUFFIX, stamp);
  }

  /** Exactly when the derived name is in use: the base, every numbered candidate and the fallback are. */
  lemma UniqueNameTakenIff(name: string, used: set<string>, stamp: string)
    ensures UniqueName(name, used, stamp) in used <==>
      Base(name) in used && AllTaken(Base(name), used, FIRST_SUFFIX) && "profile-" + stamp in used
  {
    BaseShape(name);
    FirstFreeMeans(Base(name), used, FIRST_SUFFIX, stamp);
  }

  /** A base that is one of its own candidates is as long as an id can be, and so are all its candidates. */
  lemma SelfCandidate(base: string, i: nat, k: nat)
    requires MatchesIdPattern(base) && FIRST_SUFFIX <= i < LAST_SUFFIX && FIRST_SUFFIX <= k < LAST_SUFFIX
    requires Candidate(base, i) == base
    ensures |Candidate(base, k)| == MAX_ID_LENGTH
  {
    ItoaLength(i);
    ItoaLength(k);
    hide Itoa;
  }

  /** The names that must all be taken are 999 at least. */
  lemma NamesToTake(base: string, used: set<string>, stamp: string)
    requires MatchesIdPattern(base) && IsStamp(stamp)
    requires base in used && AllTaken(base, used, FIRST_SUFFIX) && "profile-" + stamp in used
    ensures |used| >= LAST_SUFFIX - FIRST_SUFFIX + 1
  {
    var tried, fallback := Tried(base, LAST_SUFFIX), "profile-" + stamp;
    TriedSize(base, LAST_SUFFIX);
    var extra := if base in tried then fallback else base;
    if base in tried {
      var i :| FIRST_SUFFIX <= i < LAST_SUFFIX && Candidate(base, i) == base;
      forall k | FIRST_SUFFIX <= k < LAST_SUFFIX ensures Candidate(base, k) != fallback {
        SelfCandidate(base, i, k);
      }
    }
    hide Candidate;
    assert extra !in tried && tried + {extra} <= used;
    SubsetSize(tried + {extra}, used);
  }

  /** With fewer than 999 names in use the derived name is unused and a valid id. */
  lemma UniqueNameIsFresh(name: string, used: set<string>, stamp: string)
    requires |used| < NAME_LIMIT && IsStamp(stamp)
    ensures UniqueName(name, used, stamp) !in used
    ensures MatchesIdPattern(UniqueName(name, used, stamp))
  {
    UniqueNameShape(name, used, stamp);
    UniqueNameTakenIff(name, used, stamp);
    BaseShape(name);
    hide UniqueName, Base, AllTaken, MatchesIdPattern;
    if UniqueName(name, used, stamp) in used {
      NamesToTake(Base(name), used, stamp);
    }
  }

  /** The bound is tight: 999 names can take the base, every candidate and the fallback. */
  lemma BoundIsTight(stamp: string) returns (name: string, used: set<string>)
    requires IsStamp(stamp)
    ensures |used| == NAME_LIMIT
    ensures UniqueName(name, used, stamp) in used
  {
    name := SelfNamed();
    var tried, fallback := Tried(name, LAST_SUFFIX), "profile-" + stamp;
    used := tried + {fallback};
    hide Sanitize, Candidate, UniqueName, MatchesIdPattern;
    TriedSize(name, LAST_SUFFIX);
    forall k | FIRST_SUFFIX <= k < LAST_SUFFIX ensures Candidate(name, k) != fallback && Candidate(name, k) in used {
      SelfCandidate(name, 2, k);
      assert Candidate(name, k) in tried;
    }
    assert fallback !in tried;
    UniqueNameTakenIff(name, used, stamp);
  }

  /** A name that is its own first candidate. */
  lemma SelfNamed() returns (name: string)
    ensures Base(name) == name && MatchesIdPattern(name) && Candidate(name, FIRST_SUFFIX) == name
  {
    name := seq(62, _ => 'a') + "-2";
    SanitizeFixesIds(name);
    hide Sanitize;
    assert Itoa(2) == "2";
    assert name[..62] + "-2" == name;
  }
}
