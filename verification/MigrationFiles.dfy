/** Reading the embedded files: which are migrations, and in what order they apply. */
module MigrationFiles {
  import opened MigrationModel

  datatype File = File(name: string, isDir: bool, contents: string)

  // --- names -------------------------------------------------------------------------------

  predicate HasSuffix(s: string, suffix: string) {
    |suffix| <= |s| && s[|s| - |suffix|..] == suffix
  }

  function TrimSuffix(s: string, suffix: string): string {
    if HasSuffix(s, suffix) then s[..|s| - |suffix|] else s
  }

  /** What stands before and after the first underscore; all of it, and nothing, when there is none. */
  function Cut(s: string): (string, string) {
    if s == "" then ("", "")
    else if s[0] == '_' then ("", s[1..])
    else var (before, after) := Cut(s[1..]); ([s[0]] + before, after)
  }

  /** The version is what stands before the first underscore; joining the two again gives the name back. */
  lemma {:induction false} CutSplits(s: string)
    ensures var (before, after) := Cut(s);
      '_' !in before && s == if '_' in s then before + "_" + after else before
  {
    if s != "" && s[0] != '_' {
      CutSplits(s[1..]);
      assert s == [s[0]] + s[1..];
    }
  }

  /** The checksum stands for the contents: the hash is taken to be injective. */
  function MigrationOf(file: File, creates: string -> bool): Migration {
    var (version, name) := Cut(TrimSuffix(file.name, ".sql"));
    Migration(version, name, file.contents, file.contents, creates(file.contents))
  }

  predicate IsMigration(file: File) {
    !file.isDir && HasSuffix(file.name, ".sql")
  }

  function Read(files: seq<File>, creates: string -> bool): seq<Migration> {
    if files == [] then []
    else
      var before := Read(files[..|files| - 1], creates);
      var last := files[|files| - 1];
      if IsMigration(last) then before + [MigrationOf(last, creates)] else before
  }

  // --- order -------------------------------------------------------------------------------

  /** Lexical order, as the language compares strings. */
  predicate Less(a: string, b: string) {
    b != "" && (a == "" || a[0] < b[0] || (a[0] == b[0] && Less(a[1..], b[1..])))
  }

  lemma {:induction false} LessIsTotal(a: string, b: string)
    ensures Less(a, b) || Less(b, a) || a == b
    ensures !(Less(a, b) && Less(b, a))
    ensures !Less(a, a)
  {
    if a != "" && b != "" {
      LessIsTotal(a[1..], b[1..]);
      assert a == [a[0]] + a[1..] && b == [b[0]] + b[1..];
    }
    if a != "" { LessIsTotal(a[1..], a[1..]); }
  }

  lemma {:induction false} LessIsTransitive(a: string, b: string, c: string)
    requires Less(a, b) && Less(b, c)
    ensures Less(a, c)
  {
    if a != "" && a[0] == b[0] && b[0] == c[0] { LessIsTransitive(a[1..], b[1..], c[1..]); }
  }

  ghost predicate Ordered(ms: seq<Migration>) {
    forall i, j :: 0 <= i < j < |ms| ==> !Less(ms[j].version, ms[i].version)
  }

  function Insert(m: Migration, ms: seq<Migration>): seq<Migration> {
    if ms == [] || !Less(ms[0].version, m.version) then [m] + ms else [ms[0]] + Insert(m, ms[1..])
  }

  /** Some sort by version; with no version twice it is the only one. */
  function SortByVersion(ms: seq<Migration>): seq<Migration> {
    if ms == [] then [] else Insert(ms[0], SortByVersion(ms[1..]))
  }

  lemma {:induction false} InsertKeeps(m: Migration, ms: seq<Migration>)
    ensures multiset(Insert(m, ms)) == multiset{m} + multiset(ms)
  {
    if ms != [] {
      assert ms == [ms[0]] + ms[1..];
      if Less(ms[0].version, m.version) { InsertKeeps(m, ms[1..]); }
    }
  }

  lemma {:induction false} SortKeeps(ms: seq<Migration>)
    ensures multiset(SortByVersion(ms)) == multiset(ms)
  {
    if ms != [] {
      assert ms == [ms[0]] + ms[1..];
      SortKeeps(ms[1..]);
      InsertKeeps(ms[0], SortByVersion(ms[1..]));
    }
  }

  ghost predicate AtLeast(low: Migration, ms: seq<Migration>) {
    forall i :: 0 <= i < |ms| ==> !Less(ms[i].version, low.version)
  }

  lemma OrderedCons(low: Migration, ms: seq<Migration>)
    ensures Ordered([low] + ms) <==> AtLeast(low, ms) && Ordered(ms)
  {
    var all := [low] + ms;
    assert forall i :: 0 <= i < |ms| ==> all[i + 1] == ms[i];
    if Ordered(all) {
      forall i | 0 <= i < |ms|
        ensures !Less(ms[i].version, low.version)
      {
        assert !Less(all[i + 1].version, all[0].version);
      }
      forall i, j | 0 <= i < j < |ms|
        ensures !Less(ms[j].version, ms[i].version)
      {
        assert !Less(all[j + 1].version, all[i + 1].version);
      }
    }
  }

  lemma {:induction false} InsertAtLeast(low: Migration, m: Migration, ms: seq<Migration>)
    requires AtLeast(low, ms) && !Less(m.version, low.version)
    ensures AtLeast(low, Insert(m, ms))
  {
    if ms != [] && Less(ms[0].version, m.version) { InsertAtLeast(low, m, ms[1..]); }
  }

  lemma {:induction false} InsertOrders(m: Migration, ms: seq<Migration>)
    requires Ordered(ms)
    ensures Ordered(Insert(m, ms))
  {
    OrderedCons(m, ms);
    if ms != [] {
      assert ms == [ms[0]] + ms[1..];
      OrderedCons(ms[0], ms[1..]);
      LessIsTotal(ms[0].version, m.version);
      if Less(ms[0].version, m.version) {
        InsertOrders(m, ms[1..]);
        InsertAtLeast(ms[0], m, ms[1..]);
        OrderedCons(ms[0], Insert(m, ms[1..]));
      } else {
        FromFirst(m, ms);
      }
    }
  }

  lemma FromFirst(m: Migration, ms: seq<Migration>)
    requires ms != [] && AtLeast(ms[0], ms[1..]) && !Less(ms[0].version, m.version)
    ensures AtLeast(m, ms)
  {
    forall i | 0 <= i < |ms|
      ensures !Less(ms[i].version, m.version)
    {
      if i > 0 && Less(ms[i].version, m.version) {
        assert !Less(ms[1..][i - 1].version, ms[0].version);
        LessIsTotal(ms[i].version, ms[0].version);
        if Less(ms[0].version, ms[i].version) { LessIsTransitive(ms[0].version, ms[i].version, m.version); }
      }
    }
  }

  lemma {:induction false} SortOrders(ms: seq<Migration>)
    ensures Ordered(SortByVersion(ms))
  {
    if ms != [] {
      SortOrders(ms[1..]);
      InsertOrders(ms[0], SortByVersion(ms[1..]));
    }
  }

  lemma FirstIsFirst(a: seq<Migration>, b: seq<Migration>)
    requires a != [] && multiset(a) == multiset(b) && Ordered(a) && Ordered(b) && Distinct(a)
    ensures b != [] && a[0] == b[0]
  {
    assert a[0] in multiset(b) && |multiset(b)| == |a|;
    var j :| 0 <= j < |b| && b[j] == a[0];
    assert b[0] in multiset(a);
    var i :| 0 <= i < |a| && a[i] == b[0];
    assert i > 0 ==> a[0].version != a[i].version;
    if i > 0 && j > 0 {
      assert !Less(b[j].version, b[0].version) && !Less(a[i].version, a[0].version);
      LessIsTotal(a[0].version, a[i].version);
    }
  }

  lemma SameRest(a: seq<Migration>, b: seq<Migration>)
    requires a != [] && b != [] && a[0] == b[0] && multiset(a) == multiset(b)
    ensures multiset(a[1..]) == multiset(b[1..])
  {
    assert a == [a[0]] + a[1..] && b == [b[0]] + b[1..];
    assert multiset(a[1..]) == multiset(a) - multiset{a[0]};
  }

  /** With no version twice there is only one order, so however files are listed and sorted they load alike. */
  lemma {:induction false} OrderIsUnique(a: seq<Migration>, b: seq<Migration>)
    requires multiset(a) == multiset(b) && Ordered(a) && Ordered(b) && Distinct(a)
    ensures a == b
  {
    if a == [] {
      assert |multiset(b)| == |b| == 0;
    } else {
      FirstIsFirst(a, b);
      assert a == [a[0]] + a[1..] && b == [b[0]] + b[1..];
      OrderedCons(a[0], a[1..]);
      OrderedCons(b[0], b[1..]);
      SameRest(a, b);
      OrderIsUnique(a[1..], b[1..]);
    }
  }

  // --- why versions are zero padded --------------------------------------------------------

  predicate Digits(s: string) {
    forall i :: 0 <= i < |s| ==> '0' <= s[i] <= '9'
  }

  function Pow10(n: nat): nat {
    if n == 0 then 1 else 10 * Pow10(n - 1)
  }

  function Value(s: string): int {
    if s == "" then 0 else (s[0] as int - '0' as int) * Pow10(|s| - 1) + Value(s[1..])
  }

  lemma OneMoreTimes(x: int, p: nat)
    ensures (x + 1) * p == x * p + p
  {}

  lemma {:induction false} LeadingDigitDecides(x: int, y: int, p: nat)
    requires x < y
    ensures x * p + p <= y * p
    decreases y - x
  {
    OneMoreTimes(y - 1, p);
    if x + 1 < y { LeadingDigitDecides(x, y - 1, p); }
  }

  lemma {:induction false} ValueFits(s: string)
    requires Digits(s)
    ensures 0 <= Value(s) < Pow10(|s|)
  {
    if s != "" {
      var d, p := s[0] as int - '0' as int, Pow10(|s| - 1);
      ValueFits(s[1..]);
      LeadingDigitDecides(d, 10, p);
      if d > 0 { LeadingDigitDecides(0, d, p); }
    }
  }

  /** Versions padded to one width sort as the numbers they spell. */
  lemma {:induction false} PaddedOrderIsNumeric(a: string, b: string)
    requires Digits(a) && Digits(b) && |a| == |b|
    ensures Less(a, b) <==> Value(a) < Value(b)
  {
    if a != "" {
      var p := Pow10(|a| - 1);
      var x, y := a[0] as int - '0' as int, b[0] as int - '0' as int;
      ValueFits(a[1..]);
      ValueFits(b[1..]);
      PaddedOrderIsNumeric(a[1..], b[1..]);
      if x < y {
        LeadingDigitDecides(x, y, p);
      } else if y < x {
        LeadingDigitDecides(y, x, p);
      }
    }
  }

  lemma SameWidthSameValue(a: string, b: string)
    requires Digits(a) && Digits(b) && |a| == |b|
    ensures a == b <==> Value(a) == Value(b)
  {
    PaddedOrderIsNumeric(a, b);
    PaddedOrderIsNumeric(b, a);
    LessIsTotal(a, b);
  }

  /** A shorter string against a longer one: only as many characters of the longer one count. */
  lemma {:induction false} LessByPrefix(a: string, b: string)
    requires |a| < |b|
    ensures Less(a, b) <==> Less(a, b[..|a|]) || a == b[..|a|]
  {
    if a != "" {
      LessByPrefix(a[1..], b[1..]);
      assert b[..|a|][1..] == b[1..][..|a| - 1];
      assert a == [a[0]] + a[1..] && b[..|a|] == [b[0]] + b[1..][..|a| - 1];
    }
  }

  lemma Regroup(x: int, p: int, q: int, y: int, r: int)
    requires r == p * q
    ensures x * r + y * q == (x * p + y) * q
  {}

  lemma {:induction false} PowersAdd(m: nat, n: nat)
    ensures Pow10(m + n) == Pow10(m) * Pow10(n)
  {
    if m > 0 { PowersAdd(m - 1, n); }
  }

  lemma {:induction false} ValueConcat(high: string, low: string)
    ensures Value(high + low) == Value(high) * Pow10(|low|) + Value(low)
  {
    if high == "" {
      assert high + low == low;
    } else {
      ValueConcat(high[1..], low);
      assert (high + low)[1..] == high[1..] + low;
      PowersAdd(|high| - 1, |low|);
      Regroup(high[0] as int - '0' as int, Pow10(|high| - 1), Pow10(|low|), Value(high[1..]), Pow10(|high + low| - 1));
    }
  }

  lemma HighPartDecides(high: nat, p: nat, low: nat, x: int)
    requires x < p
    ensures x < high * p + low <==> high > 0 || x < low
  {
    if high > 0 { LeadingDigitDecides(0, high, p); }
  }

  /** A shorter number is below a longer one unless the longer one only has zeros more. */
  lemma ShorterIsBelowIff(a: string, high: string, low: string)
    requires Digits(a) && Digits(high) && Digits(low) && |a| == |low|
    ensures Value(a) < Value(high + low) <==> Value(high) > 0 || Value(a) < Value(low)
  {
    ValueFits(a);
    ValueFits(high);
    ValueFits(low);
    ValueConcat(high, low);
    HighPartDecides(Value(high), Pow10(|low|), Value(low), Value(a));
  }

  /**
   Versions of different widths sort as the numbers they spell exactly when the shorter is at most
   the longer's beginning just if it is the smaller number; so, against a longer version without a
   leading zero, exactly when it is at most that version's beginning.
   */
  lemma MixedWidthsAgreeIff(a: string, b: string)
    requires Digits(a) && Digits(b) && |a| < |b|
    ensures var d := |b| - |a|;
      (Less(a, b) <==> Value(a) < Value(b)) <==>
      (Value(a) <= Value(b[..|a|]) <==> Value(b[..d]) > 0 || Value(a) < Value(b[d..]))
    ensures b[0] != '0' ==> ((Less(a, b) <==> Value(a) < Value(b)) <==> Value(a) <= Value(b[..|a|]))
  {
    var high, low := b[..|b| - |a|], b[|b| - |a|..];
    LessByValue(a, b);
    ShorterIsBelowIff(a, high, low);
    assert b == high + low;
    if b[0] != '0' { NoLeadingZero(high); }
  }

  lemma LessByValue(a: string, b: string)
    requires Digits(a) && Digits(b) && |a| < |b|
    ensures Less(a, b) <==> Value(a) <= Value(b[..|a|])
  {
    LessByPrefix(a, b);
    PaddedOrderIsNumeric(a, b[..|a|]);
    SameWidthSameValue(a, b[..|a|]);
  }

  lemma NoLeadingZero(s: string)
    requires Digits(s) && s != "" && s[0] != '0'
    ensures Value(s) > 0
  {
    ValueFits(s[1..]);
    LeadingDigitDecides(0, s[0] as int - '0' as int, Pow10(|s| - 1));
  }

  /** The commonest case: the tenth of unpadded versions sorts before the ninth. */
  lemma UnpaddedOrderIsNot()
    ensures Less("10", "9") && Value("10") > Value("9")
  {}

  // --- loading -----------------------------------------------------------------------------

  method LoadMigrations(files: seq<File>, creates: string -> bool) returns (ms: seq<Migration>)
    ensures multiset(ms) == multiset(Read(files, creates)) && Ordered(ms)
  {
    var read := [];
    for i := 0 to |files|
      invariant read == Read(files[..i], creates)
    {
      assert files[..i + 1][..i] == files[..i];
      if files[i].isDir || !HasSuffix(files[i].name, ".sql") {
        continue;
      }
      read := read + [MigrationOf(files[i], creates)];
    }
    assert files[..|files|] == files;
    ms := SortByVersion(read);
    SortKeeps(read);
    SortOrders(read);
  }
}
