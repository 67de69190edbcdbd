/** The phone canonicaliser: what users type becomes one E.164 string (ITU-T E.164, clause 6.1). */
module Phone {
  import opened Text

  const MIN_DIGITS := 8
  const MAX_DIGITS := 15

  datatype Rejection = Required | BadCharacter | BadLength | LeadingZero
  datatype Result = Accepted(number: string) | Rejected(why: Rejection)

  predicate IsDigit(c: char) {
    '0' <= c <= '9'
  }

  predicate IsSeparator(c: char) {
    c in "+ -()."
  }

  predicate AllDigits(s: string) {
    forall i :: 0 <= i < |s| ==> IsDigit(s[i])
  }

  predicate Typable(s: string) {
    forall i :: 0 <= i < |s| ==> IsDigit(s[i]) || IsSeparator(s[i])
  }

  /** The digit subsequence. */
  function DigitsOf(s: string): (d: string)
    ensures AllDigits(d)
  {
    if s == "" then ""
    else DigitsOf(s[..|s| - 1]) + if IsDigit(s[|s| - 1]) then [s[|s| - 1]] else ""
  }

  function StripZeros(s: string): (r: string)
    ensures AllDigits(s) ==> AllDigits(r)
    ensures r == "" || r[0] != '0'
  {
    if s != "" && s[0] == '0' then StripZeros(s[1..]) else s
  }

  predicate HadPlus(trimmed: string) {
    "+" <= trimmed
  }

  function International(plus: bool, digits: string, cc: string): string {
    if plus then digits
    else if "0" <= digits then cc + StripZeros(digits)
    else if cc <= digits then digits
    else cc + digits
  }

  function Bounded(number: string): Result {
    if |number| < MIN_DIGITS || |number| > MAX_DIGITS then Rejected(BadLength)
    else if "0" <= number then Rejected(LeadingZero)
    else Accepted("+" + number)
  }

  function Normalize(raw: string, cc: string): Result {
    var trimmed := TrimSpace(raw);
    if trimmed == "" then Rejected(Required)
    else if !Typable(trimmed) then Rejected(BadCharacter)
    else Bounded(International(HadPlus(trimmed), DigitsOf(trimmed), cc))
  }

  lemma ScanStep(s: string, i: nat)
    requires i < |s|
    ensures Typable(s[..i + 1]) <==> Typable(s[..i]) && (IsDigit(s[i]) || IsSeparator(s[i]))
    ensures DigitsOf(s[..i + 1]) == DigitsOf(s[..i]) + if IsDigit(s[i]) then [s[i]] else ""
    ensures Typable(s) ==> IsDigit(s[i]) || IsSeparator(s[i])
  {
    assert s[..i + 1][..i] == s[..i];
    assert s[..i + 1] == s[..i] + [s[i]];
  }

  /** The scanner, one rune at a time. */
  method NormalizePhone(raw: string, cc: string) returns (r: Result)
    ensures r == Normalize(raw, cc)
  {
    var trimmed := TrimSpace(raw);
    if trimmed == "" {
      return Rejected(Required);
    }
    var hadPlus := "+" <= trimmed;
    var number := "";
    var i := 0;
    while i < |trimmed|
      invariant 0 <= i <= |trimmed|
      invariant Typable(trimmed[..i]) && number == DigitsOf(trimmed[..i])
    {
      ScanStep(trimmed, i);
      if IsDigit(trimmed[i]) {
        number := number + [trimmed[i]];
      } else if !IsSeparator(trimmed[i]) {
        return Rejected(BadCharacter);
      }
      i := i + 1;
    }
    assert trimmed[..i] == trimmed;

    if hadPlus {
    } else if "0" <= number {
      number := cc + StripZeros(number);
    } else if !(cc <= number) {
      number := cc + number;
    }
    if |number| < MIN_DIGITS || |number| > MAX_DIGITS {
      return Rejected(BadLength);
    }
    if "0" <= number {
      return Rejected(LeadingZero);
    }
    r := Accepted("+" + number);
  }

  // --- properties --------------------------------------------------------------------------

  predicate IsE164(s: string) {
    && 9 <= |s| <= 16
    && s[0] == '+' && s[1] != '0'
    && forall i :: 1 <= i < |s| ==> s[i] in "0123456789"
  }

  lemma AcceptedIsE164(raw: string, cc: string)
    requires AllDigits(cc) && Normalize(raw, cc).Accepted?
    ensures IsE164(Normalize(raw, cc).number)
  {
    var number := Normalize(raw, cc).number;
    assert AllDigits(number[1..]);
    forall i | 1 <= i < |number|
      ensures number[i] in "0123456789"
    {
      assert number[i] == number[1..][i - 1];
      DigitIsOneOfTen(number[i]);
    }
  }

  lemma DigitIsOneOfTen(c: char)
    ensures IsDigit(c) <==> c in "0123456789"
  {
    if IsDigit(c) {
      assert "0123456789"[c as int - '0' as int] == c;
    }
  }

  /** Why a text is rejected, in the order the checks come. */
  lemma RejectedBecause(raw: string, cc: string)
    ensures Normalize(raw, cc) == Rejected(Required) <==> TrimSpace(raw) == ""
    ensures Normalize(raw, cc) == Rejected(BadCharacter) <==> exists c :: c in TrimSpace(raw) && c !in "0123456789+ -()."
    ensures Normalize(raw, cc) == Rejected(BadLength) ==> !FitsE164(|International(HadPlus(TrimSpace(raw)), DigitsOf(TrimSpace(raw)), cc)|)
    ensures Normalize(raw, cc) == Rejected(LeadingZero) ==> "0" <= International(HadPlus(TrimSpace(raw)), DigitsOf(TrimSpace(raw)), cc)
  {
    TypableIff(TrimSpace(raw));
  }

  lemma KnownCharacter(c: char)
    ensures c in "0123456789+ -()." <==> IsDigit(c) || IsSeparator(c)
  {
    DigitIsOneOfTen(c);
    assert "0123456789+ -()." == "0123456789" + "+ -().";
  }

  lemma TypableIff(s: string)
    ensures !Typable(s) <==> exists c :: c in s && c !in "0123456789+ -()."
  {
    forall c
      ensures c in "0123456789+ -()." <==> IsDigit(c) || IsSeparator(c)
    {
      KnownCharacter(c);
    }
    if !Typable(s) {
      var i :| 0 <= i < |s| && !IsDigit(s[i]) && !IsSeparator(s[i]);
      assert s[i] in s && s[i] !in "0123456789+ -().";
    }
  }

  lemma {:induction false} DigitsOfDigits(s: string)
    requires AllDigits(s)
    ensures DigitsOf(s) == s
  {
    if s != "" {
      DigitsOfDigits(s[..|s| - 1]);
      assert s[..|s| - 1] + [s[|s| - 1]] == s;
    }
  }

  lemma {:induction false} DigitsOfPlus(s: string)
    requires AllDigits(s)
    ensures DigitsOf("+" + s) == s
  {
    if s != "" {
      DigitsOfPlus(s[..|s| - 1]);
      assert ("+" + s)[..|s|] == "+" + s[..|s| - 1];
      assert s[..|s| - 1] + [s[|s| - 1]] == s;
    } else {
      assert "+" + s == "+" && DigitsOf("+") == DigitsOf("+"[..0]);
    }
  }

  lemma NormalizeDigits(s: string, cc: string)
    requires AllDigits(s) && s != ""
    ensures Normalize(s, cc) == Bounded(International(false, s, cc))
  {
    TrimSpaceKeeps(s);
    DigitsOfDigits(s);
    assert IsDigit(s[0]) && s[0] != '+';
  }

  lemma NormalizePlusDigits(s: string, cc: string)
    requires AllDigits(s)
    ensures Normalize("+" + s, cc) == Bounded(s)
  {
    var raw := "+" + s;
    assert forall i :: 0 < i < |raw| ==> raw[i] == s[i - 1];
    TrimSpaceKeeps(raw);
    DigitsOfPlus(s);
  }

  /** A canonical number normalises to itself, whatever the default country code is by then. */
  lemma Idempotent(raw: string, cc: string, cc': string)
    requires AllDigits(cc) && Normalize(raw, cc).Accepted?
    ensures Normalize(Normalize(raw, cc).number, cc') == Normalize(raw, cc)
  {
    var n := Normalize(raw, cc).number;
    assert n == "+" + n[1..] && AllDigits(n[1..]);
    NormalizePlusDigits(n[1..], cc');
  }

  /** Any typable spelling with the same leading plus and the same digits gives the same answer. */
  lemma SpellingDoesNotMatter(a: string, b: string, cc: string)
    requires TrimSpace(a) != "" && TrimSpace(b) != ""
    requires Typable(TrimSpace(a)) == Typable(TrimSpace(b))
    requires HadPlus(TrimSpace(a)) == HadPlus(TrimSpace(b))
    requires DigitsOf(TrimSpace(a)) == DigitsOf(TrimSpace(b))
    ensures Normalize(a, cc) == Normalize(b, cc)
  {}

  lemma {:induction false} DigitsOfConcat(a: string, b: string)
    ensures DigitsOf(a + b) == DigitsOf(a) + DigitsOf(b)
  {
    if b == "" {
      assert a + b == a;
    } else {
      assert (a + b)[..|a + b| - 1] == a + b[..|b| - 1];
      DigitsOfConcat(a, b[..|b| - 1]);
    }
  }

  lemma TypableConcat(a: string, b: string)
    ensures Typable(a + b) <==> Typable(a) && Typable(b)
  {
    if Typable(a + b) {
      assert forall i :: 0 <= i < |a| ==> a[i] == (a + b)[i];
      assert forall i :: 0 <= i < |b| ==> b[i] == (a + b)[|a| + i];
    }
  }

  lemma SeparatorHasNoDigit(sep: char)
    requires IsSeparator(sep)
    ensures DigitsOf([sep]) == ""
  {}

  lemma SeparatorLeavesDigits(a: string, sep: char, b: string)
    requires IsSeparator(sep)
    ensures DigitsOf(a + [sep] + b) == DigitsOf(a + b)
  {
    DigitsOfConcat(a, b);
    DigitsOfConcat(a + [sep], b);
    DigitsOfConcat(a, [sep]);
    SeparatorHasNoDigit(sep);
    assert DigitsOf(a) + "" == DigitsOf(a);
  }

  lemma SeparatorLeavesTypable(a: string, sep: char, b: string)
    requires IsSeparator(sep)
    ensures Typable(a + [sep] + b) == Typable(a + b)
  {
    TypableConcat(a, b);
    TypableConcat(a + [sep], b);
    TypableConcat(a, [sep]);
  }

  /** A separator typed anywhere inside a number changes nothing. */
  lemma SeparatorsAreIgnored(a: string, sep: char, b: string, cc: string)
    requires a != "" && b != "" && IsSeparator(sep)
    requires !IsSpace(a[0]) && !IsSpace(b[|b| - 1])
    ensures Normalize(a + [sep] + b, cc) == Normalize(a + b, cc)
  {
    var plain, spaced := a + b, a + [sep] + b;
    assert plain[0] == spaced[0] == a[0] && plain[|plain| - 1] == spaced[|spaced| - 1] == b[|b| - 1];
    SeparatorLeavesTypable(a, sep, b);
    SeparatorLeavesDigits(a, sep, b);
    SameEdges(spaced, plain, cc);
  }

  lemma SameEdges(a: string, b: string, cc: string)
    requires a != "" && b != "" && a[0] == b[0] && !IsSpace(a[0])
    requires !IsSpace(a[|a| - 1]) && !IsSpace(b[|b| - 1])
    requires Typable(a) == Typable(b) && DigitsOf(a) == DigitsOf(b)
    ensures Normalize(a, cc) == Normalize(b, cc)
  {}

  /** National, bare international and E.164 spellings of one subscriber are accepted or rejected together, with one result. */
  lemma ThreeSpellings(n: string, cc: string)
    requires AllDigits(n) && !("0" <= n)
    requires AllDigits(cc) && cc != "" && !("0" <= cc)
    ensures Normalize("0" + n, cc) == Normalize(cc + n, cc) == Normalize("+" + cc + n, cc)
  {
    NationalNumber(n, cc);
    NormalizeDigits(cc + n, cc);
    assert (cc + n)[0] == cc[0];
    assert cc <= cc + n;
    assert "+" + cc + n == "+" + (cc + n);
    NormalizePlusDigits(cc + n, cc);
  }

  /** A number of this many digits can be accepted. */
  predicate FitsE164(digits: int) {
    8 <= digits <= 15
  }

  /** A subscriber number and a country code as they are written in full. */
  predicate IsSubscriber(n: string, cc: string) {
    AllDigits(n) && !("0" <= n) && AllDigits(cc) && cc != "" && !("0" <= cc)
  }

  /** Digits mean subscriber `n` in full, after trunk zeros, or bare if they cannot be read as a number in full. */
  predicate Means(plus: bool, d: string, n: string, cc: string) {
    d == cc + n || (!plus && (("0" <= d && StripZeros(d) == n) || (d == n && !(cc <= n))))
  }

  /** The spellings of subscriber `n`, whatever separators they carry. */
  predicate Spells(raw: string, n: string, cc: string) {
    var trimmed := TrimSpace(raw);
    trimmed != "" && Typable(trimmed) && Means(HadPlus(trimmed), DigitsOf(trimmed), n, cc)
  }

  /** A text is accepted as this subscriber's number exactly when it spells it and the number fits. */
  lemma AcceptedIffSpelled(raw: string, n: string, cc: string)
    requires IsSubscriber(n, cc)
    ensures Normalize(raw, cc) == Accepted("+" + cc + n) <==> Spells(raw, n, cc) && FitsE164(|cc| + |n|)
  {
    var trimmed := TrimSpace(raw);
    if trimmed != "" && Typable(trimmed) {
      InternationalIs(HadPlus(trimmed), DigitsOf(trimmed), n, cc);
      BoundedIs(International(HadPlus(trimmed), DigitsOf(trimmed), cc), cc + n);
      assert (cc + n)[0] == cc[0];
      assert "+" + (cc + n) == "+" + cc + n;
    }
  }

  lemma SamePrefix(cc: string, a: string, b: string)
    ensures cc + a == cc + b <==> a == b
  {
    assert (cc + a)[|cc|..] == a && (cc + b)[|cc|..] == b;
  }

  lemma InternationalIs(plus: bool, d: string, n: string, cc: string)
    requires IsSubscriber(n, cc)
    ensures International(plus, d, cc) == cc + n <==> Means(plus, d, n, cc)
  {
    assert (cc + n)[0] == cc[0];
    assert cc <= cc + n;
    if !plus && "0" <= d {
      SamePrefix(cc, StripZeros(d), n);
    } else if !plus && !(cc <= d) {
      SamePrefix(cc, d, n);
    }
  }

  lemma BoundedIs(number: string, target: string)
    requires target != "" && target[0] != '0'
    ensures Bounded(number) == Accepted("+" + target) <==> number == target && FitsE164(|target|)
  {
    assert ("+" + number)[1..] == number && ("+" + target)[1..] == target;
  }

  lemma SpelledAs(raw: string, n: string, cc: string)
    requires IsSubscriber(n, cc) && Spells(raw, n, cc) && Normalize(raw, cc).Accepted?
    ensures Normalize(raw, cc) == Accepted("+" + cc + n)
  {
    var trimmed := TrimSpace(raw);
    InternationalIs(HadPlus(trimmed), DigitsOf(trimmed), n, cc);
    assert "+" + (cc + n) == "+" + cc + n;
  }

  /** The plain spellings are spellings, and a separator typed anywhere inside one leaves it one. */
  lemma PlainlySpelled(n: string, cc: string)
    requires IsSubscriber(n, cc)
    ensures Spells("0" + n, n, cc) && Spells(cc + n, n, cc) && Spells("+" + (cc + n), n, cc)
  {
    TrunkSpells(n, cc);
    DigitsSpell(cc + n, n, cc);
    PlusSpells(n, cc);
  }

  lemma TrunkSpells(n: string, cc: string)
    requires IsSubscriber(n, cc)
    ensures Spells("0" + n, n, cc)
  {
    DigitsSpell("0" + n, n, cc);
    assert ("0" + n)[1..] == n;
    assert StripZeros("0" + n) == StripZeros(n) == n;
  }

  lemma DigitsSpell(d: string, n: string, cc: string)
    requires AllDigits(d) && d != ""
    ensures Spells(d, n, cc) <==> Means(false, d, n, cc)
  {
    DigitsTrim(d);
    DigitsOfDigits(d);
  }

  lemma DigitsTrim(d: string)
    requires AllDigits(d) && d != ""
    ensures TrimSpace(d) == d && Typable(d) && !HadPlus(d)
  {
    assert IsDigit(d[0]) && IsDigit(d[|d| - 1]);
    TrimSpaceKeeps(d);
  }

  lemma PlusSpells(n: string, cc: string)
    requires AllDigits(cc + n)
    ensures Spells("+" + (cc + n), n, cc)
  {
    DigitsOfPlus(cc + n);
    PlusTrims(cc + n);
  }

  lemma PlusTrims(s: string)
    requires AllDigits(s)
    ensures TrimSpace("+" + s) == "+" + s && Typable("+" + s)
  {
    assert forall i :: 0 < i < |"+" + s| ==> ("+" + s)[i] == s[i - 1];
    TrimSpaceKeeps("+" + s);
  }

  lemma SpelledWithSeparators(a: string, sep: char, b: string, n: string, cc: string)
    requires a != "" && b != "" && IsSeparator(sep) && !IsSpace(a[0]) && !IsSpace(b[|b| - 1])
    ensures Spells(a + [sep] + b, n, cc) <==> Spells(a + b, n, cc)
  {
    var plain, spaced := a + b, a + [sep] + b;
    assert plain[0] == spaced[0] == a[0] && plain[|plain| - 1] == spaced[|spaced| - 1] == b[|b| - 1];
    TrimSpaceKeeps(plain);
    TrimSpaceKeeps(spaced);
    SeparatorLeavesTypable(a, sep, b);
    SeparatorLeavesDigits(a, sep, b);
  }

  /**
   A number typed without its trunk zero means the same subscriber exactly when it does not begin
   with the country code's own digits (unless both readings have an impossible length).
   */
  lemma BareNumber(n: string, cc: string)
    requires AllDigits(n) && n != "" && !("0" <= n)
    requires AllDigits(cc) && cc != "" && !("0" <= cc)
    ensures Normalize(n, cc) == Normalize("0" + n, cc) <==>
            (cc <= n ==> !FitsE164(|n|) && !FitsE164(|cc| + |n|))
  {
    NationalNumber(n, cc);
    NormalizeDigits(n, cc);
    BoundedDiffer(n, cc);
  }

  lemma BoundedDiffer(n: string, cc: string)
    requires n != "" && !("0" <= n) && cc != "" && !("0" <= cc)
    ensures Bounded(n) == Bounded(cc + n) <==> !FitsE164(|n|) && !FitsE164(|cc| + |n|)
  {
    assert (cc + n)[0] == cc[0];
    assert |"+" + n| < |"+" + (cc + n)|;
  }

  lemma NationalNumber(n: string, cc: string)
    requires AllDigits(n) && !("0" <= n)
    ensures Normalize("0" + n, cc) == Bounded(cc + n)
  {
    NormalizeDigits("0" + n, cc);
    assert ("0" + n)[1..] == n;
    assert StripZeros("0" + n) == StripZeros(n) == n;
  }
}
