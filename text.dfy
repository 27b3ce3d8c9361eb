/** Character and string helpers shared by the HTTP code and the tooling:
    decimal digits, decimal rendering (`std::to_string`, Python `str`,
    f-strings), and first-occurrence substring search (`std::string::find`). */
module Text {
  import opened Wrappers

  predicate IsDigit(c: char) { '0' <= c <= '9' }

  predicate AllDigits(s: string) { forall i :: 0 <= i < |s| ==> IsDigit(s[i]) }

  function DigitChar(d: nat): char
    requires d < 10
  {
    "0123456789"[d]
  }

  /** Value of a run of decimal digits, accumulated left to right
      (`val = val * 10 + (c - '0')`). */
  function DigitsValue(s: string): nat
  {
    if s == [] then 0
    else DigitsValue(s[..|s| - 1]) * 10 + DigitValue(s[|s| - 1])
  }

  /** `c - '0'` for a decimal digit; the runs read are made of digits only. */
  function DigitValue(c: char): nat
  {
    if IsDigit(c) then c as int - '0' as int else 0
  }

  /** Decimal rendering of a natural number, without leading zeros. */
  function NatToDecimal(n: nat): (r: string)
    ensures |r| > 0 && AllDigits(r)
    ensures r[0] == '0' ==> n == 0
  {
    if n < 10 then [DigitChar(n)] else NatToDecimal(n / 10) + [DigitChar(n % 10)]
  }

  /** Decimal rendering of a signed integer (`std::to_string(int)`). */
  function IntToDecimal(n: int): (r: string)
    ensures |r| > 0
    ensures n >= 0 <==> r[0] != '-'
  {
    if n < 0 then "-" + NatToDecimal(-n) else NatToDecimal(n)
  }

  /** Reading back a rendered number gives the number. */
  lemma {:induction false} DecimalRoundTrip(n: nat)
    ensures DigitsValue(NatToDecimal(n)) == n
  {
    var r := NatToDecimal(n);
    if n >= 10 {
      DecimalRoundTrip(n / 10);
      assert r[..|r| - 1] == NatToDecimal(n / 10);
    }
  }

  /** The longest prefix of `s` made of decimal digits. */
  function LeadingDigits(s: string): (r: string)
    ensures |r| <= |s| && AllDigits(r)
  {
    if s != [] && IsDigit(s[0]) then [s[0]] + LeadingDigits(s[1..]) else []
  }

  /** The run taken is a prefix of `s`, and it stops at the end of `s` or
      at a character that is not a digit. */
  lemma {:induction false} LeadingDigitsSpan(s: string)
    ensures LeadingDigits(s) <= s
    ensures |LeadingDigits(s)| == |s| || !IsDigit(s[|LeadingDigits(s)|])
  {
    if s != [] && IsDigit(s[0]) {
      LeadingDigitsSpan(s[1..]);
    }
  }

  lemma {:induction false} LeadingDigitsOfConcat(d: string, rest: string)
    requires AllDigits(d)
    requires rest == [] || !IsDigit(rest[0])
    ensures LeadingDigits(d + rest) == d
  {
    if d != [] {
      assert (d + rest)[1..] == d[1..] + rest;
      LeadingDigitsOfConcat(d[1..], rest);
    }
  }

  /** `std::string::find(c)` for one character: its first index, if any. */
  function IndexOfChar(s: string, c: char): (r: Option<nat>)
    ensures r.Some? ==> r.value < |s| && s[r.value] == c && c !in s[..r.value]
    ensures r.None? <==> c !in s
  {
    if s == [] then None
    else if s[0] == c then Some(0)
    else match IndexOfChar(s[1..], c)
      case None => None
      case Some(i) => Some(i + 1)
  }

  /** `k` occurs in `s` starting at index `i`. */
  predicate OccursAt(s: string, k: string, i: nat)
  {
    i + |k| <= |s| && s[i..i + |k|] == k
  }

  /** The first index at or after `from` where `k` occurs in `s`. */
  function FindFrom(s: string, k: string, from: nat): (r: Option<nat>)
    ensures r.Some? ==> from <= r.value && OccursAt(s, k, r.value)
    ensures r.Some? ==> forall j: nat :: from <= j < r.value ==> !OccursAt(s, k, j)
    ensures r.None? ==> forall j: nat :: from <= j ==> !OccursAt(s, k, j)
    decreases |s| - from
  {
    if from + |k| > |s| then None
    else if s[from..from + |k|] == k then Some(from)
    else FindFrom(s, k, from + 1)
  }

  /** `std::string::find(k)`: the first occurrence of `k` in `s`, if any. */
  function FindFirst(s: string, k: string): (r: Option<nat>)
    ensures r.Some? ==> OccursAt(s, k, r.value) && forall j: nat :: j < r.value ==> !OccursAt(s, k, j)
    ensures r.None? <==> forall j: nat :: !OccursAt(s, k, j)
  {
    FindFrom(s, k, 0)
  }

  lemma NoOccurrenceBeforeSeam(a: string, b: string, k: string, j: nat)
    requires |a| > 0 && a[|a| - 1] !in k
    requires FindFirst(a, k).None?
    requires j < |a|
    ensures !OccursAt(a + b, k, j)
  {
    var s := a + b;
    if j + |k| <= |s| {
      if j + |k| <= |a| {
        assert s[j..j + |k|] == a[j..j + |k|];
        assert !OccursAt(a, k, j);
      } else {
        assert s[j..j + |k|][|a| - 1 - j] == a[|a| - 1];
        assert a[|a| - 1] != k[|a| - 1 - j];
      }
    }
  }

  /** An occurrence stays where it is when text is appended. */
  lemma OccursExtended(a: string, b: string, k: string, j: nat)
    requires OccursAt(a, k, j)
    ensures OccursAt(a + b, k, j)
  {
    assert (a + b)[j..j + |k|] == a[j..j + |k|];
  }

  lemma OccursShifted(a: string, b: string, k: string, j: nat)
    requires |a| <= j
    ensures OccursAt(a + b, k, j) <==> OccursAt(b, k, j - |a|)
  {
    var s := a + b;
    if j + |k| <= |s| {
      assert s[j..j + |k|] == b[j - |a|..j - |a| + |k|];
    }
  }

  /** An occurrence with none before it is the one `FindFirst` reports. */
  lemma FindFirstAt(s: string, k: string, q: nat)
    requires OccursAt(s, k, q)
    requires forall j: nat :: j < q ==> !OccursAt(s, k, j)
    ensures FindFirst(s, k) == Some(q)
  {
    var r := FindFirst(s, k);
    assert r.Some?;
    assert !(r.value < q);
    assert !(q < r.value);
  }

  /** An occurrence in `a + b` lies wholly inside `b`. */
  lemma SeamOccurrence(a: string, b: string, k: string, j: nat)
    requires |a| > 0 && a[|a| - 1] !in k
    requires FindFirst(a, k).None?
    ensures OccursAt(a + b, k, j) <==> (|a| <= j && OccursAt(b, k, j - |a|))
  {
    if j < |a| {
      NoOccurrenceBeforeSeam(a, b, k, j);
    } else {
      OccursShifted(a, b, k, j);
    }
  }

  /** Searching in `a + b` finds the first occurrence in `b`, shifted by `|a|`,
      when `k` does not occur in `a` and `a` ends with a character that `k`
      does not contain (so no occurrence can straddle the seam). */
  lemma FindFirstAfterSeam(a: string, b: string, k: string)
    requires |a| > 0 && a[|a| - 1] !in k
    requires FindFirst(a, k).None?
    ensures FindFirst(a + b, k) == (match FindFirst(b, k)
                                    case None => None
                                    case Some(p) => Some(|a| + p))
  {
    match FindFirst(b, k)
    case None => SeamNone(a, b, k);
    case Some(p) => SeamSome(a, b, k, p);
  }

  lemma SeamNone(a: string, b: string, k: string)
    requires |a| > 0 && a[|a| - 1] !in k
    requires FindFirst(a, k).None? && FindFirst(b, k).None?
    ensures FindFirst(a + b, k).None?
  {
    forall j: nat ensures !OccursAt(a + b, k, j) {
      SeamOccurrence(a, b, k, j);
    }
  }

  lemma SeamSome(a: string, b: string, k: string, p: nat)
    requires |a| > 0 && a[|a| - 1] !in k
    requires FindFirst(a, k).None? && FindFirst(b, k) == Some(p)
    ensures FindFirst(a + b, k) == Some(|a| + p)
  {
    SeamOccurrence(a, b, k, |a| + p);
    forall j: nat | j < |a| + p ensures !OccursAt(a + b, k, j) {
      SeamOccurrence(a, b, k, j);
    }
    FindFirstAt(a + b, k, |a| + p);
  }
}
