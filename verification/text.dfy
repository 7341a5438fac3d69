/** Text helpers shared by both generations of the bot: the decimal text form
    that every 64-bit identifier takes in the database, Rust's `str::parse`
    for unsigned and signed integers, `split_once`, `replace(c, "")`,
    substring search, and the byte-wise ordering of file names. */
module Text {
  import opened Wrappers

  const U32_LIMIT: nat := 0x1_0000_0000
  const U64_LIMIT: nat := 0x1_0000_0000_0000_0000
  const I64_MAX: nat := 0x7FFF_FFFF_FFFF_FFFF

  type u32 = x: int | 0 <= x < 0x1_0000_0000
  type u64 = x: int | 0 <= x < 0x1_0000_0000_0000_0000

  predicate IsDigit(c: char) {
    '0' <= c <= '9'
  }

  predicate AllDigits(s: string) {
    forall i :: 0 <= i < |s| ==> IsDigit(s[i])
  }

  function DigitChar(d: nat): (c: char)
    requires d < 10
    ensures IsDigit(c)
  {
    ('0' as int + d) as char
  }

  function DigitValue(c: char): nat
    requires IsDigit(c)
  {
    c as int - '0' as int
  }

  /** The decimal rendering `n.to_string()` of a non-negative integer. */
  function DecimalText(n: nat): (s: string)
    ensures |s| >= 1 && AllDigits(s)
    decreases n
  {
    if n < 10 then [DigitChar(n)] else DecimalText(n / 10) + [DigitChar(n % 10)]
  }

  /** The value of a string of decimal digits, most significant first. */
  function DigitsValue(s: string): nat
    requires AllDigits(s)
  {
    if |s| == 0 then 0 else DigitsValue(s[..|s| - 1]) * 10 + DigitValue(s[|s| - 1])
  }

  /** Rust's `str::parse` for an unsigned integer type whose values are below
      `limit`: one optional leading '+', then at least one decimal digit and
      nothing else; a value at or above the limit is an overflow error. */
  function ParseUnsigned(s: string, limit: nat): (r: Option<nat>)
    ensures r.Some? ==> r.value < limit
  {
    var digits := if |s| > 1 && s[0] == '+' then s[1..] else s;
    if |digits| == 0 || !AllDigits(digits) then None
    else
      var v := DigitsValue(digits);
      if v < limit then Some(v) else None
  }

  /** `s.parse::<u64>()`. */
  function ParseU64(s: string): (r: Option<u64>)
  {
    match ParseUnsigned(s, U64_LIMIT)
    case Some(v) => Some(v)
    case None => None
  }

  /** `s.parse::<u32>()`. */
  function ParseU32(s: string): (r: Option<u32>)
  {
    match ParseUnsigned(s, U32_LIMIT)
    case Some(v) => Some(v)
    case None => None
  }

  /** `s.parse::<i64>()`: an optional sign, then digits, within the i64 range. */
  function ParseI64(s: string): (r: Option<int>)
    ensures r.Some? ==> -(I64_MAX + 1) <= r.value <= I64_MAX
  {
    if |s| > 1 && s[0] == '-' then
      var digits := s[1..];
      if AllDigits(digits) && DigitsValue(digits) <= I64_MAX + 1 then (var v: int := DigitsValue(digits); Some(-v)) else None
    else
      match ParseUnsigned(s, I64_MAX + 1)
      case Some(v) => Some(v as int)
      case None => None
  }

  /** The decimal rendering of a signed integer (`i.to_string()`). */
  function IntText(i: int): string {
    if i < 0 then "-" + DecimalText(-i) else DecimalText(i)
  }

  lemma {:induction false} DigitsValueOfDecimal(n: nat)
    ensures DigitsValue(DecimalText(n)) == n
    decreases n
  {
    if n >= 10 {
      var d := DecimalText(n / 10);
      var s := d + [DigitChar(n % 10)];
      assert s[..|s| - 1] == d;
      DigitsValueOfDecimal(n / 10);
    }
  }

  /** Decimal text never starts with a sign, so no '+' is stripped from it. */
  lemma DecimalTextNoSign(n: nat)
    ensures DecimalText(n)[0] != '+' && DecimalText(n)[0] != '-'
  {
  }

  /** Every identifier below the limit survives the trip through its decimal text. */
  lemma ParseUnsignedRoundTrip(n: nat, limit: nat)
    requires n < limit
    ensures ParseUnsigned(DecimalText(n), limit) == Some(n)
  {
    DecimalTextNoSign(n);
    DigitsValueOfDecimal(n);
  }

  lemma ParseU64RoundTrip(n: u64)
    ensures ParseU64(DecimalText(n)) == Some(n)
  {
    ParseUnsignedRoundTrip(n, U64_LIMIT);
  }

  lemma ParseU32RoundTrip(n: u32)
    ensures ParseU32(DecimalText(n)) == Some(n)
  {
    ParseUnsignedRoundTrip(n, U32_LIMIT);
  }

  lemma ParseI64RoundTrip(i: int)
    requires -(I64_MAX + 1) <= i <= I64_MAX
    ensures ParseI64(IntText(i)) == Some(i)
  {
    if i < 0 {
      var s := IntText(i);
      assert s[1..] == DecimalText(-i);
      DigitsValueOfDecimal(-i);
    } else {
      DecimalTextNoSign(i);
      ParseUnsignedRoundTrip(i, I64_MAX + 1);
    }
  }

  /** Decimal texts of distinct numbers are distinct. */
  lemma DecimalTextInjective(m: nat, n: nat)
    requires DecimalText(m) == DecimalText(n)
    ensures m == n
  {
    DigitsValueOfDecimal(m);
    DigitsValueOfDecimal(n);
  }

  /** Parsing is not the inverse of rendering on every string: a leading '+'
      or leading zeros are accepted and lost, and a sign, an empty string or
      an overflow is rejected. */
  lemma ParseU64Examples()
    ensures ParseU64("+7") == Some(7) && ParseU64("007") == Some(7) && DecimalText(7) == "7"
    ensures ParseU64("") == None && ParseU64("+") == None && ParseU64("-1") == None
  {
    assert "+7"[1..] == "7";
    assert "7"[..0] == "";
    assert DigitsValue("7") == 7;
    assert "0"[..0] == "";
    assert DigitsValue("007") == 7;
    assert "007"[..2] == "00";
    assert "00"[..1] == "0";
    assert !IsDigit("-1"[0]);
    assert !AllDigits("-1");
    assert !IsDigit("+"[0]);
    assert !AllDigits("+");
  }

  /** Index of the first occurrence of `c` in `s`. */
  function IndexOf(s: string, c: char): (r: Option<nat>)
    ensures r.Some? ==> r.value < |s| && s[r.value] == c && c !in s[..r.value]
    ensures r.None? ==> c !in s
  {
    if |s| == 0 then None
    else if s[0] == c then Some(0)
    else
      match IndexOf(s[1..], c)
      case None => None
      case Some(i) =>
        assert s[..i + 1] == [s[0]] + s[1..][..i];
        Some(i + 1)
  }

  /** Rust's `str::split_once(c)`: the text before and after the first `c`. */
  function SplitOnce(s: string, c: char): (r: Option<(string, string)>)
    ensures r.Some? ==> r.value.0 + [c] + r.value.1 == s && c !in r.value.0
    ensures r.None? <==> c !in s
  {
    match IndexOf(s, c)
    case None => None
    case Some(i) =>
      assert s[..i] + [c] + s[i + 1..] == s;
      Some((s[..i], s[i + 1..]))
  }

  lemma {:induction false} IndexOfJoin(a: string, c: char, b: string)
    requires c !in a
    ensures IndexOf(a + [c] + b, c) == Some(|a|)
  {
    var s := a + [c] + b;
    if |a| > 0 {
      assert s[0] == a[0];
      assert s[1..] == a[1..] + [c] + b;
      IndexOfJoin(a[1..], c, b);
    }
  }

  /** Splitting text that was joined at its first `c` gives the two parts back. */
  lemma SplitOnceOfJoin(a: string, c: char, b: string)
    requires c !in a
    ensures SplitOnce(a + [c] + b, c) == Some((a, b))
  {
    var s := a + [c] + b;
    IndexOfJoin(a, c, b);
    assert s[..|a|] == a;
    assert s[|a| + 1..] == b;
  }

  /** `s.replace(c, "")`: every occurrence of `c` deleted. */
  function RemoveChar(s: string, c: char): (r: string)
    ensures c !in r
    ensures |r| <= |s|
    ensures forall x :: x in r ==> x in s
  {
    if |s| == 0 then ""
    else if s[0] == c then RemoveChar(s[1..], c)
    else [s[0]] + RemoveChar(s[1..], c)
  }

  /** Text without `c` is left as it is. */
  lemma {:induction false} RemoveCharNoop(s: string, c: char)
    requires c !in s
    ensures RemoveChar(s, c) == s
  {
    if |s| > 0 {
      assert c !in s[1..];
      RemoveCharNoop(s[1..], c);
    }
  }

  /** Removing a character twice removes nothing more. */
  lemma RemoveCharIdempotent(s: string, c: char)
    ensures RemoveChar(RemoveChar(s, c), c) == RemoveChar(s, c)
  {
    RemoveCharNoop(RemoveChar(s, c), c);
  }

  /** Only `c` is removed: every other character keeps its number of occurrences. */
  lemma {:induction false} RemoveCharKeepsOthers(s: string, c: char, x: char)
    requires x != c
    ensures multiset(RemoveChar(s, c))[x] == multiset(s)[x]
  {
    if |s| > 0 {
      assert s == [s[0]] + s[1..];
      RemoveCharKeepsOthers(s[1..], c, x);
    }
  }

  /** Rust's `str::contains` for a string pattern. */
  predicate Contains(s: string, sub: string) {
    exists i :: 0 <= i <= |s| - |sub| && OccursAt(s, sub, i)
  }

  predicate OccursAt(s: string, sub: string, i: int) {
    0 <= i <= |s| - |sub| && s[i..i + |sub|] == sub
  }

  /** `s.starts_with(p)`. */
  predicate StartsWith(s: string, p: string) {
    |p| <= |s| && s[..|p|] == p
  }

  lemma StartsWithConcat(p: string, rest: string)
    ensures StartsWith(p + rest, p) && (p + rest)[|p|..] == rest
  {
    assert (p + rest)[..|p|] == p;
  }

  /** Number of occurrences of `c` in `s`. */
  function CountChar(s: string, c: char): nat {
    if |s| == 0 then 0 else (if s[0] == c then 1 else 0) + CountChar(s[1..], c)
  }

  lemma {:induction false} CountCharAppend(a: string, b: string, c: char)
    ensures CountChar(a + b, c) == CountChar(a, c) + CountChar(b, c)
  {
    if |a| == 0 {
      assert a + b == b;
    } else {
      assert (a + b)[1..] == a[1..] + b;
      CountCharAppend(a[1..], b, c);
    }
  }

  lemma {:induction false} CountCharAbsent(s: string, c: char)
    requires c !in s
    ensures CountChar(s, c) == 0
  {
    if |s| > 0 {
      assert c !in s[1..];
      CountCharAbsent(s[1..], c);
    }
  }

  /** Rust's `[&str]::join(sep)`. */
  function Join(parts: seq<string>, sep: string): string {
    if |parts| == 0 then ""
    else if |parts| == 1 then parts[0]
    else parts[0] + sep + Join(parts[1..], sep)
  }

  /** Byte-wise (code point) lexicographic order, as Rust compares file names. */
  predicate LexLeq(a: string, b: string) {
    |a| == 0 || (|b| > 0 && (a[0] < b[0] || (a[0] == b[0] && LexLeq(a[1..], b[1..]))))
  }

  /** Texts that agree up to `i` and differ there are ordered by their
      `i`-th characters. */
  lemma {:induction false} LexLessAt(a: string, b: string, i: nat)
    requires i < |a| && i < |b| && a[i] < b[i]
    requires forall j :: 0 <= j < i ==> a[j] == b[j]
    ensures LexLeq(a, b) && a != b
  {
    if i > 0 {
      assert a[0] == b[0];
      LexLessAt(a[1..], b[1..], i - 1);
    }
  }

  lemma {:induction false} LexLeqTotal(a: string, b: string)
    ensures LexLeq(a, b) || LexLeq(b, a)
  {
    if |a| > 0 && |b| > 0 && a[0] == b[0] {
      LexLeqTotal(a[1..], b[1..]);
    }
  }

  lemma {:induction false} LexLeqTransitive(a: string, b: string, c: string)
    requires LexLeq(a, b) && LexLeq(b, c)
    ensures LexLeq(a, c)
  {
    if |a| > 0 && a[0] == b[0] && b[0] == c[0] {
      LexLeqTransitive(a[1..], b[1..], c[1..]);
    }
  }

  lemma {:induction false} LexLeqAntisymmetric(a: string, b: string)
    requires LexLeq(a, b) && LexLeq(b, a)
    ensures a == b
  {
    if |a| > 0 {
      LexLeqAntisymmetric(a[1..], b[1..]);
      assert a == [a[0]] + a[1..];
      assert b == [b[0]] + b[1..];
    }
  }
}
