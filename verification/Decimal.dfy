/**
 Decimal text: what `strconv.FormatInt`, `strconv.ParseInt(s, 10, 64)` and `%d` do. A `string`
 stands for Go's bytes, one character each.
 */
module Decimal {
  import opened Deliveries
  import opened Text

  const MAX_INT64 := 0x7fff_ffff_ffff_ffff
  const MIN_INT64 := -0x8000_0000_0000_0000

  predicate AllDigits(s: string) {
    forall i :: 0 <= i < |s| ==> IsDigit(s[i])
  }

  /** `n` with `k` zeros written after it, that is `n * 10^k`. */
  function Shift(n: nat, k: nat): nat {
    if k == 0 then n else 10 * Shift(n, k - 1)
  }

  /** The number a digit string denotes; the empty string denotes zero. */
  function Value(s: string): nat
    requires AllDigits(s)
  {
    if s == "" then 0 else Value(s[..|s| - 1]) * 10 + (s[|s| - 1] as int - '0' as int)
  }

  function Digits(n: nat): (s: string)
    ensures s != "" && AllDigits(s)
  {
    if n < 10 then [('0' as int + n) as char]
    else Digits(n / 10) + [('0' as int + n % 10) as char]
  }

  function FormatInt(n: int): string {
    if n < 0 then "-" + Digits(-n) else Digits(n)
  }

  /** `ParseInt` with base 10 and 64 bits: an optional sign, digits, and nothing else. */
  function ParseInt(s: string): Option<int> {
    var signed := s != "" && (s[0] == '-' || s[0] == '+');
    var digits := if signed then s[1..] else s;
    if digits == "" || !AllDigits(digits) then None
    else
      var n: int := Value(digits);
      var v := if signed && s[0] == '-' then -n else n;
      if MIN_INT64 <= v <= MAX_INT64 then Some(v) else None
  }

  lemma {:induction false} ValueOfDigits(n: nat)
    ensures Value(Digits(n)) == n
    ensures n > 0 ==> Digits(n)[0] != '0'
  {
    if n >= 10 {
      ValueOfDigits(n / 10);
      var s := Digits(n);
      assert s[..|s| - 1] == Digits(n / 10);
    }
  }

  lemma DigitsInjective(a: nat, b: nat)
    requires Digits(a) == Digits(b)
    ensures a == b
  {
    ValueOfDigits(a);
    ValueOfDigits(b);
  }

  lemma FormatInjective(a: int, b: int)
    requires FormatInt(a) == FormatInt(b)
    ensures a == b
  {
    assert a < 0 <==> FormatInt(a)[0] == '-';
    assert b < 0 <==> FormatInt(b)[0] == '-';
    if a < 0 {
      assert FormatInt(a)[1..] == Digits(-a) && FormatInt(b)[1..] == Digits(-b);
      DigitsInjective(-a, -b);
    } else {
      DigitsInjective(a, b);
    }
  }

  /** Printing and parsing undo each other on every 64-bit integer. */
  lemma ParseFormat(n: int)
    requires MIN_INT64 <= n <= MAX_INT64
    ensures ParseInt(FormatInt(n)) == Some(n)
  {
    ValueOfDigits(if n < 0 then -n else n);
    if n < 0 {
      assert FormatInt(n)[1..] == Digits(-n);
    }
  }

  lemma {:induction false} ValueOfConcat(a: string, b: string)
    requires AllDigits(a) && AllDigits(b)
    ensures AllDigits(a + b) && Value(a + b) == Shift(Value(a), |b|) + Value(b)
    decreases |b|
  {
    if b == "" {
      assert a + b == a;
    } else {
      var c := b[..|b| - 1];
      ValueOfConcat(a, c);
      assert (a + b)[..|a + b| - 1] == a + c;
    }
  }

  /** A digit string ends at the first character that is not a digit. */
  lemma CutAtNonDigit(a: string, x: string, b: string, y: string, sep: char)
    requires AllDigits(a) && AllDigits(b) && !IsDigit(sep)
    requires a + [sep] + x == b + [sep] + y
    ensures a == b && x == y
  {
    var s := a + [sep] + x;
    assert s[|a|] == sep && s[|b|] == sep;
    assert forall i :: 0 <= i < |a| ==> s[i] == a[i];
    assert forall i :: 0 <= i < |b| ==> s[i] == b[i];
    assert |a| == |b|;
    assert a == s[..|a|] && b == s[..|b|];
    assert x == s[|a| + 1..] && y == s[|b| + 1..];
  }

  /** What parses as an integer: digits, zeros in front or not, with at most one sign before them,
      as long as the value fits 64 bits. Nothing else does. */
  lemma IntegerTexts(s: string, n: int)
    ensures ParseInt(s) == Some(n) <==>
            exists sign, digits :: SpellsInt(s, n, sign, digits)
  {
    if ParseInt(s) == Some(n) {
      var k := if s[0] == '-' || s[0] == '+' then 1 else 0;
      assert s == s[..k] + s[k..] && (k == 1 ==> s[..1] == [s[0]]);
      assert SpellsInt(s, n, s[..k], s[k..]);
    }
    if sign, digits :| SpellsInt(s, n, sign, digits) {
      assert IsDigit(digits[0]);
      assert sign != "" ==> s[1..] == digits && s[0] == sign[0];
      assert sign == "" ==> s == digits;
    }
  }

  predicate SpellsInt(s: string, n: int, sign: string, digits: string) {
    && s == sign + digits && digits != "" && AllDigits(digits) && (sign == "" || sign == "+" || sign == "-")
    && -0x8000_0000_0000_0000 <= n <= 0x7fff_ffff_ffff_ffff
    && n == if sign == "-" then -(Value(digits) as int) else Value(digits) as int
  }
}
