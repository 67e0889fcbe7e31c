/**
 Amounts: decimal text to integer minor units and back. The reference, `MinorUnits`, is exact
 rational arithmetic on the text; the conversion works on digit strings and must agree with it.
 */
module Amount {
  import opened Deliveries
  import opened Decimal
  import opened Text

  // ---- Currencies ----

  const NO_DECIMALS := {"UGX", "RWF", "XOF", "XAF", "JPY", "KRW", "VND", "CLP", "ISK", "PYG"}
  const TWO_DECIMALS := {"NGN", "USD", "EUR", "GBP", "GHS", "KES", "ZAR", "TZS", "EGP", "MAD", "ZMW", "CAD", "AUD", "CHF",
                         "CNY", "INR", "BRL"}
  const THREE_DECIMALS := {"BHD", "IQD", "JOD", "KWD", "LYD", "OMR", "TND"}

  /** The currency's number of decimals, and whether the code is known; an unknown code gets two. */
  function MinorUnitExponent(currency: string): (r: (nat, bool))
    ensures r.0 == 0 || r.0 == 2 || r.0 == 3
    ensures var c := Upper(TrimSpace(currency));
            && (r.1 <==> c in NO_DECIMALS || c in TWO_DECIMALS || c in THREE_DECIMALS)
            && (r.0 == 0 <==> c in NO_DECIMALS)
            && (r.0 == 3 <==> c in THREE_DECIMALS)
  {
    var c := Upper(TrimSpace(currency));
    if c in NO_DECIMALS then (0, true) else if c in THREE_DECIMALS then (3, true) else (2, c in TWO_DECIMALS)
  }

  // ---- The reference ----

  /** An optional sign, digits, and an optional fraction. */
  datatype Plain = Plain(neg: bool, whole: string, frac: string)

  function ParsePlain(amount: string): (r: Option<Plain>)
    ensures r.Some? ==> AllDigits(r.value.whole) && AllDigits(r.value.frac)
  {
    var s := TrimSpace(amount);
    if s == "" then None
    else ParseUnsigned(s[0] == '-', if s[0] == '-' || s[0] == '+' then s[1..] else s)
  }

  function ParseUnsigned(neg: bool, s: string): (r: Option<Plain>)
    ensures r.Some? ==> AllDigits(r.value.whole) && AllDigits(r.value.frac)
  {
    var (whole, frac, hasFrac) := Cut(s, '.');
    if (whole == "" && !hasFrac) || !AllDigits(whole) || !AllDigits(frac) then None
    else Some(Plain(neg, whole, frac))
  }

  /** All digits of the text as one number: the amount times `10^|frac|`. */
  function Numerator(d: Plain): nat
    requires AllDigits(d.whole) && AllDigits(d.frac)
  {
    Value(d.whole + d.frac)
  }

  function Signed(neg: bool, n: nat): int {
    var i: int := n;
    if neg then -i else i
  }

  /** `n / 10^k`, if that is a whole number. */
  function Unshift(n: nat, k: nat): Option<nat> {
    if k == 0 then Some(n) else if n % 10 == 0 then Unshift(n / 10, k - 1) else None
  }

  /** The amount in units of `10^-exp`, if it is a whole number of them that fits. */
  function MinorUnits(amount: string, exp: nat): Option<int> {
    match ParsePlain(amount)
    case None => None
    case Some(d) =>
      var q := Unshift(Shift(Numerator(d), exp), |d.frac|);
      if q.Some? && q.value <= MAX_INT64 then Some(Signed(d.neg, q.value)) else None
  }

  function Pow10(n: nat): (r: nat)
    ensures 1 <= r
  {
    if n == 0 then 1 else 10 * Pow10(n - 1)
  }

  lemma {:induction false} ShiftIsProduct(n: nat, k: nat)
    ensures Shift(n, k) == n * Pow10(k)
  {
    if k > 0 {
      ShiftIsProduct(n, k - 1);
    }
  }

  lemma {:induction false} UnshiftInverts(n: nat, k: nat, q: nat)
    ensures Unshift(n, k) == Some(q) <==> n == Shift(q, k)
  {
    if k > 0 {
      UnshiftInverts(n / 10, k - 1, q);
    }
  }

  /** The reference is exact: it yields `v` if and only if the text is a plain decimal, `v` is
      the text's value times `10^exp`, and its magnitude fits. */
  lemma MinorUnitsAreExact(amount: string, exp: nat, v: int)
    ensures MinorUnits(amount, exp) == Some(v) <==>
            && ParsePlain(amount).Some?
            && var d := ParsePlain(amount).value;
               v * Pow10(|d.frac|) == Signed(d.neg, Numerator(d)) * Pow10(exp) && -MAX_INT64 <= v <= MAX_INT64
  {
    if ParsePlain(amount).Some? {
      var d := ParsePlain(amount).value;
      var n, q := Numerator(d), if d.neg then -v else v;
      ShiftIsProduct(n, exp);
      Negated(n, Pow10(exp));
      Negated(v, Pow10(|d.frac|));
      if q >= 0 {
        UnshiftInverts(Shift(n, exp), |d.frac|, q);
        ShiftIsProduct(q, |d.frac|);
      } else {
        NegativeProduct(q, Pow10(|d.frac|));
      }
    }
  }

  lemma Negated(a: int, b: int)
    ensures (-a) * b == -(a * b)
  {
  }

  lemma NegativeProduct(a: int, b: int)
    requires a < 0 < b
    ensures a * b < 0
  {
  }

  // ---- The conversion ----

  function TrimZerosRight(s: string): (r: string)
    requires AllDigits(s)
    ensures |r| <= |s| && r == s[..|r|]
    ensures forall k :: |r| <= k < |s| ==> s[k] == '0'
    ensures r != "" ==> r[|r| - 1] != '0'
  {
    if s != "" && s[|s| - 1] == '0' then TrimZerosRight(s[..|s| - 1]) else s
  }

  lemma ShiftZero(k: nat)
    ensures Shift(0, k) == 0
  {
  }

  function TrimZerosLeft(s: string): (r: string)
    requires AllDigits(s)
    ensures AllDigits(r) && Value(r) == Value(s)
    ensures r == "" ==> Value(s) == 0
  {
    if s != "" && s[0] == '0' then
      ValueOfConcat("0", s[1..]);
      ShiftZero(|s| - 1);
      assert s == "0" + s[1..];
      assert Value("0") == 0;
      TrimZerosLeft(s[1..])
    else s
  }

  function Zeros(n: nat): (s: string)
    ensures |s| == n && AllDigits(s) && forall k :: 0 <= k < n ==> s[k] == '0'
  {
    if n == 0 then "" else Zeros(n - 1) + "0"
  }

  lemma {:induction false} ValueOfZeros(s: string)
    requires forall k :: 0 <= k < |s| ==> s[k] == '0'
    ensures AllDigits(s) && Value(s) == 0
  {
    if s != "" {
      ValueOfZeros(s[..|s| - 1]);
    }
  }

  lemma {:induction false} ShiftAdds(n: nat, a: nat, b: nat)
    ensures Shift(Shift(n, a), b) == Shift(n, a + b)
  {
    if b > 0 {
      ShiftAdds(n, a, b - 1);
    }
  }

  /** Zeros after the digits shift the number. */
  lemma ShiftLeft(s: string, zeros: string)
    requires AllDigits(s) && forall k :: 0 <= k < |zeros| ==> zeros[k] == '0'
    ensures AllDigits(s + zeros) && Value(s + zeros) == Shift(Value(s), |zeros|)
  {
    ValueOfZeros(zeros);
    ValueOfConcat(s, zeros);
  }

  lemma {:induction false} ExtraPrecision(a: nat, s: nat, k: nat)
    requires a % 10 != 0 && s < k
    ensures Unshift(Shift(a, s), k) == None
  {
    if s > 0 {
      ExtraPrecision(a, s - 1, k - 1);
    }
  }

  lemma LastDigit(s: string)
    requires AllDigits(s) && s != "" && s[|s| - 1] != '0'
    ensures Value(s) % 10 != 0
  {
  }

  /** Too many decimals, and not only zeros: the reference refuses. */
  lemma TooPrecise(d: Plain, exp: nat)
    requires AllDigits(d.whole) && AllDigits(d.frac) && exp < |TrimZerosRight(d.frac)|
    ensures Unshift(Shift(Numerator(d), exp), |d.frac|) == None
  {
    var t := TrimZerosRight(d.frac);
    var z := |d.frac| - |t|;
    assert d.whole + d.frac == (d.whole + t) + d.frac[|t|..];
    ShiftLeft(d.whole + t, d.frac[|t|..]);
    LastDigit(d.whole + t);
    ShiftAdds(Value(d.whole + t), z, exp);
    ExtraPrecision(Value(d.whole + t), z + exp, |d.frac|);
  }

  lemma Refused(amount: string, d: Plain, exp: nat)
    requires ParsePlain(amount) == Some(d) && exp < |TrimZerosRight(d.frac)|
    ensures MinorUnits(amount, exp) == None
  {
    TooPrecise(d, exp);
  }

  /** Extra decimals that are all zero are dropped without changing the amount. */
  lemma DropsZeros(d: Plain, exp: nat)
    requires AllDigits(d.whole) && AllDigits(d.frac) && |TrimZerosRight(d.frac)| <= exp <= |d.frac|
    ensures AllDigits(d.whole + d.frac[..exp])
    ensures Shift(Numerator(d), exp) == Shift(Value(d.whole + d.frac[..exp]), |d.frac|)
  {
    assert d.whole + d.frac == (d.whole + d.frac[..exp]) + d.frac[exp..];
    ShiftLeft(d.whole + d.frac[..exp], d.frac[exp..]);
    ShiftAdds(Value(d.whole + d.frac[..exp]), |d.frac| - exp, exp);
  }

  /** Missing decimals are filled with zeros without changing the amount. */
  lemma FillsZeros(d: Plain, exp: nat, padded: string)
    requires AllDigits(d.whole) && AllDigits(d.frac) && |d.frac| <= exp && padded == d.frac + Zeros(exp - |d.frac|)
    ensures AllDigits(d.whole + padded)
    ensures Shift(Numerator(d), exp) == Shift(Value(d.whole + padded), |d.frac|)
  {
    assert d.whole + padded == (d.whole + d.frac) + Zeros(exp - |d.frac|);
    ShiftLeft(d.whole + d.frac, Zeros(exp - |d.frac|));
    ShiftAdds(Numerator(d), exp - |d.frac|, |d.frac|);
  }

  lemma MinorUnitsOf(amount: string, d: Plain, exp: nat, q: nat)
    requires ParsePlain(amount) == Some(d) && Shift(Numerator(d), exp) == Shift(q, |d.frac|)
    ensures MinorUnits(amount, exp) == if q <= MAX_INT64 then Some(Signed(d.neg, q)) else None
  {
    UnshiftInverts(Shift(Numerator(d), exp), |d.frac|, q);
  }

  /** The adjusted digits denote the amount in minor units. */
  lemma Adjusted(amount: string, d: Plain, exp: nat, frac: string)
    requires ParsePlain(amount) == Some(d) && |TrimZerosRight(d.frac)| <= exp
    requires frac == if |d.frac| > exp then d.frac[..exp] else d.frac + Zeros(exp - |d.frac|)
    ensures AllDigits(d.whole + frac)
    ensures var q := Value(d.whole + frac);
            MinorUnits(amount, exp) == if q <= MAX_INT64 then Some(Signed(d.neg, q)) else None
  {
    if |d.frac| > exp {
      DropsZeros(d, exp);
    } else {
      FillsZeros(d, exp, frac);
    }
    MinorUnitsOf(amount, d, exp, Value(d.whole + frac));
  }

  lemma ParseDigits(s: string)
    requires AllDigits(s) && s != ""
    ensures ParseInt(s) == if Value(s) <= MAX_INT64 then Some(Value(s) as int) else None
  {
  }

  /** The digit-level conversion agrees with exact arithmetic, refusals included. */
  method DecimalToMinor(amount: string, exp: nat) returns (r: Option<int>)
    ensures r == MinorUnits(amount, exp)
  {
    var s := TrimSpace(amount);
    if s == "" {
      return None;
    }
    var neg := false;
    if s[0] == '-' {
      neg, s := true, s[1..];
    } else if s[0] == '+' {
      s := s[1..];
    }
    var (intPart, fracPart, hasFrac) := Cut(s, '.');
    if intPart == "" && !hasFrac {
      return None;
    }
    if !AllDigits(intPart) || (hasFrac && !AllDigits(fracPart)) {
      return None;
    }
    ghost var d := Plain(neg, intPart, fracPart);
    assert ParsePlain(amount) == Some(d);
    if |fracPart| > exp {
      var trimmed := TrimZerosRight(fracPart);
      if |trimmed| > exp {
        Refused(amount, d, exp);
        return None;
      }
      fracPart := fracPart[..exp];
    }
    ghost var was := fracPart;
    while |fracPart| < exp
      invariant |was| <= |fracPart| <= exp && fracPart == was + Zeros(|fracPart| - |was|)
    {
      fracPart := fracPart + "0";
    }
    Adjusted(amount, d, exp, fracPart);
    var digits := intPart + fracPart;
    r := SignedDigits(neg, digits);
  }

  method SignedDigits(neg: bool, s: string) returns (r: Option<int>)
    requires AllDigits(s)
    ensures r == if Value(s) <= MAX_INT64 then Some(Signed(neg, Value(s))) else None
  {
    var digits := TrimZerosLeft(s);
    if digits == "" {
      return Some(0);
    }
    ParseDigits(digits);
    var v := ParseInt(digits);
    if v.None? {
      return None;
    }
    return Some(if neg then -v.value else v.value);
  }

  method MajorToMinor(amount: string, currency: string) returns (r: Option<int>)
    ensures r == MinorUnits(amount, MinorUnitExponent(currency).0)
  {
    var (exp, _) := MinorUnitExponent(currency);
    r := DecimalToMinor(amount, exp);
  }

  // ---- Rendering ----

  /** Go's division truncates toward zero. */
  function GoDiv(a: int, b: int): int
    requires b > 0
  {
    if a >= 0 then a / b else -((-a) / b)
  }

  function GoMod(a: int, b: int): int
    requires b > 0
  {
    a - GoDiv(a, b) * b
  }

  /** `%0*d`: zero-padded to the width, the sign counted. */
  function PadZero(n: int, width: nat): string {
    var sign := if n < 0 then "-" else "";
    var digits := Digits(if n < 0 then -n else n);
    var filled := |sign| + |digits|;
    sign + (if filled < width then Zeros(width - filled) else "") + digits
  }

  /** Negation of a 64-bit integer wraps at the smallest one. */
  function Negate64(n: int): int {
    if n == MIN_INT64 then MIN_INT64 else -n
  }

  function MinorToMajor(minor: int, currency: string): string
    requires MIN_INT64 <= minor <= MAX_INT64
  {
    Render(minor, MinorUnitExponent(currency).0)
  }

  function Render(minor: int, exp: nat): string {
    if exp == 0 then FormatInt(minor)
    else
      var n := if minor < 0 then Negate64(minor) else minor;
      Joined(minor < 0, GoDiv(n, Pow10(exp)), GoMod(n, Pow10(exp)), exp)
  }

  function Joined(neg: bool, whole: int, frac: int, exp: nat): string {
    Minus(neg) + (FormatInt(whole) + "." + PadZero(frac, exp))
  }

  function Minus(neg: bool): string {
    if neg then "-" else ""
  }

  // ---- The round trip ----

  lemma ParsesSigned(neg: bool, s: string)
    requires s != "" && IsDigit(s[0]) && IsDigit(s[|s| - 1])
    ensures ParsePlain(Minus(neg) + s) == ParseUnsigned(neg, s)
  {
    var t := Minus(neg) + s;
    assert t[|t| - 1] == s[|s| - 1];
    TrimKeeps(t);
    assert t[if neg then 1 else 0..] == s;
  }

  /** How a signed decimal text parses. */
  lemma ParsesAs(neg: bool, whole: string, frac: string)
    requires AllDigits(whole) && AllDigits(frac) && whole != "" && frac != ""
    ensures ParsePlain(Minus(neg) + (whole + "." + frac)) == Some(Plain(neg, whole, frac))
  {
    var s := whole + "." + frac;
    assert s[0] == whole[0] && s[|s| - 1] == frac[|frac| - 1];
    ParsesSigned(neg, s);
    CutJoined(whole, '.', frac);
  }

  lemma ParsesWhole(neg: bool, whole: string)
    requires AllDigits(whole) && whole != ""
    ensures ParsePlain(Minus(neg) + whole) == Some(Plain(neg, whole, ""))
  {
    ParsesSigned(neg, whole);
    assert Find(whole, '.') == |whole|;
  }

  lemma {:induction false} DigitsFit(n: nat, width: nat)
    requires 0 < width && n < Pow10(width)
    ensures |Digits(n)| <= width
  {
    if n >= 10 {
      assert Pow10(width) == 10 * Pow10(width - 1);
      DigitsFit(n / 10, width - 1);
    }
  }

  lemma PadZeroDigits(n: nat, width: nat)
    requires 0 < width && n < Pow10(width)
    ensures |PadZero(n, width)| == width && AllDigits(PadZero(n, width)) && Value(PadZero(n, width)) == n
  {
    DigitsFit(n, width);
    var zeros, digits := Zeros(width - |Digits(n)|), Digits(n);
    assert PadZero(n, width) == zeros + digits;
    ZerosBefore(zeros, digits);
    ValueOfDigits(n);
  }

  lemma ZerosBefore(zeros: string, s: string)
    requires AllDigits(s) && forall k :: 0 <= k < |zeros| ==> zeros[k] == '0'
    ensures AllDigits(zeros + s) && Value(zeros + s) == Value(s)
  {
    ValueOfZeros(zeros);
    ValueOfConcat(zeros, s);
    ShiftZero(|s|);
  }

  lemma Euclid(n: nat, b: nat)
    requires b > 0
    ensures n / b >= 0 && n == (n / b) * b + n % b
  {
  }

  lemma Divide(n: nat, exp: nat) returns (q: nat, r: nat)
    ensures GoDiv(n, Pow10(exp)) == q && GoMod(n, Pow10(exp)) == r
    ensures Shift(q, exp) + r == n && r < Pow10(exp)
  {
    Euclid(n, Pow10(exp));
    q, r := n / Pow10(exp), n % Pow10(exp);
    ShiftIsProduct(q, exp);
  }

  /** A text with exactly the currency's decimals converts to all its digits. */
  lemma WrittenInFull(text: string, neg: bool, whole: string, frac: string, n: nat)
    requires AllDigits(whole) && AllDigits(frac) && whole != "" && frac != ""
    requires text == Minus(neg) + (whole + "." + frac) && AllDigits(whole + frac) && Value(whole + frac) == n <= MAX_INT64
    ensures MinorUnits(text, |frac|) == Some(Signed(neg, n))
  {
    ParsesAs(neg, whole, frac);
    MinorUnitsOf(text, Plain(neg, whole, frac), |frac|, n);
  }

  lemma JoinedDigits(q: nat, r: nat, exp: nat, whole: string, frac: string)
    requires 0 < exp && r < Pow10(exp) && whole == Digits(q) && frac == PadZero(r, exp)
    ensures |frac| == exp && AllDigits(frac) && AllDigits(whole + frac) && Value(whole + frac) == Shift(q, exp) + r
  {
    PadZeroDigits(r, exp);
    ValueOfDigits(q);
    ValueOfConcat(whole, frac);
  }

  /** Rendering a magnitude that fits, with either sign, and parsing it back. */
  lemma MagnitudeRoundTrips(text: string, neg: bool, n: nat, exp: nat)
    requires n <= MAX_INT64 && 0 < exp && (neg ==> n > 0) && text == Render(Signed(neg, n), exp)
    ensures MinorUnits(text, exp) == Some(Signed(neg, n))
  {
    var q, r := Divide(n, exp);
    var whole, frac := Digits(q), PadZero(r, exp);
    assert text == Joined(neg, q, r, exp);
    JoinedDigits(q, r, exp, whole, frac);
    WrittenInFull(text, neg, whole, frac, n);
  }

  lemma WholeRoundTrips(m: int)
    ensures MinorUnits(FormatInt(m), 0) == if -MAX_INT64 <= m <= MAX_INT64 then Some(m) else None
  {
    var n: nat := if m < 0 then -m else m;
    ParsesWhole(m < 0, Digits(n));
    ValueOfDigits(n);
    assert Digits(n) + "" == Digits(n);
    assert FormatInt(m) == Minus(m < 0) + Digits(n);
    MinorUnitsOf(FormatInt(m), Plain(m < 0, Digits(n), ""), 0, n);
  }

  /** A negative whole part behind a minus sign has two signs. */
  lemma TwoSigns(whole: int, frac: int, exp: nat)
    requires whole < 0
    ensures ParsePlain(Joined(true, whole, frac, exp)) == None
  {
    var text := FormatInt(whole) + "." + PadZero(frac, exp);
    var s := Joined(true, whole, frac, exp);
    var digits := Digits(if frac < 0 then -frac else frac);
    assert s[|s| - 1] == digits[|digits| - 1];
    TrimKeeps(s);
    assert s[1..] == text && text[0] == '-';
    assert Find(text, '.') > 0;
    assert Cut(text, '.').0[0] == '-';
  }

  /** The smallest 64-bit integer has no positive counterpart. */
  lemma SmallestIsUnreadable(exp: nat)
    requires exp == 2 || exp == 3
    ensures ParsePlain(Render(MIN_INT64, exp)) == None
  {
    assert Pow10(2) == 100 && Pow10(3) == 10 * Pow10(2);
    TwoSigns(GoDiv(MIN_INT64, Pow10(exp)), GoMod(MIN_INT64, Pow10(exp)), exp);
  }

  /** Rendering and converting back is the identity on every 64-bit amount in every currency,
      except the smallest integer. */
  lemma MinorRoundTrips(m: int, currency: string)
    requires MIN_INT64 <= m <= MAX_INT64
    ensures MinorUnits(MinorToMajor(m, currency), MinorUnitExponent(currency).0) == Some(m) <==> m != MIN_INT64
  {
    RenderRoundTrips(m, MinorUnitExponent(currency).0);
  }

  lemma RenderRoundTrips(m: int, exp: nat)
    requires MIN_INT64 <= m <= MAX_INT64 && (exp == 0 || exp == 2 || exp == 3)
    ensures MinorUnits(Render(m, exp), exp) == Some(m) <==> m != MIN_INT64
  {
    if exp == 0 {
      WholeRoundTrips(m);
    } else if m == MIN_INT64 {
      SmallestIsUnreadable(exp);
    } else {
      var n: nat := if m < 0 then -m else m;
      assert Signed(m < 0, n) == m;
      MagnitudeRoundTrips(Render(m, exp), m < 0, n, exp);
    }
  }

  // ---- In plain terms ----

  /** The table, by ISO 4217 code; any other three letters count as two decimals, as a guess. */
  lemma CurrencyTable(c: string)
    requires |c| == 3 && forall i :: 0 <= i < 3 ==> 'A' <= c[i] <= 'Z'
    ensures MinorUnitExponent(c) ==
            if c in {"UGX", "RWF", "XOF", "XAF", "JPY", "KRW", "VND", "CLP", "ISK", "PYG"} then (0, true)
            else if c in {"BHD", "IQD", "JOD", "KWD", "LYD", "OMR", "TND"} then (3, true)
            else (2, c in {"NGN", "USD", "EUR", "GBP", "GHS", "KES", "ZAR", "TZS", "EGP", "MAD", "ZMW", "CAD", "AUD", "CHF", "CNY",
                           "INR", "BRL"})
  {
    assert !IsSpace(c[0]) && !IsSpace(c[2]);
    TrimKeeps(c);
    assert Upper(c) == c;
  }

  lemma UnsignedTexts(neg: bool, s: string, d: Plain)
    ensures ParseUnsigned(neg, s) == Some(d) <==>
            && d.neg == neg && AllDigits(d.whole) && AllDigits(d.frac)
            && (s == d.whole + ['.'] + d.frac || (d.frac == "" && d.whole != "" && s == d.whole))
  {
    var (whole, frac, hasFrac) := Cut(s, '.');
    assert s == if hasFrac then whole + ['.'] + frac else whole;
    if AllDigits(d.whole) {
      CutJoined(d.whole, '.', d.frac);
      assert Find(d.whole, '.') == |d.whole|;
    }
  }

  /** `s` is the sign and the digits of `d`, with a point if there is a fraction, or without one. */
  predicate Spells(s: string, d: Plain, sign: string, body: string) {
    && AllDigits(d.whole) && AllDigits(d.frac) && s == sign + body
    && (if d.neg then sign == "-" else sign == "" || sign == "+")
    && (body == d.whole + ['.'] + d.frac || (d.frac == "" && d.whole != "" && body == d.whole))
  }

  lemma SpelledIsPlain(amount: string, d: Plain, sign: string, body: string)
    requires Spells(TrimSpace(amount), d, sign, body)
    ensures ParsePlain(amount) == Some(d)
  {
    var s := TrimSpace(amount);
    UnsignedTexts(d.neg, body, d);
    assert body[0] == '.' || IsDigit(body[0]);
    if sign == "" {
      assert s == body;
    } else {
      assert s[0] == sign[0] && s[1..] == body;
    }
  }

  lemma PlainIsSpelled(amount: string, d: Plain)
    requires ParsePlain(amount) == Some(d)
    ensures exists sign, body :: Spells(TrimSpace(amount), d, sign, body)
  {
    var s := TrimSpace(amount);
    var n := if s[0] == '-' || s[0] == '+' then 1 else 0;
    UnsignedTexts(s[0] == '-', s[n..], d);
    assert s == s[..n] + s[n..] && (n == 1 ==> s[..n] == [s[0]]);
    assert s[0..] == s;
    assert Spells(s, d, s[..n], s[n..]);
  }

  /** Which texts are amounts: an optional sign, digits, and an optional point with digits after it;
      a point needs no digits. Nothing else is. */
  lemma PlainTexts(amount: string, d: Plain)
    ensures ParsePlain(amount) == Some(d) <==> exists sign, body :: Spells(TrimSpace(amount), d, sign, body)
  {
    if ParsePlain(amount) == Some(d) {
      PlainIsSpelled(amount, d);
    }
    if sign, body :| Spells(TrimSpace(amount), d, sign, body) {
      SpelledIsPlain(amount, d, sign, body);
    }
  }

  /** A rendered amount has exactly the currency's decimals, no superfluous zero in front, and the
      sign first. */
  lemma RendersInFull(neg: bool, n: nat, exp: nat) returns (whole: string, frac: string)
    requires n <= MAX_INT64 && 0 < exp && (neg ==> n > 0)
    ensures Render(Signed(neg, n), exp) == Minus(neg) + (whole + "." + frac)
    ensures AllDigits(whole) && AllDigits(frac) && |frac| == exp && whole != "" && (whole[0] == '0' ==> whole == "0")
    ensures Shift(Value(whole), exp) + Value(frac) == n
  {
    var q, r := Divide(n, exp);
    whole, frac := Digits(q), PadZero(r, exp);
    PadZeroDigits(r, exp);
    ValueOfDigits(q);
    assert q == 0 ==> whole == "0";
    assert Render(Signed(neg, n), exp) == Joined(neg, q, r, exp);
  }
}
