/**
 Card-number redaction. The scanner walks the body with an index and looks behind it to tell
 where numbers begin; the specification splits the body into maximal groups of digits joined
 by single separators and replaces the groups that are card numbers.
 */
module Redact {
  import opened Text

  const PLACEHOLDER := "[redacted:pan]"

  predicate IsSeparator(c: char) {
    c == ' ' || c == '-'
  }

  // ---- Specification ----

  /** Where a number goes on to from position `i`: over digits, and single separators between digits. */
  function End(s: string, i: nat): (e: nat)
    requires i <= |s|
    ensures i <= e <= |s|
    decreases |s| - i
  {
    if i < |s| && IsDigit(s[i]) then End(s, i + 1)
    else if i + 1 < |s| && IsSeparator(s[i]) && IsDigit(s[i + 1]) then End(s, i + 1)
    else i
  }

  /** The digits of `s[i..e]`. */
  function DigitsOf(s: string, i: nat, e: nat): (d: string)
    requires i <= e <= |s|
    ensures |d| <= e - i && forall k :: 0 <= k < |d| ==> IsDigit(d[k])
  {
    if e == i then "" else DigitsOf(s, i, e - 1) + if IsDigit(s[e - 1]) then [s[e - 1]] else ""
  }

  function DigitSum(n: nat): nat {
    n / 10 + n % 10
  }

  /** What the digit `k` places from the right adds to the check sum: every second digit is
      doubled and counts with the sum of its digits. */
  function Weight(c: char, k: nat): nat
    requires IsDigit(c)
  {
    var d := c as int - '0' as int;
    if k % 2 == 0 then d else DigitSum(2 * d)
  }

  /** The check sum of the last `n` digits. */
  function CheckSum(ds: string, n: nat): nat
    requires n <= |ds| && forall i :: 0 <= i < |ds| ==> IsDigit(ds[i])
  {
    if n == 0 then 0 else CheckSum(ds, n - 1) + Weight(ds[|ds| - n], n - 1)
  }

  predicate Luhn(ds: string)
    requires forall i :: 0 <= i < |ds| ==> IsDigit(ds[i])
  {
    CheckSum(ds, |ds|) % 10 == 0
  }

  /** `s[i..e]` looks like a card number. */
  predicate IsPan(s: string, i: nat, e: nat)
    requires i <= e <= |s|
  {
    var ds := DigitsOf(s, i, e);
    13 <= |ds| <= 19 && Luhn(ds)
  }

  function Piece(s: string, i: nat, e: nat, mark: string): string
    requires i <= e <= |s|
  {
    if IsPan(s, i, e) then mark else s[i..e]
  }

  /** What the body from position `i` on becomes: every card number replaced by `mark`, every other byte kept. */
  function Redacted(s: string, i: nat, mark: string): string
    requires i <= |s|
    decreases |s| - i
  {
    if i == |s| then ""
    else if IsDigit(s[i]) then Piece(s, i, End(s, i + 1), mark) + Redacted(s, End(s, i + 1), mark)
    else [s[i]] + Redacted(s, i + 1, mark)
  }

  /** How many card numbers there are from position `i` on. */
  function Pans(s: string, i: nat): nat
    requires i <= |s|
    decreases |s| - i
  {
    if i == |s| then 0
    else if IsDigit(s[i]) then
      var e := End(s, i + 1);
      (if IsPan(s, i, e) then 1 else 0) + Pans(s, e)
    else Pans(s, i + 1)
  }

  /** `s[i..e]` is a number: digits, with single separators between digits. */
  ghost predicate IsNumber(s: string, i: int, e: int) {
    && 0 <= i < e <= |s| && IsDigit(s[i]) && IsDigit(s[e - 1])
    && forall k :: i <= k < e && !IsDigit(s[k]) ==> IsSeparator(s[k]) && IsDigit(s[k + 1])
  }

  /** A number that can be extended neither to the left nor to the right. */
  ghost predicate IsGroup(s: string, i: int, e: int) {
    IsNumber(s, i, e) && forall i', e' :: i' <= i && e <= e' && IsNumber(s, i', e') ==> i' == i && e' == e
  }

  // ---- The scanner's view ----

  /** Position `i` is in the middle of a number. */
  predicate Inside(s: string, i: nat) {
    && 0 < i < |s|
    && if IsDigit(s[i]) then IsDigit(s[i - 1]) || (1 < i && IsSeparator(s[i - 1]) && IsDigit(s[i - 2]))
       else IsSeparator(s[i]) && IsDigit(s[i - 1]) && i + 1 < |s| && IsDigit(s[i + 1])
  }

  /** What is still to be written at position `i`: the rest of a number already passed over, then the rest redacted. */
  function Rest(s: string, i: nat, mark: string): string
    requires i <= |s|
  {
    if Inside(s, i) then s[i..End(s, i)] + Redacted(s, End(s, i), mark) else Redacted(s, i, mark)
  }

  function RestPans(s: string, i: nat): nat
    requires i <= |s|
  {
    if Inside(s, i) then Pans(s, End(s, i)) else Pans(s, i)
  }

  /** After a number the scanner is not inside one. */
  lemma {:induction false} NotInsideAfter(s: string, i: nat)
    requires i < |s| && (IsDigit(s[i]) || Inside(s, i))
    ensures !Inside(s, End(s, i)) && i < End(s, i) == End(s, i + 1)
    decreases |s| - i
  {
    if i + 1 < |s| && (IsDigit(s[i + 1]) || Inside(s, i + 1)) {
      NotInsideAfter(s, i + 1);
    }
  }

  /** Past the first byte of a number, its other bytes are still to be written. */
  lemma OneByteIn(s: string, i: nat, mark: string)
    requires i < |s| && (IsDigit(s[i]) || Inside(s, i))
    ensures var e := End(s, i);
            && i + 1 <= e
            && Rest(s, i + 1, mark) == s[i + 1..e] + Redacted(s, e, mark)
            && RestPans(s, i + 1) == Pans(s, e)
  {
    NotInsideAfter(s, i);
    if !Inside(s, i + 1) {
      assert i + 1 == End(s, i);
      assert s[i + 1..i + 1] + Redacted(s, i + 1, mark) == Redacted(s, i + 1, mark);
    }
  }

  lemma Prepend(s: string, i: nat, e: nat, t: string)
    requires i < e <= |s|
    ensures s[i..e] + t == [s[i]] + (s[i + 1..e] + t)
  {
  }

  /** Passing one byte over leaves one byte less to write, unless a card number starts here. */
  lemma PassOver(s: string, i: nat, mark: string)
    requires i < |s|
    requires IsDigit(s[i]) && !Inside(s, i) ==> !IsPan(s, i, End(s, i))
    ensures Rest(s, i, mark) == [s[i]] + Rest(s, i + 1, mark)
    ensures RestPans(s, i) == RestPans(s, i + 1)
  {
    if IsDigit(s[i]) || Inside(s, i) {
      OneByteIn(s, i, mark);
      Prepend(s, i, End(s, i), Redacted(s, End(s, i), mark));
    }
  }

  method ScanCandidate(body: string, i: nat) returns (end: nat, digits: string)
    requires i < |body| && IsDigit(body[i])
    ensures if |DigitsOf(body, i, End(body, i))| <= 19
            then end == End(body, i) && digits == DigitsOf(body, i, end)
            else end == i && digits == ""
  {
    digits := "";
    var j := i;
    ghost var e := End(body, i);
    while j < |body|
      invariant i <= j <= e == End(body, j)
      invariant digits == DigitsOf(body, i, j) && |digits| <= 19
      invariant i < j ==> digits != ""
    {
      if IsDigit(body[j]) {
        digits := digits + [body[j]];
        if |digits| > 19 {
          MoreDigits(body, i, j + 1, e);
          return i, "";
        }
        j := j + 1;
      } else if IsSeparator(body[j]) && j + 1 < |body| && IsDigit(body[j + 1]) && |digits| > 0 {
        j := j + 1;
      } else {
        return j, digits;
      }
    }
    return j, digits;
  }

  lemma {:induction false} MoreDigits(s: string, i: nat, j: nat, e: nat)
    requires i <= j <= e <= |s|
    ensures |DigitsOf(s, i, j)| <= |DigitsOf(s, i, e)|
    decreases e
  {
    if j < e {
      MoreDigits(s, i, j, e - 1);
    }
  }

  lemma Doubling(d: nat)
    requires d < 10
    ensures DigitSum(2 * d) == if 2 * d > 9 then 2 * d - 9 else 2 * d
  {
  }

  method CheckLuhn(digits: string) returns (ok: bool)
    requires forall i :: 0 <= i < |digits| ==> IsDigit(digits[i])
    ensures ok <==> Luhn(digits)
  {
    var sum, alt := 0, false;
    var i := |digits| - 1;
    while i >= 0
      invariant -1 <= i < |digits|
      invariant alt <==> (|digits| - 1 - i) % 2 == 1
      invariant sum == CheckSum(digits, |digits| - 1 - i)
    {
      var d := digits[i] as int - '0' as int;
      if alt {
        d := d * 2;
        if d > 9 {
          d := d - 9;
        }
      }
      Doubling(digits[i] as int - '0' as int);
      sum := sum + d;
      alt := !alt;
      i := i - 1;
    }
    return sum % 10 == 0;
  }

  /** The two-part test: a run of 13 to 19 digits that passes the check-digit algorithm. */
  method TestCandidate(body: string, i: nat) returns (pan: bool, end: nat)
    requires i < |body| && IsDigit(body[i])
    ensures pan <==> IsPan(body, i, End(body, i))
    ensures pan ==> end == End(body, i)
  {
    var digits;
    end, digits := ScanCandidate(body, i);
    pan := false;
    if 13 <= |digits| <= 19 {
      pan := CheckLuhn(digits);
    }
  }

  datatype Result = Result(body: string, pansFound: nat, redacted: bool)

  /** What has been written, what is held back and what is to come make up the specified output. */
  ghost predicate Written(s: string, out: string, last: nat, found: nat, i: nat, mark: string) {
    && last <= i <= |s|
    && out + s[last..i] + Rest(s, i, mark) == Redacted(s, 0, mark)
    && found + RestPans(s, i) == Pans(s, 0)
    && (found == 0 ==> out == "" && last == 0)
  }

  /** The scanning loop. */
  method Walk(body: string, mark: string) returns (out: string, last: nat, found: nat)
    ensures Written(body, out, last, found, |body|, mark)
  {
    out, last, found := "", 0, 0;
    var i := 0;
    while i < |body|
      invariant Written(body, out, last, found, i, mark)
    {
      var start := IsDigit(body[i]) && !(i > 0 && IsDigit(body[i - 1]))
                   && !(i > 1 && IsSeparator(body[i - 1]) && IsDigit(body[i - 2]));
      var pan, end := false, i;
      if start {
        pan, end := TestCandidate(body, i);
      }
      if !pan {
        KeepOne(body, out, last, found, i, mark);
        i := i + 1;
        continue;
      }
      ReplaceOne(body, out, last, found, i, mark);
      out := out + body[last..i] + mark;
      last := end;
      found := found + 1;
      i := end;
    }
  }

  /** `Scan` computes the specification: the redacted body and the number of card numbers. */
  method Scan(body: string) returns (r: Result)
    ensures r == Result(Redacted(body, 0, PLACEHOLDER), Pans(body, 0), Pans(body, 0) > 0)
  {
    if |body| < 13 {
      TooShort(body, 0, PLACEHOLDER);
      return Result(body, 0, false);
    }
    var out, last, found := Walk(body, PLACEHOLDER);
    assert body[last..|body|] == body[last..];
    assert out + body[last..] == Redacted(body, 0, PLACEHOLDER);
    if found == 0 {
      return Result(body, 0, false);
    }
    return Result(out + body[last..], found, true);
  }

  lemma KeepOne(s: string, out: string, last: nat, found: nat, i: nat, mark: string)
    requires Written(s, out, last, found, i, mark) && i < |s|
    requires IsDigit(s[i]) && !Inside(s, i) ==> !IsPan(s, i, End(s, i))
    ensures Written(s, out, last, found, i + 1, mark)
  {
    PassOver(s, i, mark);
    KeepText(s, out, last, i, Rest(s, i, mark), Rest(s, i + 1, mark));
  }

  lemma KeepText(s: string, out: string, last: nat, i: nat, before: string, after: string)
    requires last <= i < |s| && before == [s[i]] + after
    ensures out + s[last..i] + before == out + s[last..i + 1] + after
  {
  }

  lemma ReplaceOne(s: string, out: string, last: nat, found: nat, i: nat, mark: string)
    requires Written(s, out, last, found, i, mark) && i < |s|
    requires IsDigit(s[i]) && !Inside(s, i) && IsPan(s, i, End(s, i))
    ensures Written(s, out + s[last..i] + mark, End(s, i), found + 1, End(s, i), mark)
  {
    NotInsideAfter(s, i);
    ReplaceText(s, out, last, i, End(s, i), Rest(s, i, mark), Rest(s, End(s, i), mark), mark);
  }

  lemma ReplaceText(s: string, out: string, last: nat, i: nat, e: nat, before: string, after: string, mark: string)
    requires last <= i < e <= |s| && before == mark + after
    ensures out + s[last..i] + before == out + s[last..i] + mark + s[e..e] + after
  {
  }

  lemma {:induction false} TooShort(s: string, i: nat, mark: string)
    requires |s| < 13 && i <= |s|
    ensures Redacted(s, i, mark) == s[i..] && Pans(s, i) == 0
    decreases |s| - i
  {
    if i < |s| {
      if IsDigit(s[i]) {
        var e := End(s, i + 1);
        TooShort(s, e, mark);
        assert s[i..] == s[i..e] + s[e..];
      } else {
        TooShort(s, i + 1, mark);
      }
    }
  }

  // ---- The groups are the maximal numbers ----

  lemma {:induction false} EndStops(s: string, i: nat)
    requires i <= |s|
    ensures var e := End(s, i);
            && (e < |s| ==> !IsDigit(s[e]))
            && (e + 1 < |s| ==> !(IsSeparator(s[e]) && IsDigit(s[e + 1])))
            && (forall k :: i <= k < e && !IsDigit(s[k]) ==> IsSeparator(s[k]) && k + 1 < e && IsDigit(s[k + 1]))
            && (i < e ==> IsDigit(s[e - 1]))
    decreases |s| - i
  {
    if i < End(s, i) {
      EndStops(s, i + 1);
    }
  }

  lemma {:induction false} NumbersEndInTime(s: string, i: nat, j: nat, e: nat)
    requires IsNumber(s, i, e) && i <= j <= e
    ensures e <= End(s, j)
    decreases e - j
  {
    if j < e {
      NumbersEndInTime(s, i, j + 1, e);
    }
  }

  lemma ExtendsLeft(s: string, i: nat, e: nat)
    requires IsNumber(s, i, e) && Inside(s, i)
    ensures exists j :: j < i && IsNumber(s, j, e)
  {
    assert IsNumber(s, if IsDigit(s[i - 1]) then i - 1 else i - 2, e);
  }

  /** The scanner starts a candidate exactly at the maximal numbers, and ends it where they end. */
  lemma GroupsAreTheMaximalNumbers(s: string, i: nat, e: nat)
    ensures IsGroup(s, i, e) <==> i < |s| && IsDigit(s[i]) && !Inside(s, i) && e == End(s, i)
  {
    if i < |s| && IsDigit(s[i]) {
      EndStops(s, i);
      NotInsideAfter(s, i);
      assert IsNumber(s, i, End(s, i));
      if IsGroup(s, i, e) {
        NumbersEndInTime(s, i, i, e);
        if Inside(s, i) {
          ExtendsLeft(s, i, e);
          assert false;
        }
      }
      if !Inside(s, i) && e == End(s, i) {
        forall i', e' | i' <= i && e <= e' && IsNumber(s, i', e')
          ensures i' == i && e' == e
        {
          LeftBound(s, i', i, e');
          RightBound(s, i', i, e');
        }
      }
    }
  }

  lemma LeftBound(s: string, i': nat, i: nat, e': nat)
    requires IsNumber(s, i', e') && i' <= i < e' && IsDigit(s[i]) && !Inside(s, i)
    ensures i' == i
  {
  }

  lemma RightBound(s: string, i': nat, i: nat, e': nat)
    requires IsNumber(s, i', e') && i' <= i < e' && IsDigit(s[i])
    ensures e' <= End(s, i)
  {
    NumbersEndInTime(s, i', i, e');
  }

  /** Where the card numbers at or after `i` start. */
  ghost function PanStarts(s: string, i: nat): set<nat> {
    set j: nat | i <= j < |s| && IsDigit(s[j]) && !Inside(s, j) && IsPan(s, j, End(s, j))
  }

  lemma {:induction false} InsideUpTo(s: string, i: nat, j: nat)
    requires i < j < |s| && (IsDigit(s[i]) || Inside(s, i)) && j < End(s, i)
    ensures Inside(s, j)
    decreases j - i
  {
    NotInsideAfter(s, i);
    if i + 1 < j {
      InsideUpTo(s, i + 1, j);
    }
  }

  lemma StartsPastGroup(s: string, i: nat)
    requires i < |s| && IsDigit(s[i]) && !Inside(s, i)
    ensures PanStarts(s, i) == PanStarts(s, End(s, i)) + if IsPan(s, i, End(s, i)) then {i} else {}
  {
    NotInsideAfter(s, i);
    forall j: nat | i < j < End(s, i)
      ensures Inside(s, j)
    {
      InsideUpTo(s, i, j);
    }
  }

  /** The count is the number of maximal groups that are card numbers. */
  lemma {:induction false} PansAreCounted(s: string, i: nat)
    requires i <= |s| && !Inside(s, i)
    ensures Pans(s, i) == |PanStarts(s, i)|
    decreases |s| - i
  {
    if i == |s| {
      assert PanStarts(s, i) == {};
    } else if IsDigit(s[i]) {
      var e := End(s, i);
      NotInsideAfter(s, i);
      PansAreCounted(s, e);
      StartsPastGroup(s, i);
    } else {
      PansAreCounted(s, i + 1);
      assert PanStarts(s, i) == PanStarts(s, i + 1);
    }
  }

  // ---- Rescanning ----

  /** `u` ends with `t`, from position `n` on. */
  ghost predicate Ends(u: string, n: nat, t: string) {
    |u| == n + |t| && forall k :: 0 <= k < |t| ==> t[k] == u[n + k]
  }

  /** Scanning from a position reads nothing before it. */
  lemma {:induction false} EndShifts(u: string, n: nat, t: string, i: nat)
    requires Ends(u, n, t) && i <= |t|
    ensures End(u, n + i) == n + End(t, i)
    decreases |t| - i
  {
    if i < End(t, i) {
      EndShifts(u, n, t, i + 1);
    }
  }

  lemma {:induction false} SameDigits(u: string, a: nat, t: string, b: nat, n: nat)
    requires a + n <= |u| && b + n <= |t| && u[a..a + n] == t[b..b + n]
    ensures DigitsOf(u, a, a + n) == DigitsOf(t, b, b + n)
    decreases n
  {
    if n > 0 {
      assert u[a..a + n][..n - 1] == u[a..a + n - 1] && t[b..b + n][..n - 1] == t[b..b + n - 1];
      assert u[a..a + n][n - 1] == u[a + n - 1] && t[b..b + n][n - 1] == t[b + n - 1];
      SameDigits(u, a, t, b, n - 1);
    }
  }

  lemma PieceShifts(u: string, n: nat, t: string, i: nat, e: nat, mark: string)
    requires Ends(u, n, t) && i <= e <= |t|
    ensures Piece(u, n + i, n + e, mark) == Piece(t, i, e, mark) && (IsPan(u, n + i, n + e) <==> IsPan(t, i, e))
  {
    assert u[n + i..n + e] == t[i..e];
    SameDigits(u, n + i, t, i, e - i);
  }

  lemma SameGroup(u: string, k: nat, f: nat, t: string, i: nat, e: nat, mark: string)
    requires i < |t| && IsDigit(t[i]) && End(t, i + 1) == e
    requires k < |u| && IsDigit(u[k]) && End(u, k + 1) == f
    requires Piece(u, k, f, mark) == Piece(t, i, e, mark) && Redacted(u, f, mark) == Redacted(t, e, mark)
    ensures Redacted(u, k, mark) == Redacted(t, i, mark)
  {
  }

  lemma SameByte(u: string, k: nat, t: string, i: nat, mark: string)
    requires i < |t| && k < |u| && u[k] == t[i] && !IsDigit(t[i])
    requires Redacted(u, k + 1, mark) == Redacted(t, i + 1, mark)
    ensures Redacted(u, k, mark) == Redacted(t, i, mark)
  {
  }

  lemma GroupShifts(u: string, n: nat, t: string, i: nat, e: nat, mark: string)
    requires Ends(u, n, t) && i < |t| && IsDigit(t[i]) && e == End(t, i + 1)
    requires Redacted(u, n + e, mark) == Redacted(t, e, mark)
    ensures Redacted(u, n + i, mark) == Redacted(t, i, mark)
  {
    EndShifts(u, n, t, i + 1);
    PieceShifts(u, n, t, i, e, mark);
    SameGroup(u, n + i, n + e, t, i, e, mark);
  }

  lemma {:induction false} Shifts(u: string, n: nat, t: string, i: nat, mark: string)
    requires Ends(u, n, t) && i <= |t|
    ensures Redacted(u, n + i, mark) == Redacted(t, i, mark)
    decreases |t| - i
  {
    if i < |t| {
      var next := if IsDigit(t[i]) then End(t, i + 1) else i + 1;
      Shifts(u, n, t, next, mark);
      if IsDigit(t[i]) {
        GroupShifts(u, n, t, i, next, mark);
      } else {
        SameByte(u, n + i, t, i, mark);
      }
    }
  }

  lemma {:induction false} CountShifts(u: string, n: nat, t: string, i: nat)
    requires Ends(u, n, t) && i <= |t|
    ensures Pans(u, n + i) == Pans(t, i)
    decreases |t| - i
  {
    if i < |t| {
      if IsDigit(t[i]) {
        var e := End(t, i + 1);
        EndShifts(u, n, t, i + 1);
        PieceShifts(u, n, t, i, e, "");
        CountShifts(u, n, t, e);
      } else {
        CountShifts(u, n, t, i + 1);
      }
    }
  }

  /** Text without digits is kept. */
  lemma {:induction false} Verbatim(p: string, t: string, mark: string)
    requires forall k :: 0 <= k < |p| ==> !IsDigit(p[k])
    ensures Redacted(p + t, 0, mark) == p + Redacted(t, 0, mark) && Pans(p + t, 0) == Pans(t, 0)
  {
    if p == "" {
      assert p + t == t;
    } else {
      assert p == [p[0]] + p[1..];
      Regroup(p[0], p[1..], t);
      Verbatim(p[1..], t, mark);
      KeepsByte(p[0], p[1..] + t, mark);
      Regroup(p[0], p[1..], Redacted(t, 0, mark));
    }
  }

  lemma Regroup(c: char, a: string, b: string)
    ensures ([c] + a) + b == [c] + (a + b)
  {
  }

  lemma KeepsByte(c: char, t: string, mark: string)
    requires !IsDigit(c)
    ensures Redacted([c] + t, 0, mark) == [c] + Redacted(t, 0, mark) && Pans([c] + t, 0) == Pans(t, 0)
  {
    Shifts([c] + t, 1, t, 0, mark);
    CountShifts([c] + t, 1, t, 0);
  }

  /** `t` does not go on with a number. */
  predicate Stops(t: string) {
    && (t != "" ==> !IsDigit(t[0]))
    && (1 < |t| && IsSeparator(t[0]) ==> !IsDigit(t[1]))
  }

  lemma RedactedStops(s: string, i: nat, mark: string)
    requires i <= |s| && End(s, i) == i
    ensures Stops(Redacted(s, i, mark))
  {
  }

  lemma {:induction false} GroupKeepsItsEnd(s: string, i: nat, j: nat, t: string)
    requires i < j <= |s| && Stops(t)
    ensures var e := End(s, j); i <= e && End(s[i..e] + t, j - i) == e - i
    decreases |s| - j
  {
    var e := End(s, j);
    if j < e {
      EndStops(s, j);
      GroupKeepsItsEnd(s, i, j + 1, t);
      var u := s[i..e] + t;
      assert u[j - i] == s[j];
      assert j + 1 < e ==> u[j - i + 1] == s[j + 1];
    } else {
      var u := s[i..e] + t;
      assert t != "" ==> u[j - i] == t[0];
      assert 1 < |t| ==> u[j - i + 1] == t[1];
    }
  }

  lemma GroupStays(s: string, i: nat, e: nat, t: string)
    requires i < e <= |s|
    ensures var u := s[i..e] + t; u[0] == s[i] && (IsPan(u, 0, e - i) <==> IsPan(s, i, e)) && u[0..e - i] == s[i..e]
  {
    var u := s[i..e] + t;
    assert u[0..e - i] == s[i..e];
    SameDigits(u, 0, s, i, e - i);
  }

  lemma GroupInFront(u: string, e: nat, t: string, mark: string)
    requires 0 < e <= |u| && IsDigit(u[0]) && End(u, 1) == e && !IsPan(u, 0, e) && Ends(u, e, t)
    ensures Redacted(u, 0, mark) == u[0..e] + Redacted(t, 0, mark) && Pans(u, 0) == Pans(t, 0)
  {
    Shifts(u, e, t, 0, mark);
    CountShifts(u, e, t, 0);
  }

  lemma GroupKeeps(s: string, i: nat, t: string, mark: string)
    requires i < |s| && IsDigit(s[i]) && Stops(t) && !IsPan(s, i, End(s, i + 1))
    ensures var g := s[i..End(s, i + 1)];
            Redacted(g + t, 0, mark) == g + Redacted(t, 0, mark) && Pans(g + t, 0) == Pans(t, 0)
  {
    var e := End(s, i + 1);
    GroupKeepsItsEnd(s, i, i + 1, t);
    GroupStays(s, i, e, t);
    GroupInFront(s[i..e] + t, e - i, t, mark);
  }

  /** Rescanning the output changes nothing and finds nothing. */
  lemma {:induction false} RescanFindsNothing(s: string, i: nat, mark: string)
    requires i <= |s| && forall k :: 0 <= k < |mark| ==> !IsDigit(mark[k])
    ensures var t := Redacted(s, i, mark); Redacted(t, 0, mark) == t && Pans(t, 0) == 0
    decreases |s| - i
  {
    if i < |s| {
      if IsDigit(s[i]) {
        var e := End(s, i + 1);
        var t := Redacted(s, e, mark);
        RescanFindsNothing(s, e, mark);
        if IsPan(s, i, e) {
          Verbatim(mark, t, mark);
        } else {
          EndStops(s, i + 1);
          RedactedStops(s, e, mark);
          GroupKeeps(s, i, t, mark);
        }
      } else {
        var t := Redacted(s, i + 1, mark);
        RescanFindsNothing(s, i + 1, mark);
        Verbatim([s[i]], t, mark);
      }
    }
  }

  /** Scanning stored output again changes nothing, and no card number survives in it: no
      maximal group of the output is one. */
  lemma NoPanSurvives(s: string)
    ensures var t := Redacted(s, 0, PLACEHOLDER);
            && Redacted(t, 0, PLACEHOLDER) == t && Pans(t, 0) == 0
            && forall i, e :: IsGroup(t, i, e) ==> !IsPan(t, i, e)
  {
    var t := Redacted(s, 0, PLACEHOLDER);
    RescanFindsNothing(s, 0, PLACEHOLDER);
    PansAreCounted(t, 0);
    forall i, e | IsGroup(t, i, e)
      ensures !IsPan(t, i, e)
    {
      GroupsAreTheMaximalNumbers(t, i, e);
      assert i !in PanStarts(t, 0);
    }
  }

  // ---- In plain terms ----

  /** What a digit adds: itself, or its double, less nine if that is above nine. */
  function Added(c: char, doubled: bool): nat
    requires IsDigit(c)
  {
    var d := c as int - '0' as int;
    if !doubled then d else if 2 * d > 9 then 2 * d - 9 else 2 * d
  }

  /** The sum over the last `n` digits of a number without its check digit: from the right end, the
      first is doubled, the next is not, and so on. */
  function PayloadSum(ds: string, n: nat): nat
    requires n <= |ds| && forall i :: 0 <= i < |ds| ==> IsDigit(ds[i])
  {
    if n == 0 then 0 else PayloadSum(ds, n - 1) + Added(ds[|ds| - n], (n - 1) % 2 == 0)
  }

  lemma {:induction false} CheckSumIsPayload(ds: string, c: char, n: nat)
    requires n <= |ds| && IsDigit(c) && forall i :: 0 <= i < |ds| ==> IsDigit(ds[i])
    ensures CheckSum(ds + [c], n + 1) == PayloadSum(ds, n) + (c as int - '0' as int)
  {
    var s := ds + [c];
    if n == 0 {
      assert CheckSum(s, 1) == CheckSum(s, 0) + Weight(s[|s| - 1], 0);
    } else {
      CheckSumIsPayload(ds, c, n - 1);
      assert s[|s| - (n + 1)] == ds[|ds| - n];
      var d := ds[|ds| - n] as int - '0' as int;
      Doubling(d);
      assert n % 2 == 0 <==> (n - 1) % 2 != 0;
    }
  }

  /** The check digit: exactly one digit completes a number, the one that brings the sum of the
      others to a multiple of ten, and it counts as itself. */
  lemma CheckDigit(ds: string, c: char)
    requires IsDigit(c) && forall i :: 0 <= i < |ds| ==> IsDigit(ds[i])
    ensures Luhn(ds + [c]) <==> c as int - '0' as int == (10 - PayloadSum(ds, |ds|) % 10) % 10
  {
    CheckSumIsPayload(ds, c, |ds|);
    Completes(PayloadSum(ds, |ds|), c as int - '0' as int);
  }

  lemma Completes(sum: nat, d: nat)
    requires d < 10
    ensures (sum + d) % 10 == 0 <==> d == (10 - sum % 10) % 10
  {
  }

  /** A body that is one number of 13 to 19 digits with the right check digit becomes the mark. */
  lemma NumberIsReplaced(s: string, mark: string)
    requires IsNumber(s, 0, |s|)
    requires var ds := DigitsOf(s, 0, |s|); 13 <= |ds| <= 19 && Luhn(ds)
    ensures Redacted(s, 0, mark) == mark && Pans(s, 0) == 1
  {
    NumbersEndInTime(s, 0, 1, |s|);
    assert End(s, 1) == |s|;
    assert mark + "" == mark;
  }

  /** And one of fewer than 13 or more than 19 digits, or with another check digit, is kept. */
  lemma NumberIsKept(s: string, mark: string)
    requires IsNumber(s, 0, |s|)
    requires var ds := DigitsOf(s, 0, |s|); |ds| < 13 || 19 < |ds| || !Luhn(ds)
    ensures Redacted(s, 0, mark) == s && Pans(s, 0) == 0
  {
    NumbersEndInTime(s, 0, 1, |s|);
    assert End(s, 1) == |s|;
    assert s[0..|s|] + "" == s;
  }

  lemma {:induction false} SumOfOnes(ds: string, n: nat)
    requires n <= |ds| && forall i :: 0 <= i < |ds| ==> IsDigit(ds[i])
    requires forall i :: |ds| - n <= i < |ds| ==> ds[i] == '1'
    ensures PayloadSum(ds, n) == n + (n + 1) / 2
  {
    if n > 0 {
      SumOfOnes(ds, n - 1);
    }
  }

  lemma KnownNumber(s: string)
    requires s == "4111111111111111"
    ensures Luhn(s)
  {
    var ds := s[..15];
    SumOfOnes(ds, 14);
    assert PayloadSum(ds, 15) == 29;
    CheckDigit(ds, '1');
    assert ds + ['1'] == s;
  }

  lemma KnownDigits(s: string)
    requires s == "4111 1111-1111 1111"
    ensures DigitsOf(s, 0, 19) == "4111111111111111"
  {
    assert DigitsOf(s, 0, 1) == "4" && DigitsOf(s, 0, 2) == "41" && DigitsOf(s, 0, 3) == "411" && DigitsOf(s, 0, 4) == "4111";
    assert DigitsOf(s, 0, 5) == "4111" && DigitsOf(s, 0, 6) == "41111" && DigitsOf(s, 0, 7) == "411111" && DigitsOf(s, 0, 8) == "4111111";
    assert DigitsOf(s, 0, 9) == "41111111" && DigitsOf(s, 0, 10) == "41111111" && DigitsOf(s, 0, 11) == "411111111" && DigitsOf(s, 0, 12) == "4111111111";
    assert DigitsOf(s, 0, 13) == "41111111111" && DigitsOf(s, 0, 14) == "411111111111" && DigitsOf(s, 0, 15) == "411111111111" && DigitsOf(s, 0, 16) == "4111111111111";
    assert DigitsOf(s, 0, 17) == "41111111111111" && DigitsOf(s, 0, 18) == "411111111111111" && DigitsOf(s, 0, 19) == "4111111111111111";
  }

  lemma KnownIsNumber(s: string)
    requires s == "4111 1111-1111 1111"
    ensures IsNumber(s, 0, |s|) && |DigitsOf(s, 0, |s|)| == 16 && Luhn(DigitsOf(s, 0, |s|))
  {
    KnownDigits(s);
    KnownNumber(DigitsOf(s, 0, |s|));
  }

  /** A card number after text without digits is taken out and the text kept. */
  lemma NumberIsReplacedAfter(p: string, s: string, mark: string)
    requires IsNumber(s, 0, |s|) && forall k :: 0 <= k < |p| ==> !IsDigit(p[k])
    requires var ds := DigitsOf(s, 0, |s|); 13 <= |ds| <= 19 && Luhn(ds)
    ensures Redacted(p + s, 0, mark) == p + mark && Pans(p + s, 0) == 1
  {
    NumberIsReplaced(s, mark);
    Verbatim(p, s, mark);
  }

  /** A well-known card number, with the separators people write, is taken out. */
  lemma KnownNumberIsReplaced(s: string)
    requires s == "4111 1111-1111 1111"
    ensures Redacted("pan " + s, 0, PLACEHOLDER) == "pan " + "[redacted:pan]" && Pans("pan " + s, 0) == 1
  {
    KnownIsNumber(s);
    NumberIsReplacedAfter("pan ", s, PLACEHOLDER);
  }
}
