/**
 Signature headers, `t=<unix>,v1=<hex>[,v1=<hex>...]`: how a delivery is signed, and the two
 verifiers, the server's and the client library's, which must agree. HMAC-SHA-256 is an arbitrary
 function of secret and message.
 */
module Signatures {
  import opened Deliveries
  import opened Decimal
  import opened Text
  import opened Hex

  type Mac = (string, string) -> Digest

  // ---- Signing ----

  /** `Unix()`: whole seconds, rounded down. */
  function Unix(at: Time): int {
    at / SECOND
  }

  /** The signed bytes: `{timestamp}.{body}`. */
  function Signed(ts: int, body: string): string {
    FormatInt(ts) + ['.'] + body
  }

  function Signature(mac: Mac, secret: string, ts: int, body: string): (s: string)
    ensures s != ""
  {
    Encode(mac(secret, Signed(ts, body)))
  }

  /** One signature for each secret. */
  function SignatureList(mac: Mac, secrets: seq<string>, ts: int, body: string): seq<string> {
    seq(|secrets|, i requires 0 <= i < |secrets| => Signature(mac, secrets[i], ts, body))
  }

  /** The header's elements for the signatures from `i` on. */
  function Elements(sigs: seq<string>, i: nat): string
    requires i <= |sigs|
    decreases |sigs| - i
  {
    if i == |sigs| then "" else [','] + ("v1=" + sigs[i]) + Elements(sigs, i + 1)
  }

  function SignedHeader(mac: Mac, secrets: seq<string>, body: string, at: Time): string {
    if secrets == [] then ""
    else "t=" + FormatInt(Unix(at)) + Elements(SignatureList(mac, secrets, Unix(at), body), 0)
  }

  method SignWith(mac: Mac, secrets: seq<string>, body: string, at: Time) returns (header: string)
    ensures header == SignedHeader(mac, secrets, body, at)
  {
    if |secrets| == 0 {
      return "";
    }
    var ts := at / SECOND;
    var signed := FormatInt(ts) + "." + body;
    header := "t=" + FormatInt(ts);
    ghost var sigs := SignatureList(mac, secrets, ts, body);
    for i := 0 to |secrets|
      invariant header + Elements(sigs, i) == SignedHeader(mac, secrets, body, at)
    {
      Reassociate(header, "v1=" + sigs[i], Elements(sigs, i + 1));
      assert header + ",v1=" + sigs[i] == header + ([','] + ("v1=" + sigs[i]));
      header := header + ",v1=" + Encode(mac(secrets[i], signed));
    }
    assert header + "" == header;
  }

  lemma Reassociate(a: string, b: string, rest: string)
    ensures (a + ([','] + b)) + rest == a + ([','] + b + rest)
  {
  }

  method Sign(mac: Mac, secret: string, body: string, at: Time) returns (header: string)
    ensures header == SignedHeader(mac, [secret], body, at)
  {
    var ts := at / SECOND;
    var signed := FormatInt(ts) + "." + body;
    header := "t=" + FormatInt(ts) + ",v1=" + Encode(mac(secret, signed));
    assert Elements(SignatureList(mac, [secret], ts, body), 1) == "";
  }

  /** The separator does its work: the signed bytes determine the timestamp and the body. */
  lemma SignedIsInjective(ts: int, body: string, ts': int, body': string)
    ensures Signed(ts, body) == Signed(ts', body') <==> ts == ts' && body == body'
  {
    NoPointInside(ts);
    NoPointInside(ts');
    CutJoined(FormatInt(ts), '.', body);
    CutJoined(FormatInt(ts'), '.', body');
    if Signed(ts, body) == Signed(ts', body') {
      FormatInjective(ts, ts');
    }
  }

  lemma NoPointInside(n: int)
    ensures forall k :: 0 <= k < |FormatInt(n)| ==> FormatInt(n)[k] != '.'
  {
  }

  /** The header and the signed bytes of one secret, and of two, written out. */
  lemma HeaderInFull(mac: Mac, a: string, b: string, body: string, at: Time)
    ensures var ts := at / 1_000_000_000;
            var signed := FormatInt(ts) + "." + body;
            && SignedHeader(mac, [], body, at) == ""
            && SignedHeader(mac, [a], body, at) == "t=" + FormatInt(ts) + (",v1=" + Encode(mac(a, signed)))
            && SignedHeader(mac, [a, b], body, at)
               == "t=" + FormatInt(ts) + (",v1=" + Encode(mac(a, signed)) + (",v1=" + Encode(mac(b, signed))))
  {
    var ts := at / 1_000_000_000;
    ElementsOfOne(Signature(mac, a, ts, body));
    ElementsOfTwo(Signature(mac, a, ts, body), Signature(mac, b, ts, body));
    assert SignatureList(mac, [a], ts, body) == [Signature(mac, a, ts, body)];
    assert SignatureList(mac, [a, b], ts, body) == [Signature(mac, a, ts, body), Signature(mac, b, ts, body)];
  }

  lemma ElementsOfOne(a: string)
    ensures Elements([a], 0) == ",v1=" + a
  {
    assert Elements([a], 1) == "";
  }

  lemma ElementsOfTwo(a: string, b: string)
    ensures Elements([a, b], 0) == ",v1=" + a + (",v1=" + b)
  {
    assert Elements([a, b], 2) == "";
    assert Elements([a, b], 1) == ",v1=" + b;
  }

  // ---- Reading a header ----

  datatype Header = Header(ts: int, sigs: seq<string>)

  /** One comma-separated element. A timestamp that is no integer spoils the header; unknown
      elements are ignored. */
  function ReadPart(part: string, h: Header): Option<Header> {
    var (k, v, ok) := Cut(TrimSpace(part), '=');
    if ok && k == "t" then
      match ParseInt(v)
      case None => None
      case Some(n) => Some(h.(ts := n))
    else if ok && k == "v1" && v != "" then Some(h.(sigs := h.sigs + [v]))
    else Some(h)
  }

  function Read(parts: seq<string>, h: Header): Option<Header> {
    if parts == [] then Some(h)
    else match ReadPart(parts[0], h)
      case None => None
      case Some(next) => Read(parts[1..], next)
  }

  /** What one element `k=v` does: `t` sets the timestamp if it is a 64-bit integer and spoils the
      header if not, a `v1` that is not empty adds a signature, and anything else is ignored. */
  lemma ElementsInPlainTerms(k: string, v: string, h: Header)
    requires '=' !in k && NoSpaceAtEnds(k + ['='] + v)
    ensures ReadPart(k + ['='] + v, h) ==
            if k == "t" then (if ParseInt(v).None? then None else Some(Header(ParseInt(v).value, h.sigs)))
            else if k == "v1" && v != "" then Some(Header(h.ts, h.sigs + [v]))
            else Some(h)
  {
    TrimKeeps(k + ['='] + v);
    CutJoined(k, '=', v);
  }

  method ReadHeader(header: string) returns (r: Option<Header>)
    ensures r == Read(Split(header, ','), Header(0, []))
  {
    var parts := Split(header, ',');
    var ts, sigs := 0, [];
    for i := 0 to |parts|
      invariant Read(parts, Header(0, [])) == Read(parts[i..], Header(ts, sigs))
    {
      assert parts[i..][0] == parts[i] && parts[i..][1..] == parts[i + 1..];
      var (k, v, ok) := Cut(TrimSpace(parts[i]), '=');
      if !ok {
        continue;
      }
      if k == "t" {
        var n := ParseInt(v);
        if n.None? {
          return None;
        }
        ts := n.value;
      } else if k == "v1" {
        if v != "" {
          sigs := sigs + [v];
        }
      }
    }
    return Some(Header(ts, sigs));
  }

  // ---- The acceptance window ----

  /** `time.Unix` counts from the year 1 in 64 bits, and wraps for the largest arguments. */
  function UnixTime(ts: int): Time {
    (if ts > MAX_INT64 - 62_135_596_800 then ts - 0x1_0000_0000_0000_0000 else ts) * SECOND
  }

  /** `Time.Sub` saturates. */
  function Sub(a: Time, b: Time): int {
    if a - b < MIN_INT64 then MIN_INT64 else if a - b > MAX_INT64 then MAX_INT64 else a - b
  }

  /** The distance from now, with Go's negation, which leaves the smallest duration negative. */
  function Age(now: Time, ts: int): int {
    var age := Sub(now, UnixTime(ts));
    if age < 0 && age != MIN_INT64 then -age else age
  }

  function Window(tolerance: int): int {
    if tolerance <= 0 then 5 * MINUTE else tolerance
  }

  predicate InWindow(now: Time, ts: int, tolerance: int) {
    Age(now, ts) <= Window(tolerance)
  }

  /** The window is symmetric around now, for timestamps less than 2^63 nanoseconds ahead. A
      timestamp further ahead than that saturates and passes, and nothing is outside the longest
      tolerance. */
  lemma WindowIsSymmetric(now: Time, ts: int, tolerance: int)
    requires tolerance <= MAX_INT64
    ensures var ahead := UnixTime(ts) - now;
            var most := if tolerance <= 0 then 300 * 1_000_000_000 else tolerance;
            InWindow(now, ts, tolerance) <==> -most <= ahead <= most || ahead >= -MIN_INT64 || most == MAX_INT64
  {
  }

  /** The time of a second: that many seconds after the epoch, save the largest ones. */
  lemma UnixTimeOf(ts: int)
    requires MIN_INT64 <= ts <= MAX_INT64 - 62_135_596_800
    ensures UnixTime(ts) == ts * 1_000_000_000
  {
  }

  /** The largest seconds wrap into the distant past. */
  lemma UnixTimeWraps(ts: int)
    requires MAX_INT64 - 62_135_596_800 < ts <= MAX_INT64
    ensures UnixTime(ts) == (ts - 0x1_0000_0000_0000_0000) * 1_000_000_000
  {
  }

  /** At a time in 2023, a second in the year 2603 is in the five-minute window. */
  lemma AFarFutureSecondPasses()
    ensures InWindow(1_700_000_000 * SECOND, 20_000_000_000, 5 * MINUTE)
  {
  }

  // ---- The two verifiers ----

  datatype Outcome = Accepted | NoSignature | Malformed | Stale | BadSignature

  /** The server compares bytes where both sides decode, and text otherwise. */
  predicate ServerMatches(s: string, expected: string) {
    var presented, want := Decode(Lower(TrimSpace(s))), Decode(expected);
    if presented.Some? && want.Some? then presented == want else s == expected
  }

  predicate ClientMatches(s: string, expected: Digest) {
    Decode(Lower(TrimSpace(s))) == Some(expected)
  }

  function ServerOutcome(mac: Mac, secret: string, body: string, header: string, now: Time, tolerance: int): Outcome {
    match Read(Split(header, ','), Header(0, []))
    case None => Malformed
    case Some(h) =>
      if h.ts == 0 || h.sigs == [] then Malformed
      else if !InWindow(now, h.ts, tolerance) then Stale
      else if exists i :: 0 <= i < |h.sigs| && ServerMatches(h.sigs[i], Signature(mac, secret, h.ts, body)) then Accepted
      else BadSignature
  }

  function ClientOutcome(mac: Mac, secret: string, body: string, header: string, now: Time, tolerance: int): Outcome {
    if TrimSpace(header) == "" then NoSignature
    else
      match Read(Split(header, ','), Header(0, []))
      case None => Malformed
      case Some(h) =>
        if h.ts == 0 || h.sigs == [] then Malformed
        else if !InWindow(now, h.ts, tolerance) then Stale
        else if exists i :: 0 <= i < |h.sigs| && ClientMatches(h.sigs[i], mac(secret, Signed(h.ts, body))) then Accepted
        else BadSignature
  }

  method Verify(mac: Mac, secret: string, body: string, header: string, now: Time, tolerance: int) returns (r: Outcome)
    ensures r == ServerOutcome(mac, secret, body, header, now, tolerance)
  {
    var read := ReadHeader(header);
    if read.None? {
      return Malformed;
    }
    var ts, sigs := read.value.ts, read.value.sigs;
    if ts == 0 || |sigs| == 0 {
      return Malformed;
    }
    if Age(now, ts) > Window(tolerance) {
      return Stale;
    }
    var expected := Encode(mac(secret, FormatInt(ts) + "." + body));
    assert expected == Signature(mac, secret, ts, body);
    for i := 0 to |sigs|
      invariant forall j :: 0 <= j < i ==> !ServerMatches(sigs[j], expected)
    {
      var presented, want := Decode(Lower(TrimSpace(sigs[i]))), Decode(expected);
      if presented.Some? && want.Some? {
        if presented.value == want.value {
          return Accepted;
        }
        continue;
      }
      if sigs[i] == expected {
        return Accepted;
      }
    }
    return BadSignature;
  }

  method VerifyAt(mac: Mac, body: string, header: string, secret: string, now: Time, tolerance: int) returns (r: Outcome)
    ensures r == ClientOutcome(mac, secret, body, header, now, tolerance)
  {
    if TrimSpace(header) == "" {
      return NoSignature;
    }
    var read := ReadHeader(header);
    if read.None? {
      return Malformed;
    }
    var ts, sigs := read.value.ts, read.value.sigs;
    if ts == 0 || |sigs| == 0 {
      return Malformed;
    }
    if Age(now, ts) > Window(tolerance) {
      return Stale;
    }
    var expected := mac(secret, FormatInt(ts) + "." + body);
    assert expected == mac(secret, Signed(ts, body));
    for i := 0 to |sigs|
      invariant forall j :: 0 <= j < i ==> !ClientMatches(sigs[j], expected)
    {
      var presented := Decode(Lower(TrimSpace(sigs[i])));
      if presented.None? {
        continue;
      }
      if presented.value == expected {
        return Accepted;
      }
    }
    return BadSignature;
  }

  // ---- They agree ----

  /** Lower-case hexadecimal text passes the normalisation unchanged. */
  lemma HexIsNormal(s: string)
    requires forall i :: 0 <= i < |s| ==> IsLowerHex(s[i])
    ensures Lower(TrimSpace(s)) == s
  {
  }

  /** The text comparison never decides: text equal to the expected value would have decoded. */
  lemma MatchesAgree(s: string, expected: Digest)
    ensures ServerMatches(s, Encode(expected)) <==> ClientMatches(s, expected)
  {
    DecodeEncode(expected);
    HexIsNormal(Encode(expected));
  }

  /** Upper case and surrounding white space make no difference to a signature. */
  lemma SpellingDoesNotMatter(s: string, expected: Digest)
    ensures ClientMatches(s, expected) <==> ClientMatches(Lower(TrimSpace(s)), expected)
    ensures ClientMatches(Upper(Encode(expected)), expected)
  {
    NormalIsHex(s, expected);
    var u := Upper(Encode(expected));
    assert forall i :: 0 <= i < |u| ==> !IsSpace(u[i]);
    TrimKeeps(u);
    assert Lower(u) == Encode(expected);
    DecodeEncode(expected);
  }

  lemma {:induction false} DecodedIsHex(s: string)
    requires Decode(s).Some?
    ensures forall i :: 0 <= i < |s| ==> IsLowerHex(s[i])
  {
    if s != "" {
      DecodedIsHex(s[2..]);
      assert forall i :: 2 <= i < |s| ==> s[i] == s[2..][i - 2];
    }
  }

  lemma NormalIsHex(s: string, expected: Digest)
    ensures var t := Lower(TrimSpace(s)); Decode(t) == Some(expected) <==> Decode(Lower(TrimSpace(t))) == Some(expected)
  {
    var t := Lower(TrimSpace(s));
    if Decode(t).Some? {
      DecodedIsHex(t);
      HexIsNormal(t);
    } else if Decode(Lower(TrimSpace(t))).Some? {
      NormalTwice(s);
    }
  }

  /** Normalising twice is normalising once. */
  lemma NormalTwice(s: string)
    ensures var t := Lower(TrimSpace(s)); Lower(TrimSpace(t)) == t
  {
    var r := TrimSpace(s);
    var t := Lower(r);
    TrimmedAtEnds(s);
    assert forall i :: 0 <= i < |r| ==> (IsSpace(t[i]) <==> IsSpace(r[i]));
    TrimKeeps(t);
    assert Lower(t) == t;
  }

  lemma BlankHasNoTimestamp(header: string)
    requires TrimSpace(header) == ""
    ensures Read(Split(header, ','), Header(0, [])) == Some(Header(0, []))
  {
    BlankIsAllSpace(header);
    assert Find(header, ',') == |header|;
    assert ReadPart(header, Header(0, [])) == Some(Header(0, []));
  }

  /** The two verifiers give the same answer on every input; only the client distinguishes a
      blank header from a malformed one. */
  lemma VerifiersAgree(mac: Mac, secret: string, body: string, header: string, now: Time, tolerance: int)
    ensures var server, client := ServerOutcome(mac, secret, body, header, now, tolerance),
                                  ClientOutcome(mac, secret, body, header, now, tolerance);
            if TrimSpace(header) == "" then server == Malformed && client == NoSignature else server == client
  {
    if TrimSpace(header) == "" {
      BlankHasNoTimestamp(header);
    } else {
      var read := Read(Split(header, ','), Header(0, []));
      if read.Some? {
        forall i | 0 <= i < |read.value.sigs|
          ensures ServerMatches(read.value.sigs[i], Signature(mac, secret, read.value.ts, body))
             <==> ClientMatches(read.value.sigs[i], mac(secret, Signed(read.value.ts, body)))
        {
          MatchesAgree(read.value.sigs[i], mac(secret, Signed(read.value.ts, body)));
        }
      }
    }
  }

  // ---- A signed header reads back ----

  predicate Free(s: string, c: char) {
    forall i :: 0 <= i < |s| ==> s[i] != c
  }

  lemma SplitOne(s: string, c: char)
    requires Free(s, c)
    ensures Split(s, c) == [s]
  {
  }

  lemma SplitFirst(a: string, c: char, rest: string)
    requires Free(a, c)
    ensures Split(a + [c] + rest, c) == [a] + Split(rest, c)
  {
    var s := a + [c] + rest;
    assert s[|a|] == c;
    assert forall k :: 0 <= k < |a| ==> s[k] == a[k];
    assert Find(s, c) == |a|;
    assert s[..|a|] == a && s[|a| + 1..] == rest;
  }

  lemma ReadsTimestamp(ts: int, h: Header)
    requires MIN_INT64 <= ts <= MAX_INT64
    ensures ReadPart("t=" + FormatInt(ts), h) == Some(h.(ts := ts))
  {
    var s := "t=" + FormatInt(ts);
    assert s == "t" + ['='] + FormatInt(ts);
    TrimKeeps(s);
    CutJoined("t", '=', FormatInt(ts));
    ParseFormat(ts);
  }

  predicate IsSignature(s: string) {
    s != "" && forall i :: 0 <= i < |s| ==> IsLowerHex(s[i])
  }

  lemma ReadsSignature(sig: string, h: Header)
    requires IsSignature(sig)
    ensures ReadPart("v1=" + sig, h) == Some(h.(sigs := h.sigs + [sig]))
  {
    var s := "v1=" + sig;
    assert s == "v1" + ['='] + sig;
    assert s[|s| - 1] == sig[|sig| - 1];
    TrimKeeps(s);
    CutJoined("v1", '=', sig);
  }

  function Parts(sigs: seq<string>, i: nat): seq<string>
    requires i <= |sigs|
    decreases |sigs| - i
  {
    if i == |sigs| then [] else ["v1=" + sigs[i]] + Parts(sigs, i + 1)
  }

  /** The elements after `first` split apart again. */
  lemma {:induction false} SplitsElements(sigs: seq<string>, i: nat, first: string)
    requires i <= |sigs| && Free(first, ',')
    requires forall k :: 0 <= k < |sigs| ==> IsSignature(sigs[k])
    ensures Split(first + Elements(sigs, i), ',') == [first] + Parts(sigs, i)
    decreases |sigs| - i
  {
    if i == |sigs| {
      assert first + "" == first;
      SplitOne(first, ',');
    } else {
      var part, rest := "v1=" + sigs[i], Elements(sigs, i + 1);
      Regroup(first, part, rest);
      SplitFirst(first, ',', part + rest);
      assert Free(part, ',') by {
        assert IsSignature(sigs[i]);
      }
      SplitsElements(sigs, i + 1, part);
    }
  }

  /** The elements are read in order. */
  lemma {:induction false} ReadsParts(sigs: seq<string>, i: nat, h: Header)
    requires i <= |sigs| && forall k :: 0 <= k < |sigs| ==> IsSignature(sigs[k])
    ensures Read(Parts(sigs, i), h) == Some(h.(sigs := h.sigs + sigs[i..]))
    decreases |sigs| - i
  {
    if i == |sigs| {
      assert h.sigs + [] == h.sigs;
    } else {
      var next := h.(sigs := h.sigs + [sigs[i]]);
      ReadsSignature(sigs[i], h);
      ReadFirst("v1=" + sigs[i], Parts(sigs, i + 1), h, next);
      ReadsParts(sigs, i + 1, next);
      assert (h.sigs + [sigs[i]]) + sigs[i + 1..] == h.sigs + sigs[i..];
    }
  }

  lemma Regroup(a: string, b: string, rest: string)
    ensures a + ([','] + b + rest) == a + [','] + (b + rest)
  {
  }

  lemma ReadFirst(part: string, rest: seq<string>, h: Header, next: Header)
    requires ReadPart(part, h) == Some(next)
    ensures Read([part] + rest, h) == Read(rest, next)
  {
  }

  lemma ReadsSignedHeader(mac: Mac, secrets: seq<string>, body: string, at: Time)
    requires secrets != [] && MIN_INT64 <= Unix(at) <= MAX_INT64
    ensures Read(Split(SignedHeader(mac, secrets, body, at), ','), Header(0, []))
         == Some(Header(Unix(at), SignatureList(mac, secrets, Unix(at), body)))
  {
    var ts := Unix(at);
    var sigs := SignatureList(mac, secrets, ts, body);
    var first := "t=" + FormatInt(ts);
    SplitsElements(sigs, 0, first);
    ReadsTimestamp(ts, Header(0, []));
    ReadFirst(first, Parts(sigs, 0), Header(0, []), Header(ts, []));
    ReadsParts(sigs, 0, Header(ts, []));
    assert [] + sigs[0..] == sigs;
  }

  /** What a signed header proves, exactly. It is accepted for a body and a secret if and only if
      its second is not zero and inside the window, and one of the signing secrets gives the
      signed body the digest that the checking secret gives the received one. */
  lemma SignedHeaderVerifies(mac: Mac, secrets: seq<string>, body: string, at: Time,
                             secret: string, received: string, now: Time, tolerance: int)
    requires secrets != [] && MIN_INT64 <= Unix(at) <= MAX_INT64
    ensures ServerOutcome(mac, secret, received, SignedHeader(mac, secrets, body, at), now, tolerance) == Accepted <==>
            && Unix(at) != 0
            && InWindow(now, Unix(at), tolerance)
            && exists s :: s in secrets && mac(s, Signed(Unix(at), body)) == mac(secret, Signed(Unix(at), received))
  {
    var ts := Unix(at);
    ReadsSignedHeader(mac, secrets, body, at);
    var sigs := SignatureList(mac, secrets, ts, body);
    var want := mac(secret, Signed(ts, received));
    forall i | 0 <= i < |sigs|
      ensures ServerMatches(sigs[i], Encode(want)) <==> mac(secrets[i], Signed(ts, body)) == want
    {
      MatchesAgree(sigs[i], want);
      HexIsNormal(sigs[i]);
      DecodeEncode(mac(secrets[i], Signed(ts, body)));
    }
  }

  /** A delivery verifies under each of its secrets. */
  lemma SignedHeaderRoundTrips(mac: Mac, secrets: seq<string>, body: string, at: Time, secret: string, now: Time, tolerance: int)
    requires secret in secrets && MIN_INT64 <= Unix(at) <= MAX_INT64
    ensures ServerOutcome(mac, secret, body, SignedHeader(mac, secrets, body, at), now, tolerance) == Accepted <==>
            Unix(at) != 0 && InWindow(now, Unix(at), tolerance)
  {
    SignedHeaderVerifies(mac, secrets, body, at, secret, body, now, tolerance);
  }

  /** So is a header signed for that second accepted. */
  lemma AFarFutureHeaderIsAccepted(mac: Mac, secret: string, body: string)
    ensures ServerOutcome(mac, secret, body, SignedHeader(mac, [secret], body, 20_000_000_000 * SECOND),
                          1_700_000_000 * SECOND, 5 * MINUTE) == Accepted
  {
    AFarFutureSecondPasses();
    SignedHeaderRoundTrips(mac, [secret], body, 20_000_000_000 * SECOND, secret, 1_700_000_000 * SECOND, 5 * MINUTE);
  }
}
