/**
 The per-tenant audit hash chain: the length-prefixed preimage, sealing and appending, and
 verification. SHA-256 and time formatting are parameters; nothing is assumed of them.
 */
module Audit {
  import opened Deliveries
  import Decimal
  import Hex

  const GENESIS := "sha256:genesis"
  const STORAGE_PRECISION: Time := 1000

  type Digest = Hex.Digest

  /** `formatTime(None)` is the text of the zero time. */
  datatype Hashing = Hashing(sha256: string -> Digest, formatTime: Option<Time> -> string)

  /** A payload map, by what canonical JSON makes of it. */
  datatype Payload = Blank | Json(text: string) | Unhashable

  datatype Record = Record(
    id: string,
    tenant: string,
    eventType: string,
    occurredAt: Option<Time>,
    recordedAt: Option<Time>,
    actorType: string,
    actorId: string,
    actorIp: string,
    subjectType: string,
    subjectId: string,
    payload: Payload,
    corrects: string,
    prevHash: string,
    hash: string)

  function Truncate(t: Time): Time {
    t - t % STORAGE_PRECISION
  }

  function Stamp(h: Hashing, t: Option<Time>): string {
    h.formatTime(if t.Some? then Some(Truncate(t.value)) else None)
  }

  /** The twelve hashed fields, in order. */
  function Fields(h: Hashing, r: Record): seq<string>
    requires r.payload != Unhashable
  {
    [r.id, r.tenant, r.eventType, Stamp(h, r.occurredAt), r.actorType, r.actorId, r.actorIp, r.subjectType, r.subjectId,
     if r.payload.Blank? then "{}" else r.payload.text, r.corrects, r.prevHash]
  }

  function Part(p: string): string {
    Decimal.Digits(|p|) + ":" + p + "|"
  }

  /** The bytes that are hashed: every part behind its length. */
  function Preimage(parts: seq<string>): string {
    if parts == [] then "" else Part(parts[0]) + Preimage(parts[1..])
  }

  function HashText(d: Digest): string {
    "sha256:" + Hex.Encode(d)
  }

  function ComputeHash(h: Hashing, r: Record): Option<string> {
    if r.payload.Unhashable? then None else Some(HashText(h.sha256(Preimage(Fields(h, r)))))
  }

  // ---- The encoding is uniquely decodable ----

  lemma PartIsPrefixFree(p: string, x: string, q: string, y: string)
    requires Part(p) + x == Part(q) + y
    ensures p == q && x == y
  {
    var a, b := Decimal.Digits(|p|), Decimal.Digits(|q|);
    assert Part(p) + x == a + [':'] + (p + "|" + x);
    assert Part(q) + y == b + [':'] + (q + "|" + y);
    Decimal.CutAtNonDigit(a, p + "|" + x, b, q + "|" + y, ':');
    Decimal.DigitsInjective(|p|, |q|);
    assert p == (p + "|" + x)[..|p|] && q == (q + "|" + y)[..|p|];
    assert x == (p + "|" + x)[|p| + 1..] && y == (q + "|" + y)[|p| + 1..];
  }

  /** Two lists of parts are hashed as the same bytes if and only if they are the same list. */
  lemma {:induction false} PreimageInjective(a: seq<string>, b: seq<string>)
    ensures Preimage(a) == Preimage(b) <==> a == b
  {
    if a != [] && b != [] {
      if Preimage(a) == Preimage(b) {
        PartIsPrefixFree(a[0], Preimage(a[1..]), b[0], Preimage(b[1..]));
        PreimageInjective(a[1..], b[1..]);
        assert a == [a[0]] + a[1..] && b == [b[0]] + b[1..];
      }
    }
  }

  lemma HashIsNotGenesis(d: Digest)
    ensures HashText(d) != GENESIS
  {
  }

  lemma HashTextInjective(a: Digest, b: Digest)
    requires HashText(a) == HashText(b)
    ensures a == b
  {
    assert HashText(a)[7..] == Hex.Encode(a) && HashText(b)[7..] == Hex.Encode(b);
    Hex.EncodeInjective(a, b);
  }

  // ---- Chains ----

  /** The hash record `k` must link to. */
  function Predecessor(rs: seq<Record>, k: nat): string
    requires k <= |rs|
  {
    if k == 0 then GENESIS else rs[k - 1].hash
  }

  predicate Linked(h: Hashing, rs: seq<Record>, k: nat)
    requires k < |rs|
  {
    rs[k].prevHash == Predecessor(rs, k) && ComputeHash(h, rs[k]) == Some(rs[k].hash)
  }

  ghost predicate Intact(h: Hashing, rs: seq<Record>) {
    forall k :: 0 <= k < |rs| ==> Linked(h, rs, k)
  }

  /** The head of a non-empty chain. */
  function Head(rs: seq<Record>): string
    requires rs != []
  {
    rs[|rs| - 1].hash
  }

  /** Two records whose hashed bytes differ and whose digests agree. */
  predicate Collision(h: Hashing, r: Record, s: Record) {
    && !r.payload.Unhashable? && !s.payload.Unhashable?
    && Preimage(Fields(h, r)) != Preimage(Fields(h, s))
    && h.sha256(Preimage(Fields(h, r))) == h.sha256(Preimage(Fields(h, s)))
  }

  /** The two records agree in everything that is hashed: who did what to what, when to the
      microsecond, with which payload, and what they correct and follow. */
  predicate SameFields(h: Hashing, r: Record, s: Record) {
    && !r.payload.Unhashable? && !s.payload.Unhashable?
    && r.id == s.id && r.tenant == s.tenant && r.eventType == s.eventType
    && h.formatTime(Micros(r.occurredAt)) == h.formatTime(Micros(s.occurredAt))
    && r.actorType == s.actorType && r.actorId == s.actorId && r.actorIp == s.actorIp
    && r.subjectType == s.subjectType && r.subjectId == s.subjectId
    && (if r.payload.Blank? then "{}" else r.payload.text) == (if s.payload.Blank? then "{}" else s.payload.text)
    && r.corrects == s.corrects && r.prevHash == s.prevHash
  }

  function Micros(t: Option<Time>): Option<Time> {
    match t
    case None => None
    case Some(ns) => Some(ns - ns % 1000)
  }

  /** Two records have the same hashed bytes if and only if they agree in every hashed field. */
  lemma HashedBytesAreTheFields(h: Hashing, r: Record, s: Record)
    requires !r.payload.Unhashable? && !s.payload.Unhashable?
    ensures Preimage(Fields(h, r)) == Preimage(Fields(h, s)) <==> SameFields(h, r, s)
  {
    var a, b := Fields(h, r), Fields(h, s);
    PreimageInjective(a, b);
    assert a == b <==> forall i :: 0 <= i < 12 ==> a[i] == b[i];
  }

  /** The hashed bytes of two parts, and the text of a hash, written out. */
  lemma WrittenOut(d: Digest)
    ensures Preimage(["ab", ""]) == "2:ab|0:|"
    ensures HashText(d) == "sha256:" + Hex.Encode(d)
  {
    assert ["ab", ""][1..] == [""] && [""][1..] == [];
    assert Decimal.Digits(2) == "2" && Decimal.Digits(0) == "0";
  }

  ghost predicate SameHistory(h: Hashing, a: seq<Record>, b: seq<Record>) {
    |a| == |b| && forall k :: 0 <= k < |a| ==> SameFields(h, a[k], b[k])
  }

  lemma EqualHashes(h: Hashing, r: Record, s: Record)
    requires ComputeHash(h, r).Some? && ComputeHash(h, r) == ComputeHash(h, s)
    ensures SameFields(h, r, s) || Collision(h, r, s)
  {
    HashTextInjective(h.sha256(Preimage(Fields(h, r))), h.sha256(Preimage(Fields(h, s))));
    HashedBytesAreTheFields(h, r, s);
  }

  lemma IntactPrefix(h: Hashing, rs: seq<Record>, n: nat)
    requires Intact(h, rs) && n <= |rs|
    ensures Intact(h, rs[..n])
  {
    forall k | 0 <= k < n
      ensures Linked(h, rs[..n], k)
    {
      assert Linked(h, rs, k);
    }
  }

  lemma OnlyFirstLinksToGenesis(h: Hashing, rs: seq<Record>)
    requires Intact(h, rs) && rs != []
    ensures rs[|rs| - 1].prevHash == GENESIS <==> |rs| == 1
  {
    assert Linked(h, rs, |rs| - 1);
    if |rs| > 1 {
      assert Linked(h, rs, |rs| - 2);
      HashIsNotGenesis(h.sha256(Preimage(Fields(h, rs[|rs| - 2]))));
    }
  }

  ghost predicate Collides(h: Hashing, a: seq<Record>, b: seq<Record>) {
    exists i, j :: 0 <= i < |a| && 0 <= j < |b| && Collision(h, a[i], b[j])
  }

  lemma OneRecordMore(h: Hashing, a: seq<Record>, b: seq<Record>)
    requires a != [] && b != [] && SameFields(h, a[|a| - 1], b[|b| - 1])
    requires SameHistory(h, a[..|a| - 1], b[..|b| - 1])
    ensures SameHistory(h, a, b)
  {
    forall k | 0 <= k < |a| ensures SameFields(h, a[k], b[k]) {
      if k < |a| - 1 {
        assert SameFields(h, a[..|a| - 1][k], b[..|b| - 1][k]);
      }
    }
  }

  lemma CollidesBefore(h: Hashing, a: seq<Record>, b: seq<Record>, m: nat, n: nat)
    requires m <= |a| && n <= |b| && Collides(h, a[..m], b[..n])
    ensures Collides(h, a, b)
  {
    var i, j :| 0 <= i < m && 0 <= j < n && Collision(h, a[..m][i], b[..n][j]);
    assert Collision(h, a[i], b[j]);
  }

  lemma SameLast(h: Hashing, a: seq<Record>, b: seq<Record>)
    requires Intact(h, a) && Intact(h, b) && a != [] && b != [] && Head(a) == Head(b)
    ensures !Collides(h, a, b) ==>
              && SameFields(h, a[|a| - 1], b[|b| - 1]) && (|a| == 1 <==> |b| == 1)
              && (|a| > 1 && |b| > 1 ==> a[|a| - 2].hash == b[|b| - 2].hash)
  {
    var m, n := |a| - 1, |b| - 1;
    assert Linked(h, a, m) && Linked(h, b, n);
    EqualHashes(h, a[m], b[n]);
    OnlyFirstLinksToGenesis(h, a);
    OnlyFirstLinksToGenesis(h, b);
  }

  /** Equal heads mean equal history: two intact chains with the same head record the same
      fields, entry by entry, unless two of their entries make SHA-256 collide. */
  lemma {:induction false} EqualHeadsMeanEqualHistory(h: Hashing, a: seq<Record>, b: seq<Record>)
    requires Intact(h, a) && Intact(h, b) && a != [] && b != []
    requires Head(a) == Head(b)
    ensures SameHistory(h, a, b) || Collides(h, a, b)
    decreases |a|
  {
    var m, n := |a| - 1, |b| - 1;
    SameLast(h, a, b);
    if !Collides(h, a, b) {
      if m > 0 {
        IntactPrefix(h, a, m);
        IntactPrefix(h, b, n);
        EqualHeadsMeanEqualHistory(h, a[..m], b[..n]);
        if Collides(h, a[..m], b[..n]) {
          CollidesBefore(h, a, b, m, n);
          assert false;
        }
      }
      OneRecordMore(h, a, b);
    }
  }

  /** A record of an intact chain that is changed in any hashed field, its hash left alone, is the
      first at which verification fails, unless the change makes SHA-256 collide. */
  lemma TamperingIsFound(h: Hashing, rs: seq<Record>, k: nat, r: Record)
    requires Intact(h, rs) && k < |rs| && r.hash == rs[k].hash && !SameFields(h, rs[k], r)
    ensures FirstBreak(h, rs[k := r], k) || Collision(h, rs[k], r)
  {
    var t := rs[k := r];
    forall j | 0 <= j < k ensures Linked(h, t, j) {
      assert Linked(h, rs, j);
    }
    assert Linked(h, rs, k);
    if Linked(h, t, k) {
      EqualHashes(h, rs[k], r);
    }
  }

  // ---- The store ----

  /** `Seal`: stamps, truncates, links and hashes a record; `None` if its payload has no JSON. */
  function Seal(h: Hashing, r: Record, prev: string, now: Time): Option<Record> {
    var recorded := if r.recordedAt.Some? then r.recordedAt.value else now;
    var occurred := if r.occurredAt.Some? then r.occurredAt.value else recorded;
    var stamped := r.(recordedAt := Some(Truncate(recorded)), occurredAt := Some(Truncate(occurred)), prevHash := prev);
    match ComputeHash(h, stamped)
    case None => None
    case Some(hash) => Some(stamped.(hash := hash))
  }

  /** What sealing does: times to the microsecond, the missing ones filled in, the link and the
      hash set, and nothing else changed. */
  lemma SealedRecord(h: Hashing, r: Record, prev: string, now: Time)
    ensures Seal(h, r, prev, now).None? <==> r.payload.Unhashable?
    ensures Seal(h, r, prev, now).Some? ==>
              var s := Seal(h, r, prev, now).value;
              var recorded := if r.recordedAt.Some? then r.recordedAt.value else now;
              var occurred := if r.occurredAt.Some? then r.occurredAt.value else recorded;
              && s == r.(recordedAt := Some(recorded - recorded % 1000), occurredAt := Some(occurred - occurred % 1000),
                         prevHash := prev, hash := s.hash)
              && ComputeHash(h, s) == Some(s.hash)
  {
  }

  datatype Proof = Proof(tenant: string, records: nat, head: string, intact: bool, brokenAt: string)

  /** What verification reports about a list of records. */
  ghost predicate Reports(h: Hashing, tenant: string, rs: seq<Record>, p: Proof) {
    && p.tenant == tenant && p.records == |rs|
    && (p.intact <==> Intact(h, rs))
    && (p.intact ==> p.brokenAt == "" && p.head == if rs == [] then "" else Head(rs))
    && (!p.intact ==> p.head == "" && exists k :: 0 <= k < |rs| && p.brokenAt == rs[k].id && FirstBreak(h, rs, k))
  }

  ghost predicate FirstBreak(h: Hashing, rs: seq<Record>, k: nat)
    requires k < |rs|
  {
    !Linked(h, rs, k) && forall j :: 0 <= j < k ==> Linked(h, rs, j)
  }

  class AuditLog {
    const hashing: Hashing
    var audit: map<string, seq<Record>>
    var heads: map<string, string>

    ghost predicate Valid()
      reads this
    {
      && heads.Keys == audit.Keys
      && forall t :: t in audit ==> audit[t] != [] && Intact(hashing, audit[t]) && heads[t] == Head(audit[t])
    }

    constructor (hashing: Hashing)
      ensures Valid() && audit == map[] && this.hashing == hashing
    {
      this.hashing := hashing;
      audit, heads := map[], map[];
    }

    ghost function Chain(tenant: string): seq<Record>
      reads this
    {
      if tenant in audit then audit[tenant] else []
    }

    method LastAuditHash(tenant: string) returns (head: string)
      requires Valid()
      ensures head == if Chain(tenant) == [] then "sha256:genesis" else Head(Chain(tenant))
    {
      if tenant in heads {
        return heads[tenant];
      }
      return GENESIS;
    }

    /** Seals against the tenant's head and appends; every other chain is left alone, and every
        chain stays intact. A record that cannot be hashed changes nothing. */
    method AppendAudit(r: Record, now: Time) returns (ok: bool)
      requires Valid()
      modifies this`audit, this`heads
      ensures Valid()
      ensures ok <==> !r.payload.Unhashable?
      ensures !ok ==> audit == old(audit) && heads == old(heads)
      ensures ok ==> var was := old(Chain(r.tenant));
                     var sealed := Seal(hashing, r, if was == [] then "sha256:genesis" else Head(was), now);
                     sealed.Some? && audit == old(audit)[r.tenant := was + [sealed.value]]
    {
      var prev := if r.tenant in heads then heads[r.tenant] else GENESIS;
      var sealed := Seal(hashing, r, prev, now);
      if sealed.None? {
        return false;
      }
      var chain := if r.tenant in audit then audit[r.tenant] else [];
      AppendKeepsIntact(hashing, chain, sealed.value);
      audit := audit[r.tenant := chain + [sealed.value]];
      heads := heads[r.tenant := sealed.value.hash];
      return true;
    }

    method VerifyChain(tenant: string) returns (proof: Proof)
      ensures Reports(hashing, tenant, Chain(tenant), proof)
    {
      var records := if tenant in audit then audit[tenant] else [];
      proof := Proof(tenant, |records|, "", true, "");
      if records == [] {
        return;
      }
      var prev := GENESIS;
      for i := 0 to |records|
        invariant prev == Predecessor(records, i)
        invariant forall k :: 0 <= k < i ==> Linked(hashing, records, k)
      {
        var r := records[i];
        if r.prevHash != prev {
          assert FirstBreak(hashing, records, i);
          return proof.(intact := false, brokenAt := r.id);
        }
        var want := ComputeHash(hashing, r);
        if want.None? {
          assert FirstBreak(hashing, records, i);
          return proof.(intact := false, brokenAt := r.id);
        }
        if want.value != r.hash {
          assert FirstBreak(hashing, records, i);
          return proof.(intact := false, brokenAt := r.id);
        }
        prev := r.hash;
      }
      proof := proof.(head := prev);
    }
  }

  lemma AppendKeepsIntact(h: Hashing, rs: seq<Record>, r: Record)
    requires Intact(h, rs) && r.prevHash == Predecessor(rs, |rs|) && ComputeHash(h, r) == Some(r.hash)
    ensures Intact(h, rs + [r])
  {
    forall k | 0 <= k < |rs + [r]|
      ensures Linked(h, rs + [r], k)
    {
      if k < |rs| {
        assert Linked(h, rs, k);
      }
    }
  }
}
