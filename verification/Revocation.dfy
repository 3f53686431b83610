/**
 The compact revocation set (pkg/revoke/revoke.go): a Bloom filter, its wire form, and the
 checker that holds one. The two words hashed from an identifier are a function-valued
 parameter, as is the JSON form of the wire record.
 */
module Revocation {
  import opened Wrappers
  import opened Base64Url
  import opened Clock
  import opened Jose
  import Verify

  const VERSION := 1
  const MAX_HASHES := 64

  /** A 64-bit word. */
  type Word = x: int | 0 <= x < TWO_TO_THE_64

  /** The first and second eight bytes of SHA-256, read big-endian. */
  type Hash = string -> (Word, Word)

  /** `generatedAt` is in Unix seconds. */
  datatype Set = Set(bits: seq<bv8>, hashes: Int64, sequence: Word, generatedAt: Int64)

  /* ----- Bits ----- */

  /** `1 << k` */
  function Mask(k: int): bv8
    requires 0 <= k < 8
  {
    if k == 0 then 1 else if k == 1 then 2 else if k == 2 then 4 else if k == 3 then 8
    else if k == 4 then 16 else if k == 5 then 32 else if k == 6 then 64 else 128
  }

  predicate Bit(b: bv8, k: int)
    requires 0 <= k < 8
  {
    b & Mask(k) != 0
  }

  lemma OrSetsOneBit(b: bv8, k: int, j: int)
    requires 0 <= k < 8 && 0 <= j < 8
    ensures Bit(b | Mask(k), j) <==> j == k || Bit(b, j)
  {}

  lemma BitsDetermineByte(a: bv8, b: bv8)
    requires forall k :: 0 <= k < 8 ==> Bit(a, k) == Bit(b, k)
    ensures a == b
  {
    assert Bit(a, 0) == Bit(b, 0) && Bit(a, 1) == Bit(b, 1) && Bit(a, 2) == Bit(b, 2) && Bit(a, 3) == Bit(b, 3);
    assert Bit(a, 4) == Bit(b, 4) && Bit(a, 5) == Bit(b, 5) && Bit(a, 6) == Bit(b, 6) && Bit(a, 7) == Bit(b, 7);
  }

  predicate BitAt(bits: seq<bv8>, position: int)
    requires 0 <= position < 8 * |bits|
  {
    Bit(bits[position / 8], position % 8)
  }

  /* ----- Building and asking ----- */

  /** Position i of an identifier: the sum wraps at 64 bits before it is reduced. */
  function Index(h: (Word, Word), i: nat, m: int): (position: int)
    requires m > 0
    ensures 0 <= position < m
  {
    (h.0 + i * h.1) % TWO_TO_THE_64 % m
  }

  method Indices(hash: Hash, id: string, k: Int64, m: int) returns (out: seq<int>)
    requires k >= 0 && m > 0
    ensures |out| == k
    ensures forall i :: 0 <= i < k ==> out[i] == Index(hash(id), i, m)
  {
    out := [];
    for i := 0 to k
      invariant |out| == i
      invariant forall j :: 0 <= j < i ==> out[j] == Index(hash(id), j, m)
    {
      out := out + [Index(hash(id), i, m)];
    }
  }

  /** One of the first n positions of an identifier is this one. */
  ghost predicate Hits(hash: Hash, id: string, n: int, m: int, position: int)
    requires m > 0
  {
    exists i: nat :: i < n && Index(hash(id), i, m) == position
  }

  ghost predicate HitByAny(hash: Hash, ids: set<string>, n: int, m: int, position: int)
    requires m > 0
  {
    exists id :: id in ids && Hits(hash, id, n, m, position)
  }

  /** The bits set are exactly the positions of the identifiers. */
  ghost predicate Marks(hash: Hash, bits: seq<bv8>, k: int, ids: set<string>)
    requires bits != []
  {
    forall p :: 0 <= p < 8 * |bits| ==> (BitAt(bits, p) <==> HitByAny(hash, ids, k, 8 * |bits|, p))
  }

  ghost predicate IsFilter(hash: Hash, s: Set, ids: set<string>) {
    s.bits != [] && 1 <= s.hashes <= MAX_HASHES && Marks(hash, s.bits, s.hashes, ids)
  }

  function Members(ids: seq<string>): set<string> {
    set id | id in ids
  }

  /** `bits[p/8] |= 1 << (p%8)` sets that one position. */
  method Mark(bits: array<bv8>, p: int)
    requires 0 <= p < 8 * bits.Length
    modifies bits
    ensures forall q :: 0 <= q < 8 * bits.Length ==> (BitAt(bits[..], q) <==> q == p || BitAt(old(bits[..]), q))
  {
    ghost var before := bits[..];
    bits[p / 8] := bits[p / 8] | Mask(p % 8);
    forall q | 0 <= q < 8 * bits.Length ensures BitAt(bits[..], q) <==> q == p || BitAt(before, q) {
      if q / 8 == p / 8 {
        OrSetsOneBit(before[p / 8], p % 8, q % 8);
      }
    }
  }

  /** The filter over a list of identifiers, of m bits and k positions each; None without a time. */
  method NewSet(hash: Hash, revoked: seq<string>, m: nat, k: Int64, sequence: Word, generatedAt: int) returns (r: Option<Set>)
    requires m > 0 && m % 8 == 0 && 1 <= k <= MAX_HASHES
    ensures r.None? <==> generatedAt == 0
    ensures r.Some? ==>
              && IsFilter(hash, r.value, Members(revoked))
              && 8 * |r.value.bits| == m && r.value.hashes == k
              && r.value.sequence == sequence && r.value.generatedAt == Unix(generatedAt)
  {
    if generatedAt == 0 {
      return None;
    }
    var bits := new bv8[m / 8](_ => 0);
    forall p | 0 <= p < m ensures !BitAt(bits[..], p) {}
    for j := 0 to |revoked|
      invariant forall p :: 0 <= p < m ==> (BitAt(bits[..], p) <==> HitByAny(hash, Members(revoked[..j]), k, m, p))
    {
      ghost var before := bits[..];
      var id := revoked[j];
      var positions := Indices(hash, id, k, m);
      for i := 0 to k
        invariant forall p :: 0 <= p < m ==> (BitAt(bits[..], p) <==> BitAt(before, p) || Hits(hash, id, i, m, p))
      {
        ghost var last := bits[..];
        Mark(bits, positions[i]);
        forall p | 0 <= p < m ensures Hits(hash, id, i + 1, m, p) <==> p == positions[i] || Hits(hash, id, i, m, p) {
          OneMoreHit(hash, id, i, m, p);
        }
      }
      OneMoreMember(hash, revoked, j, k, m);
    }
    assert revoked[..|revoked|] == revoked;
    return Some(Set(bits[..], k, sequence, Unix(generatedAt)));
  }

  lemma OneMoreHit(hash: Hash, id: string, i: nat, m: int, p: int)
    requires m > 0
    ensures Hits(hash, id, i + 1, m, p) <==> p == Index(hash(id), i, m) || Hits(hash, id, i, m, p)
  {}

  lemma OneMoreMember(hash: Hash, ids: seq<string>, j: nat, k: int, m: int)
    requires m > 0 && j < |ids|
    ensures forall p :: HitByAny(hash, Members(ids[..j + 1]), k, m, p) <==>
                          HitByAny(hash, Members(ids[..j]), k, m, p) || Hits(hash, ids[j], k, m, p)
  {
    assert Members(ids[..j + 1]) == Members(ids[..j]) + {ids[j]};
  }

  /** Whether an identifier might be in the set. */
  predicate Admits(hash: Hash, s: Set, id: string) {
    s.bits != [] && forall i: nat :: i < s.hashes ==> BitAt(s.bits, Index(hash(id), i, 8 * |s.bits|))
  }

  method MayContain(hash: Hash, s: Set, id: string) returns (r: bool)
    requires s.hashes >= 0
    ensures r <==> Admits(hash, s, id)
  {
    if |s.bits| == 0 {
      return false;
    }
    var positions := Indices(hash, id, s.hashes, 8 * |s.bits|);
    for i := 0 to |positions|
      invariant forall j :: 0 <= j < i ==> BitAt(s.bits, positions[j])
    {
      var p := positions[i];
      if s.bits[p / 8] & Mask(p % 8) == 0 {
        return false;
      }
    }
    return true;
  }

  /** A filter has no false negatives. */
  lemma NoFalseNegatives(hash: Hash, s: Set, ids: set<string>, id: string)
    requires IsFilter(hash, s, ids) && id in ids
    ensures Admits(hash, s, id)
  {
    var m := 8 * |s.bits|;
    forall i: nat | i < s.hashes ensures BitAt(s.bits, Index(hash(id), i, m)) {
      assert Hits(hash, id, s.hashes, m, Index(hash(id), i, m));
    }
  }

  /** The bits of a filter depend only on which identifiers it lists, not on order or repeats. */
  lemma FilterIsDetermined(hash: Hash, s: Set, t: Set, ids: set<string>)
    requires IsFilter(hash, s, ids) && IsFilter(hash, t, ids)
    requires |s.bits| == |t.bits| && s.hashes == t.hashes
    ensures s.bits == t.bits
  {
    forall i | 0 <= i < |s.bits| ensures s.bits[i] == t.bits[i] {
      forall k | 0 <= k < 8 ensures Bit(s.bits[i], k) == Bit(t.bits[i], k) {
        assert BitAt(s.bits, 8 * i + k) == BitAt(t.bits, 8 * i + k);
      }
      BitsDetermineByte(s.bits[i], t.bits[i]);
    }
  }

  /* ----- The prose formula ----- */

  lemma {:induction false} ModOfMultiple(r: int, t: nat, m: int)
    requires m > 0
    ensures (r + t * m) % m == r % m
  {
    if t > 0 {
      ModOfMultiple(r, t - 1, m);
      assert r + t * m == (r + (t - 1) * m) + m;
      AddModulus(r + (t - 1) * m, m);
    }
  }

  lemma AddModulus(x: int, m: int)
    requires m > 0
    ensures (x + m) % m == x % m
  {
    var q, r := x / m, x % m;
    assert x + m == (q + 1) * m + r;
    DivisionUnique(x + m, q + 1, r, m);
  }

  lemma DivisionUnique(x: int, q: int, r: int, m: int)
    requires m > 0 && x == q * m + r && 0 <= r < m
    ensures x % m == r
  {
    var p := x / m;
    assert p * m <= x < p * m + m;
    if p < q {
      TimesIsMonotone(p + 1, q, m);
    } else if q < p {
      TimesIsMonotone(q + 1, p, m);
    }
  }

  lemma TimesIsMonotone(a: int, b: int, m: int)
    requires a <= b && m > 0
    ensures a * m <= b * m
  {}

  /**
   The documented formula (docs/spec/delegation-assertion.md:224) does not wrap. It names the
   positions the code computes, for every identifier, exactly when m divides 2^64 or only one
   position is used.
   */
  lemma WrappedIndexIsProseIndexIff(k: nat, m: int)
    requires m > 0
    ensures (forall h: (Word, Word), i: nat :: i < k ==> Index(h, i, m) == (h.0 + i * h.1) % m)
            <==> k <= 1 || TWO_TO_THE_64 % m == 0
  {
    if k <= 1 {
      forall h: (Word, Word), i: nat | i < k ensures Index(h, i, m) == (h.0 + i * h.1) % m {
        assert i * h.1 == 0;
      }
    } else if TWO_TO_THE_64 % m == 0 {
      forall h: (Word, Word), i: nat | i < k ensures Index(h, i, m) == (h.0 + i * h.1) % m {
        WrapThenReduce(h.0 + i * h.1, m);
      }
    } else {
      var h: (Word, Word) := (TWO_TO_THE_64 - 1, 1);
      assert h.0 + 1 * h.1 == TWO_TO_THE_64;
      assert Index(h, 1, m) == 0;
    }
  }

  lemma WrapThenReduce(x: nat, m: int)
    requires m > 0 && TWO_TO_THE_64 % m == 0
    ensures x % TWO_TO_THE_64 % m == x % m
  {
    var q, r, c := x / TWO_TO_THE_64, x % TWO_TO_THE_64, TWO_TO_THE_64 / m;
    assert TWO_TO_THE_64 == c * m;
    assert x == r + q * (c * m) == r + (q * c) * m;
    ModOfMultiple(r, q * c, m);
  }

  /** A filter of 24 bits is one NewSet builds, and there the two formulas differ. */
  lemma ProseIndexDiffersAt24()
    ensures var h: (Word, Word) := (TWO_TO_THE_64 - 1, 1);
            Index(h, 1, 24) == 0 && (h.0 + 1 * h.1) % 24 == 16
  {}

  /* ----- The wire form ----- */

  datatype Wire = Wire(version: Int64, sequence: Word, generatedAt: Int64, hashes: Int64, bits: string)

  function ToBytes(bits: seq<bv8>): seq<Byte> {
    seq(|bits|, i requires 0 <= i < |bits| => bits[i] as Byte)
  }

  function FromBytes(bytes: seq<Byte>): seq<bv8> {
    seq(|bytes|, i requires 0 <= i < |bytes| => bytes[i] as bv8)
  }

  function EncodeSet(json: Json<Wire>, s: Set): seq<Byte> {
    json.print_(Wire(VERSION, s.sequence, s.generatedAt, s.hashes, Encode(ToBytes(s.bits))))
  }

  function ParseSet(json: Json<Wire>, raw: seq<Byte>): Option<Set> {
    var w := json.parse(raw);
    if w.None? then None
    else if w.value.version != VERSION then None
    else if w.value.hashes < 1 || w.value.hashes > MAX_HASHES then None
    else if w.value.generatedAt <= 0 then None
    else
      var bytes := Decode(w.value.bits);
      if bytes.None? || bytes.value == [] then None
      else Some(Set(FromBytes(bytes.value), w.value.hashes, w.value.sequence, w.value.generatedAt))
  }

  /** What is published reads back as the set it was, exactly when it was generated after the epoch. */
  lemma EncodeThenParse(json: Json<Wire>, s: Set)
    requires json.LeftInverse() && s.bits != [] && 1 <= s.hashes <= MAX_HASHES
    ensures ParseSet(json, EncodeSet(json, s)) == if s.generatedAt > 0 then Some(s) else None
  {
    var w := Wire(VERSION, s.sequence, s.generatedAt, s.hashes, Encode(ToBytes(s.bits)));
    assert json.parse(json.print_(w)) == Some(w);
    RoundTrip(ToBytes(s.bits));
    assert FromBytes(ToBytes(s.bits)) == s.bits;
  }

  /* ----- The checker ----- */

  /** The order in which sets supersede each other. */
  predicate NotNewer(a: Set, b: Set) {
    a.sequence < b.sequence || (a.sequence == b.sequence && a.generatedAt <= b.generatedAt)
  }

  /** What the checker answers; a positive maximum age refuses to answer from an older set. */
  function StatusOf(hash: Hash, s: Set, exact: Option<string -> Verify.RevocationAnswer>, maxAge: int,
                    now: int, id: string): Verify.RevocationAnswer
  {
    if id == "" then Verify.Unknown
    else if maxAge > 0 && now - Instant(s.generatedAt) > maxAge then Verify.Unknown
    else if !Admits(hash, s, id) then Verify.Clean
    else if exact.None? then Verify.Revoked
    else exact.value(id)
  }

  class Checker {
    const hash: Hash
    const exact: Option<string -> Verify.RevocationAnswer>
    const maxAge: int
    var held: Set

    constructor (hash: Hash, s: Set, exact: Option<string -> Verify.RevocationAnswer>, maxAge: int)
      ensures held == s && this.hash == hash && this.exact == exact && this.maxAge == maxAge
    {
      this.hash, held, this.exact, this.maxAge := hash, s, exact, maxAge;
    }

    method IsRevoked(now: int, id: string) returns (r: Verify.RevocationAnswer)
      requires held.hashes >= 0
      ensures r == StatusOf(hash, held, exact, maxAge, now, id)
    {
      if id == "" {
        return Verify.Unknown;
      }
      if maxAge > 0 {
        var age := now - Instant(held.generatedAt);
        if age > maxAge {
          return Verify.Unknown;
        }
      }
      var admitted := MayContain(hash, held, id);
      if !admitted {
        return Verify.Clean;
      }
      if exact.None? {
        return Verify.Revoked;
      }
      return exact.value(id);
    }

    method Replace(next: Option<Set>) returns (ok: bool)
      modifies this
      ensures ok <==> next.Some? && NotNewer(old(held), next.value)
      ensures held == Superseded(old(held), next)
    {
      if next.None? {
        return false;
      }
      if next.value.sequence < held.sequence {
        return false;
      }
      if next.value.sequence == held.sequence && next.value.generatedAt < held.generatedAt {
        return false;
      }
      held := next.value;
      return true;
    }
  }

  /** The set held after an offer, accepted or refused. */
  function Superseded(held: Set, next: Option<Set>): Set {
    if next.Some? && NotNewer(held, next.value) then next.value else held
  }

  function HeldAfter(first: Set, offers: seq<Option<Set>>): Set {
    if offers == [] then first
    else Superseded(HeldAfter(first, offers[..|offers| - 1]), offers[|offers| - 1])
  }

  /** Over any offers, accepted or refused, the held set never goes back. */
  lemma {:induction false} HeldNeverGoesBack(first: Set, offers: seq<Option<Set>>, n: nat)
    requires n <= |offers|
    ensures NotNewer(HeldAfter(first, offers[..n]), HeldAfter(first, offers))
    decreases |offers|
  {
    if n == |offers| {
      assert offers[..n] == offers;
    } else {
      var before := offers[..|offers| - 1];
      assert before[..n] == offers[..n];
      HeldNeverGoesBack(first, before, n);
    }
  }

  /**
   In sequence and time: whatever is offered, the sequence held never falls, and while it
   stays the time held does not fall either.
   */
  lemma HeldSequenceNeverFalls(first: Set, offers: seq<Option<Set>>, n: nat)
    requires n <= |offers|
    ensures var a, b := HeldAfter(first, offers[..n]), HeldAfter(first, offers);
            a.sequence <= b.sequence && (a.sequence == b.sequence ==> a.generatedAt <= b.generatedAt)
  {
    HeldNeverGoesBack(first, offers, n);
  }

  /**
   An offer is the set held afterwards when its sequence is higher, or the same and its time no
   earlier; otherwise the set held stays.
   */
  lemma NewestIsHeld(first: Set, offers: seq<Option<Set>>, next: Set)
    ensures var held, after := HeldAfter(first, offers), HeldAfter(first, offers + [Some(next)]);
            && (next.sequence > held.sequence ==> after == next)
            && (next.sequence < held.sequence ==> after == held)
            && (next.sequence == held.sequence ==> after == if next.generatedAt >= held.generatedAt then next else held)
    ensures HeldAfter(first, offers + [None]) == HeldAfter(first, offers)
  {
    assert (offers + [Some(next)])[..|offers|] == offers && (offers + [None])[..|offers|] == offers;
  }

  /** The answer is clean exactly when the identifier is named, the set is young enough and one of its tests says no. */
  lemma CleanIff(hash: Hash, s: Set, exact: Option<string -> Verify.RevocationAnswer>, maxAge: int, now: int, id: string)
    ensures var stale := maxAge > 0 && now - Instant(s.generatedAt) > maxAge;
            var listed := s.bits != [] && forall i: nat :: i < s.hashes ==> BitAt(s.bits, Index(hash(id), i, 8 * |s.bits|));
            var status := StatusOf(hash, s, exact, maxAge, now, id);
            && (id == "" || stale ==> status == Verify.Unknown)
            && (id != "" && !stale && !listed ==> status == Verify.Clean)
            && (id != "" && !stale && listed ==> status == if exact.Some? then exact.value(id) else Verify.Revoked)
  {}

  /** What parses as a set is a record of version 1 whose fields are in range, read as they stand. */
  lemma ParsedSetIff(json: Json<Wire>, raw: seq<Byte>, w: Wire)
    requires json.parse(raw) == Some(w)
    ensures ParseSet(json, raw).Some? <==>
              && w.version == 1 && 1 <= w.hashes <= 64 && w.generatedAt > 0
              && Decode(w.bits).Some? && Decode(w.bits).value != []
    ensures ParseSet(json, raw).Some? ==>
              var s := ParseSet(json, raw).value;
              && ToBytes(s.bits) == Decode(w.bits).value
              && s.hashes == w.hashes && s.sequence == w.sequence && s.generatedAt == w.generatedAt
  {
    if ParseSet(json, raw).Some? {
      FromThenTo(Decode(w.bits).value);
    }
  }

  lemma FromThenTo(bytes: seq<Byte>)
    ensures ToBytes(FromBytes(bytes)) == bytes
  {
    forall i | 0 <= i < |bytes| ensures ToBytes(FromBytes(bytes))[i] == bytes[i] {
      ByteAsBits(bytes[i]);
    }
  }

  lemma ByteAsBits(b: Byte)
    ensures b as bv8 as Byte == b
  {}

  /** The identifiers a publisher has revoked, by sequence and time; once revoked, always revoked. */
  ghost predicate Grows(published: (Word, Int64) -> set<string>) {
    forall q: Word, r: Word, t: Int64, u: Int64 :: q < r || (q == r && t <= u) ==> published(q, t) <= published(r, u)
  }

  ghost predicate Faithful(hash: Hash, published: (Word, Int64) -> set<string>, s: Set) {
    IsFilter(hash, s, published(s.sequence, s.generatedAt))
  }

  lemma {:induction false} HeldIsFaithful(hash: Hash, published: (Word, Int64) -> set<string>, first: Set, offers: seq<Option<Set>>)
    requires Faithful(hash, published, first)
    requires forall o :: o in offers && o.Some? ==> Faithful(hash, published, o.value)
    ensures Faithful(hash, published, HeldAfter(first, offers))
    decreases |offers|
  {
    if offers != [] {
      HeldIsFaithful(hash, published, first, offers[..|offers| - 1]);
    }
  }

  /**
   With a publisher that never withdraws a revocation, an identifier revoked in any set the
   checker has held is never reported clean again, at any time.
   */
  lemma RevokedStaysRevoked(hash: Hash, published: (Word, Int64) -> set<string>, first: Set, offers: seq<Option<Set>>,
                            n: nat, id: string, maxAge: int, now: int)
    requires Grows(published) && Faithful(hash, published, first) && n <= |offers|
    requires forall o :: o in offers && o.Some? ==> Faithful(hash, published, o.value)
    requires var held := HeldAfter(first, offers[..n]); id in published(held.sequence, held.generatedAt)
    ensures StatusOf(hash, HeldAfter(first, offers), None, maxAge, now, id) != Verify.Clean
  {
    HeldNeverGoesBack(first, offers, n);
    HeldIsFaithful(hash, published, first, offers);
    var held := HeldAfter(first, offers);
    NoFalseNegatives(hash, held, published(held.sequence, held.generatedAt), id);
  }
}
