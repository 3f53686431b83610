/**
 Compact serialization, parsing and key lookup (pkg/jose/jose.go, pkg/mda/parse.go).

 JSON, SHA-256 and Ed25519 are function-valued members of `Primitives`; what is assumed of
 them is stated by its predicates and nowhere else.
 */
module Jose {
  import opened Wrappers
  import opened Base64Url
  import opened Mda

  const ALGORITHM := "EdDSA"
  const TYPE := "mdt+jwt"
  const PRIVATE_KEY_SIZE := 64
  const PUBLIC_KEY_SIZE := 32

  type Key = seq<Byte>

  datatype Header = Header(algorithm: string, typ: string, keyId: string, critical: seq<string>)

  /** A JSON printer and the strict decoder for the same type. */
  datatype Json<!T(!new)> = Json(print_: T -> seq<Byte>, parse: seq<Byte> -> Option<T>)
  {
    ghost predicate LeftInverse() {
      forall x: T :: parse(print_(x)) == Some(x)
    }
  }

  datatype Primitives = Primitives(
    headers: Json<Header>,
    claims: Json<Claims>,
    sha256: string -> seq<Byte>,
    publicKey: Key -> Key,
    edSign: (Key, string) -> seq<Byte>,
    edVerify: (Key, string, seq<Byte>) -> bool)
  {
    /** Parsing undoes printing, and a signature verifies under the signer's public key. */
    ghost predicate Sound() {
      && headers.LeftInverse()
      && claims.LeftInverse()
      && (forall k: Key :: |k| == PRIVATE_KEY_SIZE ==> |publicKey(k)| == PUBLIC_KEY_SIZE)
      && forall k: Key, m: string :: |k| == PRIVATE_KEY_SIZE ==> edVerify(publicKey(k), m, edSign(k, m))
    }

    ghost predicate CollisionFree() {
      forall x, y :: sha256(x) == sha256(y) ==> x == y
    }

    /** A signature verifies only over what the holder of the key signed. */
    ghost predicate Unforgeable(signed: (Key, string) -> bool) {
      forall k: Key, m: string, s :: edVerify(k, m, s) ==> signed(k, m)
    }

    function Digest(compact: string): string {
      "sha-256:" + Encode(sha256(compact))
    }
  }

  lemma DigestInjective(pr: Primitives, x: string, y: string)
    requires pr.CollisionFree() && pr.Digest(x) == pr.Digest(y)
    ensures x == y
  {
    assert pr.Digest(x)[8..] == Encode(pr.sha256(x));
    assert pr.Digest(y)[8..] == Encode(pr.sha256(y));
    EncodeInjective(pr.sha256(x), pr.sha256(y));
  }

  /* ----- Splitting on dots ----- */

  function Split(s: string): (parts: seq<string>)
    ensures |parts| > 0
  {
    if s == "" then [""]
    else
      var rest := Split(s[1..]);
      if s[0] == '.' then [""] + rest else [[s[0]] + rest[0]] + rest[1..]
  }

  function Join(parts: seq<string>): string
    requires parts != []
  {
    if |parts| == 1 then parts[0] else parts[0] + "." + Join(parts[1..])
  }

  lemma {:induction false} SplitDotFree(a: string, rest: string)
    requires '.' !in a
    ensures Split(a) == [a]
    ensures Split(a + "." + rest) == [a] + Split(rest)
  {
    if a == "" {
      assert (a + "." + rest)[1..] == rest;
    } else {
      SplitDotFree(a[1..], rest);
      assert (a + "." + rest)[1..] == a[1..] + "." + rest;
      assert [a[0]] + a[1..] == a;
    }
  }

  lemma {:induction false} JoinSplit(s: string)
    ensures Join(Split(s)) == s
  {
    if s != "" {
      JoinSplit(s[1..]);
      var rest := Split(s[1..]);
      if s[0] == '.' {
        assert ([""] + rest)[1..] == rest;
        assert s == "." + s[1..];
      } else {
        var parts := [[s[0]] + rest[0]] + rest[1..];
        assert parts[1..] == rest[1..];
        assert s == [s[0]] + s[1..];
      }
    }
  }

  /* ----- Sign and parse ----- */

  function SigningInput(pr: Primitives, h: Header, c: Claims): string {
    Encode(pr.headers.print_(h)) + "." + Encode(pr.claims.print_(c))
  }

  /** The compact serialization of c under key; None when the key has the wrong size. */
  function Sign(pr: Primitives, c: Claims, key: Key, keyId: string): Option<string> {
    if |key| != PRIVATE_KEY_SIZE then None
    else
      var input := SigningInput(pr, Header(ALGORITHM, TYPE, keyId, []), c);
      Some(input + "." + Encode(pr.edSign(key, input)))
  }

  predicate Acceptable(h: Header) {
    h.algorithm == ALGORITHM && h.typ == TYPE && h.critical == []
  }

  /** Decodes header and payload without looking at the signature. */
  function Parse(pr: Primitives, compact: string): Result<(Header, seq<Byte>), ParseError> {
    var parts := Split(compact);
    if |parts| != 3 then Err(BadShape)
    else
      var rawHeader := Decode(parts[0]);
      if rawHeader.None? then Err(BadShape)
      else
        var h := pr.headers.parse(rawHeader.value);
        if h.None? then Err(BadShape)
        else if !Acceptable(h.value) then Err(BadHeader)
        else
          var payload := Decode(parts[1]);
          if payload.None? then Err(BadShape) else Ok((h.value, payload.value))
  }

  function ParseClaims(pr: Primitives, compact: string): Result<Claims, ParseError> {
    var parsed := Parse(pr, compact);
    if parsed.Err? then Err(parsed.error)
    else
      var c := pr.claims.parse(parsed.value.1);
      if c.None? then Err(BadShape) else Ok(c.value)
  }

  function CodecOf(pr: Primitives): Codec {
    Codec(raw => ParseClaims(pr, raw), raw => pr.Digest(raw))
  }

  /**
   What parses is three parts: a header that decodes, is this algorithm and type and asks for
   no extension, and a payload that decodes; the header is at fault only when it is read and
   is not that.
   */
  lemma ParseIff(pr: Primitives, compact: string)
    ensures var parts := Split(compact);
            var header := if |parts| == 3 && Decode(parts[0]).Some? then pr.headers.parse(Decode(parts[0]).value) else None;
            var ours := header.Some? && header.value.algorithm == "EdDSA" && header.value.typ == "mdt+jwt" && header.value.critical == [];
            match Parse(pr, compact)
            case Ok(p) => ours && p.0 == header.value && Decode(parts[1]) == Some(p.1)
            case Err(BadHeader) => header.Some? && !ours
            case Err(BadShape) => header.None? || (ours && Decode(parts[1]).None?)
  {}

  lemma CodecCollisionFree(pr: Primitives)
    requires pr.CollisionFree()
    ensures CodecOf(pr).CollisionFree()
  {
    forall x, y | CodecOf(pr).digest(x) == CodecOf(pr).digest(y) ensures x == y {
      DigestInjective(pr, x, y);
    }
    forall x ensures '\n' !in CodecOf(pr).digest(x) {
      var d := pr.Digest(x);
      assert d == "sha-256:" + Encode(pr.sha256(x));
      assert forall i :: 8 <= i < |d| ==> d[i] == Encode(pr.sha256(x))[i - 8] && IsDigit(d[i]);
    }
  }

  lemma EncodeHasNoDot(b: seq<Byte>)
    ensures '.' !in Encode(b)
  {}

  lemma SplitThree(a: string, b: string, c: string)
    requires '.' !in a && '.' !in b && '.' !in c
    ensures Split(a + "." + b + "." + c) == [a, b, c]
  {
    assert a + "." + b + "." + c == a + "." + (b + "." + c);
    SplitDotFree(a, b + "." + c);
    SplitDotFree(b, c);
    SplitDotFree(c, "");
  }

  lemma SignedParts(pr: Primitives, c: Claims, key: Key, keyId: string)
    requires |key| == PRIVATE_KEY_SIZE
    ensures var h := Header(ALGORITHM, TYPE, keyId, []);
            Split(Sign(pr, c, key, keyId).value) ==
              [Encode(pr.headers.print_(h)), Encode(pr.claims.print_(c)), Encode(pr.edSign(key, SigningInput(pr, h, c)))]
  {
    var h := Header(ALGORITHM, TYPE, keyId, []);
    var a, b, s := Encode(pr.headers.print_(h)), Encode(pr.claims.print_(c)), Encode(pr.edSign(key, SigningInput(pr, h, c)));
    EncodeHasNoDot(pr.headers.print_(h));
    EncodeHasNoDot(pr.claims.print_(c));
    EncodeHasNoDot(pr.edSign(key, SigningInput(pr, h, c)));
    SplitThree(a, b, s);
  }

  /** Parsing a signed serialization returns the header and claims that were signed. */
  lemma ParseSigned(pr: Primitives, c: Claims, key: Key, keyId: string)
    requires pr.Sound() && |key| == PRIVATE_KEY_SIZE
    ensures var raw := Sign(pr, c, key, keyId).value;
            var h := Header(ALGORITHM, TYPE, keyId, []);
            && raw != ""
            && Parse(pr, raw) == Ok((h, pr.claims.print_(c)))
            && ParseClaims(pr, raw) == Ok(c)
  {
    var h := Header(ALGORITHM, TYPE, keyId, []);
    SignedParts(pr, c, key, keyId);
    RoundTrip(pr.headers.print_(h));
    RoundTrip(pr.claims.print_(c));
    assert pr.headers.parse(pr.headers.print_(h)) == Some(h);
    assert pr.claims.parse(pr.claims.print_(c)) == Some(c);
  }

  /* ----- Signature verification ----- */

  /** The check on the received bytes, given the key to check them under. */
  function SignatureHolds(pr: Primitives, compact: string, key: Key): bool {
    var parts := Split(compact);
    |parts| == 3 &&
    var sig := Decode(parts[2]);
    sig.Some? && pr.edVerify(key, parts[0] + "." + parts[1], sig.value)
  }

  /** What is checked is everything received before the last dot. */
  lemma CheckedBytesAreReceivedBytes(pr: Primitives, compact: string)
    requires Parse(pr, compact).Ok?
    ensures var parts := Split(compact);
            |parts| == 3 && compact == (parts[0] + "." + parts[1]) + "." + parts[2]
  {
    JoinSplit(compact);
    var parts := Split(compact);
    assert parts[1..][1..] == [parts[2]];
    assert Join(parts[1..]) == parts[1] + "." + parts[2];
  }

  /** The verifier rebuilds exactly the bytes that were signed. */
  lemma SignedVerifies(pr: Primitives, c: Claims, key: Key, keyId: string)
    requires pr.Sound() && |key| == PRIVATE_KEY_SIZE
    ensures SignatureHolds(pr, Sign(pr, c, key, keyId).value, pr.publicKey(key))
  {
    SignedParts(pr, c, key, keyId);
    var input := SigningInput(pr, Header(ALGORITHM, TYPE, keyId, []), c);
    RoundTrip(pr.edSign(key, input));
  }

  /** The map key a key ring files a key under. */
  function Slot(issuer: string, keyId: string): string {
    issuer + "\0" + keyId
  }

  predicate RingVerifies(pr: Primitives, keys: map<string, Key>, issuer: string, compact: string) {
    var parsed := Parse(pr, compact);
    parsed.Ok? &&
    var slot := Slot(issuer, parsed.value.0.keyId);
    slot in keys && SignatureHolds(pr, compact, keys[slot])
  }

  class KeyRing {
    var keys: map<string, Key>

    constructor ()
      ensures keys == map[]
    {
      keys := map[];
    }

    method Add(issuer: string, keyId: string, key: Key) returns (ok: bool)
      modifies this
      ensures ok <==> issuer != "" && |key| == PUBLIC_KEY_SIZE
      ensures keys == if ok then old(keys)[Slot(issuer, keyId) := key] else old(keys)
    {
      if issuer == "" || |key| != PUBLIC_KEY_SIZE {
        return false;
      }
      keys := keys[Slot(issuer, keyId) := key];
      return true;
    }

    method VerifySignature(pr: Primitives, issuer: string, compact: string) returns (ok: bool)
      ensures ok <==> RingVerifies(pr, keys, issuer, compact)
    {
      var parsed := Parse(pr, compact);
      if parsed.Err? {
        return false;
      }
      var slot := Slot(issuer, parsed.value.0.keyId);
      if slot !in keys {
        return false;
      }
      var parts := Split(compact);
      var sig := Decode(parts[2]);
      if sig.None? {
        return false;
      }
      return pr.edVerify(keys[slot], parts[0] + "." + parts[1], sig.value);
    }
  }

  /**
   What the ring accepts ends in a signature that verifies, under a key filed for the issuer,
   over everything received before the last dot.
   */
  lemma RingAcceptsOnlySigned(pr: Primitives, keys: map<string, Key>, issuer: string, compact: string)
    requires RingVerifies(pr, keys, issuer, compact)
    ensures exists kid, input, last, sig :: SignedUnder(pr, keys, issuer, compact, kid, input, last, sig)
  {
    CheckedBytesAreReceivedBytes(pr, compact);
    var parts := Split(compact);
    LastPartHasNoDot(compact);
    var kid := Parse(pr, compact).value.0.keyId;
    assert SignedUnder(pr, keys, issuer, compact, kid, parts[0] + "." + parts[1], parts[2], Decode(parts[2]).value);
  }

  ghost predicate SignedUnder(pr: Primitives, keys: map<string, Key>, issuer: string, compact: string,
                              kid: string, input: string, last: string, sig: seq<Byte>)
  {
    && compact == input + "." + last && '.' !in last && Decode(last) == Some(sig)
    && Slot(issuer, kid) in keys && pr.edVerify(keys[Slot(issuer, kid)], input, sig)
  }

  lemma {:induction false} LastPartHasNoDot(s: string)
    ensures Split(s) != [] && '.' !in Split(s)[|Split(s)| - 1]
    decreases |s|
  {
    if s != "" {
      LastPartHasNoDot(s[1..]);
    }
  }

  /** Some key filed for the issuer was used by its holder to sign this input. */
  ghost predicate HolderSigned(keys: map<string, Key>, signed: (Key, string) -> bool, issuer: string, input: string) {
    exists kid :: Slot(issuer, kid) in keys && signed(keys[Slot(issuer, kid)], input)
  }

  /** If signatures cannot be forged, what the ring accepts was signed by the holder of an issuer's key. */
  lemma RingAcceptsOnlyTheHolder(pr: Primitives, keys: map<string, Key>, signed: (Key, string) -> bool, issuer: string, compact: string)
    requires pr.Unforgeable(signed) && RingVerifies(pr, keys, issuer, compact)
    ensures exists input, last :: compact == input + "." + last && '.' !in last && HolderSigned(keys, signed, issuer, input)
  {
    RingAcceptsOnlySigned(pr, keys, issuer, compact);
    var kid, input, last, sig :| SignedUnder(pr, keys, issuer, compact, kid, input, last, sig);
    assert signed(keys[Slot(issuer, kid)], input);
  }

  lemma RingVerifiesSigned(pr: Primitives, keys: map<string, Key>, c: Claims, issuer: string, key: Key, keyId: string)
    requires pr.Sound() && |key| == PRIVATE_KEY_SIZE
    requires Slot(issuer, keyId) in keys && keys[Slot(issuer, keyId)] == pr.publicKey(key)
    ensures RingVerifies(pr, keys, issuer, Sign(pr, c, key, keyId).value)
  {
    ParseSigned(pr, c, key, keyId);
    SignedVerifies(pr, c, key, keyId);
  }

  lemma SlotsOfNulFreeIssuers(i: string, j: string, k: string, l: string)
    requires '\0' !in i && '\0' !in j && Slot(i, k) == Slot(j, l)
    ensures i == j && k == l
  {
    var s := Slot(i, k);
    assert s[|i|] == '\0' && Slot(j, l)[|j|] == '\0';
    assert forall n :: 0 <= n < |i| ==> s[n] == i[n] && s[n] != '\0';
    assert forall n :: 0 <= n < |j| ==> s[n] == Slot(j, l)[n] == j[n] && s[n] != '\0';
    assert |i| == |j|;
    assert i == s[..|i|] && j == Slot(j, l)[..|i|];
    assert k == s[|i| + 1..] && l == Slot(j, l)[|i| + 1..];
  }

  /**
   Keys of different issuers never share a slot, exactly when no NUL stands in the issuer:
   an issuer with one shares a slot with the issuer that ends before it.
   */
  lemma SlotsDistinctIffNulFree(i: string)
    ensures '\0' !in i <==>
              forall j, k, l :: '\0' !in j && Slot(i, k) == Slot(j, l) ==> i == j && k == l
  {
    if '\0' !in i {
      forall j, k, l | '\0' !in j && Slot(i, k) == Slot(j, l) ensures i == j && k == l {
        SlotsOfNulFreeIssuers(i, j, k, l);
      }
    } else {
      var n := FirstNul(i);
      var j, l := i[..n], i[n + 1..] + "\0";
      assert i == j + "\0" + i[n + 1..];
      assert Slot(i, "") == Slot(j, l);
      assert '\0' !in j && i != j;
    }
  }

  lemma {:induction false} FirstNul(s: string) returns (n: nat)
    requires '\0' in s
    ensures n < |s| && s[n] == '\0' && '\0' !in s[..n]
  {
    if s[0] == '\0' {
      return 0;
    }
    var m := FirstNul(s[1..]);
    n := m + 1;
    assert s[..n] == [s[0]] + s[1..][..m];
  }
}
