/**
 Chain verification, rules V1 to V9 (pkg/verify/verify.go).

 Signature checking and revocation are function-valued members of `Verifier`, fixed for one call.
 */
module Verify {
  import opened Wrappers
  import opened Clock
  import opened Strings
  import opened Mda
  import opened Attenuation
  import opened Permits

  datatype RevocationAnswer = Clean | Revoked | Unknown

  datatype Verifier = Verifier(
    codec: Codec,
    sigs: (string, string) -> bool,
    revoked: string -> RevocationAnswer,
    audience: string,
    now: int,
    skew: int)

  datatype Rule = V1 | V2 | V3 | V4 | V5 | V6 | V7 | V8 | V9

  /** The rule refused and the link it was refused at; -1 for the chain as a whole. */
  datatype Fault = Fault(rule: Rule, index: int)

  datatype Verified = Verified(
    sponsor: Sponsor, agent: string, actors: seq<string>, capabilities: seq<Capability>,
    sequence: Option<Sequence>, depth: Int64, chainDigest: string, leafId: string, rootId: string)

  predicate InTime(v: Verifier, c: Claims) {
    Instant(c.issuedAt) <= v.now + v.skew && v.now - v.skew < Instant(c.expiresAt)
  }

  /* ----- The checks, as the rule each one reports at link i ----- */

  datatype Stage = Shape | Structure | Signatures | Time | Narrowness | Roots | DepthLimit | Revocations | Audience

  function FaultAt(v: Verifier, raws: seq<string>, links: seq<Claims>, stage: Stage, i: nat): Option<Rule>
    requires i < |links| == |raws|
  {
    var c := links[i];
    match stage
    case Shape => if WellFormed(c) then None else Some(V1)
    case Structure =>
      if i == 0 then
        if c.depth != 0 || c.parent != "" then Some(V1) else None
      else if c.parent != v.codec.digest(raws[i - 1]) then Some(V1)
      else if c.depth != Wrap64(links[i - 1].depth + 1) then Some(V1)
      else if c.issuer != links[i - 1].subject then Some(V2)
      else None
    case Signatures => if v.sigs(c.issuer, raws[i]) then None else Some(V3)
    case Time => if InTime(v, c) then None else Some(V4)
    case Narrowness => if i > 0 && !NoWider(links[i - 1], c) then Some(V5) else None
    case Roots => if i > 0 && c.root != links[0].root then Some(V6) else None
    case DepthLimit => if i == |links| - 1 && i > links[0].maxDepth then Some(V7) else None
    case Revocations => if v.revoked(c.id) == Clean then None else Some(V8)
    case Audience => if i == |links| - 1 && c.audience != v.audience then Some(V9) else None
  }

  /** The first link from i on that a check refuses. */
  function FirstFault(v: Verifier, raws: seq<string>, links: seq<Claims>, stage: Stage, i: nat): Option<Fault>
    requires i <= |links| == |raws|
    decreases |links| - i
  {
    if i == |links| then None
    else
      var rule := FaultAt(v, raws, links, stage, i);
      if rule.Some? then Some(Fault(rule.value, i)) else FirstFault(v, raws, links, stage, i + 1)
  }

  const STAGES := [Shape, Structure, Signatures, Time, Narrowness, Roots, DepthLimit, Revocations, Audience]

  /** The first check, from the k-th on, that refuses some link. */
  function FirstRefusal(v: Verifier, raws: seq<string>, links: seq<Claims>, k: nat): Option<Fault>
    requires |links| == |raws| && k <= |STAGES|
    decreases |STAGES| - k
  {
    if k == |STAGES| then None
    else
      var f := FirstFault(v, raws, links, STAGES[k], 0);
      if f.Some? then f else FirstRefusal(v, raws, links, k + 1)
  }

  function ParseLink(v: Verifier, raw: string): Result<Claims, Rule> {
    if raw == "" then Err(V1)
    else match v.codec.parse(raw)
      case Ok(c) => Ok(c)
      case Err(BadHeader) => Err(V3)
      case Err(BadShape) => Err(V1)
  }

  /** The claims the bytes carry, from link i on. */
  function ParseLinks(v: Verifier, raws: seq<string>, i: nat): Result<seq<Claims>, Fault>
    requires i <= |raws|
    decreases |raws| - i
  {
    if i == |raws| then Ok([])
    else match ParseLink(v, raws[i])
      case Err(rule) => Err(Fault(rule, i))
      case Ok(c) =>
        match ParseLinks(v, raws, i + 1)
        case Err(f) => Err(f)
        case Ok(rest) => Ok([c] + rest)
  }

  function JoinDigests(codec: Codec, raws: seq<string>): string {
    if raws == [] then "" else codec.digest(raws[0]) + "\n" + JoinDigests(codec, raws[1..])
  }

  function ChainDigestOf(codec: Codec, raws: seq<string>): string {
    codec.digest(JoinDigests(codec, raws))
  }

  function Subjects(links: seq<Claims>): seq<string> {
    seq(|links|, i requires 0 <= i < |links| => links[i].subject)
  }

  function Summary(codec: Codec, raws: seq<string>, links: seq<Claims>): Verified
    requires links != []
  {
    var leaf := links[|links| - 1];
    Verified(leaf.root, leaf.subject, Subjects(links), leaf.Grants(), leaf.sequence, leaf.depth,
             ChainDigestOf(codec, raws), leaf.id, links[0].id)
  }

  /** The verdict on a chain, from its bytes alone. */
  function Verdict(v: Verifier, raws: seq<string>): Result<Verified, Fault> {
    if raws == [] then Err(Fault(V1, -1))
    else match ParseLinks(v, raws, 0)
      case Err(f) => Err(f)
      case Ok(links) =>
        ParseLinksMeaning(v, raws, 0);
        var refusal := FirstRefusal(v, raws, links, 0);
        if refusal.Some? then Err(refusal.value) else Ok(Summary(v.codec, raws, links))
  }

  lemma {:induction false} ParseLinksMeaning(v: Verifier, raws: seq<string>, i: nat)
    requires i <= |raws|
    ensures ParseLinks(v, raws, i).Ok? ==>
              var links := ParseLinks(v, raws, i).value;
              |links| == |raws| - i && forall k :: i <= k < |raws| ==> ParseLink(v, raws[k]) == Ok(links[k - i])
    ensures (forall k :: i <= k < |raws| ==> ParseLink(v, raws[k]).Ok?) ==> ParseLinks(v, raws, i).Ok?
    decreases |raws| - i
  {
    if i < |raws| {
      ParseLinksMeaning(v, raws, i + 1);
    }
  }

  /* ----- The verifier ----- */

  function Raws(chain: seq<Assertion>): seq<string> {
    seq(|chain|, i requires 0 <= i < |chain| => chain[i].raw)
  }

  method CheckShape(v: Verifier, raws: seq<string>, links: seq<Claims>) returns (f: Option<Fault>)
    requires |links| == |raws|
    ensures f == FirstFault(v, raws, links, Shape, 0)
  {
    for i := 0 to |links|
      invariant FirstFault(v, raws, links, Shape, 0) == FirstFault(v, raws, links, Shape, i)
    {
      var valid := Validate(links[i]);
      if !valid {
        return Some(Fault(V1, i));
      }
    }
    return None;
  }

  method CheckStructure(v: Verifier, raws: seq<string>, links: seq<Claims>) returns (f: Option<Fault>)
    requires |links| == |raws| > 0
    ensures f == FirstFault(v, raws, links, Structure, 0)
  {
    if links[0].depth != 0 {
      return Some(Fault(V1, 0));
    }
    if links[0].parent != "" {
      return Some(Fault(V1, 0));
    }
    for i := 1 to |links|
      invariant FirstFault(v, raws, links, Structure, 0) == FirstFault(v, raws, links, Structure, i)
    {
      var want := v.codec.digest(raws[i - 1]);
      if links[i].parent != want {
        return Some(Fault(V1, i));
      }
      if links[i].depth != Wrap64(links[i - 1].depth + 1) {
        return Some(Fault(V1, i));
      }
      if links[i].issuer != links[i - 1].subject {
        return Some(Fault(V2, i));
      }
    }
    return None;
  }

  method CheckSignatures(v: Verifier, raws: seq<string>, links: seq<Claims>) returns (f: Option<Fault>)
    requires |links| == |raws|
    ensures f == FirstFault(v, raws, links, Signatures, 0)
  {
    for i := 0 to |links|
      invariant FirstFault(v, raws, links, Signatures, 0) == FirstFault(v, raws, links, Signatures, i)
    {
      if !v.sigs(links[i].issuer, raws[i]) {
        return Some(Fault(V3, i));
      }
    }
    return None;
  }

  method CheckTime(v: Verifier, raws: seq<string>, links: seq<Claims>) returns (f: Option<Fault>)
    requires |links| == |raws|
    ensures f == FirstFault(v, raws, links, Time, 0)
  {
    for i := 0 to |links|
      invariant FirstFault(v, raws, links, Time, 0) == FirstFault(v, raws, links, Time, i)
    {
      var iat, exp := Instant(links[i].issuedAt), Instant(links[i].expiresAt);
      if v.now + v.skew < iat {
        return Some(Fault(V4, i));
      }
      if !(v.now - v.skew < exp) {
        return Some(Fault(V4, i));
      }
    }
    return None;
  }

  method CheckAttenuation(v: Verifier, raws: seq<string>, links: seq<Claims>) returns (f: Option<Fault>)
    requires |links| == |raws| > 0
    ensures f == FirstFault(v, raws, links, Narrowness, 0)
  {
    for i := 1 to |links|
      invariant FirstFault(v, raws, links, Narrowness, 0) == FirstFault(v, raws, links, Narrowness, i)
    {
      var narrows := Attenuates(links[i - 1], links[i]);
      if !narrows {
        return Some(Fault(V5, i));
      }
    }
    return None;
  }

  method CheckRoot(v: Verifier, raws: seq<string>, links: seq<Claims>) returns (f: Option<Fault>)
    requires |links| == |raws| > 0
    ensures f == FirstFault(v, raws, links, Roots, 0)
  {
    var want := links[0].root;
    for i := 1 to |links|
      invariant FirstFault(v, raws, links, Roots, 0) == FirstFault(v, raws, links, Roots, i)
    {
      var got := links[i].root;
      if got.issuer != want.issuer || got.subject != want.subject {
        return Some(Fault(V6, i));
      }
      if got.authenticatedAt != want.authenticatedAt {
        return Some(Fault(V6, i));
      }
      if got.authenticationMethods != want.authenticationMethods {
        return Some(Fault(V6, i));
      }
    }
    return None;
  }

  method CheckDepth(v: Verifier, raws: seq<string>, links: seq<Claims>) returns (f: Option<Fault>)
    requires |links| == |raws| > 0
    ensures f == FirstFault(v, raws, links, DepthLimit, 0)
  {
    OnlyLeafFaults(v, raws, links, DepthLimit, 0);
    var hops := |links| - 1;
    if hops > links[0].maxDepth {
      return Some(Fault(V7, hops));
    }
    return None;
  }

  method CheckRevocation(v: Verifier, raws: seq<string>, links: seq<Claims>) returns (f: Option<Fault>)
    requires |links| == |raws|
    ensures f == FirstFault(v, raws, links, Revocations, 0)
  {
    for i := 0 to |links|
      invariant FirstFault(v, raws, links, Revocations, 0) == FirstFault(v, raws, links, Revocations, i)
    {
      var answer := v.revoked(links[i].id);
      if answer == Unknown {
        return Some(Fault(V8, i));
      }
      if answer == Revoked {
        return Some(Fault(V8, i));
      }
    }
    return None;
  }

  method CheckAudience(v: Verifier, raws: seq<string>, links: seq<Claims>) returns (f: Option<Fault>)
    requires |links| == |raws| > 0
    ensures f == FirstFault(v, raws, links, Audience, 0)
  {
    OnlyLeafFaults(v, raws, links, Audience, 0);
    var leaf := |links| - 1;
    if links[leaf].audience != v.audience {
      return Some(Fault(V9, leaf));
    }
    return None;
  }

  /** The two checks about the leaf report nothing above it. */
  lemma {:induction false} OnlyLeafFaults(v: Verifier, raws: seq<string>, links: seq<Claims>, stage: Stage, i: nat)
    requires i < |links| == |raws|
    requires stage == DepthLimit || stage == Audience
    ensures FirstFault(v, raws, links, stage, i) == FirstFault(v, raws, links, stage, |links| - 1)
    decreases |links| - i
  {
    if i < |links| - 1 {
      OnlyLeafFaults(v, raws, links, stage, i + 1);
    }
  }

  method ChainDigest(codec: Codec, raws: seq<string>) returns (d: string)
    ensures d == ChainDigestOf(codec, raws)
  {
    var joined := "";
    for i := 0 to |raws|
      invariant joined + JoinDigests(codec, raws[i..]) == JoinDigests(codec, raws)
    {
      joined := joined + codec.digest(raws[i]);
      joined := joined + "\n";
    }
    assert joined + "" == joined;
    return codec.digest(joined);
  }

  method ParseAll(v: Verifier, chain: seq<Assertion>) returns (r: Result<seq<Claims>, Fault>)
    ensures r == ParseLinks(v, Raws(chain), 0)
  {
    ghost var raws := Raws(chain);
    assert ParseLinks(v, raws, 0).Ok? ==> [] + ParseLinks(v, raws, 0).value == ParseLinks(v, raws, 0).value;
    var links: seq<Claims> := [];
    for i := 0 to |chain|
      invariant |links| == i
      invariant match ParseLinks(v, raws, i)
                case Ok(rest) => ParseLinks(v, raws, 0) == Ok(links + rest)
                case Err(f) => ParseLinks(v, raws, 0) == Err(f)
    {
      var raw := chain[i].raw;
      if |raw| == 0 {
        return Err(Fault(V1, i));
      }
      var claims := v.codec.parse(raw);
      if claims.Err? {
        return Err(Fault(if claims.error == BadHeader then V3 else V1, i));
      }
      links := links + [claims.value];
      assert forall rest :: links[..i] + ([claims.value] + rest) == links + rest;
    }
    assert links + [] == links;
    return Ok(links);
  }

  method RunChecks(v: Verifier, raws: seq<string>, links: seq<Claims>) returns (f: Option<Fault>)
    requires |links| == |raws| > 0
    ensures f == FirstRefusal(v, raws, links, 0)
  {
    ghost var answer := FirstRefusal(v, raws, links, 0);
    f := CheckShape(v, raws, links);
    if f.Some? { return; }
    assert answer == FirstRefusal(v, raws, links, 1);
    f := CheckStructure(v, raws, links);
    if f.Some? { return; }
    assert answer == FirstRefusal(v, raws, links, 2);
    f := CheckSignatures(v, raws, links);
    if f.Some? { return; }
    assert answer == FirstRefusal(v, raws, links, 3);
    f := CheckTime(v, raws, links);
    if f.Some? { return; }
    assert answer == FirstRefusal(v, raws, links, 4);
    f := CheckAttenuation(v, raws, links);
    if f.Some? { return; }
    assert answer == FirstRefusal(v, raws, links, 5);
    f := CheckRoot(v, raws, links);
    if f.Some? { return; }
    assert answer == FirstRefusal(v, raws, links, 6);
    f := CheckDepth(v, raws, links);
    if f.Some? { return; }
    assert answer == FirstRefusal(v, raws, links, 7);
    f := CheckRevocation(v, raws, links);
    if f.Some? { return; }
    assert answer == FirstRefusal(v, raws, links, 8);
    f := CheckAudience(v, raws, links);
    if f.Some? { return; }
    assert answer == FirstRefusal(v, raws, links, 9);
  }

  method Actors(links: seq<Claims>) returns (actors: seq<string>)
    ensures actors == Subjects(links)
  {
    actors := [];
    for i := 0 to |links|
      invariant actors == Subjects(links)[..i]
    {
      actors := actors + [links[i].subject];
    }
  }

  /** The claims the caller put in the chain play no part in the answer. */
  method Verify(v: Verifier, chain: seq<Assertion>) returns (r: Result<Verified, Fault>)
    ensures r == Verdict(v, Raws(chain))
  {
    if |chain| == 0 {
      return Err(Fault(V1, -1));
    }
    var raws := Raws(chain);
    var parsed := ParseAll(v, chain);
    if parsed.Err? {
      return Err(parsed.error);
    }
    var links := parsed.value;
    ParseLinksMeaning(v, raws, 0);
    var refusal := RunChecks(v, raws, links);
    if refusal.Some? {
      return Err(refusal.value);
    }
    var leaf := links[|links| - 1];
    var actors := Actors(links);
    var digest := ChainDigest(v.codec, raws);
    return Ok(Verified(leaf.root, leaf.subject, actors, leaf.Grants(), leaf.sequence, leaf.depth,
                       digest, leaf.id, links[0].id));
  }
}
