/** Building and signing chains (pkg/issue/issue.go), and their agreement with verification. */
module Issue {
  import opened Wrappers
  import opened Clock
  import opened Mda
  import opened Attenuation
  import opened Jose
  import opened Verify
  import opened Chains

  datatype Signer = Signer(id: string, keyId: string, key: Key)

  /** `lifetime` is in nanoseconds; an `issuedAt` of zero is the clock's zero instant, read as unset. */
  datatype Grant = Grant(
    subject: string, audience: string, id: string, lifetime: int, issuedAt: int,
    maxDepth: Option<Int64>, capabilities: Option<seq<Capability>>, sequence: Option<Sequence>)

  predicate CanSign(s: Signer) {
    s.id != "" && |s.key| == PRIVATE_KEY_SIZE
  }

  function GrantClaims(g: Grant, issuer: string, root: Sponsor, depth: Int64, parent: string, now: int): Option<Claims>
    requires g.maxDepth.Some?
  {
    if g.subject == "" || g.id == "" || g.capabilities.None? || g.lifetime <= 0 then None
    else
      var iat := if g.issuedAt == 0 then now else g.issuedAt;
      Some(Claims(issuer, g.subject, g.audience, Unix(iat), Unix(iat + g.lifetime), g.id, VERSION, root, parent,
                  depth, g.maxDepth.value, g.capabilities, g.sequence))
  }

  function SignClaims(pr: Primitives, c: Claims, s: Signer): Option<Assertion> {
    if !WellFormed(c) then None
    else
      var raw := Sign(pr, c, s.key, s.keyId);
      if raw.None? then None else Some(Assertion(raw.value, c))
  }

  /** The first link: a human's grant, signed by the authority that authenticated them. */
  function SponsorGrant(pr: Primitives, s: Signer, sponsor: Sponsor, g: Grant, now: int): Option<Assertion> {
    if !CanSign(s) then None
    else if sponsor.issuer == "" || sponsor.subject == "" then None
    else if g.audience == "" then None
    else if g.maxDepth.None? || g.maxDepth.value < 0 then None
    else
      var c := GrantClaims(g, s.id, sponsor, 0, "", now);
      if c.None? then None else SignClaims(pr, c.value, s)
  }

  /** What the parent supplies where the grant is silent. */
  function WithDefaults(g: Grant, p: Claims): Grant {
    g.(maxDepth := if g.maxDepth.None? then Some(Wrap64(p.maxDepth - 1)) else g.maxDepth,
       sequence := if g.sequence.None? then p.sequence else g.sequence,
       audience := if g.audience == "" then p.audience else g.audience)
  }

  /** A child link under parent; refused when it would widen the parent's authority. */
  function Delegate(pr: Primitives, s: Signer, parent: Assertion, grant: Grant, now: int): Option<Assertion> {
    var p := parent.claims;
    if !CanSign(s) then None
    else if parent.raw == "" then None
    else if s.id != p.subject then None
    else if p.maxDepth < 1 then None
    else
      var g := WithDefaults(grant, p);
      if g.maxDepth.value > p.maxDepth - 1 || g.maxDepth.value < 0 then None
      else
        var c := GrantClaims(g, s.id, p.root, Wrap64(p.depth + 1), pr.Digest(parent.raw), now);
        if c.None? then None
        else if !NoWider(p, c.value) then None
        else SignClaims(pr, c.value, s)
  }

  /** A grant makes claims if and only if it is complete and lasts some time; they carry it field by field. */
  lemma GrantClaimsIff(g: Grant, issuer: string, root: Sponsor, depth: Int64, parent: string, now: int)
    requires g.maxDepth.Some?
    ensures var iat := if g.issuedAt != 0 then g.issuedAt else now;
            GrantClaims(g, issuer, root, depth, parent, now)
            == if g.subject != "" && g.id != "" && g.capabilities.Some? && g.lifetime > 0 then
                 Some(Claims(issuer, g.subject, g.audience, Unix(iat), Unix(iat + g.lifetime), g.id, 1, root, parent,
                             depth, g.maxDepth.value, g.capabilities, g.sequence))
               else None
  {}

  /** Valid claims, and no others, are signed as they stand. */
  lemma SignClaimsIff(pr: Primitives, c: Claims, s: Signer)
    requires s.id != "" && |s.key| == 64
    ensures var made := SignClaims(pr, c, s);
            && (made.Some? <==> WellFormed(c))
            && (made.Some? ==> made.value.claims == c && Sign(pr, c, s.key, s.keyId) == Some(made.value.raw))
  {}

  /** A grant with the parent's depth less one, sequence and audience where it names none of its own. */
  lemma DefaultsComeFromParent(g: Grant, p: Claims)
    requires p.maxDepth >= 1
    ensures WithDefaults(g, p)
            == Grant(g.subject, if g.audience != "" then g.audience else p.audience, g.id, g.lifetime, g.issuedAt,
                     Some(if g.maxDepth.Some? then g.maxDepth.value else p.maxDepth - 1), g.capabilities,
                     if g.sequence.Some? then g.sequence else p.sequence)
  {}

  /**
   Delegation succeeds if and only if the signer holds the parent and can sign, the parent has
   depth left for what is asked, the grant is complete, and its claims are valid and no wider.
   */
  lemma DelegateIff(pr: Primitives, s: Signer, parent: Assertion, grant: Grant, now: int)
    ensures var p := parent.claims;
            var g := WithDefaults(grant, p);
            var c := GrantClaims(g, s.id, p.root, Wrap64(p.depth + 1), pr.Digest(parent.raw), now);
            var made := Delegate(pr, s, parent, grant, now);
            && (made.Some? <==>
                  && s.id != "" && |s.key| == 64 && parent.raw != "" && s.id == p.subject && p.maxDepth >= 1
                  && 0 <= g.maxDepth.value < p.maxDepth
                  && c.Some? && NoWider(p, c.value) && WellFormed(c.value))
            && (made.Some? ==> made.value.claims == c.value)
  {
    var p := parent.claims;
    var g := WithDefaults(grant, p);
    var c := GrantClaims(g, s.id, p.root, Wrap64(p.depth + 1), pr.Digest(parent.raw), now);
    if s.id != "" && |s.key| == 64 && c.Some? {
      SignClaimsIff(pr, c.value, s);
    }
    DelegateSigns(pr, s, parent, grant, now);
  }

  /** Past its guards, delegation signs what the grant claims. */
  lemma DelegateSigns(pr: Primitives, s: Signer, parent: Assertion, grant: Grant, now: int)
    ensures var p := parent.claims;
            var g := WithDefaults(grant, p);
            var c := GrantClaims(g, s.id, p.root, Wrap64(p.depth + 1), pr.Digest(parent.raw), now);
            Delegate(pr, s, parent, grant, now)
            == if && s.id != "" && |s.key| == 64 && parent.raw != "" && s.id == p.subject && p.maxDepth >= 1
                  && 0 <= g.maxDepth.value < p.maxDepth && c.Some? && NoWider(p, c.value)
               then SignClaims(pr, c.value, s) else None
  {}

  /** A sponsor grant succeeds if and only if signer, sponsor and grant are complete and its claims, at depth 0, are valid. */
  lemma SponsorGrantIff(pr: Primitives, s: Signer, sponsor: Sponsor, g: Grant, now: int)
    ensures var made := SponsorGrant(pr, s, sponsor, g, now);
            && (made.Some? <==>
                  && s.id != "" && |s.key| == 64 && sponsor.issuer != "" && sponsor.subject != ""
                  && g.audience != "" && g.maxDepth.Some? && g.maxDepth.value >= 0
                  && GrantClaims(g, s.id, sponsor, 0, "", now).Some? && WellFormed(GrantClaims(g, s.id, sponsor, 0, "", now).value))
            && (made.Some? ==> made.value.claims == GrantClaims(g, s.id, sponsor, 0, "", now).value)
  {
    if s.id != "" && |s.key| == 64 && g.maxDepth.Some? && GrantClaims(g, s.id, sponsor, 0, "", now).Some? {
      SignClaimsIff(pr, GrantClaims(g, s.id, sponsor, 0, "", now).value, s);
    }
  }

  /* ----- Chains as they are built ----- */

  datatype Root = Root(signer: Signer, sponsor: Sponsor, grant: Grant, now: int)

  datatype Hop = Hop(signer: Signer, grant: Grant, now: int)

  /** A first link and one more per hop, each made from the one before it. */
  function Grow(first: Option<Assertion>, hops: seq<Hop>, delegate: (Assertion, Hop) -> Option<Assertion>): Option<seq<Assertion>> {
    if hops == [] then
      if first.None? then None else Some([first.value])
    else
      var above := Grow(first, hops[..|hops| - 1], delegate);
      if above.None? || above.value == [] then None
      else
        var child := delegate(above.value[|above.value| - 1], hops[|hops| - 1]);
        if child.None? then None else Some(above.value + [child.value])
  }

  function Delegator(pr: Primitives): (Assertion, Hop) -> Option<Assertion> {
    (parent: Assertion, hop: Hop) => Delegate(pr, hop.signer, parent, hop.grant, hop.now)
  }

  /** One sponsor grant, then one delegation per hop, each under the link before it. */
  function Build(pr: Primitives, root: Root, hops: seq<Hop>): Option<seq<Assertion>> {
    Grow(SponsorGrant(pr, root.signer, root.sponsor, root.grant, root.now), hops, Delegator(pr))
  }

  function SignerAt(root: Root, hops: seq<Hop>, i: nat): Signer
    requires i <= |hops|
  {
    if i == 0 then root.signer else hops[i - 1].signer
  }

  /** A signed link: its bytes carry its claims, under the signer that is its issuer. */
  ghost predicate IssuedBy(pr: Primitives, a: Assertion, s: Signer) {
    && CanSign(s)
    && a.claims.issuer == s.id
    && Sign(pr, a.claims, s.key, s.keyId) == Some(a.raw)
  }

  /** A link that continues the one above it, as rules V1, V2, V5 and V6 require. */
  ghost predicate Continues(codec: Codec, parent: Assertion, child: Assertion) {
    && child.claims.parent == codec.digest(parent.raw)
    && child.claims.depth == Wrap64(parent.claims.depth + 1)
    && child.claims.issuer == parent.claims.subject
    && child.claims.root == parent.claims.root
    && NoWider(parent.claims, child.claims)
  }

  ghost predicate ContinuesAt(codec: Codec, chain: seq<Assertion>, i: nat)
    requires 0 < i < |chain|
  {
    Continues(codec, chain[i - 1], chain[i])
  }

  /** Well-formed links, the first at depth 0 and each one continuing the one above it. */
  ghost predicate Continuous(codec: Codec, chain: seq<Assertion>) {
    && chain != []
    && chain[0].claims.depth == 0 && chain[0].claims.parent == ""
    && (forall i :: 0 <= i < |chain| ==> WellFormed(chain[i].claims))
    && forall i :: 0 < i < |chain| ==> ContinuesAt(codec, chain, i)
  }

  /** Everything issuance guarantees of a chain. */
  ghost predicate Issued(pr: Primitives, root: Root, hops: seq<Hop>, chain: seq<Assertion>) {
    && root.grant.maxDepth.Some?
    && |chain| == |hops| + 1
    && chain[0].claims.maxDepth == root.grant.maxDepth.value
    && chain[0].claims.audience == root.grant.audience
    && Continuous(CodecOf(pr), chain)
    && forall i :: 0 <= i < |chain| ==> IssuedBy(pr, chain[i], SignerAt(root, hops, i))
  }

  lemma DelegateContinues(pr: Primitives, s: Signer, parent: Assertion, g: Grant, now: int)
    requires Delegate(pr, s, parent, g, now).Some?
    ensures var child := Delegate(pr, s, parent, g, now).value;
            IssuedBy(pr, child, s) && WellFormed(child.claims) && Continues(CodecOf(pr), parent, child)
  {}

  lemma ContinuousExtends(codec: Codec, chain: seq<Assertion>, child: Assertion)
    requires Continuous(codec, chain) && WellFormed(child.claims) && Continues(codec, chain[|chain| - 1], child)
    ensures Continuous(codec, chain + [child])
  {
    var longer := chain + [child];
    forall i | 0 < i < |longer| ensures ContinuesAt(codec, longer, i) {
      if i < |chain| {
        assert ContinuesAt(codec, chain, i);
      }
    }
  }

  lemma IssuedExtends(pr: Primitives, root: Root, hops: seq<Hop>, chain: seq<Assertion>, hop: Hop, child: Assertion)
    requires Issued(pr, root, hops, chain) && WellFormed(child.claims)
    requires IssuedBy(pr, child, hop.signer) && Continues(CodecOf(pr), chain[|chain| - 1], child)
    ensures Issued(pr, root, hops + [hop], chain + [child])
  {
    ContinuousExtends(CodecOf(pr), chain, child);
    var longer := chain + [child];
    forall i | 0 <= i < |longer| ensures IssuedBy(pr, longer[i], SignerAt(root, hops + [hop], i)) {
      if i < |chain| {
        assert IssuedBy(pr, chain[i], SignerAt(root, hops, i));
      }
    }
  }

  lemma SponsorIsIssued(pr: Primitives, root: Root)
    requires SponsorGrant(pr, root.signer, root.sponsor, root.grant, root.now).Some?
    ensures Issued(pr, root, [], [SponsorGrant(pr, root.signer, root.sponsor, root.grant, root.now).value])
  {}

  /** What delegate adds to this chain, if it is issued, leaves it issued. */
  ghost predicate KeepsIssued(pr: Primitives, root: Root, delegate: (Assertion, Hop) -> Option<Assertion>,
                              hops: seq<Hop>, chain: seq<Assertion>, hop: Hop)
  {
    Issued(pr, root, hops, chain) && delegate(chain[|chain| - 1], hop).Some?
    ==> Issued(pr, root, hops + [hop], chain + [delegate(chain[|chain| - 1], hop).value])
  }

  lemma {:induction false} GrownIsIssued(pr: Primitives, root: Root, first: Option<Assertion>, hops: seq<Hop>,
                                         delegate: (Assertion, Hop) -> Option<Assertion>)
    requires Grow(first, hops, delegate).Some?
    requires first.Some? ==> Issued(pr, root, [], [first.value])
    requires forall before, chain, hop :: KeepsIssued(pr, root, delegate, before, chain, hop)
    ensures Issued(pr, root, hops, Grow(first, hops, delegate).value)
  {
    if hops == [] {
      assert Grow(first, hops, delegate) == Some([first.value]);
    } else {
      var before, hop := hops[..|hops| - 1], hops[|hops| - 1];
      GrownIsIssued(pr, root, first, before, delegate);
      var above := Grow(first, before, delegate).value;
      var longer := above + [delegate(above[|above| - 1], hop).value];
      assert Grow(first, hops, delegate) == Some(longer);
      assert KeepsIssued(pr, root, delegate, before, above, hop);
      assert Issued(pr, root, hops, longer) by {
        assert before + [hop] == hops;
      }
    }
  }

  lemma BuiltIsIssued(pr: Primitives, root: Root, hops: seq<Hop>)
    requires Build(pr, root, hops).Some?
    ensures Issued(pr, root, hops, Build(pr, root, hops).value)
  {
    var first := SponsorGrant(pr, root.signer, root.sponsor, root.grant, root.now);
    if first.Some? {
      SponsorIsIssued(pr, root);
    }
    forall before, chain, hop ensures KeepsIssued(pr, root, Delegator(pr), before, chain, hop) {
      DelegationKeepsIssued(pr, root, before, chain, hop);
    }
    GrownIsIssued(pr, root, first, hops, Delegator(pr));
  }

  lemma DelegationKeepsIssued(pr: Primitives, root: Root, hops: seq<Hop>, chain: seq<Assertion>, hop: Hop)
    ensures KeepsIssued(pr, root, Delegator(pr), hops, chain, hop)
  {
    if Issued(pr, root, hops, chain) && Delegator(pr)(chain[|chain| - 1], hop).Some? {
      DelegateContinues(pr, hop.signer, chain[|chain| - 1], hop.grant, hop.now);
      IssuedExtends(pr, root, hops, chain, hop, Delegator(pr)(chain[|chain| - 1], hop).value);
    }
  }

  function ClaimsOf(chain: seq<Assertion>): seq<Claims> {
    seq(|chain|, i requires 0 <= i < |chain| => chain[i].claims)
  }

  /** What verification still depends on once a chain is well issued. */
  ghost predicate Circumstances(v: Verifier, chain: seq<Assertion>)
    requires chain != []
  {
    && (forall i :: 0 <= i < |chain| ==> v.sigs(chain[i].claims.issuer, chain[i].raw))
    && (forall i :: 0 <= i < |chain| ==>
          && Instant(chain[i].claims.issuedAt) <= v.now + v.skew
          && v.now - v.skew < Instant(chain[i].claims.expiresAt))
    && (forall i :: 0 <= i < |chain| ==> v.revoked(chain[i].claims.id) == Clean)
    && chain[0].claims.audience == v.audience
  }

  lemma {:induction false} OneSponsorOneAudience(codec: Codec, chain: seq<Assertion>, i: nat)
    requires Continuous(codec, chain) && i < |chain|
    ensures chain[i].claims.root == chain[0].claims.root
    ensures chain[i].claims.audience == chain[0].claims.audience
  {
    if i > 0 {
      OneSponsorOneAudience(codec, chain, i - 1);
      assert ContinuesAt(codec, chain, i);
    }
  }

  lemma IssuedParses(v: Verifier, pr: Primitives, root: Root, hops: seq<Hop>, chain: seq<Assertion>)
    requires pr.Sound() && v.codec == CodecOf(pr) && Issued(pr, root, hops, chain)
    ensures Parses(v, Raws(chain), ClaimsOf(chain))
  {
    forall i | 0 <= i < |chain| ensures chain[i].raw != "" && ParseClaims(pr, chain[i].raw) == Ok(chain[i].claims) {
      var s := SignerAt(root, hops, i);
      assert IssuedBy(pr, chain[i], s);
      ParseSigned(pr, chain[i].claims, s.key, s.keyId);
    }
  }

  lemma ContinuesIsLinked(codec: Codec, chain: seq<Assertion>, i: nat)
    requires 0 < i < |chain| && ContinuesAt(codec, chain, i)
    ensures var links, raws := ClaimsOf(chain), Raws(chain);
            && links[i].parent == codec.digest(raws[i - 1])
            && links[i].depth == Wrap64(links[i - 1].depth + 1)
            && links[i].issuer == links[i - 1].subject
            && NoWider(links[i - 1], links[i])
  {}

  lemma ContinuousIsLinked(v: Verifier, chain: seq<Assertion>)
    requires Continuous(v.codec, chain)
    ensures Linked(v, Raws(chain), ClaimsOf(chain))
  {
    var links, raws := ClaimsOf(chain), Raws(chain);
    forall i | 0 < i < |links|
      ensures links[i].parent == v.codec.digest(raws[i - 1])
      ensures links[i].depth == Wrap64(links[i - 1].depth + 1) && links[i].issuer == links[i - 1].subject
    {
      ContinuesIsLinked(v.codec, chain, i);
    }
  }

  lemma ContinuousNarrows(codec: Codec, chain: seq<Assertion>)
    requires Continuous(codec, chain)
    ensures NeighboursNarrow(ClaimsOf(chain))
  {
    var links := ClaimsOf(chain);
    forall i | 0 < i < |links| ensures NoWider(links[i - 1], links[i]) {
      ContinuesIsLinked(codec, chain, i);
    }
  }

  lemma ContinuousStructure(codec: Codec, chain: seq<Assertion>)
    requires Continuous(codec, chain)
    ensures var links := ClaimsOf(chain);
            && WellFormedLinks(links) && OneSponsor(links)
            && links[|links| - 1].audience == chain[0].claims.audience
  {
    forall i | 0 <= i < |chain| ensures chain[i].claims.root == chain[0].claims.root {
      OneSponsorOneAudience(codec, chain, i);
    }
    OneSponsorOneAudience(codec, chain, |chain| - 1);
  }

  lemma CircumstancesOfLinks(v: Verifier, chain: seq<Assertion>)
    requires chain != []
    ensures var links := ClaimsOf(chain);
            Circumstances(v, chain) <==>
              Signed(v, Raws(chain), links) && Timely(v, links) && Unrevoked(v, links) && chain[0].claims.audience == v.audience
  {
    var links, raws := ClaimsOf(chain), Raws(chain);
    if Signed(v, raws, links) && Timely(v, links) && Unrevoked(v, links) {
      forall i | 0 <= i < |chain|
        ensures v.sigs(chain[i].claims.issuer, chain[i].raw)
        ensures Instant(chain[i].claims.issuedAt) <= v.now + v.skew && v.now - v.skew < Instant(chain[i].claims.expiresAt)
        ensures v.revoked(chain[i].claims.id) == Clean
      {
        assert v.sigs(links[i].issuer, raws[i]) && v.revoked(links[i].id) == Clean && links[i] == chain[i].claims;
      }
    }
  }

  /**
   Issuer and verifier agree: a chain that could be issued is accepted exactly when its keys
   resolve, every link is within its time, none is revoked and the sponsor named this server.
   */
  lemma IssuedAcceptedIff(v: Verifier, pr: Primitives, root: Root, hops: seq<Hop>)
    requires pr.Sound() && v.codec == CodecOf(pr) && Build(pr, root, hops).Some?
    ensures var chain := Build(pr, root, hops).value;
            chain != [] && (Verdict(v, Raws(chain)).Ok? <==> Circumstances(v, chain))
  {
    BuiltIsIssued(pr, root, hops);
    var chain := Build(pr, root, hops).value;
    IssuedParses(v, pr, root, hops, chain);
    ContinuousStructure(v.codec, chain);
    ContinuousIsLinked(v, chain);
    ContinuousNarrows(v.codec, chain);
    CircumstancesOfLinks(v, chain);
    ParsesIffParsed(v, Raws(chain), ClaimsOf(chain));
    AcceptsParsedIffValid(v, Raws(chain), ClaimsOf(chain));
  }

  /** No delegate outlives the grant above it, down to any depth. */
  lemma BuiltNeverOutlives(pr: Primitives, root: Root, hops: seq<Hop>, i: nat, j: nat)
    requires Build(pr, root, hops).Some? && i <= j <= |hops|
    ensures |Build(pr, root, hops).value| == |hops| + 1
    ensures Build(pr, root, hops).value[j].claims.expiresAt <= Build(pr, root, hops).value[i].claims.expiresAt
  {
    BuiltIsIssued(pr, root, hops);
    var chain := Build(pr, root, hops).value;
    ContinuousNarrows(CodecOf(pr), chain);
    NothingBelowOutlives(ClaimsOf(chain), i, j);
  }

  /** With every signer's public key in the ring, every link of an issued chain verifies. */
  lemma IssuedSignaturesVerify(pr: Primitives, keys: map<string, Key>, root: Root, hops: seq<Hop>, chain: seq<Assertion>)
    requires pr.Sound() && Issued(pr, root, hops, chain)
    requires forall i :: 0 <= i <= |hops| ==>
               var s := SignerAt(root, hops, i);
               Slot(s.id, s.keyId) in keys && keys[Slot(s.id, s.keyId)] == pr.publicKey(s.key)
    ensures forall a :: a in chain ==> RingVerifies(pr, keys, a.claims.issuer, a.raw)
  {
    forall i | 0 <= i < |chain| ensures RingVerifies(pr, keys, chain[i].claims.issuer, chain[i].raw) {
      var s := SignerAt(root, hops, i);
      assert IssuedBy(pr, chain[i], s);
      RingVerifiesSigned(pr, keys, chain[i].claims, s.id, s.key, s.keyId);
    }
  }

  /* ----- The depth budget ----- */

  /** No chain goes deeper than the sponsor allowed: depth and budget never add up to more. */
  lemma {:induction false} WithinBudget(codec: Codec, chain: seq<Assertion>, i: nat)
    requires Continuous(codec, chain) && i < |chain|
    ensures chain[i].claims.depth == i
    ensures i <= i + chain[i].claims.maxDepth <= chain[0].claims.maxDepth
  {
    assert WellFormed(chain[i].claims);
    if i > 0 {
      WithinBudget(codec, chain, i - 1);
      assert ContinuesAt(codec, chain, i);
      WrapSuccessor(chain[i - 1].claims.depth);
    }
  }

  /** An issue time before the parent's expiry; an issue time of zero would read as unset. */
  function EchoStart(p: Claims): int {
    if Instant(p.expiresAt) == SECOND then -SECOND else Instant(p.expiresAt) - SECOND
  }

  /** A grant that hands on everything the parent holds, up to the parent's expiry. */
  function Echo(p: Claims, subject: string, id: string): Grant {
    Grant(subject, "", id, Instant(p.expiresAt) - EchoStart(p), EchoStart(p), None, p.capabilities, None)
  }

  /** The claims the holder of p signs when handing everything on. */
  function EchoClaims(pr: Primitives, parent: Assertion, subject: string, id: string): Claims {
    var p := parent.claims;
    Claims(p.subject, subject, p.audience, Unix(EchoStart(p)), p.expiresAt, id, VERSION, p.root,
           pr.Digest(parent.raw), Wrap64(p.depth + 1), Wrap64(p.maxDepth - 1), p.capabilities, p.sequence)
  }

  lemma EchoIsNoWider(pr: Primitives, parent: Assertion, subject: string, id: string)
    requires WellFormed(parent.claims)
    ensures NoWider(parent.claims, EchoClaims(pr, parent, subject, id))
  {
    var p, c := parent.claims, EchoClaims(pr, parent, subject, id);
    SequenceNoWiderReflexive(p.sequence);
    forall x | x in c.Grants() ensures exists y :: y in p.Grants() && Entails(y, x) {
      EntailsReflexive(x);
    }
  }

  lemma EchoIsWellFormed(pr: Primitives, parent: Assertion, subject: string, id: string)
    requires WellFormed(parent.claims) && subject != "" && id != ""
    requires 1 <= parent.claims.maxDepth && parent.claims.depth + 1 < TWO_TO_THE_63
    ensures WellFormed(EchoClaims(pr, parent, subject, id))
  {
    assert pr.Digest(parent.raw)[0] == 's';
    assert EchoClaims(pr, parent, subject, id).Grants() == parent.claims.Grants();
  }

  /** A holder with budget left can hand on all it holds, to anyone, whatever the clock reads. */
  lemma HolderCanDelegate(pr: Primitives, parent: Assertion, s: Signer, subject: string, id: string, now: int)
    requires WellFormed(parent.claims) && parent.raw != ""
    requires 1 <= parent.claims.maxDepth && parent.claims.depth + 1 < TWO_TO_THE_63
    requires CanSign(s) && s.id == parent.claims.subject && subject != "" && id != ""
    ensures var child := Delegate(pr, s, parent, Echo(parent.claims, subject, id), now);
            child.Some? && child.value.claims.maxDepth == parent.claims.maxDepth - 1
  {
    var p := parent.claims;
    EchoIsGranted(pr, parent, subject, id, now);
    EchoIsNoWider(pr, parent, subject, id);
    EchoIsWellFormed(pr, parent, subject, id);
    DelegateSucceeds(pr, s, parent, Echo(p, subject, id), now, EchoClaims(pr, parent, subject, id));
  }

  lemma EchoIsGranted(pr: Primitives, parent: Assertion, subject: string, id: string, now: int)
    requires WellFormed(parent.claims) && 1 <= parent.claims.maxDepth && subject != "" && id != ""
    ensures var p := parent.claims;
            var g := WithDefaults(Echo(p, subject, id), p);
            && g.maxDepth == Some(p.maxDepth - 1)
            && GrantClaims(g, p.subject, p.root, Wrap64(p.depth + 1), pr.Digest(parent.raw), now)
               == Some(EchoClaims(pr, parent, subject, id))
  {
    UnixOfInstant(parent.claims.expiresAt);
  }

  /** A delegation that passes the guards and does not widen succeeds. */
  lemma DelegateSucceeds(pr: Primitives, s: Signer, parent: Assertion, grant: Grant, now: int, c: Claims)
    requires CanSign(s) && parent.raw != "" && s.id == parent.claims.subject && 1 <= parent.claims.maxDepth
    requires var p, g := parent.claims, WithDefaults(grant, parent.claims);
             && 0 <= g.maxDepth.value <= p.maxDepth - 1
             && GrantClaims(g, s.id, p.root, Wrap64(p.depth + 1), pr.Digest(parent.raw), now) == Some(c)
    requires NoWider(parent.claims, c) && WellFormed(c)
    ensures Delegate(pr, s, parent, grant, now).Some? && Delegate(pr, s, parent, grant, now).value.claims == c
  {
    SignClaimsSucceeds(pr, c, s);
    assert Delegate(pr, s, parent, grant, now) == SignClaims(pr, c, s);
  }

  lemma SignClaimsSucceeds(pr: Primitives, c: Claims, s: Signer)
    requires CanSign(s) && WellFormed(c)
    ensures SignClaims(pr, c, s).Some? && SignClaims(pr, c, s).value.claims == c
  {}

  /** A sponsor depth of n allows chains of exactly the lengths 0 to n below the grant. */
  lemma SponsorDepthIsExact(pr: Primitives, root: Root, n: nat)
    requires pr.Sound() && Build(pr, root, []).Some?
    ensures root.grant.maxDepth.Some?
    ensures (exists hops: seq<Hop> :: |hops| == n && Build(pr, root, hops).Some?) <==> n <= root.grant.maxDepth.value
  {
    if exists hops: seq<Hop> :: |hops| == n && Build(pr, root, hops).Some? {
      var hops: seq<Hop> :| |hops| == n && Build(pr, root, hops).Some?;
      BuiltIsIssued(pr, root, hops);
      WithinBudget(CodecOf(pr), Build(pr, root, hops).value, n);
    }
    if n <= root.grant.maxDepth.value {
      var hops := DeepestChain(pr, root, n);
    }
  }

  /** The hop that hands everything on once more. */
  function NextHop(parent: Claims): Hop {
    Hop(Signer(parent.subject, "", seq(PRIVATE_KEY_SIZE, _ => 0)), Echo(parent, "agent", "jti"), 0)
  }

  lemma LeafDelegates(pr: Primitives, root: Root, hops: seq<Hop>, chain: seq<Assertion>)
    requires pr.Sound() && Issued(pr, root, hops, chain) && chain[|hops|].claims.maxDepth >= 1
    ensures var hop := NextHop(chain[|hops|].claims);
            var child := Delegate(pr, hop.signer, chain[|hops|], hop.grant, hop.now);
            child.Some? && child.value.claims.maxDepth == chain[|hops|].claims.maxDepth - 1
  {
    var parent := chain[|hops|];
    LeafIsSound(pr, root, hops, chain);
    NextHopCanSign(parent.claims);
    var hop := NextHop(parent.claims);
    assert hop.grant == Echo(parent.claims, "agent", "jti");
    HolderCanDelegate(pr, parent, hop.signer, "agent", "jti", hop.now);
  }

  lemma NextHopCanSign(p: Claims)
    requires WellFormed(p)
    ensures CanSign(NextHop(p).signer)
  {}

  lemma LeafIsSound(pr: Primitives, root: Root, hops: seq<Hop>, chain: seq<Assertion>)
    requires pr.Sound() && Issued(pr, root, hops, chain)
    ensures var leaf := chain[|hops|];
            WellFormed(leaf.claims) && leaf.raw != "" && leaf.claims.depth + leaf.claims.maxDepth < TWO_TO_THE_63
  {
    var from := SignerAt(root, hops, |hops|);
    assert IssuedBy(pr, chain[|hops|], from);
    ParseSigned(pr, chain[|hops|].claims, from.key, from.keyId);
    WithinBudget(CodecOf(pr), chain, |hops|);
  }

  lemma ExtendChain(pr: Primitives, root: Root, hops: seq<Hop>) returns (hop: Hop)
    requires pr.Sound() && Build(pr, root, hops).Some?
    requires Issued(pr, root, hops, Build(pr, root, hops).value)
    requires Build(pr, root, hops).value[|hops|].claims.maxDepth >= 1
    ensures Build(pr, root, hops + [hop]).Some?
    ensures Issued(pr, root, hops + [hop], Build(pr, root, hops + [hop]).value)
    ensures Build(pr, root, hops + [hop]).value[|hops| + 1].claims.maxDepth
            == Build(pr, root, hops).value[|hops|].claims.maxDepth - 1
  {
    var chain := Build(pr, root, hops).value;
    hop := NextHop(chain[|hops|].claims);
    LeafDelegates(pr, root, hops, chain);
    BuildExtends(pr, root, hops, hop);
    BuiltIsIssued(pr, root, hops + [hop]);
  }

  lemma BuildExtends(pr: Primitives, root: Root, hops: seq<Hop>, hop: Hop)
    requires Build(pr, root, hops).Some? && Build(pr, root, hops).value != []
    requires var chain := Build(pr, root, hops).value;
             Delegate(pr, hop.signer, chain[|chain| - 1], hop.grant, hop.now).Some?
    ensures var chain := Build(pr, root, hops).value;
            Build(pr, root, hops + [hop]) == Some(chain + [Delegate(pr, hop.signer, chain[|chain| - 1], hop.grant, hop.now).value])
  {
    assert (hops + [hop])[..|hops|] == hops;
  }

  /** A chain of the given depth, spending one unit of budget per hop. */
  lemma {:induction false} DeepestChain(pr: Primitives, root: Root, n: nat) returns (hops: seq<Hop>)
    requires pr.Sound() && Build(pr, root, []).Some?
    requires root.grant.maxDepth.Some? && n <= root.grant.maxDepth.value
    ensures |hops| == n && Build(pr, root, hops).Some?
    ensures Issued(pr, root, hops, Build(pr, root, hops).value)
    ensures Build(pr, root, hops).value[n].claims.maxDepth == root.grant.maxDepth.value - n
  {
    if n == 0 {
      hops := [];
      BuiltIsIssued(pr, root, hops);
      return;
    }
    var before := DeepestChain(pr, root, n - 1);
    var hop := ExtendChain(pr, root, before);
    hops := before + [hop];
  }
}
