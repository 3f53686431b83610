/**
 The attenuation rules (docs/spec/delegation-assertion.md, pkg/verify/attenuation.go): when
 a child link is no wider than its parent.
 */
module Attenuation {
  import opened Wrappers
  import opened Strings
  import opened Mda

  /* ----- Resource identifiers ----- */

  predicate IsPrefixPattern(s: string) {
    |s| > 0 && s[|s| - 1] == '*'
  }

  function TrimStar(s: string): string {
    if IsPrefixPattern(s) then s[..|s| - 1] else s
  }

  predicate IdCovers(p: string, c: string) {
    if IsPrefixPattern(p) then TrimStar(p) <= TrimStar(c)
    else !IsPrefixPattern(c) && p == c
  }

  /* ----- Conditions ----- */

  /** Whether child condition c is at least as restrictive as parent condition p. */
  predicate CondCovers(p: Condition, c: Condition) {
    if c.oneOf == Some([]) then
      InFragment(p)
    else if p.equals.Some? then
      c.equals == p.equals
    else if p.oneOf.Some? then
      if c.equals.Some? then c.equals.value in p.oneOf.value
      else if c.oneOf.Some? then forall v :: v in c.oneOf.value ==> v in p.oneOf.value
      else false
    else if p.prefix.Some? then
      if c.equals.Some? then p.prefix.value <= c.equals.value
      else if c.prefix.Some? then p.prefix.value <= c.prefix.value
      else if c.oneOf.Some? then forall v :: v in c.oneOf.value ==> p.prefix.value <= v
      else false
    else if HasBound(p) then
      && HasBound(c)
      && (p.min.Some? ==> c.min.Some? && c.min.value >= p.min.value)
      && (p.max.Some? ==> c.max.Some? && c.max.value <= p.max.value)
    else
      false
  }

  lemma CondCoversReflexive(c: Condition)
    requires InFragment(c)
    ensures CondCovers(c, c)
  {}

  lemma CondCoversTransitive(a: Condition, b: Condition, c: Condition)
    requires InFragment(a) && InFragment(b) && InFragment(c)
    requires CondCovers(a, b) && CondCovers(b, c)
    ensures CondCovers(a, c)
  {
    assert c.oneOf.Some? && c.oneOf.value != [] ==> c.oneOf.value[0] in c.oneOf.value;
    if a.prefix.Some? && b.prefix.Some? && c.prefix.Some? && a.prefix.value <= b.prefix.value <= c.prefix.value {
      PrefixTransitive(a.prefix.value, b.prefix.value, c.prefix.value);
    }
  }

  /* ----- Capabilities ----- */

  predicate CoversTags(parent: seq<string>, child: seq<string>) {
    forall t :: t in parent ==> t in child
  }

  /** Whether parent capability p covers child capability c. */
  predicate Entails(p: Capability, c: Capability) {
    && p.resourceType == c.resourceType
    && IdCovers(p.resourceId, c.resourceId)
    && CoversTags(p.tags, c.tags)
    && p.action == c.action
    && forall k :: k in p.conditions ==> k in c.conditions && CondCovers(p.conditions[k], c.conditions[k])
  }

  predicate CapabilitiesEntailed(parent: seq<Capability>, child: seq<Capability>) {
    forall c :: c in child ==> exists p :: p in parent && Entails(p, c)
  }

  method CapsEntailed(parent: seq<Capability>, child: seq<Capability>) returns (ok: bool)
    ensures ok <==> CapabilitiesEntailed(parent, child)
  {
    for i := 0 to |child|
      invariant forall k :: 0 <= k < i ==> exists p :: p in parent && Entails(p, child[k])
    {
      var covered := false;
      for j := 0 to |parent|
        invariant !covered
        invariant forall k :: 0 <= k < j ==> !Entails(parent[k], child[i])
      {
        if Entails(parent[j], child[i]) {
          covered := true;
          assert parent[j] in parent;
          break;
        }
      }
      if !covered {
        assert child[i] in child;
        return false;
      }
    }
    return true;
  }

  lemma EntailsReflexive(c: Capability)
    requires WellFormedCapability(c)
    ensures Entails(c, c)
  {
    forall k | k in c.conditions ensures CondCovers(c.conditions[k], c.conditions[k]) {
      CondCoversReflexive(c.conditions[k]);
    }
  }

  lemma EntailsTransitive(a: Capability, b: Capability, c: Capability)
    requires WellFormedCapability(a) && WellFormedCapability(b) && WellFormedCapability(c)
    requires Entails(a, b) && Entails(b, c)
    ensures Entails(a, c)
  {
    forall k | k in a.conditions ensures k in c.conditions && CondCovers(a.conditions[k], c.conditions[k]) {
      CondCoversTransitive(a.conditions[k], b.conditions[k], c.conditions[k]);
    }
  }

  /* ----- Sequence constraints ----- */

  /** The first constraint carrying id, as the inner loop of seqNoWider finds it. */
  function FindConstraint(cs: seq<Constraint>, id: string): Option<Constraint> {
    if cs == [] then None
    else if cs[0].id == id then Some(cs[0])
    else FindConstraint(cs[1..], id)
  }

  /** A budget that is not positive is no budget at all. */
  predicate BudgetNoWider(parent: int, child: int) {
    parent <= 0 || 0 < child <= parent
  }

  predicate SequenceNoWider(parent: Option<Sequence>, child: Option<Sequence>) {
    parent.Some? ==>
      && child.Some?
      && BudgetNoWider(parent.value.maxInvocations, child.value.maxInvocations)
      && forall c :: c in parent.value.constraints ==> FindConstraint(child.value.constraints, c.id) == Some(c)
  }

  method SeqNoWider(parent: Option<Sequence>, child: Option<Sequence>) returns (ok: bool)
    ensures ok <==> SequenceNoWider(parent, child)
  {
    if parent.None? {
      return true;
    }
    if child.None? {
      return false;
    }
    var p, c := parent.value, child.value;
    if p.maxInvocations <= 0 {
    } else if c.maxInvocations <= 0 {
      return false;
    } else if c.maxInvocations > p.maxInvocations {
      return false;
    }
    for i := 0 to |p.constraints|
      invariant forall k :: 0 <= k < i ==> FindConstraint(c.constraints, p.constraints[k].id) == Some(p.constraints[k])
    {
      var pc := p.constraints[i];
      var found := false;
      for j := 0 to |c.constraints|
        invariant !found
        invariant FindConstraint(c.constraints, pc.id) == FindConstraint(c.constraints[j..], pc.id)
      {
        var cc := c.constraints[j];
        if cc.id == pc.id {
          found := true;
          if cc.forbid != pc.forbid || cc.after != pc.after {
            return false;
          }
          break;
        }
      }
      if !found {
        return false;
      }
    }
    return true;
  }

  /** With ids that do not repeat, finding a constraint is holding it. */
  lemma {:induction false} FindIsMembership(cs: seq<Constraint>, c: Constraint)
    requires forall i, j :: 0 <= i < j < |cs| ==> cs[i].id != cs[j].id
    ensures FindConstraint(cs, c.id) == Some(c) <==> c in cs
  {
    if cs != [] {
      FindIsMembership(cs[1..], c);
      if cs[0].id == c.id && c in cs {
        var k :| 0 <= k < |cs| && cs[k] == c;
        assert k == 0;
      }
    }
  }

  lemma SequenceNoWiderReflexive(s: Option<Sequence>)
    requires s.Some? ==> WellFormedSequence(s.value)
    ensures SequenceNoWider(s, s)
  {
    if s.Some? {
      forall c | c in s.value.constraints ensures FindConstraint(s.value.constraints, c.id) == Some(c) {
        FindIsMembership(s.value.constraints, c);
      }
    }
  }

  lemma SequenceNoWiderTransitive(a: Option<Sequence>, b: Option<Sequence>, c: Option<Sequence>)
    requires b.Some? ==> WellFormedSequence(b.value)
    requires SequenceNoWider(a, b) && SequenceNoWider(b, c)
    ensures SequenceNoWider(a, c)
  {
    if a.Some? {
      forall x | x in a.value.constraints ensures FindConstraint(c.value.constraints, x.id) == Some(x) {
        FindIsMembership(b.value.constraints, x);
      }
    }
  }

  /* ----- Links ----- */

  /** The five rules that compare a pair of links. */
  predicate NoWider(parent: Claims, child: Claims) {
    && child.audience == parent.audience
    && child.expiresAt <= parent.expiresAt
    && child.maxDepth <= Wrap64(parent.maxDepth - 1)
    && CapabilitiesEntailed(parent.Grants(), child.Grants())
    && SequenceNoWider(parent.sequence, child.sequence)
  }

  method Attenuates(parent: Claims, child: Claims) returns (ok: bool)
    ensures ok <==> NoWider(parent, child)
  {
    if child.audience != parent.audience {
      return false;
    }
    if child.expiresAt > parent.expiresAt {
      return false;
    }
    if child.maxDepth > Wrap64(parent.maxDepth - 1) {
      return false;
    }
    var entailed := CapsEntailed(parent.Grants(), child.Grants());
    if !entailed {
      return false;
    }
    ok := SeqNoWider(parent.sequence, child.sequence);
  }

  /** The rules between well-formed links, in their fields. */
  lemma NoWiderInFields(parent: Claims, child: Claims)
    requires WellFormed(parent) && WellFormed(child)
    ensures NoWider(parent, child) <==>
              && child.audience == parent.audience
              && child.expiresAt <= parent.expiresAt
              && child.maxDepth < parent.maxDepth
              && (forall c :: c in child.Grants() ==> exists p :: p in parent.Grants() && Entails(p, c))
              && (parent.sequence.Some? ==>
                    && child.sequence.Some?
                    && var p, c := parent.sequence.value, child.sequence.value;
                       && (p.maxInvocations > 0 ==> 0 < c.maxInvocations <= p.maxInvocations)
                       && forall k :: k in p.constraints ==> k in c.constraints)
  {
    if parent.sequence.Some? && child.sequence.Some? {
      forall k | k in parent.sequence.value.constraints
        ensures FindConstraint(child.sequence.value.constraints, k.id) == Some(k) <==> k in child.sequence.value.constraints
      {
        FindIsMembership(child.sequence.value.constraints, k);
      }
    }
  }

  lemma NoWiderTransitive(a: Claims, b: Claims, c: Claims)
    requires WellFormed(a) && WellFormed(b) && WellFormed(c)
    requires NoWider(a, b) && NoWider(b, c)
    ensures NoWider(a, c)
  {
    SequenceNoWiderTransitive(a.sequence, b.sequence, c.sequence);
    forall x | x in c.Grants() ensures exists p :: p in a.Grants() && Entails(p, x) {
      var y :| y in b.Grants() && Entails(y, x);
      var z :| z in a.Grants() && Entails(z, y);
      EntailsTransitive(z, y, x);
    }
  }

  /** Well-formed links, each no wider than the one before it. */
  ghost predicate Narrowing(links: seq<Claims>) {
    && (forall i :: 0 <= i < |links| ==> WellFormed(links[i]))
    && (forall i :: 0 < i < |links| ==> NoWider(links[i - 1], links[i]))
  }

  /** Checking neighbours is checking every pair. */
  lemma {:induction false} AnyTwoLinksNarrow(links: seq<Claims>, i: nat, j: nat)
    requires Narrowing(links) && i < j < |links|
    ensures NoWider(links[i], links[j])
    decreases j - i
  {
    assert NoWider(links[j - 1], links[j]);
    if i < j - 1 {
      AnyTwoLinksNarrow(links, i, j - 1);
      NoWiderTransitive(links[i], links[j - 1], links[j]);
    }
  }

  /** Down a chain nothing outlives, nothing changes audience and nothing gains depth. */
  lemma NothingBelowOutlives(links: seq<Claims>, i: nat, j: nat)
    requires Narrowing(links) && i <= j < |links|
    ensures links[j].expiresAt <= links[i].expiresAt && links[j].audience == links[i].audience
    ensures i < j ==> links[j].maxDepth < links[i].maxDepth
  {
    if i < j {
      AnyTwoLinksNarrow(links, i, j);
      NoWiderInFields(links[i], links[j]);
    }
  }

  /** Every hop spends the depth budget, so a chain is no longer than its root allows. */
  lemma {:induction false} DepthBudgetBoundsChain(links: seq<Claims>)
    requires Narrowing(links) && links != []
    ensures |links| - 1 <= links[0].maxDepth - links[|links| - 1].maxDepth
    ensures |links| - 1 <= links[0].maxDepth
  {
    var n := |links|;
    if n > 1 {
      assert NoWider(links[n - 2], links[n - 1]);
      DepthBudgetBoundsChain(links[..n - 1]);
      assert WellFormed(links[n - 1]);
    }
  }
}
