/**
 The Delegation Assertion: one signed link of a chain, its claims, and what makes
 the claims well formed (pkg/mda).

 Byte strings and text are both `string`: a serialization is a sequence of characters
 and text is valid Unicode. A condition bound is a finite float64, since JSON carries no NaN
 and no infinity; bounds are only ever compared, so one is its position in the numeric order
 of the finite float64 values. A nil slice and an empty one are told apart only where the source tells them
 apart: `capabilities` and `oneOf`.
 */
module Mda {
  import opened Wrappers
  import opened Strings

  const VERSION := 1

  datatype Sponsor = Sponsor(
    issuer: string, subject: string, authenticationMethods: seq<string>, authenticatedAt: Int64)

  type Bound = Int64

  datatype Condition = Condition(
    equals: Option<string>, oneOf: Option<seq<string>>, prefix: Option<string>,
    min: Option<Bound>, max: Option<Bound>)

  datatype Capability = Capability(
    resourceType: string, resourceId: string, tags: seq<string>, action: string,
    conditions: map<string, Condition>)

  datatype ActionMatcher = ActionMatcher(action: string, resourceType: string, resourceTags: seq<string>)

  datatype Constraint = Constraint(id: string, forbid: ActionMatcher, after: ActionMatcher)

  datatype Sequence = Sequence(maxInvocations: Int64, constraints: seq<Constraint>)

  datatype Claims = Claims(
    issuer: string, subject: string, audience: string, issuedAt: Int64, expiresAt: Int64, id: string,
    version: Int64, root: Sponsor, parent: string, depth: Int64, maxDepth: Int64,
    capabilities: Option<seq<Capability>>, sequence: Option<Sequence>)
  {
    /** The capabilities granted, an absent set read as the empty one. */
    function Grants(): seq<Capability> {
      if capabilities.Some? then capabilities.value else []
    }
  }

  /** A link as received; `claims` is whatever its holder says the bytes mean. */
  datatype Assertion = Assertion(raw: string, claims: Claims)

  datatype ParseError = BadHeader | BadShape

  /** How a verifier reads a serialization and commits to it. */
  datatype Codec = Codec(parse: string -> Result<Claims, ParseError>, digest: string -> string)
  {
    /** Distinct serializations have distinct digests, and no digest spans a line. */
    ghost predicate CollisionFree() {
      && (forall x, y :: digest(x) == digest(y) ==> x == y)
      && forall x :: '\n' !in digest(x)
    }
  }

  predicate MatchesEverything(m: ActionMatcher) {
    m.action == "" && m.resourceType == "" && m.resourceTags == []
  }

  predicate HasBound(c: Condition) {
    c.min.Some? || c.max.Some?
  }

  /** Exactly one of the mutually exclusive comparisons is set. */
  predicate InFragment(c: Condition) {
    || (c.equals.Some? && c.oneOf.None? && c.prefix.None? && !HasBound(c))
    || (c.equals.None? && c.oneOf.Some? && c.prefix.None? && !HasBound(c))
    || (c.equals.None? && c.oneOf.None? && c.prefix.Some? && !HasBound(c))
    || (c.equals.None? && c.oneOf.None? && c.prefix.None? && HasBound(c))
  }

  method Comparisons(c: Condition) returns (count: nat)
    ensures count == 1 <==> InFragment(c)
    ensures count == 0 <==> c.equals.None? && c.oneOf.None? && c.prefix.None? && !HasBound(c)
  {
    var alternatives := [c.equals.Some?, c.oneOf.Some?, c.prefix.Some?, HasBound(c)];
    count := 0;
    for i := 0 to 4
      invariant count == (if 0 < i && alternatives[0] then 1 else 0) + (if 1 < i && alternatives[1] then 1 else 0)
                       + (if 2 < i && alternatives[2] then 1 else 0) + (if 3 < i && alternatives[3] then 1 else 0)
    {
      if alternatives[i] {
        count := count + 1;
      }
    }
  }

  predicate WellFormedConstraint(c: Constraint) {
    c.id != "" && !MatchesEverything(c.after)
  }

  /** The rules of a sequence that compiles to a bounded automaton. */
  predicate WellFormedSequence(s: Sequence) {
    && 0 <= s.maxInvocations
    && (s.maxInvocations == 0 ==> s.constraints != [])
    && (forall c :: c in s.constraints ==> WellFormedConstraint(c))
    && (forall i, j :: 0 <= i < j < |s.constraints| ==> s.constraints[i].id != s.constraints[j].id)
  }

  predicate WellFormedCapability(c: Capability) {
    && c.resourceType != "" && c.action != ""
    && forall k :: k in c.conditions ==> InFragment(c.conditions[k])
  }

  predicate WellFormed(c: Claims) {
    && c.version == VERSION
    && c.issuer != "" && c.subject != "" && c.id != "" && c.expiresAt != 0
    && c.root.issuer != "" && c.root.subject != ""
    && 0 <= c.depth && 0 <= c.maxDepth
    && (c.depth == 0 <==> c.parent == "")
    && c.capabilities.Some?
    && (c.sequence.Some? ==> WellFormedSequence(c.sequence.value))
    && forall cap :: cap in c.Grants() ==> WellFormedCapability(cap)
  }

  /** How many kinds of comparison a condition sets, both ends of a range counting as one. */
  function Kinds(c: Condition): nat {
    (if c.equals.Some? then 1 else 0) + (if c.oneOf.Some? then 1 else 0) + (if c.prefix.Some? then 1 else 0)
    + if c.min.Some? || c.max.Some? then 1 else 0
  }

  /** What the specification asks of claims, field by field. */
  ghost predicate FieldsAreValid(c: Claims) {
    && c.version == 1
    && "" !in {c.issuer, c.subject, c.id, c.root.issuer, c.root.subject}
    && c.expiresAt != 0 && c.depth >= 0 && c.maxDepth >= 0
    && (if c.depth == 0 then c.parent == "" else c.parent != "")
    && c.capabilities.Some?
    && (forall g :: g in c.capabilities.value ==> CapabilityFieldsAreValid(g))
    && (c.sequence.Some? ==> SequenceFieldsAreValid(c.sequence.value))
  }

  ghost predicate CapabilityFieldsAreValid(g: Capability) {
    "" !in {g.resourceType, g.action} && forall k :: k in g.conditions ==> Kinds(g.conditions[k]) == 1
  }

  ghost predicate SequenceFieldsAreValid(q: Sequence) {
    && (q.maxInvocations > 0 || (q.maxInvocations == 0 && q.constraints != []))
    && (forall k, l :: 0 <= k < l < |q.constraints| ==> q.constraints[k].id != q.constraints[l].id)
    && forall k :: k in q.constraints ==>
         k.id != "" && (k.after.action != "" || k.after.resourceType != "" || k.after.resourceTags != [])
  }

  lemma ValidSequenceInFields(q: Sequence)
    ensures WellFormedSequence(q) <==> SequenceFieldsAreValid(q)
  {}

  lemma ValidCapabilityInFields(g: Capability)
    ensures WellFormedCapability(g) <==> CapabilityFieldsAreValid(g)
  {
    forall k | k in g.conditions ensures InFragment(g.conditions[k]) <==> Kinds(g.conditions[k]) == 1 {}
  }

  /** Validation accepts exactly the claims whose fields are what the specification asks. */
  lemma ValidInFields(c: Claims)
    ensures WellFormed(c) <==> FieldsAreValid(c)
  {
    forall g | g in c.Grants() ensures WellFormedCapability(g) <==> CapabilityFieldsAreValid(g) {
      ValidCapabilityInFields(g);
    }
    if c.sequence.Some? {
      ValidSequenceInFields(c.sequence.value);
    }
  }

  method ValidateSequence(s: Sequence) returns (ok: bool)
    ensures ok <==> WellFormedSequence(s)
  {
    if s.maxInvocations < 0 {
      return false;
    }
    if s.maxInvocations == 0 && |s.constraints| == 0 {
      return false;
    }
    var seen: set<string> := {};
    for i := 0 to |s.constraints|
      invariant seen == set k | 0 <= k < i :: s.constraints[k].id
      invariant forall k :: 0 <= k < i ==> WellFormedConstraint(s.constraints[k])
      invariant forall j, k :: 0 <= j < k < i ==> s.constraints[j].id != s.constraints[k].id
    {
      var c := s.constraints[i];
      assert c in s.constraints;
      if c.id == "" {
        return false;
      }
      if c.id in seen {
        return false;
      }
      seen := seen + {c.id};
      if MatchesEverything(c.after) {
        return false;
      }
    }
    return true;
  }

  method ValidateCapability(c: Capability) returns (ok: bool)
    ensures ok <==> WellFormedCapability(c)
  {
    if c.resourceType == "" || c.action == "" {
      return false;
    }
    var todo := c.conditions.Keys;
    while todo != {}
      invariant todo <= c.conditions.Keys
      invariant forall k :: k in c.conditions && k !in todo ==> InFragment(c.conditions[k])
      decreases todo
    {
      var key :| key in todo;
      var n := Comparisons(c.conditions[key]);
      if n != 1 {
        return false;
      }
      todo := todo - {key};
    }
    return true;
  }

  method Validate(c: Claims) returns (ok: bool)
    ensures ok <==> WellFormed(c)
  {
    if || c.version != VERSION
       || c.issuer == "" || c.subject == "" || c.id == ""
       || c.expiresAt == 0
       || c.root.issuer == "" || c.root.subject == ""
       || c.depth < 0
       || (c.depth == 0 && c.parent != "")
       || (c.depth > 0 && c.parent == "")
       || c.maxDepth < 0
       || c.capabilities.None? {
      return false;
    }
    if c.sequence.Some? {
      var valid := ValidateSequence(c.sequence.value);
      if !valid {
        return false;
      }
    }
    var caps := c.capabilities.value;
    for i := 0 to |caps|
      invariant forall j :: 0 <= j < i ==> WellFormedCapability(caps[j])
    {
      var valid := ValidateCapability(caps[i]);
      if !valid {
        return false;
      }
    }
    return true;
  }
}
