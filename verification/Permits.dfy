/**
 Comparing a concrete request with a grant (pkg/verify/permits.go), and the soundness of
 the attenuation rules against it.
 */
module Permits {
  import opened Wrappers
  import opened Strings
  import opened Mda
  import opened Attenuation

  /** A float64, the finite ones ordered as bounds are: NaN compares false with everything. */
  datatype Float = NaN | NegInf | PosInf | Finite(rank: Bound)

  /** An attribute value, numbers already converted to float64; `Other` is a value of any other kind. */
  datatype Value = Text(s: string) | Number(n: Float) | Other

  datatype Request = Request(
    resourceType: string, resourceId: string, resourceTags: seq<string>, action: string,
    attributes: map<string, Value>)

  /** `x < bound` and `x > bound` on float64. */
  predicate Below(x: Float, bound: Bound) {
    x == NegInf || (x.Finite? && x.rank < bound)
  }

  predicate Above(x: Float, bound: Bound) {
    x == PosInf || (x.Finite? && x.rank > bound)
  }

  /** Escapes a concrete identifier so that it is never read as a prefix pattern. */
  function Literal(id: string): string {
    if IsPrefixPattern(id) then id + "\0" else id
  }

  /** Whether a capability's identifier pattern admits the concrete identifier id. */
  predicate MatchesId(pattern: string, id: string) {
    IdCovers(pattern, Literal(id))
  }

  predicate Satisfies(c: Condition, v: Value) {
    if c.equals.Some? then v == Text(c.equals.value)
    else if c.oneOf.Some? then v.Text? && v.s in c.oneOf.value
    else if c.prefix.Some? then v.Text? && c.prefix.value <= v.s
    else if HasBound(c) then
      && v.Number?
      && (c.min.Some? ==> !Below(v.n, c.min.value))
      && (c.max.Some? ==> !Above(v.n, c.max.value))
    else false
  }

  predicate Covers(c: Capability, r: Request) {
    && c.resourceType == r.resourceType
    && MatchesId(c.resourceId, r.resourceId)
    && CoversTags(c.tags, r.resourceTags)
    && c.action == r.action
    && forall k :: k in c.conditions ==> k in r.attributes && Satisfies(c.conditions[k], r.attributes[k])
  }

  /** The request names something, and some granted capability covers it. */
  predicate Permitted(caps: seq<Capability>, r: Request) {
    && r.resourceType != "" && r.resourceId != "" && r.action != ""
    && exists c :: c in caps && Covers(c, r)
  }

  method Permits(caps: seq<Capability>, r: Request) returns (ok: bool)
    ensures ok <==> Permitted(caps, r)
  {
    if r.resourceType == "" || r.resourceId == "" || r.action == "" {
      return false;
    }
    for i := 0 to |caps|
      invariant forall j :: 0 <= j < i ==> !Covers(caps[j], r)
    {
      if Covers(caps[i], r) {
        assert caps[i] in caps;
        return true;
      }
    }
    return false;
  }

  /** A request that leaves out its type, its identifier or its action is permitted by no grant. */
  lemma NamelessIsRefused(caps: seq<Capability>, r: Request)
    requires "" in {r.resourceType, r.resourceId, r.action}
    ensures !Permitted(caps, r)
  {}

  /** More capabilities permit more, and what several permit one of them permits. */
  lemma PermittedByOne(caps: seq<Capability>, more: seq<Capability>, r: Request)
    ensures Permitted(caps + more, r) <==> Permitted(caps, r) || Permitted(more, r)
    ensures !Permitted([], r)
  {
    if Permitted(caps + more, r) {
      var c :| c in caps + more && Covers(c, r);
      assert c in caps || c in more;
    }
    if Permitted(caps, r) || Permitted(more, r) {
      var c :| (c in caps || c in more) && Covers(c, r);
      assert c in caps + more;
    }
  }

  /* ----- Identifiers: the pattern test is exact ----- */

  lemma IdCoversTransitive(a: string, b: string, c: string)
    requires IdCovers(a, b) && IdCovers(b, c)
    ensures IdCovers(a, c)
  {
    if IsPrefixPattern(a) && IsPrefixPattern(b) {
      PrefixTransitive(TrimStar(a), TrimStar(b), TrimStar(c));
    }
  }

  /**
   The parent pattern covers the child pattern exactly when it matches every identifier the
   child matches.
   */
  lemma IdCoversExact(p: string, c: string)
    ensures IdCovers(p, c) <==> forall id :: MatchesId(c, id) ==> MatchesId(p, id)
  {
    if IdCovers(p, c) {
      forall id | MatchesId(c, id) ensures MatchesId(p, id) {
        IdCoversTransitive(p, c, Literal(id));
      }
    } else if c == "" {
      assert MatchesId(c, c) && !MatchesId(p, c);
    } else {
      var id := PatternSeparates(p, c);
    }
  }

  /**
   A request must name an identifier. Among the identifiers it can name, the test refuses only
   one child it need not: the empty pattern, which matches none of them.
   */
  lemma IdCoversExactOnRequests(p: string, c: string)
    ensures IdCovers(p, c) || c == "" <==> forall id :: id != "" && MatchesId(c, id) ==> MatchesId(p, id)
  {
    if IdCovers(p, c) {
      IdCoversExact(p, c);
    } else if c != "" {
      var id := PatternSeparates(p, c);
    }
  }

  /** Some identifier that a request can name tells an uncovered pattern from the parent. */
  lemma PatternSeparates(p: string, c: string) returns (id: string)
    requires !IdCovers(p, c) && c != ""
    ensures id != "" && MatchesId(c, id) && !MatchesId(p, id)
  {
    if !IsPrefixPattern(c) {
      id := c;
    } else {
      var x := TrimStar(c);
      var u, w := x + "a", x + "b";
      assert MatchesId(c, u) && MatchesId(c, w);
      if IsPrefixPattern(p) && TrimStar(p) <= u && TrimStar(p) <= w {
        CommonPrefix(TrimStar(p), x);
      }
      id := if MatchesId(p, u) then w else u;
    }
  }

  lemma CommonPrefix(y: string, x: string)
    requires y <= x + "a" && y <= x + "b"
    ensures y <= x
  {
    var u, w := x + "a", x + "b";
    assert u[|x|] != w[|x|];
    assert forall i :: 0 <= i < |y| ==> y[i] == u[i] && y[i] == w[i];
    assert forall i :: 0 <= i < |x| ==> u[i] == x[i];
  }

  /**
   A literal pattern matches its own identifier; the NUL byte that escapes a trailing star
   also makes it match one more, when the pattern itself ends in star and NUL.
   */
  lemma LiteralPatternMatches(p: string, id: string)
    requires !IsPrefixPattern(p)
    ensures MatchesId(p, id) <==>
              (id == p || (IsPrefixPattern(id) && p == id + "\0"))
  {}

  /** A prefix pattern matches what starts with its prefix, and with the NUL of the escape one identifier more. */
  lemma PrefixPatternMatches(p: string, id: string)
    requires IsPrefixPattern(p)
    ensures MatchesId(p, id) <==>
              p[..|p| - 1] <= id || (IsPrefixPattern(id) && p[..|p| - 1] == id + "\0")
  {
    var x, y := p[..|p| - 1], id + "\0";
    if IsPrefixPattern(id) && x <= y {
      assert forall i :: 0 <= i < |x| && i < |id| ==> x[i] == id[i];
      assert |x| > |id| ==> x == y;
    }
    if IsPrefixPattern(id) && x <= id {
      assert forall i :: 0 <= i < |x| ==> x[i] == y[i];
    }
  }

  /* ----- Conditions: entailment is sound, and how far from complete ----- */

  /** Every value that meets the child condition meets the parent condition. */
  ghost predicate Implies(p: Condition, c: Condition) {
    forall v :: Satisfies(c, v) ==> Satisfies(p, v)
  }

  lemma CondCoversSound(p: Condition, c: Condition, v: Value)
    requires InFragment(c) && CondCovers(p, c) && Satisfies(c, v)
    ensures Satisfies(p, v)
  {
    if p.prefix.Some? && c.prefix.Some? && v.Text? {
      PrefixTransitive(p.prefix.value, c.prefix.value, v.s);
    }
  }

  /** The narrower conditions entailment refuses: a singleton `in` under `eq`, and an empty range. */
  predicate NeedlesslyRefused(p: Condition, c: Condition) {
    || (p.equals.Some? && c.oneOf.Some? && c.oneOf.value != []
        && forall v :: v in c.oneOf.value ==> v == p.equals.value)
    || (HasBound(p) && c.min.Some? && c.max.Some? && c.min.value > c.max.value)
  }

  /**
   Between conditions of the fragment, entailment accepts every narrower condition except
   exactly those two shapes.
   */
  lemma CondCoversComplete(p: Condition, c: Condition)
    requires InFragment(p) && InFragment(c)
    ensures Implies(p, c) <==> CondCovers(p, c) || NeedlesslyRefused(p, c)
  {
    if CondCovers(p, c) || NeedlesslyRefused(p, c) {
      forall v | Satisfies(c, v) ensures Satisfies(p, v) {
        if CondCovers(p, c) { CondCoversSound(p, c, v); }
      }
    } else if c.equals.Some? {
      assert Satisfies(c, Text(c.equals.value)) && !Satisfies(p, Text(c.equals.value));
    } else if c.oneOf.Some? {
      InSeparates(p, c);
    } else if c.prefix.Some? {
      PrefixSeparates(p, c);
    } else {
      RangeSeparates(p, c);
    }
  }

  lemma InSeparates(p: Condition, c: Condition)
    requires InFragment(p) && InFragment(c) && c.oneOf.Some?
    requires !CondCovers(p, c) && !NeedlesslyRefused(p, c)
    ensures !Implies(p, c)
  {
    assert c.oneOf.value[0] in c.oneOf.value;
    var v :| v in c.oneOf.value && !Satisfies(p, Text(v));
    assert Satisfies(c, Text(v));
  }

  lemma PrefixSeparates(p: Condition, c: Condition)
    requires InFragment(p) && InFragment(c) && c.prefix.Some? && !CondCovers(p, c)
    ensures !Implies(p, c)
  {
    var x := c.prefix.value;
    if p.oneOf.Some? {
      // A finite set cannot hold every extension of x.
      var long := LongerThanAll(p.oneOf.value, x);
      assert Satisfies(c, Text(long)) && !Satisfies(p, Text(long));
    } else if p.equals.Some? {
      var v := if p.equals.value == x then x + "a" else x;
      assert Satisfies(c, Text(v)) && !Satisfies(p, Text(v));
    } else {
      assert Satisfies(c, Text(x)) && !Satisfies(p, Text(x));
    }
  }

  /** Some extension of x is in no given finite list. */
  lemma {:induction false} LongerThanAll(members: seq<string>, x: string) returns (long: string)
    ensures x <= long
    ensures forall v :: v in members ==> |v| < |long|
  {
    if members == [] {
      return x;
    }
    var rest := LongerThanAll(members[1..], x);
    long := rest + members[0] + "a";
    assert long[..|x|] == rest[..|x|];
  }

  lemma RangeSeparates(p: Condition, c: Condition)
    requires InFragment(p) && InFragment(c) && HasBound(c)
    requires !CondCovers(p, c) && !NeedlesslyRefused(p, c)
    ensures !Implies(p, c)
  {
    if !HasBound(p) {
      // NaN meets every range.
      assert Satisfies(c, Number(NaN)) && !Satisfies(p, Number(NaN));
    } else if p.min.Some? && (c.min.None? || c.min.value < p.min.value) {
      var low := if c.min.Some? then Finite(c.min.value) else NegInf;
      assert Satisfies(c, Number(low)) && !Satisfies(p, Number(low));
    } else {
      var high := if c.max.Some? then Finite(c.max.value) else PosInf;
      assert Satisfies(c, Number(high)) && !Satisfies(p, Number(high));
    }
  }

  /**
   A condition that sets more than evaluation reads: an `eq` beside an empty `in`, a range
   beside any other comparison, or an `in` with a member its `prefix` does not allow.
   */
  predicate Widens(c: Condition) {
    || (c.equals.Some? && c.oneOf == Some([]))
    || (HasBound(c) && c.oneOf != Some([]) && (c.equals.Some? || c.oneOf.Some? || c.prefix.Some?))
    || (c.equals.None? && c.oneOf.Some? && c.prefix.Some? && exists v :: v in c.oneOf.value && !(c.prefix.value <= v))
  }

  /**
   Without validation, entailment is sound for a child condition, under every parent of the
   fragment, exactly when the child is none of those.
   */
  lemma SoundUnlessWidens(c: Condition)
    ensures (forall p :: InFragment(p) && CondCovers(p, c) ==> Implies(p, c)) <==> !Widens(c)
  {
    if Widens(c) {
      var p := WidenedParent(c);
    } else {
      forall p, v | InFragment(p) && CondCovers(p, c) && Satisfies(c, v) ensures Satisfies(p, v) {
        CoveredUnlessWidens(p, c, v);
      }
    }
  }

  lemma CoveredUnlessWidens(p: Condition, c: Condition, v: Value)
    requires InFragment(p) && CondCovers(p, c) && !Widens(c) && Satisfies(c, v)
    ensures Satisfies(p, v)
  {
    if p.prefix.Some? && c.prefix.Some? && v.Text? && p.prefix.value <= c.prefix.value <= v.s {
      PrefixTransitive(p.prefix.value, c.prefix.value, v.s);
    }
  }

  /** A parent that covers a widening child and does not hold what the child allows. */
  lemma WidenedParent(c: Condition) returns (p: Condition)
    requires Widens(c)
    ensures InFragment(p) && CondCovers(p, c) && !Implies(p, c)
  {
    if c.equals.Some? && c.oneOf == Some([]) {
      p := Condition(Some(c.equals.value + "a"), None, None, None, None);
      assert Satisfies(c, Text(c.equals.value)) && !Satisfies(p, Text(c.equals.value));
    } else if HasBound(c) && c.oneOf != Some([]) && (c.equals.Some? || c.oneOf.Some? || c.prefix.Some?) {
      p := Condition(None, None, None, c.min, c.max);
      var v := if c.equals.Some? then c.equals.value else if c.oneOf.Some? then c.oneOf.value[0] else c.prefix.value;
      assert Satisfies(c, Text(v)) && !Satisfies(p, Text(v));
    } else {
      var v :| v in c.oneOf.value && !(c.prefix.value <= v);
      p := Condition(None, None, c.prefix, None, None);
      assert Satisfies(c, Text(v)) && !Satisfies(p, Text(v));
    }
  }

  /** The fragment, which Validate enforces, holds no widening condition. */
  lemma FragmentNeverWidens(c: Condition)
    requires InFragment(c)
    ensures !Widens(c)
  {}

  /* ----- Capabilities and chains ----- */

  lemma EntailsSound(p: Capability, c: Capability, r: Request)
    requires WellFormedCapability(c) && Entails(p, c) && Covers(c, r)
    ensures Covers(p, r)
  {
    IdCoversTransitive(p.resourceId, c.resourceId, Literal(r.resourceId));
    forall k | k in p.conditions ensures k in r.attributes && Satisfies(p.conditions[k], r.attributes[k]) {
      CondCoversSound(p.conditions[k], c.conditions[k], r.attributes[k]);
    }
  }

  /* ----- How exact entailment is ----- */

  /** A condition of the fragment that no value meets; even an empty range is met by NaN. */
  predicate Unmeetable(c: Condition) {
    c.oneOf == Some([])
  }

  lemma UnmeetableIff(c: Condition)
    requires InFragment(c)
    ensures Unmeetable(c) <==> forall v :: !Satisfies(c, v)
  {
    if !Unmeetable(c) {
      var v := Meets(c);
    }
  }

  lemma Meets(c: Condition) returns (v: Value)
    requires InFragment(c) && !Unmeetable(c)
    ensures Satisfies(c, v)
  {
    v := if c.equals.Some? then Text(c.equals.value)
         else if c.oneOf.Some? then Text(c.oneOf.value[0])
         else if c.prefix.Some? then Text(c.prefix.value)
         else Number(NaN);
  }

  /** The parent covers the child, but for the two shapes of condition that entailment needlessly refuses. */
  predicate CoversBut(p: Capability, c: Capability) {
    && p.resourceType == c.resourceType && p.action == c.action
    && IdCovers(p.resourceId, c.resourceId)
    && (forall t :: t in p.tags ==> t in c.tags)
    && forall k :: k in p.conditions ==>
         k in c.conditions && (CondCovers(p.conditions[k], c.conditions[k]) || NeedlesslyRefused(p.conditions[k], c.conditions[k]))
  }

  /** A request the child covers, with the identifier and the attribute values given. */
  function Sample(c: Capability, id: string, attributes: map<string, Value>): Request {
    Request(c.resourceType, id, c.tags, c.action, attributes)
  }

  /** Values that meet every condition of a capability. */
  ghost predicate Fits(c: Capability, attributes: map<string, Value>) {
    attributes.Keys == c.conditions.Keys && forall k :: k in c.conditions ==> Satisfies(c.conditions[k], attributes[k])
  }

  lemma SomeFit(c: Capability) returns (attributes: map<string, Value>)
    requires WellFormedCapability(c) && forall k :: k in c.conditions ==> !Unmeetable(c.conditions[k])
    ensures Fits(c, attributes)
  {
    attributes := map[];
    ghost var todo := c.conditions.Keys;
    while todo != {}
      invariant todo <= c.conditions.Keys && attributes.Keys == c.conditions.Keys - todo
      invariant forall k :: k in attributes ==> Satisfies(c.conditions[k], attributes[k])
      decreases todo
    {
      var k :| k in todo;
      var v := Meets(c.conditions[k]);
      attributes, todo := attributes[k := v], todo - {k};
    }
  }

  lemma SampleIsCovered(c: Capability, id: string, attributes: map<string, Value>)
    requires Fits(c, attributes) && MatchesId(c.resourceId, id)
    ensures Covers(c, Sample(c, id, attributes))
  {}

  lemma SomeIdMatches(pattern: string) returns (id: string)
    ensures MatchesId(pattern, id)
  {
    id := if IsPrefixPattern(pattern) then TrimStar(pattern) + "a" else pattern;
  }

  /**
   Entailment between capabilities decides inclusion of the requests they cover, but for a
   child that covers none and for the two needlessly refused shapes.
   */
  lemma EntailsExact(p: Capability, c: Capability)
    requires WellFormedCapability(p) && WellFormedCapability(c)
    ensures (forall r :: Covers(c, r) ==> Covers(p, r))
            <==> CoversBut(p, c) || exists k :: k in c.conditions && Unmeetable(c.conditions[k])
    ensures Entails(p, c) ==> CoversBut(p, c)
    ensures CoversBut(p, c) && (forall k :: k in p.conditions ==> !NeedlesslyRefused(p.conditions[k], c.conditions[k])) ==> Entails(p, c)
  {
    if exists k :: k in c.conditions && Unmeetable(c.conditions[k]) {
      var k :| k in c.conditions && Unmeetable(c.conditions[k]);
      UnmeetableIff(c.conditions[k]);
    } else if CoversBut(p, c) {
      forall r | Covers(c, r) ensures Covers(p, r) {
        CoversButSound(p, c, r);
      }
    } else {
      var r := Separates(p, c);
    }
  }

  lemma CoversButSound(p: Capability, c: Capability, r: Request)
    requires WellFormedCapability(p) && WellFormedCapability(c) && CoversBut(p, c) && Covers(c, r)
    ensures Covers(p, r)
  {
    IdCoversTransitive(p.resourceId, c.resourceId, Literal(r.resourceId));
    forall k | k in p.conditions ensures k in r.attributes && Satisfies(p.conditions[k], r.attributes[k]) {
      CondCoversComplete(p.conditions[k], c.conditions[k]);
    }
  }

  /** A request that tells an uncovered child from the parent. */
  lemma Separates(p: Capability, c: Capability) returns (r: Request)
    requires WellFormedCapability(p) && WellFormedCapability(c) && !CoversBut(p, c)
    requires forall k :: k in c.conditions ==> !Unmeetable(c.conditions[k])
    ensures Covers(c, r) && !Covers(p, r)
  {
    var attributes := SomeFit(c);
    var id := SomeIdMatches(c.resourceId);
    r := Sample(c, id, attributes);
    SampleIsCovered(c, id, attributes);
    if !IdCovers(p.resourceId, c.resourceId) {
      IdCoversExact(p.resourceId, c.resourceId);
      var other :| MatchesId(c.resourceId, other) && !MatchesId(p.resourceId, other);
      r := Sample(c, other, attributes);
      SampleIsCovered(c, other, attributes);
    } else if k :| k in p.conditions && k in c.conditions
                   && !CondCovers(p.conditions[k], c.conditions[k]) && !NeedlesslyRefused(p.conditions[k], c.conditions[k]) {
      CondCoversComplete(p.conditions[k], c.conditions[k]);
      var v :| Satisfies(c.conditions[k], v) && !Satisfies(p.conditions[k], v);
      r := Sample(c, id, attributes[k := v]);
      SampleIsCovered(c, id, attributes[k := v]);
    }
  }

  lemma NoWiderSound(parent: Claims, child: Claims, r: Request)
    requires WellFormed(child) && NoWider(parent, child)
    requires Permitted(child.Grants(), r)
    ensures Permitted(parent.Grants(), r)
  {
    var c :| c in child.Grants() && Covers(c, r);
    var p :| p in parent.Grants() && Entails(p, c);
    EntailsSound(p, c, r);
  }

  /** Whatever the leaf permits, every link above it permits. */
  lemma {:induction false} LeafWithinEveryLink(links: seq<Claims>, i: nat, r: Request)
    requires Narrowing(links) && i < |links|
    requires Permitted(links[|links| - 1].Grants(), r)
    ensures Permitted(links[i].Grants(), r)
  {
    var last := |links| - 1;
    if i < last {
      AnyTwoLinksNarrow(links, i, last);
      NoWiderSound(links[i], links[last], r);
    }
  }
}
