/** What an accepted chain establishes: the meaning of the verdict of pkg/verify/verify.go. */
module Chains {
  import opened Wrappers
  import opened Clock
  import opened Strings
  import opened Mda
  import opened Attenuation
  import opened Permits
  import opened Verify

  /* ----- Rules V1 to V9, as statements about the whole chain ----- */

  ghost predicate WellFormedLinks(links: seq<Claims>) {
    forall i :: 0 <= i < |links| ==> WellFormed(links[i])
  }

  /** V1 and V2: each link commits to the one before it and is issued by its subject. */
  ghost predicate Linked(v: Verifier, raws: seq<string>, links: seq<Claims>)
    requires |links| == |raws| > 0
  {
    && links[0].depth == 0 && links[0].parent == ""
    && forall i :: 0 < i < |links| ==>
         && links[i].parent == v.codec.digest(raws[i - 1])
         && links[i].depth == Wrap64(links[i - 1].depth + 1)
         && links[i].issuer == links[i - 1].subject
  }

  ghost predicate Signed(v: Verifier, raws: seq<string>, links: seq<Claims>)
    requires |links| == |raws|
  {
    forall i :: 0 <= i < |links| ==> v.sigs(links[i].issuer, raws[i])
  }

  ghost predicate Timely(v: Verifier, links: seq<Claims>) {
    forall i :: 0 <= i < |links| ==>
      && Instant(links[i].issuedAt) <= v.now + v.skew
      && v.now - v.skew < Instant(links[i].expiresAt)
  }

  ghost predicate NeighboursNarrow(links: seq<Claims>) {
    forall i :: 0 < i < |links| ==> NoWider(links[i - 1], links[i])
  }

  ghost predicate OneSponsor(links: seq<Claims>) {
    forall i :: 0 <= i < |links| ==> links[i].root == links[0].root
  }

  ghost predicate Unrevoked(v: Verifier, links: seq<Claims>) {
    forall i :: 0 <= i < |links| ==> v.revoked(links[i].id) == Clean
  }

  /** What one check establishes when it passes. */
  ghost predicate Holds(v: Verifier, raws: seq<string>, links: seq<Claims>, stage: Stage)
    requires |links| == |raws| > 0
  {
    match stage
    case Shape => WellFormedLinks(links)
    case Structure => Linked(v, raws, links)
    case Signatures => Signed(v, raws, links)
    case Time => Timely(v, links)
    case Narrowness => NeighboursNarrow(links)
    case Roots => OneSponsor(links)
    case DepthLimit => |links| - 1 <= links[0].maxDepth
    case Revocations => Unrevoked(v, links)
    case Audience => links[|links| - 1].audience == v.audience
  }

  ghost predicate Parses(v: Verifier, raws: seq<string>, links: seq<Claims>)
    requires |links| == |raws|
  {
    forall i :: 0 <= i < |raws| ==> raws[i] != "" && v.codec.parse(raws[i]) == Ok(links[i])
  }

  /** Every rule, for the claims the bytes carry. V7 is not listed: it follows. */
  ghost predicate Valid(v: Verifier, raws: seq<string>, links: seq<Claims>) {
    && |links| == |raws| > 0
    && Parses(v, raws, links)
    && WellFormedLinks(links)
    && Linked(v, raws, links)
    && Signed(v, raws, links)
    && Timely(v, links)
    && NeighboursNarrow(links)
    && OneSponsor(links)
    && Unrevoked(v, links)
    && links[|links| - 1].audience == v.audience
  }

  lemma {:induction false} FirstFaultMeaning(v: Verifier, raws: seq<string>, links: seq<Claims>, stage: Stage, i: nat)
    requires i <= |links| == |raws|
    ensures match FirstFault(v, raws, links, stage, i)
            case None => forall k :: i <= k < |links| ==> FaultAt(v, raws, links, stage, k).None?
            case Some(f) =>
              && i <= f.index < |links|
              && FaultAt(v, raws, links, stage, f.index) == Some(f.rule)
              && forall k :: i <= k < f.index ==> FaultAt(v, raws, links, stage, k).None?
    decreases |links| - i
  {
    if i < |links| {
      FirstFaultMeaning(v, raws, links, stage, i + 1);
    }
  }

  /** Checks before the n-th, and the n-th itself on links before i, found nothing. */
  ghost predicate CleanBefore(v: Verifier, raws: seq<string>, links: seq<Claims>, n: nat, i: int)
    requires |links| == |raws| && n <= |STAGES|
  {
    && (forall k, j :: 0 <= k < n && 0 <= j < |links| ==> FaultAt(v, raws, links, STAGES[k], j).None?)
    && (n < |STAGES| ==> forall j :: 0 <= j < i && j < |links| ==> FaultAt(v, raws, links, STAGES[n], j).None?)
  }

  lemma {:induction false} FirstRefusalMeaning(v: Verifier, raws: seq<string>, links: seq<Claims>, k: nat)
    requires |links| == |raws| && k <= |STAGES|
    requires CleanBefore(v, raws, links, k, 0)
    ensures match FirstRefusal(v, raws, links, k)
            case None => CleanBefore(v, raws, links, |STAGES|, 0)
            case Some(f) =>
              0 <= f.index < |links| &&
              exists n :: 0 <= n < |STAGES| && FaultAt(v, raws, links, STAGES[n], f.index) == Some(f.rule)
                          && CleanBefore(v, raws, links, n, f.index)
    decreases |STAGES| - k
  {
    if k < |STAGES| {
      FirstFaultMeaning(v, raws, links, STAGES[k], 0);
      if FirstFault(v, raws, links, STAGES[k], 0).None? {
        assert CleanBefore(v, raws, links, k + 1, 0);
        FirstRefusalMeaning(v, raws, links, k + 1);
      } else {
        var f := FirstFault(v, raws, links, STAGES[k], 0).value;
        assert FirstRefusal(v, raws, links, k) == Some(f);
        assert CleanBefore(v, raws, links, k, f.index);
      }
    }
  }

  /** A refusal names a rule the link breaks, and every check before it was passed. */
  lemma RefusalIsFirst(v: Verifier, raws: seq<string>, links: seq<Claims>)
    requires raws != [] && ParseLinks(v, raws, 0) == Ok(links)
    ensures |links| == |raws|
    ensures Verdict(v, raws).Err? ==>
              var f := Verdict(v, raws).error;
              0 <= f.index < |links| &&
              exists n :: 0 <= n < |STAGES| && FaultAt(v, raws, links, STAGES[n], f.index) == Some(f.rule)
                          && CleanBefore(v, raws, links, n, f.index)
  {
    ParseLinksMeaning(v, raws, 0);
    FirstRefusalMeaning(v, raws, links, 0);
  }

  /** The rule that a refusal names is broken by the link it names, in that link's fields. */
  lemma RefusalNamesBrokenRule(v: Verifier, raws: seq<string>, links: seq<Claims>)
    requires raws != [] && ParseLinks(v, raws, 0) == Ok(links) && Verdict(v, raws).Err?
    ensures |links| == |raws| && 0 <= Verdict(v, raws).error.index < |links|
    ensures BreaksRule(v, raws, links, Verdict(v, raws).error.index, Verdict(v, raws).error.rule)
  {
    RefusalIsFirst(v, raws, links);
    var f := Verdict(v, raws).error;
    var n :| 0 <= n < |STAGES| && FaultAt(v, raws, links, STAGES[n], f.index) == Some(f.rule);
    FaultBreaksRule(v, raws, links, STAGES[n], f.index);
  }

  /** What it is to break each rule. */
  ghost predicate BreaksRule(v: Verifier, raws: seq<string>, links: seq<Claims>, i: nat, rule: Rule)
    requires i < |links| == |raws|
  {
    match rule
    case V1 =>
      || !WellFormed(links[i])
      || (i == 0 && (links[0].depth != 0 || links[0].parent != ""))
      || (i > 0 && (links[i].parent != v.codec.digest(raws[i - 1]) || links[i].depth != Wrap64(links[i - 1].depth + 1)))
    case V2 => i > 0 && links[i].issuer != links[i - 1].subject
    case V3 => !v.sigs(links[i].issuer, raws[i])
    case V4 => Instant(links[i].issuedAt) > v.now + v.skew || v.now - v.skew >= Instant(links[i].expiresAt)
    case V5 => i > 0 && !NoWider(links[i - 1], links[i])
    case V6 => i > 0 && links[i].root != links[0].root
    case V7 => i == |links| - 1 && i > links[0].maxDepth
    case V8 => v.revoked(links[i].id) != Clean
    case V9 => i == |links| - 1 && links[i].audience != v.audience
  }

  lemma FaultBreaksRule(v: Verifier, raws: seq<string>, links: seq<Claims>, stage: Stage, i: nat)
    requires i < |links| == |raws| && FaultAt(v, raws, links, stage, i).Some?
    ensures BreaksRule(v, raws, links, i, FaultAt(v, raws, links, stage, i).value)
  {}

  /**
   When some link does not parse, the refusal names the first that does not: V3 where the
   header is at fault, V1 for anything else, an empty serialization included.
   */
  lemma {:induction false} UnparsedIsRefused(v: Verifier, raws: seq<string>, i: nat, n: nat)
    requires i <= n < |raws|
    requires forall k :: i <= k < n ==> raws[k] != "" && v.codec.parse(raws[k]).Ok?
    requires raws[n] == "" || v.codec.parse(raws[n]).Err?
    ensures ParseLinks(v, raws, i) == Err(Fault(if raws[n] != "" && v.codec.parse(raws[n]) == Err(BadHeader) then V3 else V1, n))
    ensures i == 0 ==> Verdict(v, raws) == Err(ParseLinks(v, raws, 0).error)
    decreases n - i
  {
    if i < n {
      UnparsedIsRefused(v, raws, i + 1, n);
    }
  }

  lemma StageMeaning(v: Verifier, raws: seq<string>, links: seq<Claims>, stage: Stage)
    requires |links| == |raws| > 0
    ensures Holds(v, raws, links, stage) <==> forall j :: 0 <= j < |links| ==> FaultAt(v, raws, links, stage, j).None?
  {
    if forall j :: 0 <= j < |links| ==> FaultAt(v, raws, links, stage, j).None? {
      CleanStageHolds(v, raws, links, stage);
    }
  }

  lemma CleanStageHolds(v: Verifier, raws: seq<string>, links: seq<Claims>, stage: Stage)
    requires |links| == |raws| > 0
    requires forall j :: 0 <= j < |links| ==> FaultAt(v, raws, links, stage, j).None?
    ensures Holds(v, raws, links, stage)
  {
    assert FaultAt(v, raws, links, stage, 0).None?;
    assert FaultAt(v, raws, links, stage, |links| - 1).None?;
    match stage
    case Structure =>
      forall i | 0 < i < |links|
        ensures && links[i].parent == v.codec.digest(raws[i - 1])
                && links[i].depth == Wrap64(links[i - 1].depth + 1)
                && links[i].issuer == links[i - 1].subject
      {
        assert FaultAt(v, raws, links, stage, i).None?;
      }
    case Narrowness =>
      forall i | 0 < i < |links| ensures NoWider(links[i - 1], links[i]) {
        assert FaultAt(v, raws, links, stage, i).None?;
      }
    case Roots =>
      forall i | 0 < i < |links| ensures links[i].root == links[0].root {
        assert FaultAt(v, raws, links, stage, i).None?;
      }
    case Shape =>
      forall i | 0 <= i < |links| ensures WellFormed(links[i]) {
        assert FaultAt(v, raws, links, stage, i).None?;
      }
    case Signatures =>
      forall i | 0 <= i < |links| ensures v.sigs(links[i].issuer, raws[i]) {
        assert FaultAt(v, raws, links, stage, i).None?;
      }
    case Time =>
      forall i | 0 <= i < |links|
        ensures Instant(links[i].issuedAt) <= v.now + v.skew && v.now - v.skew < Instant(links[i].expiresAt)
      {
        assert FaultAt(v, raws, links, stage, i).None?;
      }
    case Revocations =>
      forall i | 0 <= i < |links| ensures v.revoked(links[i].id) == Clean {
        assert FaultAt(v, raws, links, stage, i).None?;
      }
    case DepthLimit =>
    case Audience =>
  }

  /** The checks that a refusal under a rule presupposes. */
  predicate Before(stage: Stage, rule: Rule) {
    match rule
    case V1 => false
    case V2 => stage.Shape?
    case V3 => stage.Shape? || stage.Structure?
    case V4 => stage.Shape? || stage.Structure? || stage.Signatures?
    case V5 => stage.Shape? || stage.Structure? || stage.Signatures? || stage.Time?
    case V6 => stage.Shape? || stage.Structure? || stage.Signatures? || stage.Time? || stage.Narrowness?
    case V7 => stage != DepthLimit && stage != Revocations && stage != Audience
    case V8 => stage != Revocations && stage != Audience
    case V9 => stage != Audience
  }

  /**
   Nothing is checked before what it rests on: a refusal under V3 means that every link is well
   formed and linked, one under V4 that all signatures verify as well, and so on to V9.
   */
  lemma RefusalMeansEarlierHold(v: Verifier, raws: seq<string>, links: seq<Claims>, stage: Stage)
    requires raws != [] && ParseLinks(v, raws, 0) == Ok(links) && Verdict(v, raws).Err?
    requires Before(stage, Verdict(v, raws).error.rule)
    ensures |links| == |raws| && Holds(v, raws, links, stage)
  {
    RefusalIsFirst(v, raws, links);
    var f := Verdict(v, raws).error;
    var n :| 0 <= n < |STAGES| && FaultAt(v, raws, links, STAGES[n], f.index) == Some(f.rule) && CleanBefore(v, raws, links, n, f.index);
    var k := PlaceBefore(v, raws, links, n, f.index, stage);
    StageMeaning(v, raws, links, stage);
  }

  /** A check that a rule presupposes comes before the check that names the rule. */
  lemma PlaceBefore(v: Verifier, raws: seq<string>, links: seq<Claims>, n: nat, i: nat, stage: Stage) returns (k: nat)
    requires n < |STAGES| && i < |links| == |raws| && FaultAt(v, raws, links, STAGES[n], i).Some?
    requires Before(stage, FaultAt(v, raws, links, STAGES[n], i).value)
    ensures k < n && STAGES[k] == stage
  {
    k := if stage.Shape? then 0 else if stage.Structure? then 1 else if stage.Signatures? then 2
         else if stage.Time? then 3 else if stage.Narrowness? then 4 else if stage.Roots? then 5
         else if stage.DepthLimit? then 6 else 7;
  }

  /**
   The depth limit V7 follows from V5 and the structural rules: no chain that passes those
   fails it.
   */
  lemma DepthCheckNeverFires(v: Verifier, raws: seq<string>, links: seq<Claims>, i: nat)
    requires i < |links| == |raws| && Narrowing(links)
    ensures FaultAt(v, raws, links, DepthLimit, i).None?
  {
    DepthBudgetBoundsChain(links);
  }

  lemma NoFaultIffValid(v: Verifier, raws: seq<string>, links: seq<Claims>)
    requires |links| == |raws| > 0 && Parses(v, raws, links)
    ensures CleanBefore(v, raws, links, |STAGES|, 0) <==> Valid(v, raws, links)
  {
    CleanIffHolds(v, raws, links);
    if Valid(v, raws, links) {
      DepthBudgetBoundsChain(links);
      forall k | 0 <= k < |STAGES| ensures Holds(v, raws, links, STAGES[k]) {}
    }
    if CleanBefore(v, raws, links, |STAGES|, 0) {
      HoldThroughoutIsValid(v, raws, links);
    }
  }

  lemma HoldThroughoutIsValid(v: Verifier, raws: seq<string>, links: seq<Claims>)
    requires |links| == |raws| > 0 && Parses(v, raws, links)
    requires forall k :: 0 <= k < |STAGES| ==> Holds(v, raws, links, STAGES[k])
    ensures Valid(v, raws, links)
  {
    assert Holds(v, raws, links, STAGES[0]) && Holds(v, raws, links, STAGES[1]) && Holds(v, raws, links, STAGES[2])
        && Holds(v, raws, links, STAGES[3]) && Holds(v, raws, links, STAGES[4]) && Holds(v, raws, links, STAGES[5])
        && Holds(v, raws, links, STAGES[7]) && Holds(v, raws, links, STAGES[8]);
  }

  lemma CleanIffHolds(v: Verifier, raws: seq<string>, links: seq<Claims>)
    requires |links| == |raws| > 0
    ensures CleanBefore(v, raws, links, |STAGES|, 0) <==> forall k :: 0 <= k < |STAGES| ==> Holds(v, raws, links, STAGES[k])
  {
    forall k | 0 <= k < |STAGES|
      ensures Holds(v, raws, links, STAGES[k]) <==> forall j :: 0 <= j < |links| ==> FaultAt(v, raws, links, STAGES[k], j).None?
    {
      StageMeaning(v, raws, links, STAGES[k]);
    }
  }

  lemma ParsesIffParsed(v: Verifier, raws: seq<string>, links: seq<Claims>)
    requires |links| == |raws|
    ensures Parses(v, raws, links) <==> ParseLinks(v, raws, 0) == Ok(links)
  {
    ParseLinksMeaning(v, raws, 0);
    if Parses(v, raws, links) {
      assert forall k :: 0 <= k < |raws| ==> ParseLink(v, raws[k]) == Ok(links[k]);
      assert ParseLinks(v, raws, 0).value == links;
    }
    if ParseLinks(v, raws, 0) == Ok(links) {
      forall k | 0 <= k < |raws| ensures raws[k] != "" && v.codec.parse(raws[k]) == Ok(links[k]) {
        assert ParseLink(v, raws[k]) == Ok(links[k]);
      }
    }
  }

  lemma AcceptsParsedIffValid(v: Verifier, raws: seq<string>, links: seq<Claims>)
    requires raws != [] && ParseLinks(v, raws, 0) == Ok(links)
    ensures Verdict(v, raws).Ok? <==> Valid(v, raws, links)
    ensures Verdict(v, raws).Ok? ==> Verdict(v, raws) == Ok(Summary(v.codec, raws, links))
  {
    ParseLinksMeaning(v, raws, 0);
    ParsesIffParsed(v, raws, links);
    NoRefusalIffClean(v, raws, links);
    NoFaultIffValid(v, raws, links);
    assert Verdict(v, raws).Ok? <==> FirstRefusal(v, raws, links, 0).None?;
  }

  lemma NoRefusalIffClean(v: Verifier, raws: seq<string>, links: seq<Claims>)
    requires |links| == |raws|
    ensures FirstRefusal(v, raws, links, 0).None? <==> CleanBefore(v, raws, links, |STAGES|, 0)
  {
    FirstRefusalMeaning(v, raws, links, 0);
  }

  /** A chain is accepted exactly when its bytes carry claims that satisfy every rule. */
  lemma AcceptedIffValid(v: Verifier, raws: seq<string>)
    ensures Verdict(v, raws).Ok? <==> exists links :: Valid(v, raws, links)
    ensures forall links :: Valid(v, raws, links) ==> Verdict(v, raws) == Ok(Summary(v.codec, raws, links))
  {
    forall links | Valid(v, raws, links) ensures Verdict(v, raws) == Ok(Summary(v.codec, raws, links)) {
      ParsesIffParsed(v, raws, links);
      AcceptsParsedIffValid(v, raws, links);
    }
    if Verdict(v, raws).Ok? {
      AcceptsParsedIffValid(v, raws, ParseLinks(v, raws, 0).value);
    }
  }

  /** The claims of an accepted chain. */
  ghost function LinksOf(v: Verifier, raws: seq<string>): (links: seq<Claims>)
    requires Verdict(v, raws).Ok?
    ensures Valid(v, raws, links)
    ensures Verdict(v, raws) == Ok(Summary(v.codec, raws, links))
  {
    AcceptedIffValid(v, raws);
    var links :| Valid(v, raws, links);
    links
  }

  lemma WrapSuccessor(x: Int64)
    requires 0 <= x && 0 <= Wrap64(x + 1)
    ensures Wrap64(x + 1) == x + 1
  {}

  /** Depth is position: it cannot wrap, because no link may be negative. */
  lemma {:induction false} DepthIsPosition(v: Verifier, raws: seq<string>, links: seq<Claims>, i: nat)
    requires i < |links| == |raws| && WellFormedLinks(links) && Linked(v, raws, links)
    ensures links[i].depth == i
  {
    if i > 0 {
      DepthIsPosition(v, raws, links, i - 1);
      NextDepth(v, raws, links, i);
    }
  }

  lemma NextDepth(v: Verifier, raws: seq<string>, links: seq<Claims>, i: nat)
    requires |links| == |raws| && 0 < i < |links| && WellFormedLinks(links) && Linked(v, raws, links)
    requires links[i - 1].depth == i - 1
    ensures links[i].depth == i
  {
    assert WellFormed(links[i]);
    assert links[i].depth == Wrap64(links[i - 1].depth + 1);
    WrapSuccessor(links[i - 1].depth);
  }

  /** What ties each link of a chain to the one before it. */
  ghost predicate Committed(codec: Codec, raws: seq<string>, links: seq<Claims>) {
    |links| == |raws| && forall i :: 0 <= i < |raws| ==> CommittedAt(codec, raws, links, i)
  }

  ghost predicate CommittedAt(codec: Codec, raws: seq<string>, links: seq<Claims>, i: nat)
    requires i < |links| == |raws|
  {
    && codec.parse(raws[i]) == Ok(links[i])
    && links[i].depth == i
    && (i > 0 ==> links[i].parent == codec.digest(raws[i - 1]))
  }

  lemma AcceptedIsCommitted(v: Verifier, raws: seq<string>)
    requires Verdict(v, raws).Ok?
    ensures Committed(v.codec, raws, LinksOf(v, raws))
  {
    var links := LinksOf(v, raws);
    forall i | 0 <= i < |raws| ensures CommittedAt(v.codec, raws, links, i) {
      DepthIsPosition(v, raws, links, i);
    }
  }

  lemma SamePosition(codec: Codec, xs: seq<string>, a: seq<Claims>, ys: seq<string>, b: seq<Claims>, i: nat, j: nat)
    requires Committed(codec, xs, a) && Committed(codec, ys, b)
    requires i < |xs| && j < |ys| && xs[i] == ys[j]
    ensures i == j && a[i] == b[j]
  {
    assert CommittedAt(codec, xs, a, i) && CommittedAt(codec, ys, b, j);
  }

  lemma SameParent(codec: Codec, xs: seq<string>, a: seq<Claims>, ys: seq<string>, b: seq<Claims>, i: nat)
    requires codec.CollisionFree() && Committed(codec, xs, a) && Committed(codec, ys, b)
    requires 0 < i < |xs| && i < |ys| && a[i] == b[i]
    ensures xs[i - 1] == ys[i - 1]
  {
    assert CommittedAt(codec, xs, a, i) && CommittedAt(codec, ys, b, i);
  }

  lemma {:induction false} CommittedAncestry(codec: Codec, xs: seq<string>, a: seq<Claims>, ys: seq<string>, b: seq<Claims>, i: nat, j: nat)
    requires codec.CollisionFree() && Committed(codec, xs, a) && Committed(codec, ys, b)
    requires i < |xs| && j < |ys| && xs[i] == ys[j]
    ensures i == j && xs[..i + 1] == ys[..j + 1]
  {
    SamePosition(codec, xs, a, ys, b, i, j);
    assert xs[..i + 1] == xs[..i] + [xs[i]] && ys[..j + 1] == ys[..j] + [ys[j]];
    if i > 0 {
      SameParent(codec, xs, a, ys, b, i);
      CommittedAncestry(codec, xs, a, ys, b, i - 1, j - 1);
    }
  }

  /**
   Splicing is impossible: two accepted chains that share a link, anywhere in either, share
   its position and everything above it, even when accepted by different verifiers.
   */
  lemma SharedLinkSharedAncestry(v: Verifier, w: Verifier, xs: seq<string>, ys: seq<string>, i: nat, j: nat)
    requires v.codec == w.codec && v.codec.CollisionFree()
    requires Verdict(v, xs).Ok? && Verdict(w, ys).Ok?
    requires i < |xs| && j < |ys| && xs[i] == ys[j]
    ensures i == j && xs[..i + 1] == ys[..j + 1]
  {
    AcceptedIsCommitted(v, xs);
    AcceptedIsCommitted(w, ys);
    CommittedAncestry(v.codec, xs, LinksOf(v, xs), ys, LinksOf(w, ys), i, j);
  }

  /** Two accepted chains with the same leaf are the same chain. */
  lemma LeafDeterminesChain(v: Verifier, w: Verifier, xs: seq<string>, ys: seq<string>)
    requires v.codec == w.codec && v.codec.CollisionFree()
    requires Verdict(v, xs).Ok? && Verdict(w, ys).Ok?
    requires xs[|xs| - 1] == ys[|ys| - 1]
    ensures xs == ys
  {
    SharedLinkSharedAncestry(v, w, xs, ys, |xs| - 1, |ys| - 1);
    assert xs == xs[..|xs|] && ys == ys[..|ys|];
  }

  /** A line ends at its first line break. */
  lemma FirstLineUnique(d: string, e: string, s: string, t: string)
    requires '\n' !in d && '\n' !in e && d + "\n" + s == e + "\n" + t
    ensures d == e && s == t
  {
    var x := d + "\n" + s;
    var y := e + "\n" + t;
    assert x[|d|] == '\n' && y[|e|] == '\n';
    assert forall k :: 0 <= k < |d| ==> x[k] == d[k];
    assert forall k :: 0 <= k < |e| ==> y[k] == e[k];
    assert |d| == |e|;
    assert d == x[..|d|] && e == y[..|e|];
    assert s == x[|d| + 1..] && t == y[|e| + 1..];
  }

  lemma {:induction false} JoinDigestsInjective(codec: Codec, xs: seq<string>, ys: seq<string>)
    requires codec.CollisionFree() && JoinDigests(codec, xs) == JoinDigests(codec, ys)
    ensures xs == ys
  {
    if xs != [] && ys != [] {
      FirstLineUnique(codec.digest(xs[0]), codec.digest(ys[0]), JoinDigests(codec, xs[1..]), JoinDigests(codec, ys[1..]));
      JoinDigestsInjective(codec, xs[1..], ys[1..]);
      assert xs == [xs[0]] + xs[1..] && ys == [ys[0]] + ys[1..];
    }
  }

  /** One digest and one line break per serialization, in order. */
  lemma {:induction false} JoinDigestsAppends(codec: Codec, xs: seq<string>, y: string)
    ensures JoinDigests(codec, xs + [y]) == JoinDigests(codec, xs) + codec.digest(y) + "\n"
  {
    if xs == [] {
      assert [] + [y] == [y] && [y][1..] == [];
    } else {
      JoinDigestsAppends(codec, xs[1..], y);
      assert (xs + [y])[1..] == xs[1..] + [y];
    }
  }

  /** The chain digest commits to every serialization in order. */
  lemma ChainDigestCommits(codec: Codec, xs: seq<string>, ys: seq<string>)
    requires codec.CollisionFree()
    ensures ChainDigestOf(codec, xs) == ChainDigestOf(codec, ys) <==> xs == ys
  {
    if ChainDigestOf(codec, xs) == ChainDigestOf(codec, ys) {
      JoinDigestsInjective(codec, xs, ys);
    }
  }

  /** Whatever an accepted chain's result permits, every link permits, the sponsor's grant first. */
  lemma AcceptedWithinEveryLink(v: Verifier, raws: seq<string>, r: Request)
    requires Verdict(v, raws).Ok? && Permitted(Verdict(v, raws).value.capabilities, r)
    ensures forall i :: 0 <= i < |raws| ==> Permitted(LinksOf(v, raws)[i].Grants(), r)
  {
    var links := LinksOf(v, raws);
    forall i | 0 <= i < |raws| ensures Permitted(links[i].Grants(), r) {
      LeafWithinEveryLink(links, i, r);
    }
  }

  /** The leaf carries everything any link above it imposes on the sequence of actions. */
  lemma AcceptedLeafCarriesSequences(v: Verifier, raws: seq<string>, i: nat)
    requires Verdict(v, raws).Ok? && i < |raws|
    ensures var leaf := Verdict(v, raws).value.sequence;
            && SequenceNoWider(LinksOf(v, raws)[i].sequence, leaf)
            && (leaf.Some? ==> WellFormedSequence(leaf.value))
  {
    var links := LinksOf(v, raws);
    LeafCarriesSequences(links, i);
    assert Verdict(v, raws).value.sequence == links[|links| - 1].sequence;
  }

  lemma LeafCarriesSequences(links: seq<Claims>, i: nat)
    requires Narrowing(links) && i < |links|
    ensures var leaf := links[|links| - 1].sequence;
            SequenceNoWider(links[i].sequence, leaf) && (leaf.Some? ==> WellFormedSequence(leaf.value))
  {
    var last := |links| - 1;
    assert WellFormed(links[last]);
    if i < last {
      AnyTwoLinksNarrow(links, i, last);
    } else {
      SequenceNoWiderReflexive(links[last].sequence);
    }
  }

  /** Nothing below a link of an accepted chain outlives it, and nothing has as much depth left. */
  lemma AcceptedNothingOutlives(v: Verifier, raws: seq<string>, i: nat, j: nat)
    requires Verdict(v, raws).Ok? && i <= j < |raws|
    ensures LinksOf(v, raws)[j].expiresAt <= LinksOf(v, raws)[i].expiresAt
    ensures i < j ==> LinksOf(v, raws)[j].maxDepth < LinksOf(v, raws)[i].maxDepth
  {
    NothingBelowOutlives(LinksOf(v, raws), i, j);
  }

  /** Every link of an accepted chain is valid field by field, and its depth is its position. */
  lemma AcceptedLinkInFields(v: Verifier, raws: seq<string>, i: nat)
    requires Verdict(v, raws).Ok? && i < |raws|
    ensures FieldsAreValid(LinksOf(v, raws)[i]) && LinksOf(v, raws)[i].depth == i
  {
    DepthIsPosition(v, raws, LinksOf(v, raws), i);
    ValidInFields(LinksOf(v, raws)[i]);
  }

  /**
   What the result says of the chain: one audience throughout, one sponsor, every principal
   in order, depth one less than the length and within the sponsor's budget.
   */
  lemma AcceptedSummary(v: Verifier, raws: seq<string>)
    requires Verdict(v, raws).Ok?
    ensures var links, result := LinksOf(v, raws), Verdict(v, raws).value;
            && (forall i :: 0 <= i < |links| ==> links[i].audience == v.audience)
            && (forall i :: 0 <= i < |links| ==> links[i].root == result.sponsor)
            && (forall i :: 0 < i < |links| ==> links[i].issuer == result.actors[i - 1])
            && |result.actors| == |links|
            && result.actors[|links| - 1] == result.agent
            && result.depth == |raws| - 1 <= links[0].maxDepth
            && result.rootId == links[0].id && result.leafId == links[|links| - 1].id
            && Some(result.capabilities) == links[|links| - 1].capabilities
            && result.sequence == links[|links| - 1].sequence
            && result.chainDigest == v.codec.digest(JoinDigests(v.codec, raws))
  {
    var links := LinksOf(v, raws);
    var last := |links| - 1;
    DepthIsPosition(v, raws, links, last);
    DepthBudgetBoundsChain(links);
    forall i | 0 <= i < |links| ensures links[i].audience == v.audience {
      if i < last {
        AnyTwoLinksNarrow(links, i, last);
      }
    }
  }

  /** One revoked link, or one whose status is unknown, refuses every chain that contains it. */
  lemma RevokedLinkKillsChain(v: Verifier, raws: seq<string>, i: nat, c: Claims)
    requires i < |raws| && v.codec.parse(raws[i]) == Ok(c) && v.revoked(c.id) != Clean
    ensures Verdict(v, raws).Err?
  {
    AcceptedIffValid(v, raws);
  }
}
