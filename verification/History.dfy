/**
 The sequence automaton (pkg/sequence/sequence.go): a counter and the set of fired
 constraints stand in for the whole history of actions under one chain root.
 */
module History {
  import opened Wrappers
  import opened Strings
  import opened Mda
  import opened Attenuation

  datatype Action = Action(name: string, resourceType: string, resourceTags: seq<string>)

  /** What is remembered about one chain root; `triggered` is kept sorted. */
  datatype State = State(invocations: int, triggered: seq<string>)

  const EmptyState := State(0, [])

  /** A refusal by a constraint, or by the budget when the id is empty. */
  datatype Denial = Denial(constraint: string)

  predicate Matches(m: ActionMatcher, a: Action) {
    && (m.action == "" || m.action == a.name)
    && (m.resourceType == "" || m.resourceType == a.resourceType)
    && forall t :: t in m.resourceTags ==> t in a.resourceTags
  }

  /** The first constraint that has fired and forbids a. */
  function FirstForbidding(cs: seq<Constraint>, triggered: seq<string>, a: Action): Option<Constraint> {
    if cs == [] then None
    else if cs[0].id in triggered && Matches(cs[0].forbid, a) then Some(cs[0])
    else FirstForbidding(cs[1..], triggered, a)
  }

  /** The fired ids after a has been admitted, new ones appended in the order of the constraints. */
  function Fire(cs: seq<Constraint>, triggered: seq<string>, a: Action): seq<string> {
    if cs == [] then triggered
    else if cs[0].id !in triggered && Matches(cs[0].after, a) then Fire(cs[1..], triggered + [cs[0].id], a)
    else Fire(cs[1..], triggered, a)
  }

  /** The decision of the automaton: budget, then constraints, then triggers. */
  function Decide(s: State, q: Sequence, a: Action): Result<State, Denial> {
    if q.maxInvocations > 0 && s.invocations >= q.maxInvocations then Err(Denial(""))
    else
      var forbidding := FirstForbidding(q.constraints, s.triggered, a);
      if forbidding.Some? then Err(Denial(forbidding.value.id))
      else Ok(State(s.invocations + 1, Sort(Fire(q.constraints, s.triggered, a))))
  }

  method Admit(s: State, q: Sequence, a: Action) returns (r: Result<State, Denial>)
    ensures r == Decide(s, q, a)
  {
    if q.maxInvocations > 0 && s.invocations >= q.maxInvocations {
      return Err(Denial(""));
    }
    for i := 0 to |q.constraints|
      invariant FirstForbidding(q.constraints, s.triggered, a) == FirstForbidding(q.constraints[i..], s.triggered, a)
    {
      var c := q.constraints[i];
      if c.id in s.triggered && Matches(c.forbid, a) {
        return Err(Denial(c.id));
      }
    }
    var triggered := Triggered(q.constraints, s.triggered, a);
    return Ok(State(s.invocations + 1, Sort(triggered)));
  }

  /** The second loop of admit: records what the action triggers. */
  method Triggered(cs: seq<Constraint>, before: seq<string>, a: Action) returns (triggered: seq<string>)
    ensures triggered == Fire(cs, before, a)
  {
    triggered := before;
    for i := 0 to |cs|
      invariant Fire(cs, before, a) == Fire(cs[i..], triggered, a)
    {
      var c := cs[i];
      if c.id !in triggered && Matches(c.after, a) {
        triggered := triggered + [c.id];
      }
    }
  }

  /* ----- What one decision does ----- */

  lemma {:induction false} FirstForbiddingMeaning(cs: seq<Constraint>, triggered: seq<string>, a: Action)
    ensures var f := FirstForbidding(cs, triggered, a);
            match f
            case Some(c) => c in cs && c.id in triggered && Matches(c.forbid, a)
            case None => forall c :: c in cs && c.id in triggered ==> !Matches(c.forbid, a)
  {
    if cs != [] {
      FirstForbiddingMeaning(cs[1..], triggered, a);
      assert cs == [cs[0]] + cs[1..];
    }
  }

  /** The id of some constraint of cs whose trigger matches a. */
  ghost predicate Fires(cs: seq<Constraint>, id: string, a: Action) {
    exists c :: c in cs && c.id == id && Matches(c.after, a)
  }

  lemma {:induction false} FireMeaning(cs: seq<Constraint>, triggered: seq<string>, a: Action)
    requires Distinct(triggered)
    ensures var f := Fire(cs, triggered, a);
            Distinct(f) && forall id :: id in f <==> id in triggered || Fires(cs, id, a)
  {
    if cs != [] {
      var next := if cs[0].id !in triggered && Matches(cs[0].after, a) then triggered + [cs[0].id] else triggered;
      FireMeaning(cs[1..], next, a);
      assert cs == [cs[0]] + cs[1..];
      forall id ensures id in Fire(cs, triggered, a) <==> id in triggered || Fires(cs, id, a) {
        assert Fires(cs, id, a) <==> (cs[0].id == id && Matches(cs[0].after, a)) || Fires(cs[1..], id, a);
      }
    }
  }

  /** One admitted decision, stated without its loops. */
  lemma DecideMeaning(s: State, q: Sequence, a: Action)
    requires StrictlySorted(s.triggered)
    ensures Decide(s, q, a).Ok? <==>
              && (q.maxInvocations > 0 ==> s.invocations < q.maxInvocations)
              && (forall c :: c in q.constraints && c.id in s.triggered ==> !Matches(c.forbid, a))
    ensures Decide(s, q, a).Ok? ==>
              var next := Decide(s, q, a).value;
              && next.invocations == s.invocations + 1
              && StrictlySorted(next.triggered)
              && forall id :: id in next.triggered <==> id in s.triggered || Fires(q.constraints, id, a)
  {
    FirstForbiddingMeaning(q.constraints, s.triggered, a);
    StrictlySortedDistinct(s.triggered);
    FireMeaning(q.constraints, s.triggered, a);
    var fired := Fire(q.constraints, s.triggered, a);
    SortDistinct(fired);
    SameMultisetSameMembers(fired, Sort(fired));
  }

  /** The matcher disagrees with the action in some field it sets. */
  predicate Differs(m: ActionMatcher, a: Action) {
    || (m.action != "" && m.action != a.name)
    || (m.resourceType != "" && m.resourceType != a.resourceType)
    || exists t :: t in m.resourceTags && t !in a.resourceTags
  }

  /**
   In the fields of matchers and actions: what is admitted differs from every fired matcher,
   and what fires is what the action agrees with.
   */
  lemma DecideInFields(s: State, q: Sequence, a: Action)
    requires StrictlySorted(s.triggered)
    ensures Decide(s, q, a).Ok? <==>
              && (q.maxInvocations > 0 ==> s.invocations < q.maxInvocations)
              && (forall c :: c in q.constraints && c.id in s.triggered ==> Differs(c.forbid, a))
    ensures Decide(s, q, a).Ok? ==>
              var next := Decide(s, q, a).value;
              && next.invocations == s.invocations + 1
              && (forall c :: c in q.constraints && !Differs(c.after, a) ==> c.id in next.triggered)
              && (forall id :: id in next.triggered && id !in s.triggered ==>
                    exists c :: c in q.constraints && c.id == id && !Differs(c.after, a))
              && forall id :: id in s.triggered ==> id in next.triggered
  {
    DecideMeaning(s, q, a);
    forall m: ActionMatcher ensures Matches(m, a) <==> !Differs(m, a) {}
    if Decide(s, q, a).Ok? {
      forall c | c in q.constraints && !Differs(c.after, a) ensures Fires(q.constraints, c.id, a) {
        assert Matches(c.after, a);
      }
    }
  }

  /** A denial without an id is for the budget; any other names a fired constraint that forbids the action. */
  lemma DenialMeans(s: State, q: Sequence, a: Action)
    requires Decide(s, q, a).Err?
    ensures var id := Decide(s, q, a).error.constraint;
            if q.maxInvocations > 0 && s.invocations >= q.maxInvocations then id == ""
            else exists c :: c in q.constraints && c.id == id && id in s.triggered && !Differs(c.forbid, a)
  {
    FirstForbiddingMeaning(q.constraints, s.triggered, a);
    if !(q.maxInvocations > 0 && s.invocations >= q.maxInvocations) {
      var c := FirstForbidding(q.constraints, s.triggered, a).value;
      assert c in q.constraints && !Differs(c.forbid, a);
    }
  }

  /** A matcher that sets nothing is the only one that selects every action. */
  lemma MatchesEverythingIff(m: ActionMatcher)
    ensures MatchesEverything(m) <==> forall a :: Matches(m, a)
  {
    if !MatchesEverything(m) {
      var a := Action(m.action + "a", m.resourceType + "a", []);
      assert |a.name| > |m.action| && |a.resourceType| > |m.resourceType|;
      assert m.resourceTags != [] ==> m.resourceTags[0] in m.resourceTags;
      assert !Matches(m, a);
    }
  }

  /* ----- One sequence: the state refines the history ----- */

  /** No action the constraint forbids comes after one that triggers it. */
  ghost predicate Respects(c: Constraint, h: seq<Action>) {
    forall i, j :: 0 <= i < j < |h| && Matches(c.after, h[i]) ==> !Matches(c.forbid, h[j])
  }

  /** The property a sequence promises of a whole history. */
  ghost predicate Safe(q: Sequence, h: seq<Action>) {
    && (q.maxInvocations > 0 ==> |h| <= q.maxInvocations)
    && forall c :: c in q.constraints ==> Respects(c, h)
  }

  /** The reference monitor: it keeps the entire history and re-reads it for every attempt. */
  ghost function Monitor(q: Sequence, attempts: seq<Action>): seq<Action> {
    if attempts == [] then []
    else
      var h := Monitor(q, attempts[..|attempts| - 1]);
      var a := attempts[|attempts| - 1];
      if Safe(q, h + [a]) then h + [a] else h
  }

  /** The automaton run over the same attempts, keeping only its bounded state. */
  function Replay(q: Sequence, attempts: seq<Action>): State {
    if attempts == [] then EmptyState
    else
      var s := Replay(q, attempts[..|attempts| - 1]);
      var r := Decide(s, q, attempts[|attempts| - 1]);
      if r.Ok? then r.value else s
  }

  ghost predicate Summarizes(s: State, q: Sequence, h: seq<Action>) {
    && s.invocations == |h|
    && StrictlySorted(s.triggered)
    && forall id :: id in s.triggered <==> exists k :: 0 <= k < |h| && Fires(q.constraints, id, h[k])
  }

  lemma FiresIsTrigger(q: Sequence, c: Constraint, a: Action)
    requires WellFormedSequence(q) && c in q.constraints
    ensures Fires(q.constraints, c.id, a) <==> Matches(c.after, a)
  {
    if Fires(q.constraints, c.id, a) {
      var d :| d in q.constraints && d.id == c.id && Matches(d.after, a);
      var i, j :| 0 <= i < |q.constraints| && 0 <= j < |q.constraints| && q.constraints[i] == c && q.constraints[j] == d;
    }
  }

  /** One decision against the summary is one decision against the history. */
  lemma DecideIffSafe(s: State, q: Sequence, h: seq<Action>, a: Action)
    requires WellFormedSequence(q) && Summarizes(s, q, h) && Safe(q, h)
    ensures Decide(s, q, a).Ok? <==> Safe(q, h + [a])
    ensures Decide(s, q, a).Ok? ==> Summarizes(Decide(s, q, a).value, q, h + [a])
  {
    DecideMeaning(s, q, a);
    var g := h + [a];
    forall c | c in q.constraints
      ensures Respects(c, g) <==> (c.id in s.triggered ==> !Matches(c.forbid, a))
    {
      forall k | 0 <= k < |h| ensures Fires(q.constraints, c.id, h[k]) <==> Matches(c.after, h[k]) {
        FiresIsTrigger(q, c, h[k]);
      }
      if c.id in s.triggered {
        var k :| 0 <= k < |h| && Fires(q.constraints, c.id, h[k]);
        assert g[k] == h[k] && g[|h|] == a;
      }
      assert Respects(c, h);
    }
    if Decide(s, q, a).Ok? {
      var t := Decide(s, q, a).value.triggered;
      forall id ensures id in t <==> exists k :: 0 <= k < |g| && Fires(q.constraints, id, g[k]) {
        if id in s.triggered {
          var k :| 0 <= k < |h| && Fires(q.constraints, id, h[k]);
          assert Fires(q.constraints, id, g[k]);
        }
        if Fires(q.constraints, id, a) {
          assert Fires(q.constraints, id, g[|h|]);
        }
      }
    }
  }

  /**
   Over any attempts, the bounded automaton admits exactly the actions the monitor that
   remembers everything admits, and its state summarizes that history.
   */
  lemma {:induction false} ReplayRefinesMonitor(q: Sequence, attempts: seq<Action>)
    requires WellFormedSequence(q)
    ensures var h := Monitor(q, attempts);
            Safe(q, h) && Summarizes(Replay(q, attempts), q, h)
  {
    if attempts != [] {
      var before := attempts[..|attempts| - 1];
      ReplayRefinesMonitor(q, before);
      DecideIffSafe(Replay(q, before), q, Monitor(q, before), attempts[|attempts| - 1]);
    }
  }

  /* ----- Many chains under one root ----- */

  /** An admitted action, with the chain presented for it and the constraints of that chain's leaf. */
  datatype Event = Event(chain: seq<string>, leaf: Sequence, action: Action)

  /** e carries a constraint with this id whose trigger the action matched. */
  ghost predicate FiredBy(e: Event, id: string) {
    Fires(e.leaf.constraints, id, e.action)
  }

  ghost predicate TriggerBefore(h: seq<Event>, j: nat, id: string)
    requires j <= |h|
  {
    exists i :: 0 <= i < j && FiredBy(h[i], id)
  }

  /** No constraint of e forbids its action after the first j events. */
  ghost predicate AllowedAt(h: seq<Event>, j: nat)
    requires j < |h|
  {
    && (h[j].leaf.maxInvocations > 0 ==> j < h[j].leaf.maxInvocations)
    && forall c :: c in h[j].leaf.constraints && Matches(c.forbid, h[j].action) ==> !TriggerBefore(h, j, c.id)
  }

  /** What a stored state says of the events admitted into it, whichever chains they came from. */
  ghost predicate Records(s: State, h: seq<Event>) {
    && s.invocations == |h|
    && StrictlySorted(s.triggered)
    && (forall id :: id in s.triggered <==> TriggerBefore(h, |h|, id))
    && forall j :: 0 <= j < |h| ==> AllowedAt(h, j)
  }

  lemma RecordsEmpty()
    ensures Records(EmptyState, [])
  {}

  /** Every admission, by any chain, keeps the record. */
  lemma RecordsStep(s: State, h: seq<Event>, e: Event)
    requires Records(s, h) && Decide(s, e.leaf, e.action).Ok?
    ensures Records(Decide(s, e.leaf, e.action).value, h + [e])
  {
    DecideMeaning(s, e.leaf, e.action);
    var g := h + [e];
    TriggerBeforeExtends(h, e);
    forall j | 0 <= j < |g| ensures AllowedAt(g, j) {
      if j < |h| {
        assert AllowedAt(h, j);
      }
    }
  }

  lemma TriggerBeforeExtends(h: seq<Event>, e: Event)
    ensures forall j: nat, id :: j <= |h| ==> TriggerBefore(h + [e], j, id) == TriggerBefore(h, j, id)
    ensures forall id :: TriggerBefore(h + [e], |h| + 1, id) <==> TriggerBefore(h, |h|, id) || FiredBy(e, id)
  {
    var g := h + [e];
    forall id ensures TriggerBefore(g, |h| + 1, id) <==> TriggerBefore(h, |h|, id) || FiredBy(e, id) {
      assert g[|h|] == e;
      if TriggerBefore(h, |h|, id) {
        var i :| 0 <= i < |h| && FiredBy(h[i], id);
        assert FiredBy(g[i], id);
      }
    }
    forall j: nat, id | j <= |h| ensures TriggerBefore(g, j, id) == TriggerBefore(h, j, id) {
      if TriggerBefore(h, j, id) {
        var i :| 0 <= i < j && FiredBy(h[i], id);
        assert FiredBy(g[i], id);
      }
    }
  }

  /** e was admitted under a leaf that carries everything link imposes. */
  ghost predicate Under(link: Sequence, e: Event) {
    WellFormedSequence(e.leaf) && SequenceNoWider(Some(link), Some(e.leaf))
  }

  lemma UnderKeepsConstraint(link: Sequence, e: Event, c: Constraint)
    requires Under(link, e) && c in link.constraints
    ensures c in e.leaf.constraints
    ensures FiredBy(e, c.id) <==> Matches(c.after, e.action)
  {
    FindIsMembership(e.leaf.constraints, c);
    FiresIsTrigger(e.leaf, c, e.action);
  }

  /** The events of some of the chains that share the history. */
  function Selected(h: seq<Event>, who: Event -> bool): seq<Event> {
    if h == [] then []
    else
      var before := Selected(h[..|h| - 1], who);
      if who(h[|h| - 1]) then before + [h[|h| - 1]] else before
  }

  function Actions(h: seq<Event>): seq<Action> {
    seq(|h|, i requires 0 <= i < |h| => h[i].action)
  }

  lemma {:induction false} SelectedMembers(h: seq<Event>, who: Event -> bool)
    ensures |Selected(h, who)| <= |h|
    ensures forall e :: e in Selected(h, who) <==> e in h && who(e)
    ensures (forall e :: e in h ==> who(e)) ==> Selected(h, who) == h
  {
    if h != [] {
      SelectedMembers(h[..|h| - 1], who);
      assert h == h[..|h| - 1] + [h[|h| - 1]];
    }
  }

  /**
   Any link with sequence constraints, in a history shared with arbitrary other chains: the
   actions of chains that carry what it imposes, any of them taken together, satisfy its
   constraints and its budget.
   */
  lemma {:induction false} LinkConstraintsHold(link: Sequence, h: seq<Event>, who: Event -> bool)
    requires forall j :: 0 <= j < |h| ==> AllowedAt(h, j)
    requires forall e :: e in h && who(e) ==> Under(link, e)
    ensures Safe(link, Actions(Selected(h, who)))
  {
    if h != [] {
      var n := |h| - 1;
      var before, e := h[..n], h[n];
      assert h == before + [e];
      TriggerBeforeExtends(before, e);
      forall j | 0 <= j < n ensures AllowedAt(before, j) {
        assert AllowedAt(h, j);
      }
      LinkConstraintsHold(link, before, who);
      SelectedMembers(before, who);
      if who(e) {
        var d := Selected(before, who);
        assert AllowedAt(h, n);
        forall c | c in link.constraints ensures Respects(c, Actions(d + [e])) {
          assert Respects(c, Actions(d));
          OneMoreRespects(link, h, n, d, c);
        }
      }
    }
  }

  /** An event allowed after n others may follow any of them that carry the same constraint. */
  lemma OneMoreRespects(link: Sequence, h: seq<Event>, n: nat, d: seq<Event>, c: Constraint)
    requires n < |h| && AllowedAt(h, n) && Under(link, h[n])
    requires forall e :: e in d ==> e in h[..n] && Under(link, e)
    requires c in link.constraints && Respects(c, Actions(d))
    ensures Respects(c, Actions(d + [h[n]]))
  {
    var e := h[n];
    UnderKeepsConstraint(link, e, c);
    assert Actions(d + [e]) == Actions(d) + [e.action];
    forall i | 0 <= i < |d| && Matches(c.after, d[i].action) ensures !Matches(c.forbid, e.action) {
      assert d[i] in d;
      UnderKeepsConstraint(link, d[i], c);
      var k :| 0 <= k < n && h[k] == d[i];
      assert TriggerBefore(h, n, c.id);
    }
  }

  /**
   The sponsor's own constraints, when every chain descends from the one grant: the whole
   history is safe, the counter counts it, and a constraint is marked fired exactly when an
   admitted action matched its trigger.
   */
  lemma RootConstraintsHold(root: Sequence, s: State, h: seq<Event>)
    requires Records(s, h)
    requires forall e :: e in h ==> Under(root, e)
    ensures s.invocations == |h|
    ensures Safe(root, Actions(h))
    ensures forall c :: c in root.constraints ==>
              (c.id in s.triggered <==> exists a :: a in Actions(h) && Matches(c.after, a))
  {
    var everyone := (e: Event) => true;
    LinkConstraintsHold(root, h, everyone);
    SelectedMembers(h, everyone);
    forall c | c in root.constraints
      ensures c.id in s.triggered <==> exists a :: a in Actions(h) && Matches(c.after, a)
    {
      forall i | 0 <= i < |h| ensures FiredBy(h[i], c.id) <==> Matches(c.after, Actions(h)[i]) {
        UnderKeepsConstraint(root, h[i], c);
      }
      if c.id in s.triggered {
        var i :| 0 <= i < |h| && FiredBy(h[i], c.id);
        assert Actions(h)[i] in Actions(h);
      }
    }
  }

  /** An action of one of the selected chains, among the first j events, matched the trigger. */
  ghost predicate MatchedBefore(h: seq<Event>, j: nat, c: Constraint, who: Event -> bool)
    requires j <= |h|
  {
    exists i :: 0 <= i < j && who(h[i]) && Matches(c.after, h[i].action)
  }

  /** Whenever another chain fires the id, a selected chain has done so before. */
  ghost predicate FiredFirstBy(h: seq<Event>, c: Constraint, who: Event -> bool) {
    forall j :: 0 <= j < |h| && !who(h[j]) && FiredBy(h[j], c.id) ==> MatchedBefore(h, j, c, who)
  }

  /**
   A constraint that a link introduces shares its id with whatever other chains under the root
   call by the same name. Throughout a history it counts as fired exactly when a chain below
   the link matched its trigger, if and only if no other chain fires the id first.
   */
  lemma LinkTriggerExactIff(link: Sequence, h: seq<Event>, c: Constraint, who: Event -> bool)
    requires forall e :: e in h && who(e) ==> Under(link, e)
    requires c in link.constraints
    ensures (forall j: nat :: j <= |h| ==> (TriggerBefore(h, j, c.id) <==> MatchedBefore(h, j, c, who)))
            <==> FiredFirstBy(h, c, who)
  {
    if FiredFirstBy(h, c, who) {
      forall i | 0 <= i < |h| && who(h[i]) ensures FiredBy(h[i], c.id) <==> Matches(c.after, h[i].action) {
        UnderKeepsConstraint(link, h[i], c);
      }
      forall j: nat | j <= |h| ensures TriggerBefore(h, j, c.id) <==> MatchedBefore(h, j, c, who) {
        TriggeredIsMatched(h, j, c, who);
      }
    } else {
      var j := OtherFiresFirst(h, c, who);
    }
  }

  lemma OtherFiresFirst(h: seq<Event>, c: Constraint, who: Event -> bool) returns (j: nat)
    requires !FiredFirstBy(h, c, who)
    ensures j <= |h| && TriggerBefore(h, j, c.id) && !MatchedBefore(h, j, c, who)
  {
    var i :| 0 <= i < |h| && !who(h[i]) && FiredBy(h[i], c.id) && !MatchedBefore(h, i, c, who);
    j := i + 1;
  }

  lemma TriggeredIsMatched(h: seq<Event>, j: nat, c: Constraint, who: Event -> bool)
    requires j <= |h| && FiredFirstBy(h, c, who)
    requires forall i :: 0 <= i < |h| && who(h[i]) ==> (FiredBy(h[i], c.id) <==> Matches(c.after, h[i].action))
    ensures TriggerBefore(h, j, c.id) <==> MatchedBefore(h, j, c, who)
  {
    if TriggerBefore(h, j, c.id) {
      var i :| 0 <= i < j && FiredBy(h[i], c.id);
      if !who(h[i]) {
        var k :| 0 <= k < i && who(h[k]) && Matches(c.after, h[k].action);
      }
    }
    if MatchedBefore(h, j, c, who) {
      var i :| 0 <= i < j && who(h[i]) && Matches(c.after, h[i].action);
      assert FiredBy(h[i], c.id);
    }
  }

  /** Interleaved attempts by any chains; refused ones leave no event. */
  function Share(attempts: seq<Event>): (State, seq<Event>) {
    if attempts == [] then (EmptyState, [])
    else
      var (s, h) := Share(attempts[..|attempts| - 1]);
      var e := attempts[|attempts| - 1];
      var r := Decide(s, e.leaf, e.action);
      if r.Ok? then (r.value, h + [e]) else (s, h)
  }

  lemma ShareNext(attempts: seq<Event>, e: Event)
    ensures var (s, h) := Share(attempts);
            var r := Decide(s, e.leaf, e.action);
            Share(attempts + [e]) == if r.Ok? then (r.value, h + [e]) else (s, h)
  {
    assert (attempts + [e])[..|attempts|] == attempts;
  }

  const READ := Action("read", "", [])
  const WRITE := Action("write", "", [])
  const MINE := Constraint("x", ActionMatcher("write", "", []), ActionMatcher("delete", "", []))
  const THEIRS := Constraint("x", ActionMatcher("delete", "", []), ActionMatcher("read", "", []))

  /**
   That does happen: two siblings use one id for unlike constraints, and what the first does
   blocks the second, whose own constraint nothing has triggered.
   */
  lemma SiblingTriggerBlocks(chain: seq<string>, sibling: seq<string>)
    ensures WellFormedSequence(Sequence(0, [MINE])) && WellFormedSequence(Sequence(0, [THEIRS]))
    ensures var attempts := [Event(sibling, Sequence(0, [THEIRS]), READ), Event(chain, Sequence(0, [MINE]), WRITE)];
            && Share(attempts).1 == attempts[..1]
            && Safe(Sequence(0, [MINE]), Actions(attempts))
  {
    var first, second := Event(sibling, Sequence(0, [THEIRS]), READ), Event(chain, Sequence(0, [MINE]), WRITE);
    var s := SiblingFires();
    SiblingIsBlocked(s);
    assert [first, second] == [first] + [second] && [first] == [] + [first];
    ShareNext([], first);
    ShareNext([first], second);
    assert Actions([first, second]) == [READ, WRITE];
  }

  lemma SiblingFires() returns (s: State)
    ensures Decide(EmptyState, Sequence(0, [THEIRS]), READ) == Ok(s) && StrictlySorted(s.triggered) && "x" in s.triggered
  {
    DecideMeaning(EmptyState, Sequence(0, [THEIRS]), READ);
    assert THEIRS in [THEIRS] && Matches(THEIRS.after, READ);
    assert Fires([THEIRS], "x", READ);
    s := Decide(EmptyState, Sequence(0, [THEIRS]), READ).value;
  }

  lemma SiblingIsBlocked(s: State)
    requires StrictlySorted(s.triggered) && "x" in s.triggered
    ensures Decide(s, Sequence(0, [MINE]), WRITE).Err?
  {
    DecideMeaning(s, Sequence(0, [MINE]), WRITE);
    assert MINE in [MINE] && Matches(MINE.forbid, WRITE);
  }

  /** In every interleaving of attempts the shared state records what was admitted. */
  lemma {:induction false} ShareRecords(attempts: seq<Event>)
    ensures Records(Share(attempts).0, Share(attempts).1)
    ensures forall e :: e in Share(attempts).1 ==> e in attempts
  {
    if attempts == [] {
      RecordsEmpty();
    } else {
      ShareRecords(attempts[..|attempts| - 1]);
      var (s, h) := Share(attempts[..|attempts| - 1]);
      var e := attempts[|attempts| - 1];
      if Decide(s, e.leaf, e.action).Ok? {
        RecordsStep(s, h, e);
      }
    }
  }

  /** The guarantees of a link, for every interleaving of attempts by its descendants and by others. */
  lemma SharedHistoryIsSafe(link: Sequence, attempts: seq<Event>, who: Event -> bool)
    requires forall e :: e in attempts && who(e) ==> Under(link, e)
    ensures var (s, h) := Share(attempts);
            && Safe(link, Actions(Selected(h, who)))
            && ((forall e :: e in attempts ==> Under(link, e)) ==>
                  && s.invocations == |h|
                  && Safe(link, Actions(h))
                  && forall c :: c in link.constraints ==>
                       (c.id in s.triggered <==> exists a :: a in Actions(h) && Matches(c.after, a)))
  {
    ShareRecords(attempts);
    var (s, h) := Share(attempts);
    LinkConstraintsHold(link, h, who);
    if forall e :: e in attempts ==> Under(link, e) {
      RootConstraintsHold(link, s, h);
    }
  }
}
