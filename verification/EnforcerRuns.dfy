/** What every run of the enforcement point keeps (pkg/mcp/mcp.go). */
module EnforcerRuns {
  import opened Wrappers
  import opened Mda
  import opened Attenuation
  import opened Permits
  import opened History
  import opened MemoryStore
  import opened Enforcer
  import opened Chains
  import V = Verify

  /* ----- One call ----- */

  /** The call passed verification and its own grant covers it. */
  ghost predicate InsideGrant<Q>(cfg: Config<Q>, call: Call<Q>) {
    && V.Verdict(call.verifier, V.Raws(call.chain)).Ok?
    && call.catalog(call.tool).Some?
    && Permitted(V.Verdict(call.verifier, V.Raws(call.chain)).value.capabilities,
                 GrantRequest(cfg, call.tool, call.catalog(call.tool).value))
  }

  lemma {:induction false} AskExtends<Q>(answer: (nat, Q) -> Answer, asked: seq<Q>, requests: seq<Q>)
    ensures var (allowed, after) := Ask(answer, asked, requests);
            && asked <= after
            && |after| <= |asked| + |requests|
            && after[|asked|..] == requests[..|after| - |asked|]
            && (allowed ==> after == asked + requests)
            && (allowed ==> forall k :: |asked| <= k < |after| ==> answer(k, after[k]) == Allow)
            && (allowed <==> forall k :: 0 <= k < |requests| ==> answer(|asked| + k, requests[k]) == Allow)
    decreases |requests|
  {
    if requests != [] {
      AskExtends(answer, asked + [requests[0]], requests[1..]);
      var after := Ask(answer, asked, requests).1;
      if answer(|asked|, requests[0]) == Allow {
        assert after[|asked|..] == [after[|asked|]] + after[|asked| + 1..];
      }
    }
  }

  /**
   An authorized call lies inside the grant of the sponsor and of every link below, and the
   policy point allowed each of its evaluations.
   */
  lemma AuthorizedInsideEveryGrant<Q>(cfg: Config<Q>, maxRoots: Int64, answer: (nat, Q) -> Answer,
                                      states: map<string, State>, asked: seq<Q>, call: Call<Q>)
    requires Step(cfg, maxRoots, answer, states, asked, call).result.Ok?
    ensures InsideGrant(cfg, call)
    ensures var links := LinksOf(call.verifier, V.Raws(call.chain));
            forall i :: 0 <= i < |links| ==>
              Permitted(links[i].Grants(), GrantRequest(cfg, call.tool, call.catalog(call.tool).value))
    ensures var after := Step(cfg, maxRoots, answer, states, asked, call).asked;
            && asked <= after
            && Evaluations(cfg, V.Verdict(call.verifier, V.Raws(call.chain)).value, call.tool, call.catalog(call.tool).value)
               == Some(after[|asked|..])
            && forall k :: |asked| <= k < |after| ==> answer(k, after[k]) == Allow
  {
    ClearedIff(cfg, call);
    var (verified, facts) := Cleared(cfg, call).value;
    assert Step(cfg, maxRoots, answer, states, asked, call) == Finish(cfg, maxRoots, answer, states, asked, call, verified, facts);
    AcceptedWithinEveryLink(call.verifier, V.Raws(call.chain), GrantRequest(cfg, call.tool, facts));
    AskExtends(answer, asked, Evaluations(cfg, verified, call.tool, facts).value);
  }

  /**
   A call is cleared for the policy point if and only if it names a tool, its chain verifies,
   the catalog knows the tool and the leaf permits what is asked; otherwise the refusal names
   the stage that it does not pass.
   */
  lemma ClearedIff<Q>(cfg: Config<Q>, call: Call<Q>)
    ensures var verdict, described := V.Verdict(call.verifier, V.Raws(call.chain)), call.catalog(call.tool);
            var permitted := verdict.Ok? && described.Some? &&
              Permitted(verdict.value.capabilities,
                        Request(cfg.resourceType, call.tool, described.value.tags, cfg.action, described.value.attributes));
            match Cleared(cfg, call)
            case Ok(c) => call.tool != "" && permitted && c == (verdict.value, described.value)
            case Err(AtVerify) => call.tool != "" && verdict.Err?
            case Err(AtCatalog) => call.tool == "" || (verdict.Ok? && described.None?)
            case Err(AtPermits) => call.tool != "" && verdict.Ok? && described.Some? && !permitted
            case Err(_) => false
  {}

  /** The evaluations a call asks for: its mapping's, or the default one alone. */
  ghost predicate AsksFor<Q>(cfg: Config<Q>, call: Call<Q>, v: V.Verified, facts: Facts<Q>, requests: seq<Q>) {
    if facts.mapping.Some? then facts.mapping.value(v) == Some(requests) else requests == [cfg.defaultRequest(v, call.tool)]
  }

  /**
   A cleared call is authorized if and only if it has evaluations, all of them are allowed and
   its action is admitted to the root's history; the refusal names the stage it does not pass.
   */
  lemma FinishedIff<Q>(cfg: Config<Q>, maxRoots: Int64, answer: (nat, Q) -> Answer,
                         states: map<string, State>, asked: seq<Q>, call: Call<Q>, v: V.Verified, facts: Facts<Q>)
    ensures var out := Finish(cfg, maxRoots, answer, states, asked, call, v, facts);
            var admission := Admission(states, maxRoots, call.live, v.rootId, v.sequence, Action(cfg.action, cfg.resourceType, facts.tags));
            match out.result
            case Ok(r) =>
              && r == v && admission == Ok(out.states)
              && (exists requests :: AsksFor(cfg, call, v, facts, requests) && out.asked == asked + requests)
              && forall k :: |asked| <= k < |out.asked| ==> answer(k, out.asked[k]) == Allow
            case Err(AtMapping) => forall requests :: !AsksFor(cfg, call, v, facts, requests)
            case Err(AtPolicy) => |out.asked| > |asked| && answer(|out.asked| - 1, out.asked[|out.asked| - 1]) != Allow
            case Err(AtSequence) => admission.Err?
            case Err(_) => false
  {
    var requests := Evaluations(cfg, v, call.tool, facts);
    if requests.Some? {
      assert AsksFor(cfg, call, v, facts, requests.value);
      AskExtends(answer, asked, requests.value);
      if !Ask(answer, asked, requests.value).0 {
        AskStopsAtRefusal(answer, asked, requests.value);
      }
    }
  }

  lemma {:induction false} AskStopsAtRefusal<Q>(answer: (nat, Q) -> Answer, asked: seq<Q>, requests: seq<Q>)
    requires !Ask(answer, asked, requests).0
    ensures var after := Ask(answer, asked, requests).1;
            |after| > |asked| && answer(|after| - 1, after[|after| - 1]) != Allow
    decreases |requests|
  {
    if requests != [] && answer(|asked|, requests[0]) == Allow {
      AskStopsAtRefusal(answer, asked + [requests[0]], requests[1..]);
    }
  }

  /** No constraint of the leaf that has fired forbids what an authorized call does. */
  lemma AuthorizedIsNotForbidden<Q>(cfg: Config<Q>, maxRoots: Int64, answer: (nat, Q) -> Answer,
                                    states: map<string, State>, asked: seq<Q>, call: Call<Q>)
    requires Step(cfg, maxRoots, answer, states, asked, call).result.Ok?
    ensures var v, facts := V.Verdict(call.verifier, V.Raws(call.chain)).value, call.catalog(call.tool).value;
            v.sequence.Some? ==>
              var s := StateOf(states, v.rootId);
              && (v.sequence.value.maxInvocations > 0 ==> s.invocations < v.sequence.value.maxInvocations)
              && forall c :: c in v.sequence.value.constraints && c.id in s.triggered ==>
                   || (c.forbid.action != "" && c.forbid.action != cfg.action)
                   || (c.forbid.resourceType != "" && c.forbid.resourceType != cfg.resourceType)
                   || exists t :: t in c.forbid.resourceTags && t !in facts.tags
  {
    var v, facts := V.Verdict(call.verifier, V.Raws(call.chain)).value, call.catalog(call.tool).value;
    if v.sequence.Some? {
      FirstForbiddingMeaning(v.sequence.value.constraints, StateOf(states, v.rootId).triggered,
                            Action(cfg.action, cfg.resourceType, facts.tags));
    }
  }

  /** The policy point hears of nothing that has not passed verification and the grant. */
  lemma AskedOnlyInsideGrant<Q>(cfg: Config<Q>, maxRoots: Int64, answer: (nat, Q) -> Answer,
                                states: map<string, State>, asked: seq<Q>, call: Call<Q>)
    ensures asked <= Step(cfg, maxRoots, answer, states, asked, call).asked
    ensures Step(cfg, maxRoots, answer, states, asked, call).asked != asked ==> InsideGrant(cfg, call)
  {
    var verdict := V.Verdict(call.verifier, V.Raws(call.chain));
    if verdict.Ok? && call.catalog(call.tool).Some? {
      var requests := Evaluations(cfg, verdict.value, call.tool, call.catalog(call.tool).value);
      if requests.Some? {
        AskExtends(answer, asked, requests.value);
      }
    }
  }

  /** A refused call leaves every history as it was; an authorized one touches only its root's. */
  lemma HistoriesChangeOnlyWhenAuthorized<Q>(cfg: Config<Q>, maxRoots: Int64, answer: (nat, Q) -> Answer,
                                             states: map<string, State>, asked: seq<Q>, call: Call<Q>)
    ensures var out := Step(cfg, maxRoots, answer, states, asked, call);
            && (out.result.Err? ==> out.states == states)
            && (out.result.Ok? ==> forall r :: r != out.result.value.rootId ==> StateOf(out.states, r) == StateOf(states, r))
  {
    var verdict := V.Verdict(call.verifier, V.Raws(call.chain));
    if verdict.Ok? && call.catalog(call.tool).Some? {
      var a := ActionOf(cfg, call.catalog(call.tool).value);
      AdmissionTouchesOneRoot(states, maxRoots, call.live, verdict.value.rootId, verdict.value.sequence, a);
    }
  }

  lemma AdmissionTouchesOneRoot(states: map<string, State>, maxRoots: Int64, live: bool, root: string, q: Option<Sequence>, a: Action)
    ensures Admission(states, maxRoots, live, root, q, a).Ok? ==>
              forall r :: r != root ==> StateOf(Admission(states, maxRoots, live, root, q, a).value, r) == StateOf(states, r)
  {}

  /** The policy point that always allows. */
  function AlwaysAllow<Q>(): (nat, Q) -> Answer {
    (k, q) => Allow
  }

  lemma {:induction false} AskAlwaysAllow<Q>(asked: seq<Q>, requests: seq<Q>)
    ensures Ask(AlwaysAllow<Q>(), asked, requests).0
    decreases |requests|
  {
    if requests != [] {
      AskAlwaysAllow(asked + [requests[0]], requests[1..]);
    }
  }

  /**
   A policy point can only narrow: what one authorizes, the one that always allows authorizes
   too, with the same result and the same histories afterwards.
   */
  lemma PolicyOnlyNarrows<Q>(cfg: Config<Q>, maxRoots: Int64, answer: (nat, Q) -> Answer,
                             states: map<string, State>, asked: seq<Q>, call: Call<Q>)
    requires Step(cfg, maxRoots, answer, states, asked, call).result.Ok?
    ensures var some := Step(cfg, maxRoots, answer, states, asked, call);
            var any := Step(cfg, maxRoots, AlwaysAllow<Q>(), states, asked, call);
            any.result == some.result && any.states == some.states
  {
    var verified := V.Verdict(call.verifier, V.Raws(call.chain)).value;
    AskAlwaysAllow(asked, Evaluations(cfg, verified, call.tool, call.catalog(call.tool).value).value);
  }

  /* ----- Runs ----- */

  /**
   A call, with what the policy point answers it, or the operator discarding the history of a
   root. Calls stand in the order in which they reach the store.
   */
  datatype Occurrence<!Q> = Attempt(call: Call<Q>, answer: (nat, Q) -> Answer) | Discard(root: string)

  /** An authorized call: the bytes and the verifier it was accepted with, and what it did. */
  datatype Entry = Entry(verifier: V.Verifier, raws: seq<string>, verified: V.Verified, request: Request, action: Action)

  /** `log` holds the authorized calls since their root was last discarded, `past` all of them. */
  datatype World<!Q> = World(states: map<string, State>, asked: seq<Q>, log: seq<Entry>, past: seq<Entry>)

  function EntryOf<Q>(cfg: Config<Q>, call: Call<Q>, verified: V.Verified): Entry
    requires call.catalog(call.tool).Some?
  {
    var facts := call.catalog(call.tool).value;
    Entry(call.verifier, V.Raws(call.chain), verified, GrantRequest(cfg, call.tool, facts), ActionOf(cfg, facts))
  }

  /** Discarding a history also forgets what was done under it. */
  function WithoutRoot(log: seq<Entry>, root: string): seq<Entry> {
    if log == [] then []
    else
      var before := WithoutRoot(log[..|log| - 1], root);
      if log[|log| - 1].verified.rootId == root then before else before + [log[|log| - 1]]
  }

  function Next<Q>(cfg: Config<Q>, maxRoots: Int64, w: World<Q>, o: Occurrence<Q>): World<Q> {
    match o
    case Discard(root) => World(w.states - {root}, w.asked, WithoutRoot(w.log, root), w.past)
    case Attempt(call, answer) =>
      var out := Step(cfg, maxRoots, answer, w.states, w.asked, call);
      if out.result.Ok? then
        var e := EntryOf(cfg, call, out.result.value);
        World(out.states, out.asked, w.log + [e], w.past + [e])
      else World(out.states, out.asked, w.log, w.past)
  }

  function Run<Q>(cfg: Config<Q>, maxRoots: Int64, os: seq<Occurrence<Q>>): World<Q> {
    if os == [] then World(map[], [], [], [])
    else Next(cfg, maxRoots, Run(cfg, maxRoots, os[..|os| - 1]), os[|os| - 1])
  }

  /** The authorized calls under one root that carry sequence constraints, as history events. */
  function EventsOf(log: seq<Entry>, root: string): seq<Event> {
    if log == [] then []
    else
      var before := EventsOf(log[..|log| - 1], root);
      var e := log[|log| - 1];
      if e.verified.rootId == root && e.verified.sequence.Some?
      then before + [Event(e.raws, e.verified.sequence.value, e.action)] else before
  }

  /** Every call ever authorized is inside its chain's grants; each history records its root's entries. */
  ghost predicate Consistent<Q>(w: World<Q>) {
    && (forall i :: 0 <= i < |w.past| ==> Authentic(w.past[i]))
    && (forall e :: e in w.log ==> e in w.past)
    && forall root :: Records(StateOf(w.states, root), EventsOf(w.log, root))
  }

  ghost predicate Authentic(e: Entry) {
    && V.Verdict(e.verifier, e.raws) == Ok(e.verified)
    && forall i :: 0 <= i < |e.raws| ==> Permitted(LinksOf(e.verifier, e.raws)[i].Grants(), e.request)
  }

  lemma {:induction false} WithoutRootEvents(log: seq<Entry>, root: string, other: string)
    ensures EventsOf(WithoutRoot(log, root), other) == if other == root then [] else EventsOf(log, other)
    ensures forall e :: e in WithoutRoot(log, root) ==> e in log
  {
    if log != [] {
      WithoutRootEvents(log[..|log| - 1], root, other);
      var before, e := WithoutRoot(log[..|log| - 1], root), log[|log| - 1];
      assert (before + [e])[..|before|] == before;
    }
  }

  lemma AttemptConsistent<Q>(cfg: Config<Q>, maxRoots: Int64, answer: (nat, Q) -> Answer, w: World<Q>, call: Call<Q>)
    requires Consistent(w) && Step(cfg, maxRoots, answer, w.states, w.asked, call).result.Ok?
    ensures Consistent(Next(cfg, maxRoots, w, Attempt(call, answer)))
  {
    var out := Step(cfg, maxRoots, answer, w.states, w.asked, call);
    var after := Next(cfg, maxRoots, w, Attempt(call, answer));
    var e := EntryOf(cfg, call, out.result.value);
    AuthorizedInsideEveryGrant(cfg, maxRoots, answer, w.states, w.asked, call);
    assert Authentic(e);
    AuthorizedRecords(cfg, maxRoots, answer, w, call);
  }

  lemma AuthorizedRecords<Q>(cfg: Config<Q>, maxRoots: Int64, answer: (nat, Q) -> Answer, w: World<Q>, call: Call<Q>)
    requires Step(cfg, maxRoots, answer, w.states, w.asked, call).result.Ok?
    requires forall root :: Records(StateOf(w.states, root), EventsOf(w.log, root))
    ensures var after := Next(cfg, maxRoots, w, Attempt(call, answer));
            forall root :: Records(StateOf(after.states, root), EventsOf(after.log, root))
  {
    var out := Step(cfg, maxRoots, answer, w.states, w.asked, call);
    var e := EntryOf(cfg, call, out.result.value);
    AdmissionRecords(w.states, maxRoots, call.live, e, w.log, out.states);
  }

  /** An admitted action is recorded in its root's history, and no other history changes. */
  lemma AdmissionRecords(states: map<string, State>, maxRoots: Int64, live: bool, e: Entry, log: seq<Entry>, after: map<string, State>)
    requires Admission(states, maxRoots, live, e.verified.rootId, e.verified.sequence, e.action) == Ok(after)
    requires forall root :: Records(StateOf(states, root), EventsOf(log, root))
    ensures forall root :: Records(StateOf(after, root), EventsOf(log + [e], root))
  {
    assert (log + [e])[..|log|] == log;
    forall root ensures Records(StateOf(after, root), EventsOf(log + [e], root)) {
      assert Records(StateOf(states, root), EventsOf(log, root));
      if root == e.verified.rootId && e.verified.sequence.Some? {
        RecordsStep(StateOf(states, root), EventsOf(log, root), Event(e.raws, e.verified.sequence.value, e.action));
      }
    }
  }

  lemma DiscardConsistent<Q>(cfg: Config<Q>, maxRoots: Int64, w: World<Q>, root: string)
    requires Consistent(w)
    ensures Consistent(Next(cfg, maxRoots, w, Discard(root)))
  {
    var after := Next(cfg, maxRoots, w, Discard(root));
    WithoutRootEvents(w.log, root, root);
    forall other ensures Records(StateOf(after.states, other), EventsOf(after.log, other)) {
      WithoutRootEvents(w.log, root, other);
      RecordsEmpty();
      assert Records(StateOf(w.states, other), EventsOf(w.log, other));
    }
  }

  lemma NextConsistent<Q>(cfg: Config<Q>, maxRoots: Int64, w: World<Q>, o: Occurrence<Q>)
    requires Consistent(w)
    ensures Consistent(Next(cfg, maxRoots, w, o))
  {
    match o
    case Discard(root) =>
      DiscardConsistent(cfg, maxRoots, w, root);
    case Attempt(call, answer) =>
      HistoriesChangeOnlyWhenAuthorized(cfg, maxRoots, answer, w.states, w.asked, call);
      if Step(cfg, maxRoots, answer, w.states, w.asked, call).result.Ok? {
        AttemptConsistent(cfg, maxRoots, answer, w, call);
      }
  }

  /** The call of an attempt that was authorized, with what it asked and what it did. */
  ghost predicate IsEntryOf<Q>(cfg: Config<Q>, o: Occurrence<Q>, e: Entry) {
    && o.Attempt?
    && V.Verdict(o.call.verifier, V.Raws(o.call.chain)) == Ok(e.verified)
    && e.verifier == o.call.verifier && e.raws == V.Raws(o.call.chain)
    && o.call.catalog(o.call.tool).Some?
    && var facts := o.call.catalog(o.call.tool).value;
       && e.request == Request(cfg.resourceType, o.call.tool, facts.tags, cfg.action, facts.attributes)
       && e.action == Action(cfg.action, cfg.resourceType, facts.tags)
  }

  /** An authorized call adds one entry, with the request and the action of that call. */
  lemma EntryIsOfCall<Q>(cfg: Config<Q>, maxRoots: Int64, w: World<Q>, o: Occurrence<Q>)
    requires o.Attempt? && Step(cfg, maxRoots, o.answer, w.states, w.asked, o.call).result.Ok?
    ensures var after := Next(cfg, maxRoots, w, o);
            exists e :: after.log == w.log + [e] && after.past == w.past + [e] && IsEntryOf(cfg, o, e)
  {
    var e := EntryOf(cfg, o.call, Step(cfg, maxRoots, o.answer, w.states, w.asked, o.call).result.value);
    assert Next(cfg, maxRoots, w, o).log == w.log + [e] && IsEntryOf(cfg, o, e);
  }

  /** Every entry of a run's log is an authorized attempt of that run. */
  lemma {:induction false} EntriesAreAttempts<Q>(cfg: Config<Q>, maxRoots: Int64, os: seq<Occurrence<Q>>)
    ensures forall e :: e in Run(cfg, maxRoots, os).past ==> exists i :: 0 <= i < |os| && IsEntryOf(cfg, os[i], e)
    ensures forall e :: e in Run(cfg, maxRoots, os).log ==> e in Run(cfg, maxRoots, os).past
    decreases |os|
  {
    RunConsistent(cfg, maxRoots, os);
    if os != [] {
      var before, o := os[..|os| - 1], os[|os| - 1];
      EntriesAreAttempts(cfg, maxRoots, before);
      var w, after := Run(cfg, maxRoots, before), Run(cfg, maxRoots, os);
      forall e | e in after.past ensures exists i :: 0 <= i < |os| && IsEntryOf(cfg, os[i], e) {
        if e in w.past {
          var i :| 0 <= i < |before| && IsEntryOf(cfg, before[i], e);
          assert IsEntryOf(cfg, os[i], e);
        } else {
          EntryIsOfCall(cfg, maxRoots, w, o);
          assert IsEntryOf(cfg, os[|os| - 1], e);
        }
      }
    }
  }

  /** Every run keeps every history in step with the calls it authorized. */
  lemma {:induction false} RunConsistent<Q>(cfg: Config<Q>, maxRoots: Int64, os: seq<Occurrence<Q>>)
    ensures Consistent(Run(cfg, maxRoots, os))
    decreases |os|
  {
    if os == [] {
      RecordsEmpty();
    } else {
      RunConsistent(cfg, maxRoots, os[..|os| - 1]);
      NextConsistent(cfg, maxRoots, Run(cfg, maxRoots, os[..|os| - 1]), os[|os| - 1]);
    }
  }

  /** With a cap on histories, or none set, no run ever holds more of them than the cap. */
  lemma {:induction false} HistoriesAreCapped<Q>(cfg: Config<Q>, maxRoots: Int64, os: seq<Occurrence<Q>>)
    requires maxRoots >= 0
    ensures |Run(cfg, maxRoots, os).states| <= if maxRoots == 0 then 100_000 else maxRoots
    decreases |os|
  {
    if os != [] {
      var before, o := os[..|os| - 1], os[|os| - 1];
      HistoriesAreCapped(cfg, maxRoots, before);
      var w := Run(cfg, maxRoots, before);
      match o
      case Discard(root) =>
        FewerKeys(w.states, root);
      case Attempt(call, answer) =>
        if Step(cfg, maxRoots, answer, w.states, w.asked, call).result.Ok? {
          var (v, facts) := Cleared(cfg, call).value;
          AdmissionKeepsCap(w.states, maxRoots, call.live, v.rootId, v.sequence, ActionOf(cfg, facts));
        }
    }
  }

  lemma FewerKeys(states: map<string, State>, root: string)
    ensures |states - {root}| <= |states|
  {
    assert (states - {root}).Keys <= states.Keys;
    KeysBound((states - {root}).Keys, states.Keys);
  }

  lemma {:induction false} KeysBound(small: set<string>, large: set<string>)
    requires small <= large
    ensures |small| <= |large|
    decreases small
  {
    if x :| x in small {
      KeysBound(small - {x}, large - {x});
    }
  }

  /* ----- A grant, end to end ----- */

  /** The authorized calls whose chain has the given serialization at place i. */
  function CallsUnder(log: seq<Entry>, link: string, i: nat): seq<Entry> {
    if log == [] then []
    else
      var before := CallsUnder(log[..|log| - 1], link, i);
      var e := log[|log| - 1];
      if i < |e.raws| && e.raws[i] == link then before + [e] else before
  }

  function ActionsOf(log: seq<Entry>): seq<Action> {
    seq(|log|, k requires 0 <= k < |log| => log[k].action)
  }

  function Carries(link: string, i: nat): Event -> bool {
    (e: Event) => i < |e.chain| && e.chain[i] == link
  }

  /** An authorized call under a link carries what the link imposes, and is kept under one root. */
  lemma EntryUnderLink(codec: Codec, e: Entry, link: string, i: nat, c: Claims)
    requires Authentic(e) && e.verifier.codec == codec && codec.parse(link) == Ok(c)
    requires i < |e.raws| && e.raws[i] == link
    ensures Permitted(c.Grants(), e.request)
    ensures SequenceNoWider(c.sequence, e.verified.sequence)
    ensures e.verified.sequence.Some? ==> WellFormedSequence(e.verified.sequence.value)
  {
    AcceptedLeafCarriesSequences(e.verifier, e.raws, i);
    assert LinksOf(e.verifier, e.raws)[i] == c;
  }

  lemma SameRoot(codec: Codec, e: Entry, f: Entry, i: nat)
    requires codec.CollisionFree() && Authentic(e) && Authentic(f)
    requires e.verifier.codec == codec && f.verifier.codec == codec
    requires i < |e.raws| && i < |f.raws| && e.raws[i] == f.raws[i]
    ensures e.verified.rootId == f.verified.rootId
  {
    SharedLinkSharedAncestry(e.verifier, f.verifier, e.raws, f.raws, i, i);
    assert e.raws[..i + 1][0] == f.raws[..i + 1][0];
    assert LinksOf(e.verifier, e.raws)[0] == LinksOf(f.verifier, f.raws)[0];
  }

  lemma {:induction false} EventsAreEntries(log: seq<Entry>, root: string)
    ensures forall v :: v in EventsOf(log, root) ==>
              exists e :: e in log && e.verified.rootId == root && v.chain == e.raws && e.verified.sequence == Some(v.leaf)
  {
    if log != [] {
      var n := |log| - 1;
      EventsAreEntries(log[..n], root);
      assert log == log[..n] + [log[n]];
      forall v | v in EventsOf(log, root)
        ensures exists e :: e in log && e.verified.rootId == root && v.chain == e.raws && e.verified.sequence == Some(v.leaf)
      {
        if v in EventsOf(log[..n], root) {
          var e :| e in log[..n] && e.verified.rootId == root && v.chain == e.raws && e.verified.sequence == Some(v.leaf);
          assert e in log;
        } else {
          assert log[n] in log;
        }
      }
    }
  }

  lemma SelectedStep(h: seq<Event>, v: Event, who: Event -> bool)
    ensures Selected(h + [v], who) == if who(v) then Selected(h, who) + [v] else Selected(h, who)
  {
    assert (h + [v])[..|h|] == h;
  }

  /** The calls under a link are the events of its root's history that carry it. */
  lemma {:induction false} CallsAreEvents(log: seq<Entry>, link: string, i: nat, root: string)
    requires forall e :: e in log && i < |e.raws| && e.raws[i] == link ==> e.verified.rootId == root && e.verified.sequence.Some?
    ensures ActionsOf(CallsUnder(log, link, i)) == Actions(Selected(EventsOf(log, root), Carries(link, i)))
  {
    if log != [] {
      var n := |log| - 1;
      var e := log[n];
      assert log == log[..n] + [e];
      CallsAreEvents(log[..n], link, i, root);
      var events, before := EventsOf(log[..n], root), CallsUnder(log[..n], link, i);
      assert ActionsOf(before + [e]) == ActionsOf(before) + [e.action];
      if e.verified.rootId == root && e.verified.sequence.Some? {
        var v := Event(e.raws, e.verified.sequence.value, e.action);
        SelectedStep(events, v, Carries(link, i));
        assert Actions(Selected(events, Carries(link, i)) + [v]) == Actions(Selected(events, Carries(link, i))) + [v.action];
      }
    }
  }

  /**
   The end-to-end guarantee. In any run, with arbitrary policy, catalog and mapping answers,
   clocks, keys and revocations, for any link of any chain: every authorized call below it
   lies inside its grant, and those since its root's history was last discarded together keep
   its budget and leave nothing it forbids after its trigger.
   */
  lemma GrantHolds<Q>(cfg: Config<Q>, maxRoots: Int64, os: seq<Occurrence<Q>>,
                      codec: Codec, link: string, i: nat, c: Claims)
    requires codec.CollisionFree() && codec.parse(link) == Ok(c)
    requires forall e :: e in Run(cfg, maxRoots, os).past ==> e.verifier.codec == codec
    ensures var w := Run(cfg, maxRoots, os);
            && (forall e :: e in CallsUnder(w.past, link, i) ==> Permitted(c.Grants(), e.request))
            && (c.sequence.Some? ==> Safe(c.sequence.value, ActionsOf(CallsUnder(w.log, link, i))))
  {
    RunConsistent(cfg, maxRoots, os);
    LogRespectsGrant(Run(cfg, maxRoots, os), codec, link, i, c);
  }

  /**
   The same in the fields of constraint and action: of two authorized calls under a link, none
   that a constraint forbids comes after one that triggers it.
   */
  lemma NothingForbiddenAfterTrigger<Q>(cfg: Config<Q>, maxRoots: Int64, os: seq<Occurrence<Q>>,
                                        codec: Codec, link: string, i: nat, c: Claims, k: Constraint, m: nat, n: nat)
    requires codec.CollisionFree() && codec.parse(link) == Ok(c)
    requires forall e :: e in Run(cfg, maxRoots, os).past ==> e.verifier.codec == codec
    requires c.sequence.Some? && k in c.sequence.value.constraints
    requires m < n < |CallsUnder(Run(cfg, maxRoots, os).log, link, i)|
    ensures var calls := CallsUnder(Run(cfg, maxRoots, os).log, link, i);
            Differs(k.after, calls[m].action) || Differs(k.forbid, calls[n].action)
  {
    GrantHolds(cfg, maxRoots, os, codec, link, i, c);
    var calls := CallsUnder(Run(cfg, maxRoots, os).log, link, i);
    assert Respects(k, ActionsOf(calls));
    assert ActionsOf(calls)[m] == calls[m].action && ActionsOf(calls)[n] == calls[n].action;
  }

  lemma LogRespectsGrant<Q>(w: World<Q>, codec: Codec, link: string, i: nat, c: Claims)
    requires Consistent(w) && codec.CollisionFree() && codec.parse(link) == Ok(c)
    requires forall e :: e in w.past ==> e.verifier.codec == codec
    ensures forall e :: e in CallsUnder(w.past, link, i) ==> Permitted(c.Grants(), e.request)
    ensures c.sequence.Some? ==> Safe(c.sequence.value, ActionsOf(CallsUnder(w.log, link, i)))
  {
    CallsUnderMembers(w.past, link, i);
    CallsUnderMembers(w.log, link, i);
    forall e | e in CallsUnder(w.past, link, i) ensures Permitted(c.Grants(), e.request) {
      EntryUnderLink(codec, e, link, i, c);
    }
    var calls := CallsUnder(w.log, link, i);
    if c.sequence.Some? && calls != [] {
      LogSafe(w, codec, link, i, c, calls[0]);
    }
  }

  lemma {:induction false} CallsUnderMembers(log: seq<Entry>, link: string, i: nat)
    ensures forall e :: e in CallsUnder(log, link, i) <==> e in log && i < |e.raws| && e.raws[i] == link
  {
    if log != [] {
      CallsUnderMembers(log[..|log| - 1], link, i);
      assert log == log[..|log| - 1] + [log[|log| - 1]];
    }
  }

  lemma LogSafe<Q>(w: World<Q>, codec: Codec, link: string, i: nat, c: Claims, f: Entry)
    requires Consistent(w) && codec.CollisionFree() && codec.parse(link) == Ok(c) && c.sequence.Some?
    requires forall e :: e in w.past ==> e.verifier.codec == codec
    requires f in w.log && i < |f.raws| && f.raws[i] == link
    ensures Safe(c.sequence.value, ActionsOf(CallsUnder(w.log, link, i)))
  {
    var root, q := f.verified.rootId, c.sequence.value;
    forall e | e in w.log && i < |e.raws| && e.raws[i] == link
      ensures e.verified.rootId == root && e.verified.sequence.Some? && WellFormedSequence(e.verified.sequence.value)
      ensures SequenceNoWider(Some(q), e.verified.sequence)
    {
      SameRoot(codec, e, f, i);
      EntryUnderLink(codec, e, link, i, c);
    }
    CallsAreEvents(w.log, link, i, root);
    EventsAreEntries(w.log, root);
    var events := EventsOf(w.log, root);
    assert Records(StateOf(w.states, root), events);
    forall v | v in events && Carries(link, i)(v) ensures Under(q, v) {
      var e :| e in w.log && v.chain == e.raws && e.verified.sequence == Some(v.leaf);
    }
    LinkConstraintsHold(q, events, Carries(link, i));
  }

  /**
   The sponsor's own history, as long as no other grant takes its id: the stored counter is
   the number of calls authorized under the grant, and a constraint of the grant is marked
   fired exactly when one of those calls matched its trigger.
   */
  lemma SponsorHistoryExact<Q>(cfg: Config<Q>, maxRoots: Int64, os: seq<Occurrence<Q>>,
                               codec: Codec, link: string, c: Claims)
    requires codec.CollisionFree() && codec.parse(link) == Ok(c) && c.sequence.Some?
    requires forall e :: e in Run(cfg, maxRoots, os).log ==>
               e.verifier.codec == codec && (e.verified.rootId == c.id ==> e.raws != [] && e.raws[0] == link)
    ensures var w := Run(cfg, maxRoots, os);
            var s, actions := StateOf(w.states, c.id), ActionsOf(CallsUnder(w.log, link, 0));
            && s.invocations == |actions|
            && Safe(c.sequence.value, actions)
            && forall k :: k in c.sequence.value.constraints ==>
                 (k.id in s.triggered <==> exists a :: a in actions && Matches(k.after, a))
  {
    RunConsistent(cfg, maxRoots, os);
    var w := Run(cfg, maxRoots, os);
    var events, q := EventsOf(w.log, c.id), c.sequence.value;
    forall e | e in w.log && 0 < |e.raws| && e.raws[0] == link
      ensures e.verified.rootId == c.id && e.verified.sequence.Some? && WellFormedSequence(e.verified.sequence.value)
      ensures SequenceNoWider(Some(q), e.verified.sequence)
    {
      EntryUnderLink(codec, e, link, 0, c);
      assert LinksOf(e.verifier, e.raws)[0] == c;
    }
    EventsAreEntries(w.log, c.id);
    forall v | v in events ensures Carries(link, 0)(v) && Under(q, v) {
      var e :| e in w.log && e.verified.rootId == c.id && v.chain == e.raws && e.verified.sequence == Some(v.leaf);
    }
    CallsAreEvents(w.log, link, 0, c.id);
    SelectedMembers(events, Carries(link, 0));
    RootConstraintsHold(q, StateOf(w.states, c.id), events);
  }
}
