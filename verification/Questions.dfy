/**
 What the enforcement point asks the policy point (pkg/mcp/mcp.go, pkg/authzen/mapping.go):
 the default tool-call request, or the requests of a declared mapping.
 */
module Questions {
  import opened Wrappers
  import opened Templates
  import opened Anchoring
  import opened Enforcer
  import opened EnforcerRuns
  import opened Mda
  import H = History
  import V = Verify

  const TOOL_CALL_ACTION := "tools/call"
  const TOOL_RESOURCE_TYPE := "tool"

  type Question = RequestTree

  /** What a request carries of a verified chain. */
  function IdentityOf(v: V.Verified): Identity {
    Identity(v.sponsor.subject, v.sponsor.issuer, v.agent, v.chainDigest)
  }

  /** The request for a tool without a mapping. */
  function ToolCallRequest(v: V.Verified, tool: string, server: string, arguments: Members): Question {
    var named := if server != "" then map["server" := Tree.Text(server)] else map[];
    var properties := if arguments != map[] then named["arguments" := Object(arguments)] else named;
    RequestTree(
      Subject(SUBJECT_TYPE, v.sponsor.subject, map["iss" := Tree.Text(v.sponsor.issuer)]),
      TOOL_CALL_ACTION, None,
      Target(TOOL_RESOURCE_TYPE, tool, if properties == map[] then None else Some(properties)),
      map[AGENT_KEY := Tree.Text(v.agent), DELEGATION_KEY := Delegation(v.chainDigest)])
  }

  /** What a parsed mapping answers for a verified chain, within the limits on spending. */
  ghost function Mapped(m: Mapping, eval: Eval, v: V.Verified, fold: Fold): Option<seq<Question>> {
    if MappingCost(m, eval).AtMost(LIMIT) then Requests(m, eval, IdentityOf(v), fold) else None
  }

  /** The mapping of a tool is a document that parses, evaluated over each verified chain. */
  ghost predicate IsDeclared(mapping: V.Verified -> Option<seq<Question>>, t: Tree, compiles: string -> bool,
                             evals: V.Verified -> Eval, fold: Fold)
  {
    Parse(t, compiles).Some? && forall v :: mapping(v) == Mapped(Parse(t, compiles).value, evals(v), v, fold)
  }

  /** The enforcement point asks as deployed: by the default request or by a declared mapping. */
  ghost predicate AsDeployed(cfg: Config<Question>, call: Call<Question>, fold: Fold) {
    && (forall v, tool :: exists server, arguments :: cfg.defaultRequest(v, tool) == ToolCallRequest(v, tool, server, arguments))
    && (call.catalog(call.tool).Some? && call.catalog(call.tool).value.mapping.Some? ==>
          exists t, compiles, evals :: IsDeclared(call.catalog(call.tool).value.mapping.value, t, compiles, evals, fold))
  }

  /** The questions of a call: at least one, each speaking for the chain, all about one subject. */
  ghost predicate SpeakFor(qs: seq<Question>, v: V.Verified, fold: Fold) {
    && qs != []
    && (forall q :: q in qs ==> SpeaksForChain(q, IdentityOf(v), fold))
    && forall q, r :: q in qs && r in qs ==> q.subject == r.subject
  }

  /** The default request asks whether an identity may call the tool, naming server and arguments exactly when there are any. */
  lemma DefaultInFields(v: V.Verified, tool: string, server: string, arguments: Members)
    ensures var r := ToolCallRequest(v, tool, server, arguments);
            && r.subject.typ == "identity" && r.actionName == "tools/call" && r.actionProperties.None?
            && r.resource.typ == "tool" && r.resource.id == tool
            && (r.resource.properties.None? <==> server == "" && arguments == map[])
            && (r.resource.properties.Some? ==>
                  var p := r.resource.properties.value;
                  && ("server" in p <==> server != "") && ("server" in p ==> p["server"] == Tree.Text(server))
                  && ("arguments" in p <==> arguments != map[]) && ("arguments" in p ==> p["arguments"] == Object(arguments))
                  && p.Keys <= {"server", "arguments"})
            && r.subject.properties.Keys == {"iss"} && r.context.Keys == {"agent", "mandatum.delegation"}
  {
    var named: Members := if server != "" then map["server" := Tree.Text(server)] else map[];
    var properties := if arguments != map[] then named["arguments" := Object(arguments)] else named;
    assert server != "" ==> "server" in properties;
    assert arguments != map[] ==> "arguments" in properties;
  }

  lemma DefaultSpeaks(v: V.Verified, tool: string, server: string, arguments: Members, fold: Fold)
    ensures SpeakFor([ToolCallRequest(v, tool, server, arguments)], v, fold)
  {}

  lemma DeclaredSpeaks(mapping: V.Verified -> Option<seq<Question>>, t: Tree, compiles: string -> bool,
                       evals: V.Verified -> Eval, v: V.Verified, fold: Fold)
    requires IsDeclared(mapping, t, compiles, evals, fold) && mapping(v).Some?
    ensures SpeakFor(mapping(v).value, v, fold)
  {
    assert mapping(v) == Mapped(Parse(t, compiles).value, evals(v), v, fold);
    ParsedMappingRequests(t, compiles, evals(v), IdentityOf(v), fold);
  }

  lemma EvaluationsSpeak(cfg: Config<Question>, v: V.Verified, call: Call<Question>, fold: Fold)
    requires AsDeployed(cfg, call, fold) && call.catalog(call.tool).Some?
    requires Evaluations(cfg, v, call.tool, call.catalog(call.tool).value).Some?
    ensures SpeakFor(Evaluations(cfg, v, call.tool, call.catalog(call.tool).value).value, v, fold)
  {
    var mapping := call.catalog(call.tool).value.mapping;
    if mapping.Some? {
      var t, compiles, evals :| IsDeclared(mapping.value, t, compiles, evals, fold);
      DeclaredSpeaks(mapping.value, t, compiles, evals, v, fold);
    } else {
      var server, arguments :| cfg.defaultRequest(v, call.tool) == ToolCallRequest(v, call.tool, server, arguments);
      DefaultSpeaks(v, call.tool, server, arguments, fold);
    }
  }

  /** The verified chain a call presents. */
  function ChainOf(call: Call<Question>): Result<V.Verified, V.Fault> {
    V.Verdict(call.verifier, V.Raws(call.chain))
  }

  /** The questions of a cleared call. */
  lemma FinishSpeaks(cfg: Config<Question>, maxRoots: Int64, answer: (nat, Question) -> Answer, states: map<string, H.State>,
                     asked: seq<Question>, call: Call<Question>, v: V.Verified, fold: Fold)
    requires AsDeployed(cfg, call, fold) && call.catalog(call.tool).Some?
    ensures var out := Finish(cfg, maxRoots, answer, states, asked, call, v, call.catalog(call.tool).value);
            && asked <= out.asked
            && (forall k :: |asked| <= k < |out.asked| ==> SpeaksForChain(out.asked[k], IdentityOf(v), fold))
            && (out.result.Ok? ==> |asked| < |out.asked| && answer(|asked|, out.asked[|asked|]) == Allow)
  {
    var out := Finish(cfg, maxRoots, answer, states, asked, call, v, call.catalog(call.tool).value);
    var requests := Evaluations(cfg, v, call.tool, call.catalog(call.tool).value);
    if requests.Some? {
      EvaluationsSpeak(cfg, v, call, fold);
      AskExtends(answer, asked, requests.value);
      forall k | |asked| <= k < |out.asked| ensures SpeaksForChain(out.asked[k], IdentityOf(v), fold) {
        assert out.asked[k] == out.asked[|asked|..][k - |asked|];
      }
    }
  }

  /**
   One call: every question put to the policy point speaks for the chain that was verified,
   and an authorized call had at least one, allowed.
   */
  lemma QuestionsSpeak(cfg: Config<Question>, maxRoots: Int64, answer: (nat, Question) -> Answer,
                       states: map<string, H.State>, asked: seq<Question>, call: Call<Question>, fold: Fold)
    requires AsDeployed(cfg, call, fold)
    ensures var out := Step(cfg, maxRoots, answer, states, asked, call);
            && asked <= out.asked
            && (out.asked != asked ==> ChainOf(call).Ok?)
            && (forall k :: |asked| <= k < |out.asked| ==> SpeaksForChain(out.asked[k], IdentityOf(ChainOf(call).value), fold))
            && (out.result.Ok? ==> |asked| < |out.asked| && answer(|asked|, out.asked[|asked|]) == Allow)
  {
    ClearedIff(cfg, call);
    if Cleared(cfg, call).Ok? {
      FinishSpeaks(cfg, maxRoots, answer, states, asked, call, ChainOf(call).value, fold);
      assert Step(cfg, maxRoots, answer, states, asked, call)
          == Finish(cfg, maxRoots, answer, states, asked, call, ChainOf(call).value, call.catalog(call.tool).value);
    }
  }

  /** Some call of the run presented an accepted chain that the question speaks for. */
  ghost predicate AskedFor(os: seq<Occurrence<Question>>, q: Question, fold: Fold) {
    exists i :: 0 <= i < |os| && AskedBy(os[i], q, fold)
  }

  ghost predicate AskedBy(o: Occurrence<Question>, q: Question, fold: Fold) {
    o.Attempt? && ChainOf(o.call).Ok? && SpeaksForChain(q, IdentityOf(ChainOf(o.call).value), fold)
  }

  /** In every run the policy point is asked only on behalf of chains that were presented and accepted. */
  lemma {:induction false} RunQuestionsSpeak(cfg: Config<Question>, maxRoots: Int64, os: seq<Occurrence<Question>>, fold: Fold)
    requires forall o :: o in os && o.Attempt? ==> AsDeployed(cfg, o.call, fold)
    ensures forall q :: q in Run(cfg, maxRoots, os).asked ==> AskedFor(os, q, fold)
    decreases |os|
  {
    if os != [] {
      var before, o := os[..|os| - 1], os[|os| - 1];
      RunQuestionsSpeak(cfg, maxRoots, before, fold);
      var w, after := Run(cfg, maxRoots, before), Run(cfg, maxRoots, os);
      if o.Attempt? {
        QuestionsSpeak(cfg, maxRoots, o.answer, w.states, w.asked, o.call, fold);
      }
      forall q | q in after.asked ensures AskedFor(os, q, fold) {
        if q in w.asked {
          var i :| 0 <= i < |before| && AskedBy(before[i], q, fold);
          assert AskedBy(os[i], q, fold);
        } else {
          assert AskedBy(os[|os| - 1], q, fold);
        }
      }
    }
  }
}
