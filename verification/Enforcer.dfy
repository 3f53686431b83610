/**
 The enforcement point (pkg/mcp/mcp.go): verify the chain, compare the call with its grant,
 ask the policy point, admit the action to the history.

 Q is the type of an evaluation request. What the catalog, the declared mapping and the
 policy point answer is arbitrary.
 */
module Enforcer {
  import opened Wrappers
  import opened Mda
  import opened Permits
  import opened History
  import opened MemoryStore
  import V = Verify

  datatype Answer = Allow | Deny | Unavailable

  /** What the deployment says of a tool; a mapping answers None for a mapping error. */
  datatype Facts<!Q> = Facts(
    tags: seq<string>, attributes: map<string, Value>, mapping: Option<V.Verified -> Option<seq<Q>>>)

  datatype Config<!Q> = Config(resourceType: string, action: string, defaultRequest: (V.Verified, string) -> Q)

  /** One call, with the clock, keys, revocations and catalog it meets. */
  datatype Call<!Q> = Call(
    chain: seq<Assertion>, tool: string,
    verifier: V.Verifier, catalog: string -> Option<Facts<Q>>, live: bool)

  datatype Stage = AtVerify | AtCatalog | AtPermits | AtMapping | AtPolicy | AtSequence

  datatype Outcome<!Q> = Outcome(
    result: Result<V.Verified, Stage>, states: map<string, State>, asked: seq<Q>)

  function GrantRequest<Q>(cfg: Config<Q>, tool: string, facts: Facts<Q>): Request {
    Request(cfg.resourceType, tool, facts.tags, cfg.action, facts.attributes)
  }

  function ActionOf<Q>(cfg: Config<Q>, facts: Facts<Q>): Action {
    Action(cfg.action, cfg.resourceType, facts.tags)
  }

  /** The evaluation requests of a call: the mapping's, or the default one. */
  function Evaluations<Q>(cfg: Config<Q>, verified: V.Verified, tool: string, facts: Facts<Q>): Option<seq<Q>> {
    if facts.mapping.Some? then facts.mapping.value(verified) else Some([cfg.defaultRequest(verified, tool)])
  }

  /** Asks in order until an answer is not an allow; the k-th question ever asked gets answer(k, _). */
  function Ask<Q>(answer: (nat, Q) -> Answer, asked: seq<Q>, requests: seq<Q>): (bool, seq<Q>)
    decreases |requests|
  {
    if requests == [] then (true, asked)
    else
      var after := asked + [requests[0]];
      if answer(|asked|, requests[0]) != Allow then (false, after) else Ask(answer, after, requests[1..])
  }

  /** The stages that ask nobody outside: the chain, the catalog, the grant. */
  function Cleared<Q>(cfg: Config<Q>, call: Call<Q>): Result<(V.Verified, Facts<Q>), Stage> {
    if call.tool == "" then Err(AtCatalog)
    else match V.Verdict(call.verifier, V.Raws(call.chain))
      case Err(_) => Err(AtVerify)
      case Ok(verified) =>
        var described := call.catalog(call.tool);
        if described.None? then Err(AtCatalog)
        else if !Permitted(verified.capabilities, GrantRequest(cfg, call.tool, described.value)) then Err(AtPermits)
        else Ok((verified, described.value))
  }

  /** The stages of a cleared call: its evaluations, the policy point, the history. */
  function Finish<Q>(cfg: Config<Q>, maxRoots: Int64, answer: (nat, Q) -> Answer, states: map<string, State>, asked: seq<Q>,
                     call: Call<Q>, verified: V.Verified, facts: Facts<Q>): Outcome<Q>
  {
    var requests := Evaluations(cfg, verified, call.tool, facts);
    if requests.None? then Outcome(Err(AtMapping), states, asked)
    else
      var (allowed, after) := Ask(answer, asked, requests.value);
      if !allowed then Outcome(Err(AtPolicy), states, after)
      else match Admission(states, maxRoots, call.live, verified.rootId, verified.sequence, ActionOf(cfg, facts))
        case Err(_) => Outcome(Err(AtSequence), states, after)
        case Ok(next) => Outcome(Ok(verified), next, after)
  }

  /** One call: what it answers, the histories it leaves and the questions asked so far. */
  function Step<Q>(cfg: Config<Q>, maxRoots: Int64, answer: (nat, Q) -> Answer,
                   states: map<string, State>, asked: seq<Q>, call: Call<Q>): Outcome<Q>
  {
    match Cleared(cfg, call)
    case Err(stage) => Outcome(Err(stage), states, asked)
    case Ok((verified, facts)) => Finish(cfg, maxRoots, answer, states, asked, call, verified, facts)
  }

  class PolicyPoint<!Q> {
    const answer: (nat, Q) -> Answer
    var asked: seq<Q>

    constructor (answer: (nat, Q) -> Answer)
      ensures this.answer == answer && asked == []
    {
      this.answer := answer;
      asked := [];
    }

    method Evaluate(q: Q) returns (a: Answer)
      modifies this
      ensures a == answer(|old(asked)|, q)
      ensures asked == old(asked) + [q]
    {
      a := answer(|asked|, q);
      asked := asked + [q];
    }
  }

  class Enforcer<!Q> {
    const cfg: Config<Q>
    const pdp: PolicyPoint<Q>
    const store: MemoryStore

    constructor (cfg: Config<Q>, pdp: PolicyPoint<Q>, store: MemoryStore)
      ensures this.cfg == cfg && this.pdp == pdp && this.store == store
    {
      this.cfg, this.pdp, this.store := cfg, pdp, store;
    }

    method Authorize(call: Call<Q>) returns (r: Result<V.Verified, Stage>)
      modifies pdp, store
      ensures store.maxRoots == old(store.maxRoots)
      ensures Outcome(r, store.states, pdp.asked)
              == Step(cfg, store.maxRoots, pdp.answer, old(store.states), old(pdp.asked), call)
    {
      if call.tool == "" {
        return Err(AtCatalog);
      }
      var verdict := V.Verify(call.verifier, call.chain);
      if verdict.Err? {
        return Err(AtVerify);
      }
      var verified := verdict.value;
      var described := call.catalog(call.tool);
      if described.None? {
        return Err(AtCatalog);
      }
      var facts := described.value;
      var permitted := Permits.Permits(verified.capabilities, GrantRequest(cfg, call.tool, facts));
      if !permitted {
        return Err(AtPermits);
      }
      var requests := [cfg.defaultRequest(verified, call.tool)];
      if facts.mapping.Some? {
        var mapped := facts.mapping.value(verified);
        if mapped.None? {
          return Err(AtMapping);
        }
        requests := mapped.value;
      }
      for i := 0 to |requests|
        invariant store.states == old(store.states) && store.maxRoots == old(store.maxRoots)
        invariant Ask(pdp.answer, pdp.asked, requests[i..]) == Ask(pdp.answer, old(pdp.asked), requests)
      {
        var answer := pdp.Evaluate(requests[i]);
        assert requests[i..][1..] == requests[i + 1..];
        if answer != Allow {
          return Err(AtPolicy);
        }
      }
      var admitted := store.Admit(call.live, verified.rootId, verified.sequence, ActionOf(cfg, facts));
      if admitted.Err? {
        return Err(AtSequence);
      }
      return Ok(verified);
    }
  }
}
