/** The single-process history store and the evaluator in front of it (pkg/sequence). */
module MemoryStore {
  import opened Wrappers
  import opened Mda
  import opened History

  const DEFAULT_MAX_ROOTS := 100_000

  datatype Refusal = NoRoot | Malformed | Cancelled | Full | Denied(denial: Denial)

  function StateOf(states: map<string, State>, root: string): State {
    if root in states then states[root] else EmptyState
  }

  /** Zero means the default cap; a negative setting removes the cap. */
  function Limit(maxRoots: Int64): Int64 {
    if maxRoots == 0 then DEFAULT_MAX_ROOTS else maxRoots
  }

  predicate HasRoom(states: map<string, State>, maxRoots: Int64, root: string) {
    root in states || Limit(maxRoots) <= 0 || |states| < Limit(maxRoots)
  }

  /**
   What the evaluator answers and, when it admits, the histories it leaves. `live` is false
   when the call's context has ended.
   */
  function Admission(states: map<string, State>, maxRoots: Int64, live: bool,
                           root: string, q: Option<Sequence>, a: Action): Result<map<string, State>, Refusal>
  {
    if q.None? then Ok(states)
    else if root == "" then Err(NoRoot)
    else if !WellFormedSequence(q.value) then Err(Malformed)
    else if !live then Err(Cancelled)
    else if !HasRoom(states, maxRoots, root) then Err(Full)
    else match Decide(StateOf(states, root), q.value, a)
      case Err(denial) => Err(Denied(denial))
      case Ok(next) => Ok(states[root := next])
  }

  /**
   An action is admitted if and only if the chain has no sequence, or its root is named, its
   sequence is valid, the call is live, the root is known or there is room for one more, and
   the automaton admits it.
   */
  lemma AdmissionIff(states: map<string, State>, maxRoots: Int64, live: bool, root: string, q: Option<Sequence>, a: Action)
    ensures var room := root in states || maxRoots < 0 || |states| < if maxRoots == 0 then 100_000 else maxRoots;
            Admission(states, maxRoots, live, root, q, a).Ok? <==>
              (q.Some? ==> root != "" && WellFormedSequence(q.value) && live && room && Decide(StateOf(states, root), q.value, a).Ok?)
  {}

  /** What is admitted is written to its root's history alone. */
  lemma AdmissionWrites(states: map<string, State>, maxRoots: Int64, live: bool, root: string, q: Option<Sequence>, a: Action)
    requires Admission(states, maxRoots, live, root, q, a).Ok?
    ensures Admission(states, maxRoots, live, root, q, a).value
            == if q.None? then states else states[root := Decide(if root in states then states[root] else EmptyState, q.value, a).value]
  {}

  /** With a cap on histories, or none set, an admission keeps them within it. */
  lemma AdmissionKeepsCap(states: map<string, State>, maxRoots: Int64, live: bool, root: string, q: Option<Sequence>, a: Action)
    requires maxRoots >= 0 && |states| <= if maxRoots == 0 then 100_000 else maxRoots
    requires Admission(states, maxRoots, live, root, q, a).Ok?
    ensures |Admission(states, maxRoots, live, root, q, a).value| <= if maxRoots == 0 then 100_000 else maxRoots
  {
    AdmissionIff(states, maxRoots, live, root, q, a);
    AdmissionWrites(states, maxRoots, live, root, q, a);
    if q.Some? {
      var next := Decide(StateOf(states, root), q.value, a).value;
      assert states[root := next].Keys == states.Keys + {root};
    }
  }

  class MemoryStore {
    var maxRoots: Int64
    var states: map<string, State>

    constructor (maxRoots: Int64)
      ensures this.maxRoots == maxRoots && states == map[]
    {
      this.maxRoots := maxRoots;
      this.states := map[];
    }

    method Len() returns (n: nat)
      ensures n == |states|
    {
      n := |states|;
    }

    /** Applies fn to the state of root, and persists nothing unless fn succeeds. */
    method Update(live: bool, root: string, fn: State -> Result<State, Denial>) returns (r: Result<(), Refusal>)
      modifies this
      ensures maxRoots == old(maxRoots)
      ensures r.Ok? <==> live && HasRoom(old(states), maxRoots, root) && fn(StateOf(old(states), root)).Ok?
      ensures r.Ok? ==> states == old(states)[root := fn(StateOf(old(states), root)).value]
      ensures r.Err? ==>
                && states == old(states)
                && r.error == if !live then Cancelled
                              else if !HasRoom(old(states), maxRoots, root) then Full
                              else Denied(fn(StateOf(old(states), root)).error)
    {
      if !live {
        return Err(Cancelled);
      }
      if root !in states {
        var limit := Limit(maxRoots);
        if limit > 0 && |states| >= limit {
          return Err(Full);
        }
      }
      var next := fn(StateOf(states, root));
      if next.Err? {
        return Err(Denied(next.error));
      }
      states := states[root := next.value];
      return Ok(());
    }

    method Get(root: string) returns (s: State)
      ensures s == StateOf(states, root)
    {
      s := StateOf(states, root);
    }

    method Forget(root: string)
      modifies this
      ensures maxRoots == old(maxRoots)
      ensures states == old(states) - {root}
    {
      states := states - {root};
    }

    /** Evaluator.Admit over this store. */
    method Admit(live: bool, root: string, q: Option<Sequence>, a: Action) returns (r: Result<(), Refusal>)
      modifies this
      ensures maxRoots == old(maxRoots)
      ensures match Admission(old(states), maxRoots, live, root, q, a)
              case Ok(after) => r.Ok? && states == after
              case Err(e) => r == Err(e) && states == old(states)
    {
      if q.None? {
        return Ok(());
      }
      if root == "" {
        return Err(NoRoot);
      }
      var valid := ValidateSequence(q.value);
      if !valid {
        return Err(Malformed);
      }
      r := Update(live, root, s => Decide(s, q.value, a));
    }
  }
}
