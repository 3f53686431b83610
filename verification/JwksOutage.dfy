/**
 What the refresh limit does not bound (pkg/jose/jwks.go): while no document is held, every
 lookup fetches at once.
 */
module JwksOutage {
  import opened Wrappers
  import opened Jose
  import opened Jwks
  import opened JwksRuns

  const ISSUER := "issuer"
  const KID := "kid"

  /** n fetches, all begun at time 0, none while a fresh document was held, none accepted. */
  ghost predicate Failures(starts: seq<Start>, n: nat) {
    |starts| == n && forall k :: 0 <= k < n ==> starts[k] == Start(0, false, false)
  }

  /** The issuer's state, still without a document, and the lookup t at some phase of its call. */
  ghost predicate At(s: System, t: Thread, id: StateId, phase: Phase, mu: Option<Thread>, lock: Option<Thread>, n: nat) {
    && s.now == 0 && s.mu == mu && ISSUER in s.sources
    && ISSUER in s.cache && s.cache[ISSUER] == id && id in s.states
    && s.states[id].held.None? && s.states[id].fetchLock == lock && Failures(s.states[id].starts, n)
    && t in s.tasks && s.tasks[t].Lookup? && s.tasks[t].issuer == ISSUER && s.tasks[t].phase == phase
    && forall u :: u in s.tasks ==> u <= t
  }

  /** Nobody is calling, and the issuer's n fetches have failed. */
  ghost predicate Idle(s: System, n: nat) {
    && s.now == 0 && s.mu.None? && ISSUER in s.sources
    && (forall u :: u in s.tasks ==> u <= n)
    && if ISSUER in s.cache then
         && s.cache[ISSUER] in s.states
         && var st := s.states[s.cache[ISSUER]];
            st.held.None? && st.fetchLock.None? && Failures(st.starts, n)
       else n == 0
  }

  lemma Extend(cfg: Config, events: seq<Event>, e: Event) returns (more: seq<Event>)
    requires Run(cfg, events).Some? && Enabled(Run(cfg, events).value, e)
    ensures more == events + [e]
    ensures Run(cfg, more) == Some(Apply(cfg, Run(cfg, events).value, e))
  {
    more := events + [e];
    assert more[..|more| - 1] == events;
  }

  lemma Registered(cfg: Config) returns (events: seq<Event>)
    ensures Run(cfg, events).Some? && Idle(Run(cfg, events).value, 0)
  {
    events := [];
    assert Run(cfg, events) == Some(INITIAL);
    events := Extend(cfg, events, StartRegister(0, ISSUER, "url"));
    events := Extend(cfg, events, Advance(0, Failed));
    assert Run(cfg, events).value.tasks[0] == Registering(ISSUER, "url");
    events := Extend(cfg, events, Advance(0, Failed));
  }

  /** A call of an idle resolver takes `mu` and finds everything as it was. */
  lemma Looks(cfg: Config, before: seq<Event>, n: nat) returns (events: seq<Event>)
    requires Run(cfg, before).Some? && Idle(Run(cfg, before).value, n)
    ensures Run(cfg, events).Some?
    ensures var s, looking := Run(cfg, before).value, Run(cfg, events).value;
            && looking == s.(mu := Some(n + 1), tasks := looking.tasks)
            && n + 1 in looking.tasks && looking.tasks[n + 1] == Lookup(ISSUER, KID, "", 0, FirstLook)
            && forall u :: u in looking.tasks ==> u <= n + 1
  {
    var t := n + 1;
    events := Extend(cfg, before, StartLookup(t, ISSUER, KID));
    events := Extend(cfg, events, Advance(t, Failed));
  }

  /** With no document to answer from, the first look sends the call to the fetch lock. */
  lemma LookFindsNothing(cfg: Config, s: System, n: nat) returns (id: StateId)
    requires Idle(s.(mu := None, tasks := map[]), n) && s.nextId !in s.states
    requires n + 1 in s.tasks && s.tasks[n + 1] == Lookup(ISSUER, KID, "", 0, FirstLook)
    requires forall u :: u in s.tasks ==> u <= n + 1
    ensures At(First(cfg, s, n + 1, s.tasks[n + 1]), n + 1, id, WantFetchLock(id), None, None, n)
  {
    id := if ISSUER in s.cache then s.cache[ISSUER] else s.nextId;
  }

  /** A call of an idle resolver goes straight to the fetch lock. */
  lemma ReachesLock(cfg: Config, before: seq<Event>, n: nat) returns (events: seq<Event>, id: StateId)
    requires Run(cfg, before).Some? && Idle(Run(cfg, before).value, n)
    ensures Run(cfg, events).Some? && At(Run(cfg, events).value, n + 1, id, WantFetchLock(id), None, None, n)
  {
    var t := n + 1;
    events := Looks(cfg, before, n);
    var looking := Run(cfg, events).value;
    RunKeeps(cfg, events);
    NextIdIsNew(cfg, looking);
    id := LookFindsNothing(cfg, looking, n);
    events := Extend(cfg, events, Advance(t, Failed));
    assert Run(cfg, events).value == First(cfg, looking, t, looking.tasks[t]);
  }

  lemma TakesLock(cfg: Config, before: seq<Event>, t: Thread, id: StateId, n: nat) returns (events: seq<Event>)
    requires Run(cfg, before).Some? && At(Run(cfg, before).value, t, id, WantFetchLock(id), None, None, n)
    ensures Run(cfg, events).Some? && At(Run(cfg, events).value, t, id, SecondLook(id), Some(t), Some(t), n)
  {
    events := Extend(cfg, before, Advance(t, Failed));
    assert At(Run(cfg, events).value, t, id, WantMuAgain(id), None, Some(t), n);
    events := Extend(cfg, events, Advance(t, Failed));
  }

  lemma Starts(cfg: Config, before: seq<Event>, t: Thread, id: StateId, n: nat) returns (events: seq<Event>)
    requires Run(cfg, before).Some? && At(Run(cfg, before).value, t, id, SecondLook(id), Some(t), Some(t), n)
    ensures Run(cfg, events).Some? && At(Run(cfg, events).value, t, id, Fetching(id), None, Some(t), n + 1)
  {
    events := Extend(cfg, before, Advance(t, Failed));
    assert At(Run(cfg, events).value, t, id, Starting(id, false), Some(t), Some(t), n);
    events := Extend(cfg, events, Advance(t, Failed));
  }

  lemma Fails(cfg: Config, before: seq<Event>, t: Thread, id: StateId, n: nat) returns (events: seq<Event>)
    requires Run(cfg, before).Some? && At(Run(cfg, before).value, t, id, Fetching(id), None, Some(t), n)
    ensures Run(cfg, events).Some? && At(Run(cfg, events).value, t, id, Done(Refused), None, None, n)
  {
    events := Extend(cfg, before, Advance(t, Failed));
    assert At(Run(cfg, events).value, t, id, Releasing(id, Refused), None, Some(t), n);
    events := Extend(cfg, events, Advance(t, Failed));
  }

  /** Under every configuration, any number of lookups can each begin a fetch at one and the same instant. */
  lemma {:induction false} FailedFetchesAreUnbounded(cfg: Config, n: nat) returns (events: seq<Event>)
    ensures Run(cfg, events).Some? && Idle(Run(cfg, events).value, n)
    ensures n > 0 ==>
              var s := Run(cfg, events).value;
              exists id :: id in s.states && Failures(s.states[id].starts, n)
  {
    if n == 0 {
      events := Registered(cfg);
      return;
    }
    var before := FailedFetchesAreUnbounded(cfg, n - 1);
    var more, id := ReachesLock(cfg, before, n - 1);
    more := TakesLock(cfg, more, n, id, n - 1);
    more := Starts(cfg, more, n, id, n - 1);
    events := Fails(cfg, more, n, id, n);
  }
}
