/**
 The key resolver (pkg/jose/jwks.go) under concurrency: any number of lookups and source
 changes, interleaved between lock operations. `mu` guards the maps and the cached state of
 every issuer; each state carries its own fetch lock.

 Two kinds of bookkeeping stand beside the source's fields so that runs can be talked about:
 the source a state or document came from, and the starts of the fetches into a state.
 */
module Jwks {
  import opened Wrappers
  import opened Jose

  type Thread = nat
  type StateId = nat

  datatype Config = Config(ttl: int, minRefresh: int)

  datatype KeySet = KeySet(keys: map<string, Key>, fetchedAt: int, sequence: nat, origin: string)

  /** A fetch begun: when, whether a fresh document was held, and whether its document was accepted. */
  datatype Start = Start(at: int, whileFresh: bool, accepted: bool)

  datatype IssuerState = IssuerState(
    held: Option<KeySet>, lastTried: int, highestSequence: nat, fetchLock: Option<Thread>,
    origin: string, starts: seq<Start>)

  datatype Answer = Served(key: Key, from: KeySet, at: int) | Refused

  /** Where a lookup stands: before, inside and after each region that holds a lock. */
  datatype Phase =
    | WantMu | FirstLook
    | WantFetchLock(st: StateId)
    | WantMuAgain(st: StateId) | SecondLook(st: StateId) | Starting(st: StateId, whileFresh: bool)
    | Fetching(st: StateId)
    | WantMuToStore(st: StateId, doc: KeySet) | Storing(st: StateId, doc: KeySet)
    | Releasing(st: StateId, answer: Answer)
    | Done(answer: Answer)

  datatype Task =
    | Lookup(issuer: string, kid: string, source: string, begun: int, phase: Phase)
    | WantRegister(issuer: string, url: string)
    | Registering(issuer: string, url: string)
    | Registered

  datatype System = System(
    sources: map<string, string>, cache: map<string, StateId>, states: map<StateId, IssuerState>, nextId: nat,
    mu: Option<Thread>, tasks: map<Thread, Task>, now: int)

  /** What a fetch brings back; the clock is read while it runs. */
  datatype Reply = Failed | Document(keys: map<string, Key>, sequence: nat)

  datatype Event = StartLookup(t: Thread, issuer: string, kid: string) | StartRegister(t: Thread, issuer: string, url: string)
                 | Pass(time: nat) | Advance(t: Thread, reply: Reply)

  const INITIAL := System(map[], map[], map[], 0, None, map[], 0)

  /* ----- The three critical sections ----- */

  datatype Found = Hit(key: Key) | Miss | Refetch

  predicate Fresh(cfg: Config, st: IssuerState, now: int) {
    st.held.Some? && now - st.held.value.fetchedAt < cfg.ttl
  }

  /** lookupLocked: answer from the cache, refuse, or fetch. */
  function LookupLocked(cfg: Config, st: IssuerState, kid: string, now: int): Found {
    if !Fresh(cfg, st, now) then Refetch
    else if kid in st.held.value.keys then Hit(st.held.value.keys[kid])
    else if now - st.lastTried < cfg.minRefresh then Miss
    else Refetch
  }

  function AnswerOf(st: IssuerState, found: Found, now: int): Answer
    requires found.Hit? ==> st.held.Some?
  {
    if found.Hit? then Served(found.key, st.held.value, now) else Refused
  }

  /** A document below the highest sequence seen is a replay. */
  predicate WentBackwards(st: IssuerState, doc: KeySet) {
    st.highestSequence > 0 && doc.sequence < st.highestSequence
  }

  function MarkAccepted(starts: seq<Start>): seq<Start> {
    if starts == [] then [] else starts[|starts| - 1 := starts[|starts| - 1].(accepted := true)]
  }

  function Store(st: IssuerState, doc: KeySet, now: int): IssuerState {
    st.(held := Some(doc), lastTried := now,
        highestSequence := if doc.sequence > st.highestSequence then doc.sequence else st.highestSequence,
        starts := MarkAccepted(st.starts))
  }

  /* ----- Steps ----- */

  predicate InsideMu(task: Task) {
    match task
    case Lookup(_, _, _, _, phase) => phase.FirstLook? || phase.SecondLook? || phase.Starting? || phase.Storing?
    case Registering(_, _) => true
    case _ => false
  }

  predicate AwaitsMu(task: Task) {
    match task
    case Lookup(_, _, _, _, phase) => phase.WantMu? || phase.WantMuAgain? || phase.WantMuToStore?
    case WantRegister(_, _) => true
    case _ => false
  }

  predicate Finished(task: Task) {
    task.Registered? || (task.Lookup? && task.phase.Done?)
  }

  predicate CanAdvance(s: System, t: Thread) {
    && t in s.tasks
    && !Finished(s.tasks[t])
    && (AwaitsMu(s.tasks[t]) ==> s.mu.None?)
    && (InsideMu(s.tasks[t]) ==> s.mu == Some(t))
    && (s.tasks[t].Lookup? ==>
          match s.tasks[t].phase
          case WantFetchLock(st) => st in s.states && s.states[st].fetchLock.None?
          case WantMuAgain(st) => st in s.states
          case SecondLook(st) => st in s.states
          case Starting(st, _) => st in s.states
          case Fetching(st) => st in s.states
          case WantMuToStore(st, _) => st in s.states
          case Storing(st, _) => st in s.states
          case Releasing(st, _) => st in s.states
          case FirstLook => s.tasks[t].issuer in s.cache ==> s.cache[s.tasks[t].issuer] in s.states
          case _ => true)
  }

  predicate Enabled(s: System, e: Event) {
    match e
    case StartLookup(t, _, _) => t !in s.tasks
    case StartRegister(t, issuer, _) => t !in s.tasks && issuer != ""
    case Pass(_) => true
    case Advance(t, _) => CanAdvance(s, t)
  }

  function SetTask(s: System, t: Thread, task: Task): System {
    s.(tasks := s.tasks[t := task])
  }

  /** The first critical section of a lookup. */
  function First(cfg: Config, s: System, t: Thread, task: Task): System
    requires task.Lookup? && (task.issuer in s.cache ==> s.cache[task.issuer] in s.states)
  {
    var free := s.(mu := None);
    if task.issuer !in s.sources then
      SetTask(free, t, task.(begun := s.now, phase := Done(Refused)))
    else
      var source := s.sources[task.issuer];
      var known := task.issuer in s.cache;
      var id := if known then s.cache[task.issuer] else s.nextId;
      var st := if known then s.states[id] else IssuerState(None, 0, 0, None, source, []);
      var with := if known then free
                  else free.(cache := s.cache[task.issuer := id], states := s.states[id := st], nextId := s.nextId + 1);
      var found := LookupLocked(cfg, st, task.kid, s.now);
      SetTask(with, t, task.(source := source, begun := s.now,
                             phase := if found.Refetch? then WantFetchLock(id) else Done(AnswerOf(st, found, s.now))))
  }

  /** The second critical section reads the clock twice: for the look, and for a fetch that begins. */
  function Second(cfg: Config, s: System, t: Thread, task: Task): System
    requires task.Lookup? && task.phase.SecondLook? && task.phase.st in s.states
  {
    var id := task.phase.st;
    var st := s.states[id];
    var found := LookupLocked(cfg, st, task.kid, s.now);
    if found.Refetch? then
      SetTask(s, t, task.(phase := Starting(id, Fresh(cfg, st, s.now))))
    else
      SetTask(s.(mu := None), t, task.(phase := Releasing(id, AnswerOf(st, found, s.now))))
  }

  function Begin(s: System, t: Thread, task: Task): System
    requires task.Lookup? && task.phase.Starting? && task.phase.st in s.states
  {
    var id := task.phase.st;
    SetTask(s.(mu := None, states := s.states[id := Begun(s.states[id], s.now, task.phase.whileFresh)]), t, task.(phase := Fetching(id)))
  }

  /** A state once a fetch into it has begun. */
  function Begun(st: IssuerState, now: int, whileFresh: bool): IssuerState {
    st.(lastTried := now, starts := st.starts + [Start(now, whileFresh, false)])
  }

  function Third(s: System, t: Thread, task: Task): System
    requires task.Lookup? && task.phase.Storing? && task.phase.st in s.states
  {
    var id, doc := task.phase.st, task.phase.doc;
    var st := s.states[id];
    var free := s.(mu := None);
    if WentBackwards(st, doc) then
      SetTask(free, t, task.(phase := Releasing(id, Refused)))
    else
      var answer := if task.kid in doc.keys then Served(doc.keys[task.kid], doc, s.now) else Refused;
      SetTask(free.(states := s.states[id := Store(st, doc, s.now)]), t, task.(phase := Releasing(id, answer)))
  }

  function TakeMu(s: System, t: Thread, task: Task): System {
    SetTask(s.(mu := Some(t)), t, task)
  }

  function TakeFetchLock(s: System, t: Thread, task: Task): System
    requires task.Lookup? && task.phase.WantFetchLock? && task.phase.st in s.states
  {
    var id := task.phase.st;
    SetTask(s.(states := s.states[id := s.states[id].(fetchLock := Some(t))]), t, task.(phase := WantMuAgain(id)))
  }

  function FetchReturns(s: System, t: Thread, task: Task, reply: Reply): System
    requires task.Lookup? && task.phase.Fetching?
  {
    var id := task.phase.st;
    SetTask(s, t, task.(phase := if reply.Failed? then Releasing(id, Refused)
                                 else WantMuToStore(id, KeySet(reply.keys, s.now, reply.sequence, task.source))))
  }

  function Release(s: System, t: Thread, task: Task): System
    requires task.Lookup? && task.phase.Releasing? && task.phase.st in s.states
  {
    var id := task.phase.st;
    SetTask(s.(states := s.states[id := s.states[id].(fetchLock := None)]), t, task.(phase := Done(task.phase.answer)))
  }

  function AdvanceTask(cfg: Config, s: System, t: Thread, reply: Reply): System
    requires CanAdvance(s, t)
  {
    match s.tasks[t]
    case WantRegister(issuer, url) => TakeMu(s, t, Registering(issuer, url))
    case Registering(issuer, url) =>
      SetTask(s.(mu := None, sources := s.sources[issuer := url], cache := s.cache - {issuer}), t, Registered)
    case Registered => s
    case Lookup(_, _, _, _, phase) =>
      var task := s.tasks[t];
      match phase
      case WantMu => TakeMu(s, t, task.(phase := FirstLook))
      case FirstLook => First(cfg, s, t, task)
      case WantFetchLock(_) => TakeFetchLock(s, t, task)
      case WantMuAgain(st) => TakeMu(s, t, task.(phase := SecondLook(st)))
      case SecondLook(_) => Second(cfg, s, t, task)
      case Starting(_, _) => Begin(s, t, task)
      case Fetching(_) => FetchReturns(s, t, task, reply)
      case WantMuToStore(st, doc) => TakeMu(s, t, task.(phase := Storing(st, doc)))
      case Storing(_, _) => Third(s, t, task)
      case Releasing(_, _) => Release(s, t, task)
      case Done(_) => s
  }

  function Apply(cfg: Config, s: System, e: Event): System
    requires Enabled(s, e)
  {
    match e
    case StartLookup(t, issuer, kid) => SetTask(s, t, Lookup(issuer, kid, "", s.now, WantMu))
    case StartRegister(t, issuer, url) => SetTask(s, t, WantRegister(issuer, url))
    case Pass(time) => s.(now := s.now + time)
    case Advance(t, reply) => AdvanceTask(cfg, s, t, reply)
  }

  /** Where a run of enabled events leads. */
  function Run(cfg: Config, events: seq<Event>): Option<System>
    decreases |events|
  {
    if events == [] then Some(INITIAL)
    else
      var before := Run(cfg, events[..|events| - 1]);
      var e := events[|events| - 1];
      if before.Some? && Enabled(before.value, e) then Some(Apply(cfg, before.value, e)) else None
  }

  /* ----- The invariant ----- */

  /** The state a lookup works on, once it has one. */
  function WorksOn(task: Task): Option<StateId> {
    if !task.Lookup? then None
    else match task.phase
      case WantFetchLock(st) => Some(st)
      case _ => Holding(task)
  }

  /** The state whose fetch lock a lookup holds. */
  function Holding(task: Task): Option<StateId> {
    if !task.Lookup? then None
    else match task.phase
      case WantMuAgain(st) => Some(st)
      case SecondLook(st) => Some(st)
      case Starting(st, _) => Some(st)
      case Fetching(st) => Some(st)
      case WantMuToStore(st, _) => Some(st)
      case Storing(st, _) => Some(st)
      case Releasing(st, _) => Some(st)
      case _ => None
  }

  /** A key comes from the source the call found registered, fresh when served or fetched during the call. */
  ghost predicate GoodAnswer(cfg: Config, task: Task, a: Answer)
    requires task.Lookup?
  {
    a.Served? ==>
      && task.kid in a.from.keys && a.key == a.from.keys[task.kid]
      && a.from.origin == task.source
      && (a.at - a.from.fetchedAt < cfg.ttl || task.begun <= a.from.fetchedAt)
  }

  ghost predicate GoodDocument(s: System, task: Task, st: StateId, doc: KeySet)
    requires task.Lookup? && st in s.states
  {
    && doc.origin == task.source
    && task.begun <= doc.fetchedAt <= s.now
    && s.states[st].starts != []
    && s.states[st].starts[|s.states[st].starts| - 1].at <= doc.fetchedAt
  }

  /** A fetch begun now comes no sooner after the one before it than the limits allow. */
  ghost predicate MayStart(cfg: Config, st: IssuerState, whileFresh: bool, now: int) {
    st.starts != [] ==>
      var last := st.starts[|st.starts| - 1];
      && last.at <= now
      && (whileFresh ==> now - last.at >= cfg.minRefresh)
      && (last.accepted ==> now - last.at >= Least(cfg))
  }

  ghost predicate PhaseOk(cfg: Config, s: System, task: Task)
    requires task.Lookup? && (WorksOn(task).Some? ==> WorksOn(task).value in s.states)
  {
    match task.phase
    case Starting(st, whileFresh) => MayStart(cfg, s.states[st], whileFresh, s.now)
    case Fetching(st) => s.states[st].starts != []
    case WantMuToStore(st, doc) => GoodDocument(s, task, st, doc)
    case Storing(st, doc) => GoodDocument(s, task, st, doc)
    case Releasing(_, a) => GoodAnswer(cfg, task, a)
    case Done(a) => GoodAnswer(cfg, task, a)
    case _ => true
  }

  ghost predicate TaskOk(cfg: Config, s: System, t: Thread)
    requires t in s.tasks
  {
    var task := s.tasks[t];
    && (InsideMu(task) <==> s.mu == Some(t))
    && (WorksOn(task).Some? ==> WorksOn(task).value in s.states && s.states[WorksOn(task).value].origin == task.source)
    && (Holding(task).Some? ==> s.states[Holding(task).value].fetchLock == Some(t))
    && (task.Lookup? ==> task.begun <= s.now && PhaseOk(cfg, s, task))
  }

  function Least(cfg: Config): int {
    if cfg.ttl < cfg.minRefresh then cfg.ttl else cfg.minRefresh
  }

  /** The spacing of the fetches into one state. */
  ghost predicate Spaced(cfg: Config, starts: seq<Start>) {
    forall k :: 0 < k < |starts| ==>
      && starts[k - 1].at <= starts[k].at
      && (starts[k].whileFresh ==> starts[k].at - starts[k - 1].at >= cfg.minRefresh)
      && (starts[k - 1].accepted ==> starts[k].at - starts[k - 1].at >= Least(cfg))
  }

  ghost predicate StateOk(cfg: Config, s: System, id: StateId)
    requires id in s.states
  {
    var st := s.states[id];
    && id < s.nextId
    && (st.fetchLock.Some? ==> st.fetchLock.value in s.tasks && Holding(s.tasks[st.fetchLock.value]) == Some(id))
    && (st.held.Some? ==>
          && st.held.value.origin == st.origin
          && st.held.value.sequence == st.highestSequence
          && st.held.value.fetchedAt <= s.now
          && st.starts != [])
    && Spaced(cfg, st.starts)
    && (st.starts != [] ==>
          var last := st.starts[|st.starts| - 1];
          && last.at <= s.now && last.at <= st.lastTried
          && (last.accepted ==> st.held.Some? && last.at <= st.held.value.fetchedAt))
  }

  ghost predicate CacheOk(s: System, issuer: string)
    requires issuer in s.cache
  {
    && issuer in s.sources
    && s.cache[issuer] in s.states
    && s.states[s.cache[issuer]].origin == s.sources[issuer]
  }

  ghost predicate Inv(cfg: Config, s: System) {
    && (s.mu.Some? ==> s.mu.value in s.tasks && InsideMu(s.tasks[s.mu.value]))
    && (forall t :: t in s.tasks ==> TaskOk(cfg, s, t))
    && (forall id :: id in s.states ==> StateOk(cfg, s, id))
    && (forall issuer :: issuer in s.cache ==> CacheOk(s, issuer))
  }
}
