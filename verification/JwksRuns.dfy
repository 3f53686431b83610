/** What every interleaving of lookups and source changes keeps (pkg/jose/jwks.go). */
module JwksRuns {
  import opened Wrappers
  import opened Jose
  import opened Jwks

  /* ----- Preservation ----- */

  /** s' differs from s in task t, in locks taken or given back by t, and in states t holds. */
  ghost predicate OnlyBy(s: System, s': System, t: Thread) {
    && t in s'.tasks
    && s'.tasks.Keys == s.tasks.Keys + {t}
    && (forall u :: u in s.tasks && u != t ==> s'.tasks[u] == s.tasks[u])
    && (s'.mu == s.mu || (s.mu.None? && s'.mu == Some(t)) || (s.mu == Some(t) && s'.mu.None?))
    && s.now <= s'.now
    && (forall id :: id in s.states ==>
          && id in s'.states
          && s'.states[id].origin == s.states[id].origin
          && (forall u :: u != t ==> (s'.states[id].fetchLock == Some(u) <==> s.states[id].fetchLock == Some(u)))
          && (s'.states[id].starts != s.states[id].starts ==> s.states[id].fetchLock == Some(t)))
  }

  lemma OthersKeep(cfg: Config, s: System, s': System, t: Thread, u: Thread)
    requires Inv(cfg, s) && OnlyBy(s, s', t) && u in s.tasks && u != t
    ensures TaskOk(cfg, s', u)
  {
    assert TaskOk(cfg, s, u);
    var task := s.tasks[u];
    if Holding(task).Some? {
      HeldStateKeeps(cfg, s, s', t, u);
    }
    if task.Lookup? {
      PhaseKeeps(cfg, s, s', t, u);
    }
  }

  lemma HeldStateKeeps(cfg: Config, s: System, s': System, t: Thread, u: Thread)
    requires u in s.tasks && u != t && TaskOk(cfg, s, u) && OnlyBy(s, s', t) && Holding(s.tasks[u]).Some?
    ensures var id := Holding(s.tasks[u]).value;
            id in s'.states && s'.states[id].starts == s.states[id].starts && s'.states[id].fetchLock == Some(u)
  {
    assert s.states[Holding(s.tasks[u]).value].fetchLock == Some(u);
  }

  lemma PhaseKeeps(cfg: Config, s: System, s': System, t: Thread, u: Thread)
    requires u in s.tasks && u != t && TaskOk(cfg, s, u) && OnlyBy(s, s', t) && s.tasks[u].Lookup?
    ensures WorksOn(s.tasks[u]).Some? ==> WorksOn(s.tasks[u]).value in s'.states
    ensures PhaseOk(cfg, s', s.tasks[u])
  {
    if Holding(s.tasks[u]).Some? {
      HeldStateKeeps(cfg, s, s', t, u);
    }
  }

  /** A state no step touched stays as it should be. */
  lemma StateKeeps(cfg: Config, s: System, s': System, t: Thread, id: StateId)
    requires Inv(cfg, s) && OnlyBy(s, s', t) && id in s.states && s'.states[id] == s.states[id]
    requires s.nextId <= s'.nextId
    requires t in s.tasks ==> Holding(s'.tasks[t]) == Holding(s.tasks[t]) || Holding(s.tasks[t]) != Some(id)
    ensures StateOk(cfg, s', id)
  {
    assert StateOk(cfg, s, id);
  }

  lemma AssembleInv(cfg: Config, s: System, s': System, t: Thread)
    requires Inv(cfg, s) && OnlyBy(s, s', t)
    requires s'.mu == Some(t) ==> InsideMu(s'.tasks[t])
    requires TaskOk(cfg, s', t)
    requires forall id :: id in s'.states ==> StateOk(cfg, s', id)
    requires forall issuer :: issuer in s'.cache ==> CacheOk(s', issuer)
    ensures Inv(cfg, s')
  {
    forall u | u in s'.tasks ensures TaskOk(cfg, s', u) {
      if u != t {
        OthersKeep(cfg, s, s', t, u);
      }
    }
  }

  /** `mu` stays as it is, or t takes it or gives it back. */
  ghost predicate MuMoves(s: System, t: Thread, mu: Option<Thread>) {
    mu == s.mu || (s.mu.None? && mu == Some(t)) || (s.mu == Some(t) && mu.None?)
  }

  /** A step that moves t along, and may take `mu` or leave it. */
  lemma MoveOnlyBy(s: System, t: Thread, mu: Option<Thread>, next: Task)
    requires t in s.tasks && MuMoves(s, t, mu)
    ensures OnlyBy(s, SetTask(s.(mu := mu), t, next), t)
  {}

  /** A step that also changes a state, as its holder or to take or give back its lock. */
  lemma ChangeOnlyBy(s: System, t: Thread, mu: Option<Thread>, next: Task, id: StateId, st: IssuerState)
    requires t in s.tasks && MuMoves(s, t, mu) && id in s.states && StateMoves(s.states[id], st, t)
    ensures OnlyBy(s, SetTask(s.(mu := mu, states := s.states[id := st]), t, next), t)
  {}

  /** What t may do to a state: take its free lock, or anything but move it to another source. */
  ghost predicate StateMoves(st: IssuerState, st': IssuerState, t: Thread) {
    && st'.origin == st.origin
    && (st'.fetchLock == st.fetchLock || (st.fetchLock.None? && st'.fetchLock == Some(t)) || (st.fetchLock == Some(t) && st'.fetchLock.None?))
    && (st'.starts == st.starts || st.fetchLock == Some(t))
  }

  lemma StartKeeps(cfg: Config, s: System, t: Thread, task: Task)
    requires Inv(cfg, s) && t !in s.tasks
    requires task.WantRegister? || (task.Lookup? && task.phase == WantMu && task.begun == s.now)
    ensures Inv(cfg, SetTask(s, t, task))
  {
    var s' := SetTask(s, t, task);
    assert OnlyBy(s, s', t);
    forall id | id in s'.states ensures StateOk(cfg, s', id) {
      StateKeeps(cfg, s, s', t, id);
    }
    forall issuer | issuer in s'.cache ensures CacheOk(s', issuer) {
      assert CacheOk(s, issuer);
    }
    AssembleInv(cfg, s, s', t);
  }

  lemma TimeKeeps(cfg: Config, s: System, time: nat)
    requires Inv(cfg, s)
    ensures Inv(cfg, s.(now := s.now + time))
  {
    var s' := s.(now := s.now + time);
    forall t | t in s'.tasks ensures TaskOk(cfg, s', t) { assert TaskOk(cfg, s, t); }
    forall id | id in s'.states ensures StateOk(cfg, s', id) { assert StateOk(cfg, s, id); }
    forall issuer | issuer in s'.cache ensures CacheOk(s', issuer) { assert CacheOk(s, issuer); }
  }

  /** Steps that only move a task along, taking or leaving `mu`, touching no state. */
  lemma MoveKeeps(cfg: Config, s: System, t: Thread, mu: Option<Thread>, next: Task)
    requires Inv(cfg, s) && t in s.tasks && MuMoves(s, t, mu)
    requires Holding(next) == Holding(s.tasks[t])
    requires TaskOk(cfg, SetTask(s.(mu := mu), t, next), t)
    ensures Inv(cfg, SetTask(s.(mu := mu), t, next))
  {
    var s' := SetTask(s.(mu := mu), t, next);
    MoveOnlyBy(s, t, mu, next);
    forall id | id in s'.states ensures StateOk(cfg, s', id) {
      StateKeeps(cfg, s, s', t, id);
    }
    forall issuer | issuer in s'.cache ensures CacheOk(s', issuer) {
      assert CacheOk(s, issuer);
    }
    AssembleInv(cfg, s, s', t);
  }

  lemma RegisterKeeps(cfg: Config, s: System, t: Thread, issuer: string, url: string)
    requires Inv(cfg, s) && CanAdvance(s, t) && s.tasks[t] == Registering(issuer, url)
    ensures Inv(cfg, AdvanceTask(cfg, s, t, Failed))
  {
    var s' := AdvanceTask(cfg, s, t, Failed);
    assert TaskOk(cfg, s, t) && OnlyBy(s, s', t);
    forall id | id in s'.states ensures StateOk(cfg, s', id) {
      StateKeeps(cfg, s, s', t, id);
    }
    forall i | i in s'.cache ensures CacheOk(s', i) {
      assert CacheOk(s, i);
    }
    AssembleInv(cfg, s, s', t);
  }

  lemma FirstUnregisteredKeeps(cfg: Config, s: System, t: Thread)
    requires Inv(cfg, s) && CanAdvance(s, t) && s.tasks[t].Lookup? && s.tasks[t].phase.FirstLook?
    requires s.tasks[t].issuer !in s.sources
    ensures Inv(cfg, First(cfg, s, t, s.tasks[t]))
  {
    assert TaskOk(cfg, s, t);
    MoveKeeps(cfg, s, t, None, s.tasks[t].(begun := s.now, phase := Done(Refused)));
  }

  lemma FirstKnownKeeps(cfg: Config, s: System, t: Thread)
    requires Inv(cfg, s) && CanAdvance(s, t) && s.tasks[t].Lookup? && s.tasks[t].phase.FirstLook?
    requires s.tasks[t].issuer in s.sources && s.tasks[t].issuer in s.cache
    ensures Inv(cfg, First(cfg, s, t, s.tasks[t]))
  {
    assert TaskOk(cfg, s, t);
    assert CacheOk(s, s.tasks[t].issuer) && StateOk(cfg, s, s.cache[s.tasks[t].issuer]);
    FirstKnownTaskOk(cfg, s, t);
    MoveKeeps(cfg, s, t, None, First(cfg, s, t, s.tasks[t]).tasks[t]);
  }

  lemma FirstKnownTaskOk(cfg: Config, s: System, t: Thread)
    requires CanAdvance(s, t) && TaskOk(cfg, s, t) && s.tasks[t].Lookup? && s.tasks[t].phase.FirstLook?
    requires s.tasks[t].issuer in s.sources && s.tasks[t].issuer in s.cache
    requires CacheOk(s, s.tasks[t].issuer) && StateOk(cfg, s, s.cache[s.tasks[t].issuer])
    ensures var s' := First(cfg, s, t, s.tasks[t]);
            && s' == SetTask(s.(mu := None), t, s'.tasks[t])
            && MuMoves(s, t, None)
            && Holding(s'.tasks[t]) == Holding(s.tasks[t])
            && TaskOk(cfg, s', t)
  {}

  lemma FirstNewTaskOk(cfg: Config, s: System, t: Thread)
    requires CanAdvance(s, t) && TaskOk(cfg, s, t) && s.tasks[t].Lookup? && s.tasks[t].phase.FirstLook?
    requires s.tasks[t].issuer in s.sources && s.tasks[t].issuer !in s.cache && s.nextId !in s.states
    ensures OnlyBy(s, First(cfg, s, t, s.tasks[t]), t)
    ensures TaskOk(cfg, First(cfg, s, t, s.tasks[t]), t)
    ensures StateOk(cfg, First(cfg, s, t, s.tasks[t]), s.nextId)
  {}

  lemma FirstNewKeeps(cfg: Config, s: System, t: Thread)
    requires Inv(cfg, s) && CanAdvance(s, t) && s.tasks[t].Lookup? && s.tasks[t].phase.FirstLook?
    requires s.tasks[t].issuer in s.sources && s.tasks[t].issuer !in s.cache
    ensures Inv(cfg, First(cfg, s, t, s.tasks[t]))
  {
    var issuer := s.tasks[t].issuer;
    var s' := First(cfg, s, t, s.tasks[t]);
    NextIdIsNew(cfg, s);
    assert TaskOk(cfg, s, t);
    FirstNewTaskOk(cfg, s, t);
    assert s'.states == s.states[s.nextId := s'.states[s.nextId]];
    assert Holding(s.tasks[t]).None? && Holding(s'.tasks[t]).None?;
    forall id | id in s'.states ensures StateOk(cfg, s', id) {
      if id != s.nextId {
        StateKeeps(cfg, s, s', t, id);
      }
    }
    forall i | i in s'.cache ensures CacheOk(s', i) {
      if i != issuer { assert CacheOk(s, i); }
    }
    AssembleInv(cfg, s, s', t);
  }

  lemma NextIdIsNew(cfg: Config, s: System)
    requires Inv(cfg, s)
    ensures s.nextId !in s.states
  {
    assert s.nextId in s.states ==> StateOk(cfg, s, s.nextId);
  }

  /** The steps that change one state, which t holds or is taking. */
  lemma ChangeKeeps(cfg: Config, s: System, t: Thread, mu: Option<Thread>, next: Task, id: StateId, st: IssuerState)
    requires Inv(cfg, s) && t in s.tasks && MuMoves(s, t, mu) && id in s.states && StateMoves(s.states[id], st, t)
    requires Holding(s.tasks[t]).None? || Holding(s.tasks[t]) == Some(id)
    requires var s' := SetTask(s.(mu := mu, states := s.states[id := st]), t, next);
             TaskOk(cfg, s', t) && StateOk(cfg, s', id)
    ensures Inv(cfg, SetTask(s.(mu := mu, states := s.states[id := st]), t, next))
  {
    var s' := SetTask(s.(mu := mu, states := s.states[id := st]), t, next);
    ChangeOnlyBy(s, t, mu, next, id, st);
    forall i | i in s'.states ensures StateOk(cfg, s', i) {
      if i != id {
        OtherStateKeeps(cfg, s, s', t, i);
      }
    }
    forall issuer | issuer in s'.cache ensures CacheOk(s', issuer) {
      assert CacheOk(s, issuer);
    }
    AssembleInv(cfg, s, s', t);
  }

  lemma OtherStateKeeps(cfg: Config, s: System, s': System, t: Thread, i: StateId)
    requires Inv(cfg, s) && t in s.tasks && OnlyBy(s, s', t) && i in s.states && s'.states[i] == s.states[i]
    requires s'.nextId == s.nextId
    requires Holding(s.tasks[t]) != Some(i)
    ensures StateOk(cfg, s', i)
  {
    assert StateOk(cfg, s, i);
  }

  lemma TakeFetchLockKeeps(cfg: Config, s: System, t: Thread)
    requires Inv(cfg, s) && CanAdvance(s, t) && s.tasks[t].Lookup? && s.tasks[t].phase.WantFetchLock?
    ensures Inv(cfg, TakeFetchLock(s, t, s.tasks[t]))
  {
    var task := s.tasks[t];
    var id := task.phase.st;
    assert TaskOk(cfg, s, t) && StateOk(cfg, s, id);
    TakenOk(cfg, s, t);
    assert s.(mu := s.mu) == s;
    ChangeKeeps(cfg, s, t, s.mu, task.(phase := WantMuAgain(id)), id, s.states[id].(fetchLock := Some(t)));
  }

  lemma ReleaseKeeps(cfg: Config, s: System, t: Thread)
    requires Inv(cfg, s) && CanAdvance(s, t) && s.tasks[t].Lookup? && s.tasks[t].phase.Releasing?
    ensures Inv(cfg, Release(s, t, s.tasks[t]))
  {
    var task := s.tasks[t];
    var id := task.phase.st;
    assert TaskOk(cfg, s, t) && StateOk(cfg, s, id);
    ReleasedOk(cfg, s, t);
    assert s.(mu := s.mu) == s;
    ChangeKeeps(cfg, s, t, s.mu, task.(phase := Done(task.phase.answer)), id, s.states[id].(fetchLock := None));
  }

  lemma TakenOk(cfg: Config, s: System, t: Thread)
    requires CanAdvance(s, t) && s.tasks[t].Lookup? && s.tasks[t].phase.WantFetchLock?
    requires TaskOk(cfg, s, t) && StateOk(cfg, s, s.tasks[t].phase.st)
    ensures var s' := TakeFetchLock(s, t, s.tasks[t]);
            TaskOk(cfg, s', t) && StateOk(cfg, s', s.tasks[t].phase.st)
  {}

  lemma ReleasedOk(cfg: Config, s: System, t: Thread)
    requires CanAdvance(s, t) && s.tasks[t].Lookup? && s.tasks[t].phase.Releasing?
    requires TaskOk(cfg, s, t) && StateOk(cfg, s, s.tasks[t].phase.st)
    ensures var s' := Release(s, t, s.tasks[t]);
            TaskOk(cfg, s', t) && StateOk(cfg, s', s.tasks[t].phase.st)
  {}

  /** Where the lookup says to fetch, a fetch may start, at once or any time later. */
  lemma LookupMayStart(cfg: Config, s: System, id: StateId, kid: string)
    requires id in s.states && StateOk(cfg, s, id)
    requires LookupLocked(cfg, s.states[id], kid, s.now) == Refetch
    ensures MayStart(cfg, s.states[id], Fresh(cfg, s.states[id], s.now), s.now)
  {}

  /** A fetch starts no sooner after the one before it than the limits allow. */
  lemma StartIsSpaced(cfg: Config, st: IssuerState, whileFresh: bool, now: int)
    requires Spaced(cfg, st.starts) && MayStart(cfg, st, whileFresh, now)
    ensures Spaced(cfg, Begun(st, now, whileFresh).starts)
  {
    var starts := Begun(st, now, whileFresh).starts;
    forall k | 0 < k < |starts|
      ensures starts[k - 1].at <= starts[k].at
      ensures starts[k].whileFresh ==> starts[k].at - starts[k - 1].at >= cfg.minRefresh
      ensures starts[k - 1].accepted ==> starts[k].at - starts[k - 1].at >= Least(cfg)
    {
      if k < |st.starts| {
        assert st.starts[k - 1].at <= st.starts[k].at;
      }
    }
  }

  lemma SecondKeeps(cfg: Config, s: System, t: Thread)
    requires Inv(cfg, s) && CanAdvance(s, t) && s.tasks[t].Lookup? && s.tasks[t].phase.SecondLook?
    ensures Inv(cfg, Second(cfg, s, t, s.tasks[t]))
  {
    if LookupLocked(cfg, s.states[s.tasks[t].phase.st], s.tasks[t].kid, s.now).Refetch? {
      SecondFetches(cfg, s, t);
    } else {
      SecondAnswers(cfg, s, t);
    }
  }

  lemma SecondFetches(cfg: Config, s: System, t: Thread)
    requires Inv(cfg, s) && CanAdvance(s, t) && s.tasks[t].Lookup? && s.tasks[t].phase.SecondLook?
    requires LookupLocked(cfg, s.states[s.tasks[t].phase.st], s.tasks[t].kid, s.now).Refetch?
    ensures Inv(cfg, Second(cfg, s, t, s.tasks[t]))
  {
    var task := s.tasks[t];
    var id := task.phase.st;
    assert TaskOk(cfg, s, t) && StateOk(cfg, s, id);
    LookupMayStart(cfg, s, id, task.kid);
    assert s.(mu := s.mu) == s;
    MoveKeeps(cfg, s, t, s.mu, task.(phase := Starting(id, Fresh(cfg, s.states[id], s.now))));
  }

  lemma BeginKeeps(cfg: Config, s: System, t: Thread)
    requires Inv(cfg, s) && CanAdvance(s, t) && s.tasks[t].Lookup? && s.tasks[t].phase.Starting?
    ensures Inv(cfg, Begin(s, t, s.tasks[t]))
  {
    var task := s.tasks[t];
    var id := task.phase.st;
    assert TaskOk(cfg, s, t) && StateOk(cfg, s, id);
    FetchingOk(cfg, s, t);
    ChangeKeeps(cfg, s, t, None, task.(phase := Fetching(id)), id, Begun(s.states[id], s.now, task.phase.whileFresh));
  }

  lemma FetchingOk(cfg: Config, s: System, t: Thread)
    requires CanAdvance(s, t) && s.tasks[t].Lookup? && s.tasks[t].phase.Starting?
    requires TaskOk(cfg, s, t) && StateOk(cfg, s, s.tasks[t].phase.st)
    ensures var s' := Begin(s, t, s.tasks[t]);
            TaskOk(cfg, s', t) && StateOk(cfg, s', s.tasks[t].phase.st)
  {
    StartIsSpaced(cfg, s.states[s.tasks[t].phase.st], s.tasks[t].phase.whileFresh, s.now);
  }

  lemma SecondAnswers(cfg: Config, s: System, t: Thread)
    requires Inv(cfg, s) && CanAdvance(s, t) && s.tasks[t].Lookup? && s.tasks[t].phase.SecondLook?
    requires !LookupLocked(cfg, s.states[s.tasks[t].phase.st], s.tasks[t].kid, s.now).Refetch?
    ensures Inv(cfg, Second(cfg, s, t, s.tasks[t]))
  {
    var task := s.tasks[t];
    var id := task.phase.st;
    assert TaskOk(cfg, s, t) && StateOk(cfg, s, id);
    var found := LookupLocked(cfg, s.states[id], task.kid, s.now);
    MoveKeeps(cfg, s, t, None, task.(phase := Releasing(id, AnswerOf(s.states[id], found, s.now))));
  }

  lemma MarkAcceptedSpaced(cfg: Config, starts: seq<Start>)
    requires Spaced(cfg, starts)
    ensures Spaced(cfg, MarkAccepted(starts))
  {
    var marked := MarkAccepted(starts);
    forall k | 0 < k < |marked|
      ensures marked[k - 1].at <= marked[k].at
      ensures marked[k].whileFresh ==> marked[k].at - marked[k - 1].at >= cfg.minRefresh
      ensures marked[k - 1].accepted ==> marked[k].at - marked[k - 1].at >= Least(cfg)
    {
      assert starts[k - 1].at <= starts[k].at;
    }
  }

  /** A document stored leaves its own sequence as the highest, which has not fallen. */
  lemma StoreKeepsRatchet(st: IssuerState, doc: KeySet, now: int)
    requires !WentBackwards(st, doc)
    ensures Store(st, doc, now).highestSequence == doc.sequence >= st.highestSequence
  {}

  lemma StoredStateOk(cfg: Config, s: System, t: Thread)
    requires Inv(cfg, s) && CanAdvance(s, t) && s.tasks[t].Lookup? && s.tasks[t].phase.Storing?
    requires !WentBackwards(s.states[s.tasks[t].phase.st], s.tasks[t].phase.doc)
    ensures StateOk(cfg, Third(s, t, s.tasks[t]), s.tasks[t].phase.st)
  {
    var id, doc := s.tasks[t].phase.st, s.tasks[t].phase.doc;
    assert TaskOk(cfg, s, t) && StateOk(cfg, s, id);
    MarkAcceptedSpaced(cfg, s.states[id].starts);
    StoreKeepsRatchet(s.states[id], doc, s.now);
  }

  lemma ThirdTaskOk(cfg: Config, s: System, t: Thread)
    requires CanAdvance(s, t) && TaskOk(cfg, s, t) && s.tasks[t].Lookup? && s.tasks[t].phase.Storing?
    ensures t in Third(s, t, s.tasks[t]).tasks && TaskOk(cfg, Third(s, t, s.tasks[t]), t)
  {
    var task := s.tasks[t];
    var s' := Third(s, t, task);
    var next := s'.tasks[t];
    assert next.Lookup? && next.phase.Releasing? && s'.mu.None?;
    assert GoodAnswer(cfg, next, next.phase.answer);
  }

  lemma ThirdKeeps(cfg: Config, s: System, t: Thread)
    requires Inv(cfg, s) && CanAdvance(s, t) && s.tasks[t].Lookup? && s.tasks[t].phase.Storing?
    ensures Inv(cfg, Third(s, t, s.tasks[t]))
  {
    var task := s.tasks[t];
    var id, doc := task.phase.st, task.phase.doc;
    assert TaskOk(cfg, s, t);
    ThirdTaskOk(cfg, s, t);
    if WentBackwards(s.states[id], doc) {
      MoveKeeps(cfg, s, t, None, task.(phase := Releasing(id, Refused)));
    } else {
      StoredStateOk(cfg, s, t);
      ChangeKeeps(cfg, s, t, None, Third(s, t, task).tasks[t], id, Store(s.states[id], doc, s.now));
    }
  }

  lemma FetchReturnsKeeps(cfg: Config, s: System, t: Thread, reply: Reply)
    requires Inv(cfg, s) && CanAdvance(s, t) && s.tasks[t].Lookup? && s.tasks[t].phase.Fetching?
    ensures Inv(cfg, FetchReturns(s, t, s.tasks[t], reply))
  {
    assert TaskOk(cfg, s, t) && StateOk(cfg, s, s.tasks[t].phase.st);
    assert s.(mu := s.mu) == s;
    FetchedOk(cfg, s, t, reply);
    MoveKeeps(cfg, s, t, s.mu, FetchReturns(s, t, s.tasks[t], reply).tasks[t]);
  }

  lemma FetchedOk(cfg: Config, s: System, t: Thread, reply: Reply)
    requires CanAdvance(s, t) && s.tasks[t].Lookup? && s.tasks[t].phase.Fetching?
    requires TaskOk(cfg, s, t) && StateOk(cfg, s, s.tasks[t].phase.st)
    ensures var s' := FetchReturns(s, t, s.tasks[t], reply);
            Holding(s'.tasks[t]) == Holding(s.tasks[t]) && TaskOk(cfg, s', t)
  {}

  /** What a task becomes on taking `mu`. */
  ghost predicate Enters(task: Task, next: Task) {
    match task
    case WantRegister(issuer, url) => next == Registering(issuer, url)
    case Lookup(_, _, _, _, WantMu) => next == task.(phase := FirstLook)
    case Lookup(_, _, _, _, WantMuAgain(st)) => next == task.(phase := SecondLook(st))
    case Lookup(_, _, _, _, WantMuToStore(st, doc)) => next == task.(phase := Storing(st, doc))
    case _ => false
  }

  lemma TakeMuKeeps(cfg: Config, s: System, t: Thread, next: Task)
    requires Inv(cfg, s) && CanAdvance(s, t) && AwaitsMu(s.tasks[t]) && Enters(s.tasks[t], next)
    ensures Inv(cfg, TakeMu(s, t, next))
  {
    assert TaskOk(cfg, s, t);
    MoveKeeps(cfg, s, t, Some(t), next);
  }

  lemma FirstKeeps(cfg: Config, s: System, t: Thread)
    requires Inv(cfg, s) && CanAdvance(s, t) && s.tasks[t].Lookup? && s.tasks[t].phase.FirstLook?
    ensures Inv(cfg, First(cfg, s, t, s.tasks[t]))
  {
    if s.tasks[t].issuer !in s.sources {
      FirstUnregisteredKeeps(cfg, s, t);
    } else if s.tasks[t].issuer in s.cache {
      FirstKnownKeeps(cfg, s, t);
    } else {
      FirstNewKeeps(cfg, s, t);
    }
  }

  lemma LookupKeeps(cfg: Config, s: System, t: Thread, reply: Reply)
    requires Inv(cfg, s) && CanAdvance(s, t) && s.tasks[t].Lookup?
    ensures Inv(cfg, AdvanceTask(cfg, s, t, reply))
  {
    match s.tasks[t].phase
    case FirstLook => FirstKeeps(cfg, s, t);
    case WantFetchLock(_) => TakeFetchLockKeeps(cfg, s, t);
    case SecondLook(_) => SecondKeeps(cfg, s, t);
    case Starting(_, _) => BeginKeeps(cfg, s, t);
    case Storing(_, _) => ThirdKeeps(cfg, s, t);
    case Releasing(_, _) => ReleaseKeeps(cfg, s, t);
    case Done(_) =>
    case WantMu => TakeMuKeeps(cfg, s, t, s.tasks[t].(phase := FirstLook));
    case WantMuAgain(st) => TakeMuKeeps(cfg, s, t, s.tasks[t].(phase := SecondLook(st)));
    case Fetching(_) => FetchReturnsKeeps(cfg, s, t, reply);
    case WantMuToStore(st, doc) => TakeMuKeeps(cfg, s, t, s.tasks[t].(phase := Storing(st, doc)));
  }

  lemma AdvanceKeeps(cfg: Config, s: System, t: Thread, reply: Reply)
    requires Inv(cfg, s) && CanAdvance(s, t)
    ensures Inv(cfg, AdvanceTask(cfg, s, t, reply))
  {
    match s.tasks[t]
    case WantRegister(issuer, url) => TakeMuKeeps(cfg, s, t, Registering(issuer, url));
    case Registering(issuer, url) => RegisterKeeps(cfg, s, t, issuer, url);
    case Registered =>
    case Lookup(_, _, _, _, _) => LookupKeeps(cfg, s, t, reply);
  }

  lemma StepKeeps(cfg: Config, s: System, e: Event)
    requires Inv(cfg, s) && Enabled(s, e)
    ensures Inv(cfg, Apply(cfg, s, e))
  {
    var s' := Apply(cfg, s, e);
    match e
    case StartLookup(t, issuer, kid) =>
      var task := Lookup(issuer, kid, "", s.now, WantMu);
      StartKeeps(cfg, s, t, task);
      assert s' == SetTask(s, t, task);
    case StartRegister(t, issuer, url) =>
      var task := WantRegister(issuer, url);
      StartKeeps(cfg, s, t, task);
      assert s' == SetTask(s, t, task);
    case Pass(time) =>
      TimeKeeps(cfg, s, time);
      assert s' == s.(now := s.now + time);
    case Advance(t, reply) =>
      AdvanceKeeps(cfg, s, t, reply);
      assert s' == AdvanceTask(cfg, s, t, reply);
  }

  /** The invariant holds wherever any interleaving leads. */
  lemma {:induction false} RunKeeps(cfg: Config, events: seq<Event>)
    requires Run(cfg, events).Some?
    ensures Inv(cfg, Run(cfg, events).value)
    decreases |events|
  {
    if events != [] {
      RunKeeps(cfg, events[..|events| - 1]);
      StepKeeps(cfg, Run(cfg, events[..|events| - 1]).value, events[|events| - 1]);
    }
  }

  /* ----- What the invariant means ----- */

  /** What is cached for an issuer was fetched from the source registered for it now. */
  lemma CacheComesFromRegisteredSource(cfg: Config, events: seq<Event>, issuer: string)
    requires Run(cfg, events).Some? && issuer in Run(cfg, events).value.cache
    ensures var s := Run(cfg, events).value;
            && issuer in s.sources && s.cache[issuer] in s.states
            && (s.states[s.cache[issuer]].held.Some? ==> s.states[s.cache[issuer]].held.value.origin == s.sources[issuer])
  {
    RunKeeps(cfg, events);
    var s := Run(cfg, events).value;
    assert CacheOk(s, issuer) && StateOk(cfg, s, s.cache[issuer]);
  }

  /** The lookup found its issuer registered and went on from there. */
  predicate PastFirstLook(task: Task) {
    task.Lookup? && !task.phase.WantMu? && !task.phase.FirstLook? && task.phase != Done(Refused)
  }

  /** After n events t held `mu` for its first look, and the issuer's source was this one. */
  ghost predicate FoundSource(cfg: Config, events: seq<Event>, n: nat, t: Thread, task: Task, source: string)
    requires task.Lookup?
  {
    && n <= |events| && Run(cfg, events[..n]).Some?
    && var s := Run(cfg, events[..n]).value;
       && s.mu == Some(t) && s.now == task.begun
       && task.issuer in s.sources && s.sources[task.issuer] == source
  }

  /** A call's own step leaves every other call where it is. */
  lemma AdvanceMovesOne(cfg: Config, s: System, t: Thread, reply: Reply)
    requires CanAdvance(s, t)
    ensures var s' := AdvanceTask(cfg, s, t, reply);
            t in s'.tasks && s'.tasks == s.tasks[t := s'.tasks[t]]
  {
    if s.tasks[t].Lookup? && s.tasks[t].phase.FirstLook? {
      assert AdvanceTask(cfg, s, t, reply) == First(cfg, s, t, s.tasks[t]);
    }
  }

  lemma OthersStay(cfg: Config, s: System, e: Event, t: Thread)
    requires Enabled(s, e) && t in s.tasks && !(e.Advance? && e.t == t)
    ensures t in Apply(cfg, s, e).tasks && Apply(cfg, s, e).tasks[t] == s.tasks[t]
  {
    if e.Advance? {
      AdvanceMovesOne(cfg, s, e.t, e.reply);
      assert Apply(cfg, s, e) == AdvanceTask(cfg, s, e.t, e.reply);
    }
  }

  /** How many steps a call has left at most. */
  function StepsLeft(task: Task): nat {
    match task
    case WantRegister(_, _) => 2
    case Registering(_, _) => 1
    case Registered => 0
    case Lookup(_, _, _, _, phase) =>
      match phase
      case WantMu => 10
      case FirstLook => 9
      case WantFetchLock(_) => 8
      case WantMuAgain(_) => 7
      case SecondLook(_) => 6
      case Starting(_, _) => 5
      case Fetching(_) => 4
      case WantMuToStore(_, _) => 3
      case Storing(_, _) => 2
      case Releasing(_, _) => 1
      case Done(_) => 0
  }

  /** What a lookup's own step changes of it. */
  ghost predicate Follows(s: System, task: Task, next: Task)
    requires task.Lookup?
  {
    && next.Lookup? && next.issuer == task.issuer && StepsLeft(next) < StepsLeft(task)
    && (PastFirstLook(task) ==> next.source == task.source && next.begun == task.begun)
    && (PastFirstLook(next) && !PastFirstLook(task) ==>
          task.phase.FirstLook? && next.begun == s.now && task.issuer in s.sources && next.source == s.sources[task.issuer])
  }

  lemma FirstFollows(cfg: Config, s: System, t: Thread)
    requires CanAdvance(s, t) && s.tasks[t].Lookup? && s.tasks[t].phase.FirstLook?
    ensures Follows(s, s.tasks[t], First(cfg, s, t, s.tasks[t]).tasks[t])
  {}

  lemma LookupFollows(cfg: Config, s: System, t: Thread, reply: Reply)
    requires CanAdvance(s, t) && s.tasks[t].Lookup?
    ensures t in AdvanceTask(cfg, s, t, reply).tasks
    ensures Follows(s, s.tasks[t], AdvanceTask(cfg, s, t, reply).tasks[t])
  {
    if s.tasks[t].phase.FirstLook? {
      FirstFollows(cfg, s, t);
      assert AdvanceTask(cfg, s, t, reply) == First(cfg, s, t, s.tasks[t]);
    }
  }

  /** One step back from a lookup past its first look: the first look itself, or the same call further back. */
  lemma StepFindsSource(cfg: Config, s: System, e: Event, t: Thread)
    requires Enabled(s, e) && t in Apply(cfg, s, e).tasks && PastFirstLook(Apply(cfg, s, e).tasks[t])
    ensures t in s.tasks && s.tasks[t].Lookup?
    ensures var task, next := s.tasks[t], Apply(cfg, s, e).tasks[t];
            && next.issuer == task.issuer
            && if PastFirstLook(task) then next.source == task.source && next.begun == task.begun
               else s.mu == Some(t) && next.begun == s.now && task.issuer in s.sources && next.source == s.sources[task.issuer]
  {
    if e.Advance? {
      AdvanceMovesOne(cfg, s, e.t, e.reply);
      assert Apply(cfg, s, e) == AdvanceTask(cfg, s, e.t, e.reply);
      if e.t == t && s.tasks[t].Lookup? {
        LookupFollows(cfg, s, t, e.reply);
      }
    }
  }

  /** A lookup works with the source that was registered when it first held the lock. */
  lemma {:induction false} SourceWasRegistered(cfg: Config, events: seq<Event>, t: Thread)
    requires Run(cfg, events).Some? && t in Run(cfg, events).value.tasks && PastFirstLook(Run(cfg, events).value.tasks[t])
    ensures var task := Run(cfg, events).value.tasks[t];
            exists n: nat :: FoundSource(cfg, events, n, t, task, task.source)
    decreases |events|
  {
    var before := events[..|events| - 1];
    var s, task := Run(cfg, before).value, Run(cfg, events).value.tasks[t];
    StepFindsSource(cfg, s, events[|events| - 1], t);
    if PastFirstLook(s.tasks[t]) {
      SourceWasRegistered(cfg, before, t);
      var n: nat :| FoundSource(cfg, before, n, t, s.tasks[t], task.source);
      assert before[..n] == events[..n];
      assert FoundSource(cfg, events, n, t, task, task.source);
    } else {
      assert FoundSource(cfg, events, |before|, t, task, task.source);
    }
  }

  /**
   A key a lookup returns is the key of that kid in a document from the source that was
   registered when the lookup first held the lock, younger than the cache lifetime or fetched
   during the call.
   */
  lemma ServedKeysAreGood(cfg: Config, events: seq<Event>, t: Thread)
    requires Run(cfg, events).Some? && t in Run(cfg, events).value.tasks
    requires var task := Run(cfg, events).value.tasks[t]; task.Lookup? && task.phase.Done? && task.phase.answer.Served?
    ensures var task := Run(cfg, events).value.tasks[t];
            var a := task.phase.answer;
            && task.kid in a.from.keys && a.key == a.from.keys[task.kid]
            && (a.at - a.from.fetchedAt < cfg.ttl || task.begun <= a.from.fetchedAt)
            && exists n: nat :: FoundSource(cfg, events, n, t, task, a.from.origin)
  {
    RunKeeps(cfg, events);
    assert TaskOk(cfg, Run(cfg, events).value, t);
    SourceWasRegistered(cfg, events, t);
  }

  /** Fetches into one state never overlap. */
  lemma FetchesDoNotOverlap(cfg: Config, events: seq<Event>, t: Thread, u: Thread)
    requires Run(cfg, events).Some?
    requires var s := Run(cfg, events).value;
             && t in s.tasks && u in s.tasks
             && s.tasks[t].Lookup? && s.tasks[t].phase.Fetching?
             && s.tasks[u].Lookup? && s.tasks[u].phase.Fetching?
             && s.tasks[t].phase.st == s.tasks[u].phase.st
    ensures t == u
  {
    RunKeeps(cfg, events);
    assert TaskOk(cfg, Run(cfg, events).value, t) && TaskOk(cfg, Run(cfg, events).value, u);
  }

  /**
   The call that t waits for: the holder of `mu`, the holder of the fetch lock, or the holder
   of `mu` that this one waits for in turn; t itself when it waits for nothing.
   */
  function Blocker(s: System, t: Thread): Thread
    requires t in s.tasks
  {
    if AwaitsMu(s.tasks[t]) && s.mu.Some? then s.mu.value
    else if WaitsForFetchLock(s.tasks[t]) && s.tasks[t].phase.st in s.states && s.states[s.tasks[t].phase.st].fetchLock.Some? then
      var u := s.states[s.tasks[t].phase.st].fetchLock.value;
      if u in s.tasks && AwaitsMu(s.tasks[u]) && s.mu.Some? then s.mu.value else u
    else t
  }

  /** The two locks cannot deadlock: the call an unfinished call waits for can take its next step. */
  lemma NoDeadlock(cfg: Config, events: seq<Event>, t: Thread)
    requires Run(cfg, events).Some?
    requires t in Run(cfg, events).value.tasks && !Finished(Run(cfg, events).value.tasks[t])
    ensures CanAdvance(Run(cfg, events).value, Blocker(Run(cfg, events).value, t))
  {
    RunKeeps(cfg, events);
    var s := Run(cfg, events).value;
    assert TaskOk(cfg, s, t);
    if AwaitsMu(s.tasks[t]) && s.mu.Some? {
      InsideMuAdvances(cfg, s, s.mu.value);
    } else if WaitsForFetchLock(s.tasks[t]) && s.states[s.tasks[t].phase.st].fetchLock.Some? {
      assert StateOk(cfg, s, s.tasks[t].phase.st);
      var u := s.states[s.tasks[t].phase.st].fetchLock.value;
      if AwaitsMu(s.tasks[u]) && s.mu.Some? {
        InsideMuAdvances(cfg, s, s.mu.value);
      } else {
        HolderAdvances(cfg, s, u);
      }
    } else if WaitsForFetchLock(s.tasks[t]) {
      assert CanAdvance(s, t);
    } else {
      HolderAdvances(cfg, s, t);
    }
  }

  /** Every step brings its call nearer the end and leaves the others where they are. */
  lemma StepDescends(cfg: Config, s: System, e: Event, t: Thread)
    requires Enabled(s, e) && t in s.tasks
    ensures t in Apply(cfg, s, e).tasks
    ensures var left := StepsLeft(Apply(cfg, s, e).tasks[t]);
            if e.Advance? && e.t == t then left < StepsLeft(s.tasks[t]) else left == StepsLeft(s.tasks[t])
  {
    if !(e.Advance? && e.t == t) {
      OthersStay(cfg, s, e, t);
    } else if s.tasks[t].Lookup? {
      LookupFollows(cfg, s, t, e.reply);
      assert Apply(cfg, s, e) == AdvanceTask(cfg, s, t, e.reply);
    }
  }

  function StepsOf(events: seq<Event>, t: Thread): nat {
    if events == [] then 0
    else
      var e := events[|events| - 1];
      StepsOf(events[..|events| - 1], t) + if e.Advance? && e.t == t then 1 else 0
  }

  /** In every run a call takes at most ten steps; with no deadlock, every call can be brought to its end. */
  lemma {:induction false} StepsAreBounded(cfg: Config, events: seq<Event>, t: Thread)
    requires Run(cfg, events).Some?
    ensures var s := Run(cfg, events).value;
            if t in s.tasks then StepsOf(events, t) + StepsLeft(s.tasks[t]) <= 10 else StepsOf(events, t) == 0
    decreases |events|
  {
    if events != [] {
      var before, e := events[..|events| - 1], events[|events| - 1];
      StepsAreBounded(cfg, before, t);
      var s := Run(cfg, before).value;
      assert Run(cfg, events).value == Apply(cfg, s, e);
      if t in s.tasks {
        StepDescends(cfg, s, e, t);
      } else {
        StepsToCome(cfg, s, e, t);
      }
    }
  }

  lemma StepsToCome(cfg: Config, s: System, e: Event, t: Thread)
    requires Enabled(s, e) && t !in s.tasks
    ensures !(e.Advance? && e.t == t)
    ensures t in Apply(cfg, s, e).tasks ==> StepsLeft(Apply(cfg, s, e).tasks[t]) <= 10
  {}

  predicate WaitsForFetchLock(task: Task) {
    task.Lookup? && task.phase.WantFetchLock?
  }

  lemma InsideMuAdvances(cfg: Config, s: System, t: Thread)
    requires Inv(cfg, s) && s.mu == Some(t)
    ensures CanAdvance(s, t)
  {
    assert TaskOk(cfg, s, t);
    if s.tasks[t].Lookup? && s.tasks[t].issuer in s.cache {
      assert CacheOk(s, s.tasks[t].issuer);
    }
  }

  /** A call that waits for neither lock can take its next step. */
  lemma HolderAdvances(cfg: Config, s: System, t: Thread)
    requires Inv(cfg, s) && t in s.tasks && !Finished(s.tasks[t]) && !WaitsForFetchLock(s.tasks[t])
    requires AwaitsMu(s.tasks[t]) ==> s.mu.None?
    ensures CanAdvance(s, t)
  {
    assert TaskOk(cfg, s, t);
    if s.tasks[t].Lookup? && s.tasks[t].issuer in s.cache {
      assert CacheOk(s, s.tasks[t].issuer);
    }
  }

  /* ----- What a lookup is answered ----- */

  /** A fresh document answers for the keys it names; an unknown kid is refused inside the refresh limit and fetched for after it. */
  lemma LookupIff(cfg: Config, st: IssuerState, kid: string, now: int)
    ensures var young := st.held.Some? && st.held.value.fetchedAt + cfg.ttl > now;
            match LookupLocked(cfg, st, kid, now)
            case Hit(key) => young && kid in st.held.value.keys && key == st.held.value.keys[kid]
            case Miss => young && kid !in st.held.value.keys && now < st.lastTried + cfg.minRefresh
            case Refetch => young ==> kid !in st.held.value.keys && st.lastTried + cfg.minRefresh <= now
  {}

  /** A lookup of a registered issuer is answered at its first look, or goes on to fetch. */
  lemma FirstLookAnswers(cfg: Config, s: System, t: Thread)
    requires CanAdvance(s, t) && s.tasks[t].Lookup? && s.tasks[t].phase.FirstLook?
    ensures var task := s.tasks[t];
            var next := First(cfg, s, t, task).tasks[t];
            next.Lookup? &&
            if task.issuer !in s.sources then next.phase == Done(Refused)
            else if task.issuer !in s.cache then next.phase == WantFetchLock(s.nextId)
            else
              var st := s.states[s.cache[task.issuer]];
              match LookupLocked(cfg, st, task.kid, s.now)
              case Hit(key) => st.held.Some? && next.phase == Done(Served(key, st.held.value, s.now))
              case Miss => next.phase == Done(Refused)
              case Refetch => next.phase == WantFetchLock(s.cache[task.issuer])
  {}

  /** A document fetched is held, and answers the call, exactly when its sequence is no lower than any held before. */
  lemma FetchedIsHeldIff(s: System, t: Thread)
    requires CanAdvance(s, t) && s.tasks[t].Lookup? && s.tasks[t].phase.Storing?
    ensures var task := s.tasks[t];
            var id, doc := task.phase.st, task.phase.doc;
            var st, s' := s.states[id], Third(s, t, task);
            s'.tasks[t].Lookup? && id in s'.states &&
            if st.highestSequence <= doc.sequence then
              && s'.states[id].held == Some(doc) && s'.states[id].highestSequence == doc.sequence && s'.states[id].lastTried == s.now
              && s'.tasks[t].phase == Releasing(id, if task.kid in doc.keys then Served(doc.keys[task.kid], doc, s.now) else Refused)
            else s'.states == s.states && s'.tasks[t].phase == Releasing(id, Refused)
  {}

  /** A document is fetched from the source that its call found, and dated when the fetch returns. */
  lemma FetchedIsDated(s: System, t: Thread, keys: map<string, Key>, sequence: nat)
    requires CanAdvance(s, t) && s.tasks[t].Lookup? && s.tasks[t].phase.Fetching?
    ensures var task := s.tasks[t];
            && FetchReturns(s, t, task, Failed).tasks[t].phase == Releasing(task.phase.st, Refused)
            && FetchReturns(s, t, task, Document(keys, sequence)).tasks[t].phase
               == WantMuToStore(task.phase.st, KeySet(keys, s.now, sequence, task.source))
  {}

  /* ----- The ratchet ----- */

  /** In every reachable state a held document's sequence is the highest recorded. */
  lemma HeldIsHighest(cfg: Config, events: seq<Event>, id: StateId)
    requires Run(cfg, events).Some? && id in Run(cfg, events).value.states
    ensures var st := Run(cfg, events).value.states[id]; st.held.Some? ==> st.held.value.sequence == st.highestSequence
  {
    RunKeeps(cfg, events);
    assert StateOk(cfg, Run(cfg, events).value, id);
  }

  lemma StoreRises(s: System, t: Thread, id: StateId)
    requires CanAdvance(s, t) && s.tasks[t].Lookup? && s.tasks[t].phase.Storing? && id in s.states
    ensures id in Third(s, t, s.tasks[t]).states
    ensures Third(s, t, s.tasks[t]).states[id].highestSequence >= s.states[id].highestSequence
  {}

  lemma LooksKeepHighest(cfg: Config, s: System, t: Thread, id: StateId)
    requires CanAdvance(s, t) && s.tasks[t].Lookup? && id in s.states && s.nextId !in s.states
    ensures s.tasks[t].phase.FirstLook? ==>
              id in First(cfg, s, t, s.tasks[t]).states && First(cfg, s, t, s.tasks[t]).states[id] == s.states[id]
    ensures s.tasks[t].phase.SecondLook? ==>
              && id in Second(cfg, s, t, s.tasks[t]).states
              && Second(cfg, s, t, s.tasks[t]).states[id].highestSequence == s.states[id].highestSequence
    ensures s.tasks[t].phase.Starting? ==>
              && id in Begin(s, t, s.tasks[t]).states
              && Begin(s, t, s.tasks[t]).states[id].highestSequence == s.states[id].highestSequence
  {}

  lemma HighestNeverFallsAdvance(cfg: Config, s: System, t: Thread, reply: Reply, id: StateId)
    requires CanAdvance(s, t) && id in s.states && s.nextId !in s.states
    ensures id in AdvanceTask(cfg, s, t, reply).states
    ensures AdvanceTask(cfg, s, t, reply).states[id].highestSequence >= s.states[id].highestSequence
  {
    if s.tasks[t].Lookup? {
      if s.tasks[t].phase.Storing? {
        StoreRises(s, t, id);
      } else {
        LooksKeepHighest(cfg, s, t, id);
      }
    }
  }

  /** The highest sequence of a state never falls, whatever documents come later. */
  lemma {:induction false} HighestNeverFalls(cfg: Config, events: seq<Event>, n: nat, id: StateId)
    requires n <= |events| && Run(cfg, events).Some? && Run(cfg, events[..n]).Some?
    requires id in Run(cfg, events[..n]).value.states
    ensures id in Run(cfg, events).value.states
    ensures Run(cfg, events).value.states[id].highestSequence >= Run(cfg, events[..n]).value.states[id].highestSequence
    decreases |events|
  {
    if n == |events| {
      assert events[..n] == events;
    } else {
      var before := events[..|events| - 1];
      assert before[..n] == events[..n];
      HighestNeverFalls(cfg, before, n, id);
      RunKeeps(cfg, before);
      var s, e := Run(cfg, before).value, events[|events| - 1];
      NextIdIsNew(cfg, s);
      if e.Advance? {
        HighestNeverFallsAdvance(cfg, s, e.t, e.reply, id);
      }
    }
  }

  /* ----- The rate of fetches ----- */

  /** Every fetch begun while a fresh document was held waited out the refresh limit. */
  lemma FetchesAreSpaced(cfg: Config, events: seq<Event>, id: StateId)
    requires Run(cfg, events).Some? && id in Run(cfg, events).value.states
    ensures Spaced(cfg, Run(cfg, events).value.states[id].starts)
  {
    RunKeeps(cfg, events);
    assert StateOk(cfg, Run(cfg, events).value, id);
  }

  lemma {:induction false} AcceptedFetchesTakeTime(cfg: Config, starts: seq<Start>, i: nat, j: nat)
    requires Spaced(cfg, starts) && i <= j < |starts|
    requires forall k :: i <= k < j ==> starts[k].accepted
    ensures starts[j].at - starts[i].at >= (j - i) * Least(cfg)
    decreases j - i
  {
    if i < j {
      AcceptedFetchesTakeTime(cfg, starts, i, j - 1);
      assert starts[j - 1].accepted;
      assert (j - i) * Least(cfg) == (j - 1 - i) * Least(cfg) + Least(cfg);
    }
  }

  /** In a stretch of accepted documents, the number of fetches is bounded by the time they take. */
  lemma FetchCountIsBounded(cfg: Config, events: seq<Event>, id: StateId, i: nat, j: nat)
    requires Run(cfg, events).Some? && id in Run(cfg, events).value.states
    requires var starts := Run(cfg, events).value.states[id].starts;
             i <= j < |starts| && forall k :: i <= k < j ==> starts[k].accepted
    ensures var starts := Run(cfg, events).value.states[id].starts;
            starts[j].at - starts[i].at >= (j - i) * Least(cfg)
  {
    FetchesAreSpaced(cfg, events, id);
    AcceptedFetchesTakeTime(cfg, Run(cfg, events).value.states[id].starts, i, j);
  }
}
