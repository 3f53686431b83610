/**
 The resolver's sources and cache as its lock-protected code updates them in place
 (pkg/jose/jwks.go). Each method is one region that holds `mu`, and is proved to be the
 step of the same region in the state machine of `Jwks`.
 */
module KeyCache {
  import opened Wrappers
  import opened Jose
  import J = Jwks

  class IssuerState {
    var held: Option<J.KeySet>
    var lastTried: int
    var highestSequence: nat

    constructor ()
      ensures held.None? && lastTried == 0 && highestSequence == 0
    {
      held, lastTried, highestSequence := None, 0, 0;
    }

    /** The fields agree with a state of the machine, which also carries bookkeeping. */
    ghost predicate Is(st: J.IssuerState)
      reads this
    {
      held == st.held && lastTried == st.lastTried && highestSequence == st.highestSequence
    }

    method LookupLocked(cfg: J.Config, kid: string, now: int, ghost st: J.IssuerState) returns (found: J.Found)
      requires Is(st)
      ensures found == J.LookupLocked(cfg, st, kid, now)
    {
      if held.None? {
        return J.Refetch;
      }
      var document := held.value;
      if now - document.fetchedAt >= cfg.ttl {
        return J.Refetch;
      }
      if kid in document.keys {
        return J.Hit(document.keys[kid]);
      }
      if now - lastTried < cfg.minRefresh {
        return J.Miss;
      }
      return J.Refetch;
    }

    /** Holds the document unless it went backwards. */
    method Store(fetched: J.KeySet, now: int, ghost st: J.IssuerState) returns (stored: bool)
      requires Is(st)
      modifies this
      ensures stored <==> !J.WentBackwards(st, fetched)
      ensures Is(if stored then J.Store(st, fetched, now) else st)
    {
      if highestSequence > 0 && fetched.sequence < highestSequence {
        return false;
      }
      if fetched.sequence > highestSequence {
        highestSequence := fetched.sequence;
      }
      held := Some(fetched);
      lastTried := now;
      return true;
    }
  }

  class Resolver {
    var sources: map<string, string>
    var cache: map<string, IssuerState>

    constructor ()
      ensures Represents(J.INITIAL, map[])
    {
      sources, cache := map[], map[];
    }

    /** The heap stands for s: ids names its objects, including those no longer in the cache. */
    ghost predicate Represents(s: J.System, ids: map<J.StateId, IssuerState>)
      reads this, ids.Values
    {
      && sources == s.sources
      && cache.Keys == s.cache.Keys
      && ids.Keys == s.states.Keys
      && (forall i :: i in cache ==> s.cache[i] in ids && ids[s.cache[i]] == cache[i])
      && (forall x, y :: x in ids && y in ids && ids[x] == ids[y] ==> x == y)
      && forall x :: x in ids ==> ids[x].Is(s.states[x])
    }

    method AddSource(issuer: string, url: string,
                     ghost cfg: J.Config, ghost s: J.System, ghost t: J.Thread, ghost ids: map<J.StateId, IssuerState>)
      requires Represents(s, ids) && J.CanAdvance(s, t) && s.tasks[t] == J.Registering(issuer, url)
      modifies this
      ensures Represents(J.AdvanceTask(cfg, s, t, J.Failed), ids)
    {
      sources := sources[issuer := url];
      cache := cache - {issuer};
    }

    /** The first look: find or make the issuer's state, and answer from it if it can. */
    method First(cfg: J.Config, issuer: string, kid: string, now: int,
                 ghost s: J.System, ghost t: J.Thread, ghost ids: map<J.StateId, IssuerState>)
      returns (src: string, st: Option<IssuerState>, found: J.Found, ghost ids': map<J.StateId, IssuerState>)
      requires Represents(s, ids) && J.CanAdvance(s, t) && s.nextId !in s.states && now == s.now
      requires s.tasks[t].Lookup? && s.tasks[t].phase.FirstLook? && s.tasks[t].issuer == issuer && s.tasks[t].kid == kid
      modifies this
      ensures var s' := J.First(cfg, s, t, s.tasks[t]);
              && Represents(s', ids')
              && (st.Some? <==> issuer in s.sources)
              && (st.Some? ==> src == s.sources[issuer] && issuer in s'.cache && st.value == ids'[s'.cache[issuer]]
                               && found == J.LookupLocked(cfg, s'.states[s'.cache[issuer]], kid, now))
    {
      if issuer !in sources {
        return "", None, J.Miss, ids;
      }
      src := sources[issuer];
      var mine, named := StateOf(issuer, cfg, s, t, ids);
      ids' := named;
      ghost var s' := J.First(cfg, s, t, s.tasks[t]);
      found := mine.LookupLocked(cfg, kid, now, s'.states[s'.cache[issuer]]);
      st := Some(mine);
    }

    /** The state cached for a registered issuer, a new one if there is none. */
    method StateOf(issuer: string, ghost cfg: J.Config, ghost s: J.System, ghost t: J.Thread, ghost ids: map<J.StateId, IssuerState>)
      returns (mine: IssuerState, ghost ids': map<J.StateId, IssuerState>)
      requires Represents(s, ids) && J.CanAdvance(s, t) && s.nextId !in s.states
      requires s.tasks[t].Lookup? && s.tasks[t].phase.FirstLook? && s.tasks[t].issuer == issuer && issuer in sources
      modifies this
      ensures sources == old(sources)
      ensures var s' := J.First(cfg, s, t, s.tasks[t]);
              Represents(s', ids') && issuer in s'.cache && mine == ids'[s'.cache[issuer]]
    {
      ids' := ids;
      if issuer !in cache {
        var made := new IssuerState();
        cache := cache[issuer := made];
        ids' := ids[s.nextId := made];
        assert forall x :: x in ids ==> ids[x] != made;
      }
      mine := cache[issuer];
    }

    /**
     The second look, under the state's fetch lock: answer, or record that a fetch begins. The
     clock is read for the look and once more for the record, and may have moved in between.
     */
    method Second(cfg: J.Config, st: IssuerState, kid: string, looked: int, recorded: int,
                  ghost s: J.System, ghost t: J.Thread, ghost ids: map<J.StateId, IssuerState>) returns (found: J.Found)
      requires Represents(s, ids) && J.CanAdvance(s, t) && looked == s.now <= recorded
      requires s.tasks[t].Lookup? && s.tasks[t].phase.SecondLook? && s.tasks[t].kid == kid && ids[s.tasks[t].phase.st] == st
      modifies st
      ensures found == J.LookupLocked(cfg, s.states[s.tasks[t].phase.st], kid, looked)
      ensures found.Refetch? <==> J.Second(cfg, s, t, s.tasks[t]).tasks[t].phase.Starting?
      ensures var s' := J.Second(cfg, s, t, s.tasks[t]);
              Represents(if found.Refetch? then J.Begin(s'.(now := recorded), t, s'.tasks[t]) else s', ids)
    {
      found := st.LookupLocked(cfg, kid, looked, s.states[s.tasks[t].phase.st]);
      if found.Refetch? {
        st.lastTried := recorded;
      }
    }

    /** The third region: refuse a document that went backwards, or hold it and answer from it. */
    method Third(st: IssuerState, fetched: J.KeySet, kid: string, now: int,
                 ghost s: J.System, ghost t: J.Thread, ghost ids: map<J.StateId, IssuerState>) returns (key: Option<Key>)
      requires Represents(s, ids) && J.CanAdvance(s, t) && now == s.now
      requires s.tasks[t].Lookup? && s.tasks[t].phase.Storing? && s.tasks[t].phase.doc == fetched
      requires s.tasks[t].kid == kid && ids[s.tasks[t].phase.st] == st
      modifies st
      ensures var s' := J.Third(s, t, s.tasks[t]);
              && Represents(s', ids)
              && s'.tasks[t].phase.answer == if key.Some? then J.Served(key.value, fetched, now) else J.Refused
    {
      var stored := st.Store(fetched, now, s.states[s.tasks[t].phase.st]);
      if !stored {
        return None;
      }
      return if kid in fetched.keys then Some(fetched.keys[kid]) else None;
    }
  }
}
