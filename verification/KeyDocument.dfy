/**
 Reading a key document (pkg/jose/jwks.go): RFC 7517 sections 4 and 5, with OKP keys as
 RFC 8037 section 2 defines them.
 */
module KeyDocument {
  import opened Wrappers
  import opened Strings
  import opened Base64Url
  import opened Jose

  datatype Jwk = Jwk(
    keyType: string, curve: string, x: string, keyId: string, use: string, algorithm: string, keyOps: seq<string>)

  datatype Identified = Identified(keyId: string, key: Key)

  /** The key, when it is an Ed25519 key this verifier may use. */
  function Ed25519Key(k: Jwk): Option<Key> {
    if k.keyType != "OKP" || k.curve != "Ed25519" then None
    else if k.algorithm != "" && k.algorithm != ALGORITHM then None
    else if k.use != "" && k.use != "sig" then None
    else if k.keyOps != [] && "verify" !in k.keyOps then None
    else
      var raw := Decode(k.x);
      if raw.None? || |raw.value| != PUBLIC_KEY_SIZE then None else raw
  }

  /** A key is usable if and only if it is an Ed25519 public key that nothing marks for another use. */
  lemma UsableIff(k: Jwk)
    ensures Ed25519Key(k).Some? <==>
              && k.keyType == "OKP" && k.curve == "Ed25519"
              && k.algorithm in {"", "EdDSA"} && k.use in {"", "sig"}
              && (k.keyOps == [] || "verify" in k.keyOps)
              && Decode(k.x).Some? && |Decode(k.x).value| == 32
    ensures Ed25519Key(k).Some? ==> Ed25519Key(k) == Decode(k.x)
  {}

  method ReadKey(k: Jwk) returns (r: Option<Key>)
    ensures r == Ed25519Key(k)
  {
    if k.keyType != "OKP" || k.curve != "Ed25519" {
      return None;
    }
    if k.algorithm != "" && k.algorithm != ALGORITHM {
      return None;
    }
    if k.use != "" && k.use != "sig" {
      return None;
    }
    if |k.keyOps| > 0 {
      var permitted := false;
      for i := 0 to |k.keyOps|
        invariant !permitted && "verify" !in k.keyOps[..i]
      {
        if k.keyOps[i] == "verify" {
          permitted := true;
          break;
        }
      }
      if !permitted {
        return None;
      }
    }
    var raw := Decode(k.x);
    if raw.None? || |raw.value| != PUBLIC_KEY_SIZE {
      return None;
    }
    return raw;
  }

  /** The usable keys of a document, in its order. */
  function Usable(ks: seq<Jwk>): seq<Identified> {
    if ks == [] then []
    else
      var before := Usable(ks[..|ks| - 1]);
      var k := ks[|ks| - 1];
      if Ed25519Key(k).Some? then before + [Identified(k.keyId, Ed25519Key(k).value)] else before
  }

  /** Some key is usable, every one says which it is unless it is alone, and no kid names two. */
  ghost predicate Unambiguous(us: seq<Identified>) {
    && us != []
    && (|us| > 1 ==> forall u :: u in us ==> u.keyId != "")
    && forall u, v :: u in us && v in us && u.keyId == v.keyId ==> u.key == v.key
  }

  /** keys resolves each usable key by its kid, and the empty kid when there is only one key. */
  ghost predicate Resolves(us: seq<Identified>, keys: map<string, Key>) {
    && (forall u :: u in us ==> u.keyId in keys && keys[u.keyId] == u.key)
    && (|us| == 1 ==> "" in keys && keys[""] == us[0].key)
    && forall kid :: kid in keys ==> (exists u :: u in us && u.keyId == kid) || (kid == "" && |us| == 1)
  }

  ghost predicate IsKeySet(ks: seq<Jwk>, r: Option<map<string, Key>>) {
    && (r.Some? <==> Unambiguous(Usable(ks)))
    && (r.Some? ==> Resolves(Usable(ks), r.value))
  }

  method ReadKeySet(ks: seq<Jwk>) returns (r: Option<map<string, Key>>)
    ensures IsKeySet(ks, r)
  {
    var usable: seq<Identified> := [];
    for i := 0 to |ks|
      invariant usable == Usable(ks[..i])
    {
      var key := ReadKey(ks[i]);
      assert ks[..i + 1][..i] == ks[..i];
      if key.Some? {
        usable := usable + [Identified(ks[i].keyId, key.value)];
      }
    }
    assert ks[..|ks|] == ks;
    if |usable| == 0 {
      return None;
    }
    var keys: map<string, Key> := map[];
    for i := 0 to |usable|
      invariant |usable| > 1 ==> forall j :: 0 <= j < i ==> usable[j].keyId != ""
      invariant forall j :: 0 <= j < i ==> usable[j].keyId in keys && keys[usable[j].keyId] == usable[j].key
      invariant forall kid :: kid in keys ==> exists j :: 0 <= j < i && usable[j].keyId == kid
    {
      var u := usable[i];
      if u.keyId == "" && |usable| > 1 {
        assert u in usable;
        return None;
      }
      if u.keyId in keys && keys[u.keyId] != u.key {
        var j :| 0 <= j < i && usable[j].keyId == u.keyId;
        assert usable[j] in usable && u in usable;
        return None;
      }
      keys := keys[u.keyId := u.key];
    }
    if |usable| == 1 {
      keys := keys["" := usable[0].key];
    }
    return Some(keys);
  }

  /** us are the usable keys, each standing at its place in the document. */
  ghost predicate Placed(ks: seq<Jwk>, us: seq<Identified>, places: seq<nat>) {
    && |places| == |us|
    && (forall n :: 0 <= n < |places| ==>
          places[n] < |ks| && Ed25519Key(ks[places[n]]) == Some(us[n].key) && ks[places[n]].keyId == us[n].keyId)
    && (forall m, n :: 0 <= m < n < |places| ==> places[m] != places[n])
    && forall i :: 0 <= i < |ks| && Ed25519Key(ks[i]).Some? ==> i in places
  }

  lemma PlacedNext(ks: seq<Jwk>, k: Jwk, us: seq<Identified>, places: seq<nat>)
    requires Placed(ks, us, places)
    ensures if Ed25519Key(k).Some? then Placed(ks + [k], us + [Identified(k.keyId, Ed25519Key(k).value)], places + [|ks|])
            else Placed(ks + [k], us, places)
  {
    var longer := ks + [k];
    assert longer[|ks|] == k && forall i :: 0 <= i < |ks| ==> longer[i] == ks[i];
    assert |ks| in places + [|ks|];
  }

  /** Where the usable keys stand in the document. */
  lemma {:induction false} UsablePlaces(ks: seq<Jwk>) returns (places: seq<nat>)
    ensures Placed(ks, Usable(ks), places)
  {
    if ks == [] {
      return [];
    }
    var last := |ks| - 1;
    places := UsablePlaces(ks[..last]);
    PlacedNext(ks[..last], ks[last], Usable(ks[..last]), places);
    assert ks[..last] + [ks[last]] == ks;
    if Ed25519Key(ks[last]).Some? {
      places := places + [last];
    }
  }

  /** Two places of a document that disagree: one leaves out its kid, or both give one kid to two keys. */
  ghost predicate Conflict(ks: seq<Jwk>, i: nat, j: nat) {
    && i < |ks| && j < |ks| && i != j
    && Ed25519Key(ks[i]).Some? && Ed25519Key(ks[j]).Some?
    && (ks[i].keyId == "" || (ks[i].keyId == ks[j].keyId && Ed25519Key(ks[i]) != Ed25519Key(ks[j])))
  }

  /**
   In the keys of the document itself: it is accepted if and only if some key is usable and no
   two usable ones conflict, and then each resolves under its kid and nothing else resolves,
   save the empty kid to a key that is alone.
   */
  lemma AcceptedDocumentIff(ks: seq<Jwk>, r: Option<map<string, Key>>)
    requires IsKeySet(ks, r)
    ensures r.Some? <==> (exists i :: 0 <= i < |ks| && Ed25519Key(ks[i]).Some?) && !exists i, j :: Conflict(ks, i, j)
    ensures r.Some? ==>
              && (forall i :: 0 <= i < |ks| && Ed25519Key(ks[i]).Some? ==>
                    ks[i].keyId in r.value && Ed25519Key(ks[i]) == Some(r.value[ks[i].keyId]))
              && forall kid :: kid in r.value ==>
                   exists i :: 0 <= i < |ks| && Ed25519Key(ks[i]) == Some(r.value[kid]) && (ks[i].keyId == kid || kid == "")
  {
    var us := Usable(ks);
    var places := UsablePlaces(ks);
    forall i | 0 <= i < |ks| && Ed25519Key(ks[i]).Some? ensures Identified(ks[i].keyId, Ed25519Key(ks[i]).value) in us {
      var n :| 0 <= n < |places| && places[n] == i;
      assert us[n] in us;
    }
    if Unambiguous(us) {
      assert Ed25519Key(ks[places[0]]).Some?;
      forall i: nat, j: nat | i < |ks| && j < |ks| && i != j && Ed25519Key(ks[i]).Some? && Ed25519Key(ks[j]).Some?
        ensures !Conflict(ks, i, j)
      {
        PlacesAgree(ks, us, places, i, j);
      }
    } else if us != [] {
      ConflictFound(ks, us, places);
    }
    if r.Some? {
      forall kid | kid in r.value
        ensures exists i :: 0 <= i < |ks| && Ed25519Key(ks[i]) == Some(r.value[kid]) && (ks[i].keyId == kid || kid == "")
      {
        var n :| 0 <= n < |us| && (us[n].keyId == kid || (kid == "" && |us| == 1));
        assert us[n] in us && Ed25519Key(ks[places[n]]) == Some(us[n].key);
      }
    }
  }

  lemma PlacesAgree(ks: seq<Jwk>, us: seq<Identified>, places: seq<nat>, i: nat, j: nat)
    requires Placed(ks, us, places) && Unambiguous(us)
    requires i < |ks| && j < |ks| && i != j && Ed25519Key(ks[i]).Some? && Ed25519Key(ks[j]).Some?
    ensures ks[i].keyId != "" && (ks[i].keyId == ks[j].keyId ==> Ed25519Key(ks[i]) == Ed25519Key(ks[j]))
  {
    var m :| 0 <= m < |places| && places[m] == i;
    var n :| 0 <= n < |places| && places[n] == j;
    assert us[m] in us && us[n] in us;
  }

  lemma ConflictFound(ks: seq<Jwk>, us: seq<Identified>, places: seq<nat>)
    requires Placed(ks, us, places) && us != [] && !Unambiguous(us)
    ensures exists i, j :: Conflict(ks, i, j)
  {
    if |us| > 1 && exists u :: u in us && u.keyId == "" {
      var m :| 0 <= m < |us| && us[m].keyId == "";
      var n := if m == 0 then 1 else 0;
      assert Conflict(ks, places[m], places[n]);
    } else {
      var m, n :| 0 <= m < |us| && 0 <= n < |us| && us[m].keyId == us[n].keyId && us[m].key != us[n].key;
      assert Conflict(ks, places[m], places[n]);
    }
  }

  lemma ResolvesIsUnique(us: seq<Identified>, vs: seq<Identified>, r: map<string, Key>, t: map<string, Key>)
    requires |us| == |vs| && forall u :: u in us <==> u in vs
    requires Resolves(us, r) && Resolves(vs, t)
    ensures r == t
  {
    if |us| == 1 {
      assert us[0] in us;
    }
    forall kid ensures kid in r <==> kid in t {}
    forall kid | kid in r ensures r[kid] == t[kid] {
      if u :| u in us && u.keyId == kid {
        assert u in vs;
      }
    }
  }

  /** A document's meaning does not depend on the order of its usable keys. */
  lemma KeySetIgnoresOrder(ks: seq<Jwk>, ls: seq<Jwk>, r: Option<map<string, Key>>, t: Option<map<string, Key>>)
    requires multiset(Usable(ks)) == multiset(Usable(ls))
    requires IsKeySet(ks, r) && IsKeySet(ls, t)
    ensures r == t
  {
    var us, vs := Usable(ks), Usable(ls);
    SameMultisetSameMembers(us, vs);
    assert Unambiguous(us) <==> Unambiguous(vs);
    if r.Some? {
      ResolvesIsUnique(us, vs, r.value, t.value);
    }
  }

  lemma {:induction false} UsableConcat(ks: seq<Jwk>, ls: seq<Jwk>)
    ensures Usable(ks + ls) == Usable(ks) + Usable(ls)
  {
    if ls == [] {
      assert ks + ls == ks;
    } else {
      UsableConcat(ks, ls[..|ls| - 1]);
      assert (ks + ls)[..|ks + ls| - 1] == ks + ls[..|ls| - 1];
    }
  }

  /** Keys this verifier cannot use, anywhere in a document, change nothing. */
  lemma UnusableKeysIgnored(ks: seq<Jwk>, k: Jwk, ls: seq<Jwk>, r: Option<map<string, Key>>)
    requires Ed25519Key(k).None?
    ensures IsKeySet(ks + [k] + ls, r) <==> IsKeySet(ks + ls, r)
  {
    UsableConcat(ks + [k], ls);
    UsableConcat(ks, [k]);
    UsableConcat(ks, ls);
    assert Usable([k]) == [];
  }

  lemma UsableWithout(ks: seq<Jwk>, k: Jwk, ls: seq<Jwk>)
    ensures multiset(Usable(ks + [k] + ls)) == multiset(Usable(ks + ls)) + multiset(Usable([k]))
  {
    UsableConcat(ks + [k], ls);
    UsableConcat(ks, [k]);
    UsableConcat(ks, ls);
  }

  /** Reordering a document reorders its usable keys. */
  lemma {:induction false} UsablePermutes(ks: seq<Jwk>, ls: seq<Jwk>)
    requires multiset(ks) == multiset(ls)
    ensures multiset(Usable(ks)) == multiset(Usable(ls))
  {
    SameMultisetSameMembers(ks, ls);
    if ks == [] {
      assert ls == [];
    } else {
      var k := ks[0];
      var before, after := TakeOut(ls, k);
      assert ks == [] + [k] + ks[1..] && [] + ks[1..] == ks[1..];
      assert multiset(ks) == multiset{k} + multiset(ks[1..]);
      UsablePermutes(ks[1..], before + after);
      UsableWithout([], k, ks[1..]);
      UsableWithout(before, k, after);
    }
  }

  /** Any reordering of a document is accepted alike and resolves alike. */
  lemma ReorderedDocumentIsSame(ks: seq<Jwk>, ls: seq<Jwk>, r: Option<map<string, Key>>, t: Option<map<string, Key>>)
    requires multiset(ks) == multiset(ls)
    requires IsKeySet(ks, r) && IsKeySet(ls, t)
    ensures r == t
  {
    UsablePermutes(ks, ls);
    KeySetIgnoresOrder(ks, ls, r, t);
  }

  /** An assertion may omit its kid exactly when the document holds one usable key. */
  lemma EmptyKidResolvesIffAlone(ks: seq<Jwk>, r: Option<map<string, Key>>)
    requires IsKeySet(ks, r) && r.Some?
    ensures "" in r.value <==> |Usable(ks)| == 1
  {}
}
