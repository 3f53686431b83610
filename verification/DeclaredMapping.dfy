/**
 Resolving a declared mapping (pkg/authzen/declared.go), as the source runs it: maps are
 objects that requests share, iteration takes keys in any order, and one budget is spent down.
 */
module DeclaredMapping {
  import opened Wrappers
  import opened Templates
  import opened Anchoring

  /** A Go map value. */
  class Dict {
    var members: map<string, Json>

    constructor ()
      ensures members == map[]
    {
      members := map[];
    }
  }

  datatype Json = Scalar(t: Tree) | List(items: seq<Json>) | Dictionary(d: Dict)

  /** j spells out the value t, using only the objects of fp. */
  ghost predicate Rep(j: Json, t: Tree, fp: set<Dict>)
    reads fp
    decreases t
  {
    match t
    case Object(members) =>
      && j.Dictionary? && j.d in fp
      && j.d.members.Keys == members.Keys
      && forall k :: k in members ==> Rep(j.d.members[k], members[k], fp)
    case Array(items) => j.List? && |j.items| == |items| && forall i :: 0 <= i < |items| ==> Rep(j.items[i], items[i], fp)
    case _ => j == Scalar(t)
  }

  lemma {:induction false} RepGrows(j: Json, t: Tree, fp: set<Dict>, more: set<Dict>)
    requires Rep(j, t, fp) && fp <= more
    ensures Rep(j, t, more)
    decreases t
  {
    match t
    case Object(members) =>
      forall k | k in members ensures Rep(j.d.members[k], members[k], more) {
        RepGrows(j.d.members[k], members[k], fp, more);
      }
    case Array(items) =>
      forall i | 0 <= i < |items| ensures Rep(j.items[i], items[i], more) {
        RepGrows(j.items[i], items[i], fp, more);
      }
    case _ =>
  }

  /* ----- The budget ----- */

  class Budget {
    var values: int
    var bytes: int

    constructor ()
      ensures values == LIMIT.values && bytes == LIMIT.bytes
    {
      values, bytes := LIMIT.values, LIMIT.bytes;
    }

    method Spend(n: nat) returns (ok: bool)
      modifies this
      ensures values == old(values) - 1 && bytes == old(bytes) - n
      ensures ok <==> values >= 0 && bytes >= 0
    {
      values := values - 1;
      bytes := bytes - n;
      ok := values >= 0 && bytes >= 0;
    }
  }

  /** The budget had v values and y bytes, and c of them are gone. */
  ghost predicate Spent(b: Budget, v: int, y: int, c: Cost)
    reads b
  {
    && b.values == v - c.values >= 0
    && b.bytes == y - c.bytes >= 0
  }

  predicate Affords(v: int, y: int, c: Cost) {
    c.values <= v && c.bytes <= y
  }

  /** A resolved value as the heap holds it. */
  ghost predicate Holds(r: Resolved<Json>, t: Resolved<Tree>, fp: set<Dict>)
    reads fp
  {
    match r
    case Bad => t.Bad?
    case Absent => t.Absent?
    case Present(j) => t.Present? && Rep(j, t.v, fp)
  }

  /**
   The outcome of resolving t at cost c out of a budget of v values and y bytes: an error
   exactly when t is one or the budget does not cover c; otherwise t, and c spent.
   */
  ghost predicate Resolves(r: Resolved<Json>, fp: set<Dict>, b: Budget, v: int, y: int, t: Resolved<Tree>, c: Cost)
    reads fp, b
  {
    if t.Bad? || !Affords(v, y, c) then r.Bad? else Holds(r, t, fp) && Spent(b, v, y, c)
  }

  lemma ResolvesAfterSpending(r: Resolved<Json>, fp: set<Dict>, b: Budget, v: int, y: int, n: nat, t: Resolved<Tree>, c: Cost)
    requires v >= 1 && y >= n && Resolves(r, fp, b, v - 1, y - n, t, c)
    ensures Resolves(r, fp, b, v, y, t, Cost(1, n).Plus(c))
  {}

  /* ----- Converting CEL results ----- */

  /** The value of a result without parts. */
  function Atomic(c: Cel): Resolved<Json>
    requires !c.CList? && !c.CMap? && !c.COptional?
  {
    match c
    case CNull => Present(Scalar(Null))
    case CBool(x) => Present(Scalar(Bool(x)))
    case CInt(i) => Present(Scalar(Number(Signed(i))))
    case CUint(u) => Present(Scalar(Number(Unsigned(u))))
    case CDouble(rank) => if rank.Some? then Present(Scalar(Number(Double(rank.value)))) else Bad
    case CText(s) => Present(Scalar(Text(s)))
    case COther => Bad
  }

  lemma AtomicHolds(c: Cel)
    requires !c.CList? && !c.CMap? && !c.COptional?
    ensures Holds(Atomic(c), ToTree(c), {})
    ensures CelCost(c) == Cost(1, if c.CText? then Utf8Length(c.s) else 0)
  {}

  /**
   Converts a result. It fails exactly when the value has no JSON form or the budget does not
   cover it, in whatever order maps are walked, and otherwise spends exactly its cost.
   */
  method Convert(c: Cel, b: Budget) returns (r: Resolved<Json>, ghost fp: set<Dict>)
    requires b.values >= 0 && b.bytes >= 0
    modifies b
    ensures fresh(fp)
    ensures Resolves(r, fp, b, old(b.values), old(b.bytes), ToTree(c), CelCost(c))
    decreases c, 1
  {
    fp := {};
    var size := if c.CText? then Utf8Length(c.s) else 0;
    var ok := b.Spend(size);
    if !ok {
      CostsAtLeast(c);
      return Bad, fp;
    }
    ghost var v, y := old(b.values), old(b.bytes);
    if c.COptional? {
      r, fp := ConvertOptional(c, b);
    } else if c.CList? {
      r, fp := ConvertList(c, b);
      ResolvesAfterSpending(r, fp, b, v, y, 0, ToTree(c), TotalSeq(ItemCosts(c)));
    } else if c.CMap? {
      r, fp := ConvertMap(c, b);
      ResolvesAfterSpending(r, fp, b, v, y, 0, ToTree(c), Total(EntryCosts(c), c.entries.Keys));
    } else {
      AtomicHolds(c);
      r := Atomic(c);
    }
  }

  lemma CostsAtLeast(c: Cel)
    ensures CelCost(c).values >= 1 && CelCost(c).bytes >= if c.CText? then Utf8Length(c.s) else 0
  {}

  method ConvertOptional(c: Cel, b: Budget) returns (r: Resolved<Json>, ghost fp: set<Dict>)
    requires c.COptional? && b.values >= 0 && b.bytes >= 0
    modifies b
    ensures fresh(fp)
    ensures Resolves(r, fp, b, old(b.values) + 1, old(b.bytes), ToTree(c), CelCost(c))
    decreases c, 0
  {
    OptionalMeaning(c);
    if c.value.None? {
      r, fp := Absent, {};
    } else {
      var inner := c.value.value;
      r, fp := Convert(inner, b);
      ResolvesAfterSpending(r, fp, b, old(b.values) + 1, old(b.bytes), 0, ToTree(inner), CelCost(inner));
    }
  }

  lemma OptionalMeaning(c: Cel)
    requires c.COptional?
    ensures c.value.None? ==> ToTree(c) == Absent && CelCost(c) == Cost(1, 0)
    ensures c.value.Some? ==> ToTree(c) == ToTree(c.value.value) && CelCost(c) == Cost(1, 0).Plus(CelCost(c.value.value))
  {}

  /** The elements a partly walked CEL list has produced. */
  ghost predicate WalkedList(out: seq<Json>, c: Cel, i: nat, fp: set<Dict>)
    requires c.CList?
    reads fp
  {
    && |out| == i <= |c.items|
    && forall j :: 0 <= j < i ==> ToTree(c.items[j]).Present? && Rep(out[j], ToTree(c.items[j]).v, fp)
  }

  method ConvertList(c: Cel, b: Budget) returns (r: Resolved<Json>, ghost fp: set<Dict>)
    requires c.CList? && b.values >= 0 && b.bytes >= 0
    modifies b
    ensures fresh(fp)
    ensures Resolves(r, fp, b, old(b.values), old(b.bytes), ToTree(c), TotalSeq(ItemCosts(c)))
    decreases c, 0, 1
  {
    var out: seq<Json> := [];
    fp := {};
    ghost var v, y := b.values, b.bytes;
    assert ItemCosts(c)[..0] == [];
    for i := 0 to |c.items|
      invariant fresh(fp)
      invariant WalkedList(out, c, i, fp)
      invariant Spent(b, v, y, TotalSeq(ItemCosts(c)[..i]))
    {
      var next, all := ConvertItem(c, i, out, b, fp, v, y);
      if next.None? {
        return Bad, fp;
      }
      out, fp := next.value, all;
    }
    assert ItemCosts(c)[..|c.items|] == ItemCosts(c);
    ListIsConverted(out, c, fp);
    ListAffordable(c, b, v, y);
    r := Present(List(out));
  }

  lemma ListAffordable(c: Cel, b: Budget, v: int, y: int)
    requires c.CList? && Spent(b, v, y, TotalSeq(ItemCosts(c)))
    ensures Affords(v, y, TotalSeq(ItemCosts(c)))
  {}

  /** Appends element i to those before it; an absent optional has no place in a list. */
  method ConvertItem(c: Cel, i: nat, out: seq<Json>, b: Budget, ghost fp: set<Dict>, ghost v: int, ghost y: int)
    returns (r: Option<seq<Json>>, ghost all: set<Dict>)
    requires c.CList? && i < |c.items| && WalkedList(out, c, i, fp)
    requires Spent(b, v, y, TotalSeq(ItemCosts(c)[..i]))
    modifies b
    ensures fresh(all - fp)
    ensures r.None? ==> ToTree(c).Bad? || !Affords(v, y, TotalSeq(ItemCosts(c)))
    ensures r.Some? ==> WalkedList(r.value, c, i + 1, all) && Spent(b, v, y, TotalSeq(ItemCosts(c)[..i + 1]))
    decreases c, 0, 0
  {
    TotalSeqNext(ItemCosts(c), i);
    ItemFails(c, i);
    var elem, more := Convert(c.items[i], b);
    if !elem.Present? {
      return None, fp;
    }
    WalkedListNext(out, c, i, fp, elem.v, more);
    return Some(out + [elem.v]), fp + more;
  }

  lemma ItemFails(c: Cel, i: nat)
    requires c.CList? && i < |c.items|
    ensures !ToTree(c.items[i]).Present? ==> ToTree(c).Bad?
  {
    assert !ToTree(c.items[i]).Present? ==> ListItems(c).None?;
  }

  lemma ListIsConverted(out: seq<Json>, c: Cel, fp: set<Dict>)
    requires c.CList? && WalkedList(out, c, |c.items|, fp)
    ensures Holds(Present(List(out)), ToTree(c), fp)
  {
    assert ListItems(c).Some?;
    var items := ListItems(c).value;
    forall i | 0 <= i < |items| ensures Rep(out[i], items[i], fp) {
      assert items[i] == ToTree(c.items[i]).v;
    }
  }

  lemma TotalSeqNext(costs: seq<Cost>, i: nat)
    requires i < |costs|
    ensures TotalSeq(costs[..i + 1]) == TotalSeq(costs[..i]).Plus(costs[i])
    ensures TotalSeq(costs[..i + 1]).AtMost(TotalSeq(costs))
  {
    assert costs[..i + 1][..i] == costs[..i];
    TotalSeqMonotone(costs, i + 1);
  }

  lemma WalkedListNext(out: seq<Json>, c: Cel, i: nat, fp: set<Dict>, elem: Json, more: set<Dict>)
    requires c.CList? && i < |c.items| && WalkedList(out, c, i, fp)
    requires ToTree(c.items[i]).Present? && Rep(elem, ToTree(c.items[i]).v, more)
    ensures WalkedList(out + [elem], c, i + 1, fp + more)
  {
    forall j | 0 <= j < i ensures Rep(out[j], ToTree(c.items[j]).v, fp + more) {
      RepGrows(out[j], ToTree(c.items[j]).v, fp, fp + more);
    }
    RepGrows(elem, ToTree(c.items[i]).v, more, fp + more);
  }

  /** The members a partly walked CEL map has produced. */
  ghost predicate Walked(d: Dict, c: Cel, done: set<Key>, fp: set<Dict>)
    requires c.CMap?
    reads d, fp
  {
    && done <= c.entries.Keys
    && (forall k :: k in done ==> k.TextKey? && !ToTree(c.entries[k]).Bad?)
    && (forall x :: x in d.members <==> TextKey(x) in done && ToTree(c.entries[TextKey(x)]).Present?)
    && forall x :: x in d.members ==> Rep(d.members[x], ToTree(c.entries[TextKey(x)]).v, fp)
  }

  /** What an entry of a map means: only text keys have a JSON form. */
  function EntryMeaning(c: Cel, key: Key): Resolved<Tree>
    requires c.CMap? && key in c.entries
  {
    if key.TextKey? then ToTree(c.entries[key]) else Bad
  }

  /** One entry of a map: its key is charged, then its value. */
  method ConvertEntry(c: Cel, key: Key, b: Budget) returns (r: Resolved<Json>, ghost fp: set<Dict>)
    requires c.CMap? && key in c.entries && b.values >= 0 && b.bytes >= 0
    modifies b
    ensures fresh(fp)
    ensures Resolves(r, fp, b, old(b.values), old(b.bytes), EntryMeaning(c, key), EntryCosts(c)[key])
    decreases c, 0, 0
  {
    if !key.TextKey? {
      return Bad, {};
    }
    var ok := b.Spend(Utf8Length(key.name));
    if !ok {
      return Bad, {};
    }
    r, fp := Convert(c.entries[key], b);
    ResolvesAfterSpending(r, fp, b, old(b.values), old(b.bytes), Utf8Length(key.name), ToTree(c.entries[key]), CelCost(c.entries[key]));
  }

  /** Stores what an entry gave, unless it is an absent optional. */
  method Put(out: Dict, c: Cel, key: Key, elem: Resolved<Json>, ghost done: set<Key>, ghost fp: set<Dict>, ghost more: set<Dict>)
    requires c.CMap? && key in c.entries && key.TextKey? && key !in done
    requires out !in fp && out !in more && !elem.Bad?
    requires Walked(out, c, done, fp) && Holds(elem, ToTree(c.entries[key]), more)
    modifies out
    ensures Walked(out, c, done + {key}, fp + more)
  {
    forall x | x in out.members ensures Rep(out.members[x], ToTree(c.entries[TextKey(x)]).v, fp + more) {
      RepGrows(out.members[x], ToTree(c.entries[TextKey(x)]).v, fp, fp + more);
    }
    if elem.Present? {
      RepGrows(elem.v, ToTree(c.entries[key]).v, more, fp + more);
      out.members := out.members[key.name := elem.v];
    }
  }

  /** Converts one entry of a map and stores it with those before it. */
  method ConvertNext(out: Dict, c: Cel, key: Key, b: Budget, ghost done: set<Key>, ghost fp: set<Dict>, ghost v: int, ghost y: int)
    returns (ok: bool, ghost more: set<Dict>)
    requires c.CMap? && key in c.entries && key !in done && out !in fp
    requires Walked(out, c, done, fp) && Spent(b, v, y, Total(EntryCosts(c), done))
    modifies out, b
    ensures fresh(more)
    ensures !ok ==> MapFails(c, v, y)
    ensures ok ==> Walked(out, c, done + {key}, fp + more)
    ensures ok ==> Spent(b, v, y, Total(EntryCosts(c), done + {key}))
    decreases c, 0, 1
  {
    ghost var costs := EntryCosts(c);
    assert costs.Keys == c.entries.Keys;
    TotalNext(costs, done, key);
    EntryFails(c, key);
    var elem, own := ConvertEntry(c, key, b);
    more := own;
    assert Walked(out, c, done, fp);
    if elem.Bad? {
      return false, more;
    }
    assert Holds(elem, ToTree(c.entries[key]), more);
    Put(out, c, key, elem, done, fp, more);
    ok := true;
  }

  /** The entries of a map are no use to the budget, or no use as JSON. */
  ghost predicate MapFails(c: Cel, v: int, y: int)
    requires c.CMap?
  {
    ToTree(c).Bad? || !Affords(v, y, Total(EntryCosts(c), c.entries.Keys))
  }

  lemma OneMoreDone<K>(keys: set<K>, todo: set<K>, key: K, done: set<K>)
    requires key in todo && todo <= keys && done == keys - todo
    ensures done + {key} == keys - (todo - {key}) && key !in done
  {}

  method ConvertEntries(out: Dict, c: Cel, b: Budget) returns (ok: bool, ghost fp: set<Dict>)
    requires c.CMap? && b.values >= 0 && b.bytes >= 0 && out.members == map[]
    modifies out, b
    ensures fresh(fp)
    ensures !ok ==> MapFails(c, old(b.values), old(b.bytes))
    ensures ok ==> Walked(out, c, c.entries.Keys, fp)
    ensures ok ==> Spent(b, old(b.values), old(b.bytes), Total(EntryCosts(c), c.entries.Keys))
    decreases c, 0, 2
  {
    fp := {};
    ghost var v, y, costs, done := b.values, b.bytes, EntryCosts(c), {};
    var todo := c.entries.Keys;
    while todo != {}
      invariant todo <= c.entries.Keys && done == c.entries.Keys - todo
      invariant fresh(fp) && out !in fp
      invariant Walked(out, c, done, fp)
      invariant Spent(b, v, y, Total(costs, done))
      decreases todo
    {
      var key :| key in todo;
      OneMoreDone(c.entries.Keys, todo, key, done);
      var next, more := ConvertNext(out, c, key, b, done, fp, v, y);
      fp := fp + more;
      if !next {
        return false, fp;
      }
      done, todo := done + {key}, todo - {key};
    }
    assert done == c.entries.Keys;
    ok := true;
  }

  method ConvertMap(c: Cel, b: Budget) returns (r: Resolved<Json>, ghost fp: set<Dict>)
    requires c.CMap? && b.values >= 0 && b.bytes >= 0
    modifies b
    ensures fresh(fp)
    ensures Resolves(r, fp, b, old(b.values), old(b.bytes), ToTree(c), Total(EntryCosts(c), c.entries.Keys))
    decreases c, 0, 3
  {
    var out := new Dict();
    var ok, own := ConvertEntries(out, c, b);
    fp := own;
    if !ok {
      return Bad, fp;
    }
    MapIsConverted(out, c, fp);
    r, fp := Present(Dictionary(out)), fp + {out};
  }

  lemma TotalNext<K>(costs: map<K, Cost>, done: set<K>, key: K)
    requires done <= costs.Keys && key in costs && key !in done
    ensures Total(costs, done + {key}) == Total(costs, done).Plus(costs[key])
    ensures Total(costs, done + {key}).AtMost(Total(costs, costs.Keys))
  {
    TotalAnyOrder(costs, done + {key}, key);
    TotalMonotone(costs, done + {key}, costs.Keys);
    assert done + {key} - {key} == done;
  }

  lemma EntryFails(c: Cel, key: Key)
    requires c.CMap? && key in c.entries
    ensures EntryMeaning(c, key).Bad? ==> ToTree(c).Bad?
  {
    assert EntryMeaning(c, key).Bad? ==> MapMembers(c).None?;
  }

  lemma MapIsConverted(d: Dict, c: Cel, fp: set<Dict>)
    requires c.CMap? && Walked(d, c, c.entries.Keys, fp)
    ensures Holds(Present(Dictionary(d)), ToTree(c), fp + {d})
  {
    assert MapMembers(c).Some?;
    var members := MapMembers(c).value;
    forall x ensures x in members <==> x in d.members {}
    forall x | x in members ensures Rep(d.members[x], members[x], fp + {d}) {
      assert members[x] == ToTree(c.entries[TextKey(x)]).v;
      RepGrows(d.members[x], members[x], fp, fp + {d});
    }
  }

  /* ----- Resolving templates ----- */

  /** Resolves a node of a template; like Convert, whatever the order maps are walked in. */
  method ResolveNode(n: Node, eval: Eval, b: Budget) returns (r: Resolved<Json>, ghost fp: set<Dict>)
    requires b.values >= 0 && b.bytes >= 0
    modifies b
    ensures fresh(fp)
    ensures Resolves(r, fp, b, old(b.values), old(b.bytes), Meaning(n, eval), NodeCost(n, eval))
    decreases n, 1
  {
    fp := {};
    if n.Literal? {
      r := Present(Scalar(n.v));
    } else if n.Expression? {
      var c := eval(n.source);
      if c.None? {
        r := Bad;
      } else {
        r, fp := Convert(c.value, b);
      }
    } else if n.ObjectNode? {
      r, fp := ResolveObject(n, eval, b);
    } else {
      r, fp := ResolveArray(n, eval, b);
    }
  }

  /** The members a partly walked template object has produced. */
  ghost predicate WalkedFields(d: Dict, n: Node, eval: Eval, done: set<string>, fp: set<Dict>)
    requires n.ObjectNode?
    reads d, fp
  {
    && done <= n.fields.Keys
    && (forall k :: k in done ==> !Meaning(n.fields[k], eval).Bad?)
    && (forall k :: k in d.members <==> k in done && Meaning(n.fields[k], eval).Present?)
    && forall k :: k in d.members ==> Rep(d.members[k], Meaning(n.fields[k], eval).v, fp)
  }

  method PutField(out: Dict, n: Node, eval: Eval, k: string, v: Resolved<Json>, ghost done: set<string>, ghost fp: set<Dict>, ghost more: set<Dict>)
    requires n.ObjectNode? && k in n.fields && k !in done
    requires out !in fp && out !in more && !v.Bad?
    requires WalkedFields(out, n, eval, done, fp) && Holds(v, Meaning(n.fields[k], eval), more)
    modifies out
    ensures WalkedFields(out, n, eval, done + {k}, fp + more)
  {
    forall x | x in out.members ensures Rep(out.members[x], Meaning(n.fields[x], eval).v, fp + more) {
      RepGrows(out.members[x], Meaning(n.fields[x], eval).v, fp, fp + more);
    }
    if v.Present? {
      RepGrows(v.v, Meaning(n.fields[k], eval).v, more, fp + more);
      out.members := out.members[k := v.v];
    }
  }

  method ResolveObject(n: Node, eval: Eval, b: Budget) returns (r: Resolved<Json>, ghost fp: set<Dict>)
    requires n.ObjectNode? && b.values >= 0 && b.bytes >= 0
    modifies b
    ensures fresh(fp)
    ensures Resolves(r, fp, b, old(b.values), old(b.bytes), Meaning(n, eval), NodeCost(n, eval))
    decreases n, 0, 1
  {
    var out := new Dict();
    fp := {};
    ghost var v, y, sums, done := b.values, b.bytes, FieldSums(n, Spending(eval)), {};
    var todo := n.fields.Keys;
    while todo != {}
      invariant todo <= n.fields.Keys && done == n.fields.Keys - todo
      invariant fresh(out) && fresh(fp) && out !in fp
      invariant WalkedFields(out, n, eval, done, fp)
      invariant Spent(b, v, y, Total(sums, done))
      decreases todo
    {
      var k :| k in todo;
      var ok, all := ResolveField(n, eval, k, out, b, done, fp, v, y);
      if !ok {
        return Bad, fp;
      }
      fp, done, todo := all, done + {k}, todo - {k};
    }
    assert done == n.fields.Keys;
    assert NodeCost(n, eval) == Total(sums, done);
    ObjectIsResolved(out, n, eval, fp);
    r, fp := Present(Dictionary(out)), fp + {out};
  }

  /** Resolves the field k and stores what it gives beside those already walked. */
  method ResolveField(n: Node, eval: Eval, k: string, out: Dict, b: Budget,
                      ghost done: set<string>, ghost fp: set<Dict>, ghost v: int, ghost y: int)
    returns (ok: bool, ghost all: set<Dict>)
    requires n.ObjectNode? && k in n.fields && k !in done
    requires out !in fp && WalkedFields(out, n, eval, done, fp)
    requires Spent(b, v, y, Total(FieldSums(n, Spending(eval)), done))
    modifies b, out
    ensures fresh(all - fp) && out !in all
    ensures !ok ==> Meaning(n, eval).Bad? || !Affords(v, y, NodeCost(n, eval))
    ensures ok ==> WalkedFields(out, n, eval, done + {k}, all) && Spent(b, v, y, Total(FieldSums(n, Spending(eval)), done + {k}))
    decreases n, 0, 0
  {
    TotalNext(FieldSums(n, Spending(eval)), done, k);
    FieldFails(n, eval, k);
    assert FieldSums(n, Spending(eval)).Keys == n.fields.Keys;
    var value, more := ResolveNode(n.fields[k], eval, b);
    if value.Bad? {
      return false, fp;
    }
    PutField(out, n, eval, k, value, done, fp, more);
    return true, fp + more;
  }

  lemma FieldFails(n: Node, eval: Eval, k: string)
    requires n.ObjectNode? && k in n.fields
    ensures Meaning(n.fields[k], eval).Bad? ==> Meaning(n, eval).Bad?
    ensures FieldSums(n, Spending(eval))[k] == NodeCost(n.fields[k], eval)
  {
    assert Meaning(n.fields[k], eval).Bad? ==> FieldsMeaning(n, eval).None?;
  }

  lemma ObjectIsResolved(d: Dict, n: Node, eval: Eval, fp: set<Dict>)
    requires n.ObjectNode? && d !in fp && WalkedFields(d, n, eval, n.fields.Keys, fp)
    ensures Holds(Present(Dictionary(d)), Meaning(n, eval), fp + {d})
  {
    assert FieldsMeaning(n, eval).Some?;
    var members := FieldsMeaning(n, eval).value;
    forall k ensures k in members <==> k in d.members {}
    forall k | k in members ensures Rep(d.members[k], members[k], fp + {d}) {
      RepGrows(d.members[k], members[k], fp, fp + {d});
    }
  }

  /** The elements a partly walked template array has produced. */
  ghost predicate WalkedArray(out: seq<Json>, n: Node, eval: Eval, i: nat, fp: set<Dict>)
    requires n.ArrayNode?
    reads fp
  {
    && |out| == i <= |n.items|
    && forall j :: 0 <= j < i ==> Meaning(n.items[j], eval).Present? && Rep(out[j], Meaning(n.items[j], eval).v, fp)
  }

  method ResolveArray(n: Node, eval: Eval, b: Budget) returns (r: Resolved<Json>, ghost fp: set<Dict>)
    requires n.ArrayNode? && b.values >= 0 && b.bytes >= 0
    modifies b
    ensures fresh(fp)
    ensures Resolves(r, fp, b, old(b.values), old(b.bytes), Meaning(n, eval), NodeCost(n, eval))
    decreases n, 0, 1
  {
    var out: seq<Json> := [];
    fp := {};
    ghost var v, y := b.values, b.bytes;
    assert ItemSums(n, Spending(eval))[..0] == [];
    for i := 0 to |n.items|
      invariant fresh(fp)
      invariant WalkedArray(out, n, eval, i, fp)
      invariant Spent(b, v, y, TotalSeq(ItemSums(n, Spending(eval))[..i]))
    {
      var next, all := ResolveItem(n, eval, i, out, b, fp, v, y);
      if next.None? {
        return Bad, fp;
      }
      out, fp := next.value, all;
    }
    assert ItemSums(n, Spending(eval))[..|n.items|] == ItemSums(n, Spending(eval));
    ArrayIsResolved(out, n, eval, fp);
    r := Present(List(out));
  }

  /** Appends element i; an absent optional would shift those after it, and is refused. */
  method ResolveItem(n: Node, eval: Eval, i: nat, out: seq<Json>, b: Budget, ghost fp: set<Dict>, ghost v: int, ghost y: int)
    returns (r: Option<seq<Json>>, ghost all: set<Dict>)
    requires n.ArrayNode? && i < |n.items| && WalkedArray(out, n, eval, i, fp)
    requires Spent(b, v, y, TotalSeq(ItemSums(n, Spending(eval))[..i]))
    modifies b
    ensures fresh(all - fp)
    ensures r.None? ==> Meaning(n, eval).Bad? || !Affords(v, y, NodeCost(n, eval))
    ensures r.Some? ==> WalkedArray(r.value, n, eval, i + 1, all) && Spent(b, v, y, TotalSeq(ItemSums(n, Spending(eval))[..i + 1]))
    decreases n, 0, 0
  {
    TotalSeqNext(ItemSums(n, Spending(eval)), i);
    ElementFails(n, eval, i);
    var elem, more := ResolveNode(n.items[i], eval, b);
    if !elem.Present? {
      return None, fp;
    }
    WalkedArrayNext(out, n, eval, i, fp, elem.v, more);
    return Some(out + [elem.v]), fp + more;
  }

  lemma WalkedArrayNext(out: seq<Json>, n: Node, eval: Eval, i: nat, fp: set<Dict>, elem: Json, more: set<Dict>)
    requires n.ArrayNode? && i < |n.items| && WalkedArray(out, n, eval, i, fp)
    requires Meaning(n.items[i], eval).Present? && Rep(elem, Meaning(n.items[i], eval).v, more)
    ensures WalkedArray(out + [elem], n, eval, i + 1, fp + more)
  {
    forall j | 0 <= j < i ensures Rep(out[j], Meaning(n.items[j], eval).v, fp + more) {
      RepGrows(out[j], Meaning(n.items[j], eval).v, fp, fp + more);
    }
    RepGrows(elem, Meaning(n.items[i], eval).v, more, fp + more);
  }

  lemma ElementFails(n: Node, eval: Eval, i: nat)
    requires n.ArrayNode? && i < |n.items|
    ensures !Meaning(n.items[i], eval).Present? ==> Meaning(n, eval).Bad?
    ensures ItemSums(n, Spending(eval))[i] == NodeCost(n.items[i], eval)
  {
    assert !Meaning(n.items[i], eval).Present? ==> ItemsMeaning(n, eval).None?;
  }

  lemma ArrayIsResolved(out: seq<Json>, n: Node, eval: Eval, fp: set<Dict>)
    requires n.ArrayNode? && WalkedArray(out, n, eval, |n.items|, fp)
    ensures Holds(Present(List(out)), Meaning(n, eval), fp)
  {
    assert ItemsMeaning(n, eval).Some?;
    var items := ItemsMeaning(n, eval).value;
    forall i | 0 <= i < |items| ensures Rep(out[i], items[i], fp) {
      assert items[i] == Meaning(n.items[i], eval).v;
    }
  }

  /* ----- Anchoring ----- */

  /** A request as it is sent; its maps are objects, those it did not write shared with the mapping's. */
  datatype Request = Request(
    subjectType: string, subjectId: string, subjectProperties: Dict,
    actionName: string, actionProperties: Option<Dict>,
    resourceType: string, resourceId: string, resourceProperties: Option<Dict>,
    context: Dict)

  ghost predicate RepDict(d: Dict, m: Members, fp: set<Dict>)
    reads fp
  {
    Rep(Dictionary(d), Object(m), fp)
  }

  ghost predicate RepOption(d: Option<Dict>, m: Option<Members>, fp: set<Dict>)
    reads fp
  {
    if m.None? then d.None? else d.Some? && RepDict(d.value, m.value, fp)
  }

  /** The parts of a request that name who is asking. */
  ghost predicate RepIdentity(typ: string, properties: Dict, context: Dict, s: Subject, c: Members, fp: set<Dict>)
    reads fp
  {
    typ == s.typ && RepDict(properties, s.properties, fp) && RepDict(context, c, fp)
  }

  ghost predicate RepRequest(r: Request, t: RequestTree, fp: set<Dict>)
    reads fp
  {
    && r.subjectId == t.subject.id
    && RepIdentity(r.subjectType, r.subjectProperties, r.context, t.subject, t.context, fp)
    && r.actionName == t.actionName && RepOption(r.actionProperties, t.actionProperties, fp)
    && r.resourceType == t.resource.typ && r.resourceId == t.resource.id
    && RepOption(r.resourceProperties, t.resource.properties, fp)
  }

  /** A member that must be an object if it is there; None for an error. */
  method ReadOptional(d: Option<Dict>, key: string, ghost m: Option<Members>, ghost fp: set<Dict>) returns (r: Option<Option<Dict>>)
    requires RepOption(d, m, fp)
    ensures r.Some? <==> OptionalObject(OrEmpty(m), key).Some?
    ensures r.Some? ==> RepOption(r.value, OptionalObject(OrEmpty(m), key).value, fp)
  {
    if d.None? || key !in d.value.members {
      return Some(None);
    }
    var v := d.value.members[key];
    assert Rep(v, m.value[key], fp);
    return if v.Dictionary? then Some(Some(v.d)) else None;
  }

  method ReadText(d: Option<Dict>, key: string, ghost m: Option<Members>, ghost fp: set<Dict>) returns (r: Option<string>)
    requires RepOption(d, m, fp)
    ensures r == NonEmptyText(OrEmpty(m), key)
  {
    if d.None? || key !in d.value.members {
      return None;
    }
    var v := d.value.members[key];
    assert Rep(v, m.value[key], fp);
    return if v.Scalar? && v.t.Text? && v.t.s != "" then Some(v.t.s) else None;
  }

  /** Whether a member is set to something other than the given atom. */
  method Contradicts(d: Option<Dict>, key: string, want: Atom, ghost m: Option<Members>, ghost fp: set<Dict>) returns (r: bool)
    requires RepOption(d, m, fp)
    ensures r <==> key in OrEmpty(m) && OrEmpty(m)[key] != want
  {
    if d.None? || key !in d.value.members {
      return false;
    }
    assert Rep(d.value.members[key], m.value[key], fp);
    return d.value.members[key] != Scalar(want);
  }

  function KeysOf(d: Option<Dict>): set<string>
    reads if d.Some? then {d.value} else {}
  {
    if d.Some? then d.value.members.Keys else {}
  }

  /** d holds m, and refers to nothing but the objects of fp, itself not among them. */
  ghost predicate Apart(d: Dict, m: Members, fp: set<Dict>)
    reads fp, d
  {
    && d !in fp
    && d.members.Keys == m.Keys
    && forall k :: k in m ==> Rep(d.members[k], m[k], fp)
  }

  lemma ApartIsRep(d: Dict, m: Members, fp: set<Dict>)
    requires Apart(d, m, fp)
    ensures RepDict(d, m, fp + {d})
  {
    forall k | k in m ensures Rep(d.members[k], m[k], fp + {d}) {
      RepGrows(d.members[k], m[k], fp, fp + {d});
    }
  }

  /** A copy of a map, made before anything is written to it. */
  method Cloned(d: Option<Dict>, ghost m: Option<Members>, ghost fp: set<Dict>) returns (out: Dict)
    requires RepOption(d, m, fp)
    ensures fresh(out) && Apart(out, OrEmpty(m), fp)
  {
    out := new Dict();
    if d.None? {
      return;
    }
    var todo := d.value.members.Keys;
    while todo != {}
      invariant todo <= d.value.members.Keys
      invariant out.members == map k | k in d.value.members && k !in todo :: d.value.members[k]
      decreases todo
    {
      var k :| k in todo;
      out.members := out.members[k := d.value.members[k]];
      todo := todo - {k};
    }
  }

  /** Writes an atom into a map that nothing else refers to. */
  method Write(out: Dict, key: string, v: Atom, ghost m: Members, ghost fp: set<Dict>)
    requires Apart(out, m, fp)
    modifies out
    ensures Apart(out, m[key := v], fp)
  {
    out.members := out.members[key := Scalar(v)];
  }

  /** No `modifies` clause: anchoring writes to no map that was there before. */
  method AnchorProperties(subject: Option<Dict>, id: Identity, fold: Fold, ghost t: Option<Members>, ghost fp: set<Dict>)
    returns (r: Option<Dict>, ghost more: set<Dict>)
    requires RepOption(subject, t, fp)
    ensures fresh(more)
    ensures r.Some? <==> AnchoredProperties(OrEmpty(t), id, fold).Some?
    ensures r.Some? ==> RepDict(r.value, AnchoredProperties(OrEmpty(t), id, fold).value, fp + more)
  {
    more := {};
    var props := ReadOptional(subject, "properties", t, fp);
    if props.None? {
      return None, more;
    }
    ghost var properties := OptionalObject(OrEmpty(t), "properties").value;
    if HasTwin(KeysOf(props.value), "iss", fold) {
      return None, more;
    }
    var wrong := Contradicts(props.value, "iss", Text(id.issuer), properties, fp);
    if wrong {
      return None, more;
    }
    var out := Cloned(props.value, properties, fp);
    Write(out, "iss", Text(id.issuer), OrEmpty(properties), fp);
    ApartIsRep(out, OrEmpty(properties)["iss" := Text(id.issuer)], fp);
    return Some(out), {out};
  }

  method AnchorSubject(fields: Dict, id: Identity, fold: Fold, ghost t: Members, ghost fp: set<Dict>)
    returns (r: Option<(string, Dict)>, ghost more: set<Dict>)
    requires RepDict(fields, t, fp)
    ensures fresh(more)
    ensures r.Some? <==> AnchoredSubject(t, id, fold).Some?
    ensures r.Some? ==>
              && AnchoredSubject(t, id, fold).value.typ == r.value.0
              && RepDict(r.value.1, AnchoredSubject(t, id, fold).value.properties, fp + more)
  {
    more := {};
    var found := ReadOptional(Some(fields), "subject", Some(t), fp);
    if found.None? {
      return None, more;
    }
    ghost var subject := OptionalObject(t, "subject").value;
    var keys := KeysOf(found.value);
    assert keys == OrEmpty(subject).Keys;
    if !(keys <= {"type", "id", "properties"}) {
      return None, more;
    }
    var typ := ReadText(found.value, "type", subject, fp);
    if "type" in keys && typ.None? {
      return None, more;
    }
    var sid := ReadText(found.value, "id", subject, fp);
    if "id" in keys && sid != Some(id.sponsor) {
      return None, more;
    }
    var props, mine := AnchorProperties(found.value, id, fold, subject, fp);
    if props.None? {
      return None, more;
    }
    return Some((if typ.Some? then typ.value else SUBJECT_TYPE, props.value)), mine;
  }

  method ReadAction(fields: Dict, ghost t: Members, ghost fp: set<Dict>) returns (r: Option<(string, Option<Dict>)>)
    requires RepDict(fields, t, fp)
    ensures r.Some? <==> AnchoredAction(t).Some?
    ensures r.Some? ==> r.value.0 == AnchoredAction(t).value.0 && RepOption(r.value.1, AnchoredAction(t).value.1, fp)
  {
    var found := ReadOptional(Some(fields), "action", Some(t), fp);
    if found.None? || found.value.None? {
      return None;
    }
    ghost var action := OptionalObject(t, "action").value;
    if !(KeysOf(found.value) <= {"name", "properties"}) {
      return None;
    }
    var name := ReadText(found.value, "name", action, fp);
    var props := ReadOptional(found.value, "properties", action, fp);
    return if name.None? || props.None? then None else Some((name.value, props.value));
  }

  method ReadResource(fields: Dict, ghost t: Members, ghost fp: set<Dict>) returns (r: Option<(string, string, Option<Dict>)>)
    requires RepDict(fields, t, fp)
    ensures r.Some? <==> AnchoredResource(t).Some?
    ensures r.Some? ==>
              var a := AnchoredResource(t).value;
              r.value.0 == a.typ && r.value.1 == a.id && RepOption(r.value.2, a.properties, fp)
  {
    var found := ReadOptional(Some(fields), "resource", Some(t), fp);
    if found.None? || found.value.None? {
      return None;
    }
    ghost var resource := OptionalObject(t, "resource").value;
    if !(KeysOf(found.value) <= {"type", "id", "properties"}) {
      return None;
    }
    var typ := ReadText(found.value, "type", resource, fp);
    var rid := ReadText(found.value, "id", resource, fp);
    var props := ReadOptional(found.value, "properties", resource, fp);
    return if typ.None? || rid.None? || props.None? then None else Some((typ.value, rid.value, props.value));
  }

  /** A copy of a context, with the agent and the delegation written into it. */
  method Pinned(d: Option<Dict>, id: Identity, ghost m: Option<Members>, ghost fp: set<Dict>) returns (out: Dict)
    requires RepOption(d, m, fp)
    ensures fresh(out)
    ensures RepDict(out, OrEmpty(m)[AGENT_KEY := Text(id.agent)][DELEGATION_KEY := Delegation(id.chain)], fp + {out})
  {
    out := Cloned(d, m, fp);
    Write(out, AGENT_KEY, Text(id.agent), OrEmpty(m), fp);
    ghost var withAgent := OrEmpty(m)[AGENT_KEY := Text(id.agent)];
    Write(out, DELEGATION_KEY, Delegation(id.chain), withAgent, fp);
    ApartIsRep(out, withAgent[DELEGATION_KEY := Delegation(id.chain)], fp);
  }

  method AnchorContext(fields: Dict, id: Identity, fold: Fold, ghost t: Members, ghost fp: set<Dict>)
    returns (r: Option<Dict>, ghost more: set<Dict>)
    requires RepDict(fields, t, fp)
    ensures fresh(more)
    ensures r.Some? <==> AnchoredContext(t, id, fold).Some?
    ensures r.Some? ==> RepDict(r.value, AnchoredContext(t, id, fold).value, fp + more)
  {
    more := {};
    var found := ReadOptional(Some(fields), "context", Some(t), fp);
    if found.None? {
      return None, more;
    }
    ghost var context := OptionalObject(t, "context").value;
    if HasTwin(KeysOf(found.value), AGENT_KEY, fold) || HasTwin(KeysOf(found.value), DELEGATION_KEY, fold) {
      return None, more;
    }
    var wrong := Contradicts(found.value, AGENT_KEY, Text(id.agent), context, fp);
    if wrong || DELEGATION_KEY in KeysOf(found.value) {
      return None, more;
    }
    var out := Pinned(found.value, id, context, fp);
    return Some(out), {out};
  }

  lemma RepOptionGrows(d: Option<Dict>, m: Option<Members>, fp: set<Dict>, more: set<Dict>)
    requires RepOption(d, m, fp) && fp <= more
    ensures RepOption(d, m, more)
  {
    if m.Some? {
      RepGrows(Dictionary(d.value), Object(m.value), fp, more);
    }
  }

  method AnchorIdentity(fields: Dict, id: Identity, fold: Fold, ghost t: Members, ghost fp: set<Dict>)
    returns (r: Option<(string, Dict, Dict)>, ghost more: set<Dict>)
    requires RepDict(fields, t, fp)
    ensures fresh(more)
    ensures r.Some? <==> AnchoredSubject(t, id, fold).Some? && AnchoredContext(t, id, fold).Some?
    ensures r.Some? ==>
              RepIdentity(r.value.0, r.value.1, r.value.2, AnchoredSubject(t, id, fold).value,
                          AnchoredContext(t, id, fold).value, fp + more)
  {
    var subject, mine := AnchorSubject(fields, id, fold, t, fp);
    assert RepDict(fields, t, fp);
    if subject.None? {
      return None, {};
    }
    var context, ours := AnchorContext(fields, id, fold, t, fp);
    if context.None? {
      return None, {};
    }
    more := mine + ours;
    RepGrows(Dictionary(subject.value.1), Object(AnchoredSubject(t, id, fold).value.properties), fp + mine, fp + more);
    RepGrows(Dictionary(context.value), Object(AnchoredContext(t, id, fold).value), fp + ours, fp + more);
    r := Some((subject.value.0, subject.value.1, context.value));
  }

  lemma AnchoredIsRep(r: Request, t: Members, id: Identity, fold: Fold, fp: set<Dict>, more: set<Dict>)
    requires Anchored(t, id, fold).Some? && r.subjectId == id.sponsor
    requires RepIdentity(r.subjectType, r.subjectProperties, r.context, AnchoredSubject(t, id, fold).value,
                         AnchoredContext(t, id, fold).value, fp + more)
    requires r.actionName == AnchoredAction(t).value.0
    requires r.resourceType == AnchoredResource(t).value.typ && r.resourceId == AnchoredResource(t).value.id
    requires RepOption(r.actionProperties, AnchoredAction(t).value.1, fp)
    requires RepOption(r.resourceProperties, AnchoredResource(t).value.properties, fp)
    ensures RepRequest(r, Anchored(t, id, fold).value, fp + more)
  {
    RepOptionGrows(r.actionProperties, AnchoredAction(t).value.1, fp, fp + more);
    RepOptionGrows(r.resourceProperties, AnchoredResource(t).value.properties, fp, fp + more);
  }

  /** The request the members make, pinned to what verification established. */
  method Anchor(fields: Dict, id: Identity, fold: Fold, ghost t: Members, ghost fp: set<Dict>)
    returns (r: Option<Request>, ghost more: set<Dict>)
    requires RepDict(fields, t, fp)
    ensures fresh(more)
    ensures r.Some? <==> Anchored(t, id, fold).Some?
    ensures r.Some? ==> RepRequest(r.value, Anchored(t, id, fold).value, fp + more)
  {
    var identity, mine := AnchorIdentity(fields, id, fold, t, fp);
    assert RepDict(fields, t, fp);
    more := mine;
    if identity.None? {
      return None, more;
    }
    var action := ReadAction(fields, t, fp);
    if action.None? {
      return None, more;
    }
    var resource := ReadResource(fields, t, fp);
    if resource.None? {
      return None, more;
    }
    var request := Request(identity.value.0, id.sponsor, identity.value.1, action.value.0, action.value.1,
                           resource.value.0, resource.value.1, resource.value.2, identity.value.2);
    AnchoredIsRep(request, t, id, fold, fp, more);
    r := Some(request);
  }

  lemma RepRequestGrows(r: Request, t: RequestTree, fp: set<Dict>, more: set<Dict>)
    requires RepRequest(r, t, fp) && fp <= more
    ensures RepRequest(r, t, more)
  {
    RepGrows(Dictionary(r.subjectProperties), Object(t.subject.properties), fp, more);
    RepGrows(Dictionary(r.context), Object(t.context), fp, more);
    RepOptionGrows(r.actionProperties, t.actionProperties, fp, more);
    RepOptionGrows(r.resourceProperties, t.resource.properties, fp, more);
  }

  /* ----- A call ----- */

  /** Resolves the members of a request or an entry. */
  method ResolveMembers(fields: map<string, Node>, eval: Eval, b: Budget) returns (r: Option<Dict>, ghost fp: set<Dict>)
    requires b.values >= 0 && b.bytes >= 0
    modifies b
    ensures fresh(fp)
    ensures r.Some? <==> Resolve(fields, eval).Some? && Affords(old(b.values), old(b.bytes), NodeCost(ObjectNode(fields), eval))
    ensures r.Some? ==> RepDict(r.value, Resolve(fields, eval).value, fp)
    ensures r.Some? ==> Spent(b, old(b.values), old(b.bytes), NodeCost(ObjectNode(fields), eval))
  {
    var v, made := ResolveObject(ObjectNode(fields), eval, b);
    fp := made;
    MembersMeaning(fields, eval);
    r := if v.Present? && v.v.Dictionary? then Some(v.v.d) else None;
  }

  lemma MembersMeaning(fields: map<string, Node>, eval: Eval)
    ensures Meaning(ObjectNode(fields), eval)
            == if Resolve(fields, eval).Some? then Present(Object(Resolve(fields, eval).value)) else Bad
  {}

  /** The defaults with an entry's members over them, in a map of their own. */
  method Overlaid(top: Dict, d: Dict, ghost t: Members, ghost m: Members, ghost fp: set<Dict>) returns (out: Dict)
    requires RepDict(top, t, fp) && RepDict(d, m, fp)
    ensures fresh(out) && RepDict(out, t + m, fp + {out})
  {
    out := new Dict();
    out.members := top.members + d.members;
    ApartIsRep(out, t + m, fp);
  }

  /** The requests of the entries walked so far, each as make gives it for its own entry alone. */
  ghost predicate Made(rs: seq<Request>, make: Maker, entries: seq<map<string, Node>>, i: nat, fp: set<Dict>)
    reads fp
  {
    && |rs| == i <= |entries|
    && forall j :: 0 <= j < i ==> MadeOne(rs[j], make(entries[j]), fp)
  }

  ghost predicate MadeOne(r: Request, t: Option<RequestTree>, fp: set<Dict>)
    reads fp
  {
    t.Some? && RepRequest(r, t.value, fp)
  }

  type Maker = map<string, Node> -> Option<RequestTree>

  /** One entry: resolved, laid over the shared defaults, anchored. */
  method MakeEntry(top: Dict, entry: map<string, Node>, eval: Eval, id: Identity, fold: Fold, b: Budget,
                   ghost t: Members, ghost make: Maker, ghost fp: set<Dict>)
    returns (r: Option<Request>, ghost more: set<Dict>)
    requires RepDict(top, t, fp) && b.values >= 0 && b.bytes >= 0 && make == EntryMaker(t, eval, id, fold)
    modifies b
    ensures fresh(more)
    ensures r.Some? <==> make(entry).Some? && Affords(old(b.values), old(b.bytes), NodeCost(ObjectNode(entry), eval))
    ensures r.Some? ==> MadeOne(r.value, make(entry), fp + more)
    ensures r.Some? ==> Spent(b, old(b.values), old(b.bytes), NodeCost(ObjectNode(entry), eval))
  {
    var fields, own := ResolveMembers(entry, eval, b);
    MakerMeaning(entry, eval, id, fold, t);
    if fields.None? {
      return None, {};
    }
    ghost var m := Resolve(entry, eval).value;
    var effective := Effective(top, fields.value, t, m, fp, own);
    var made, written := Anchor(effective, id, fold, t + m, fp + own + {effective});
    more := own + {effective} + written;
    assert fp + own + {effective} + written == fp + more;
    r := made;
  }

  lemma MakerMeaning(entry: map<string, Node>, eval: Eval, id: Identity, fold: Fold, t: Members)
    ensures EntryMaker(t, eval, id, fold)(entry)
            == if Resolve(entry, eval).None? then None else Anchored(t + Resolve(entry, eval).value, id, fold)
  {}

  /** The overlay of defaults and members that are held apart. */
  method Effective(top: Dict, d: Dict, ghost t: Members, ghost m: Members, ghost fp: set<Dict>, ghost own: set<Dict>) returns (out: Dict)
    requires RepDict(top, t, fp) && RepDict(d, m, own)
    ensures fresh(out) && RepDict(out, t + m, fp + own + {out})
  {
    RepGrows(Dictionary(top), Object(t), fp, fp + own);
    RepGrows(Dictionary(d), Object(m), own, fp + own);
    out := Overlaid(top, d, t, m, fp + own);
  }

  lemma MadeNext(rs: seq<Request>, r: Request, make: Maker, entries: seq<map<string, Node>>, i: nat, fp: set<Dict>, more: set<Dict>)
    requires i < |entries| && Made(rs, make, entries, i, fp) && MadeOne(r, make(entries[i]), fp + more)
    ensures Made(rs + [r], make, entries, i + 1, fp + more)
  {
    forall j | 0 <= j < i ensures MadeOne(rs[j], make(entries[j]), fp + more) {
      assert MadeOne(rs[j], make(entries[j]), fp);
      RepRequestGrows(rs[j], make(entries[j]).value, fp, fp + more);
    }
  }

  /** Some entry has no request, or the entries together cost more than v values and y bytes. */
  ghost predicate EntriesFail(make: Maker, entries: seq<map<string, Node>>, eval: Eval, v: int, y: int) {
    || !Affords(v, y, TotalSeq(RequestCosts(entries, eval)))
    || exists i :: 0 <= i < |entries| && make(entries[i]).None?
  }

  lemma EntryFailsAll(make: Maker, entries: seq<map<string, Node>>, i: nat, eval: Eval, b: Budget, v: int, y: int)
    requires i < |entries| && Spent(b, v, y, TotalSeq(RequestCosts(entries, eval)[..i]))
    ensures make(entries[i]).None? || !Affords(b.values, b.bytes, RequestCosts(entries, eval)[i])
            ==> EntriesFail(make, entries, eval, v, y)
  {
    TotalSeqNext(RequestCosts(entries, eval), i);
  }

  /** The loop's state: the defaults untouched, the requests made so far. */
  ghost predicate Making(rs: seq<Request>, top: Dict, t: Members, make: Maker, entries: seq<map<string, Node>>, i: nat, fp: set<Dict>)
    reads fp
  {
    RepDict(top, t, fp) && Made(rs, make, entries, i, fp)
  }

  lemma MakingNext(rs: seq<Request>, r: Request, top: Dict, t: Members, make: Maker, entries: seq<map<string, Node>>, i: nat,
                   fp: set<Dict>, more: set<Dict>)
    requires i < |entries| && Making(rs, top, t, make, entries, i, fp) && MadeOne(r, make(entries[i]), fp + more)
    ensures Making(rs + [r], top, t, make, entries, i + 1, fp + more)
  {
    MadeNext(rs, r, make, entries, i, fp, more);
    RepGrows(Dictionary(top), Object(t), fp, fp + more);
  }

  /** Adds the request of entry i to those made before it, which stay what they were. */
  method MakeNext(rs: seq<Request>, i: nat, top: Dict, entries: seq<map<string, Node>>, eval: Eval, id: Identity, fold: Fold,
                  b: Budget, ghost t: Members, ghost make: Maker, ghost fp: set<Dict>)
    returns (r: Option<seq<Request>>, ghost more: set<Dict>)
    requires i < |entries| && Making(rs, top, t, make, entries, i, fp) && b.values >= 0 && b.bytes >= 0
    requires make == EntryMaker(t, eval, id, fold)
    modifies b
    ensures fresh(more)
    ensures r.None? ==> make(entries[i]).None? || !Affords(old(b.values), old(b.bytes), NodeCost(ObjectNode(entries[i]), eval))
    ensures r.Some? ==> Making(r.value, top, t, make, entries, i + 1, fp + more)
    ensures r.Some? ==> Spent(b, old(b.values), old(b.bytes), NodeCost(ObjectNode(entries[i]), eval))
  {
    var made, own := MakeEntry(top, entries[i], eval, id, fold, b, t, make, fp);
    more := own;
    assert Making(rs, top, t, make, entries, i, fp);
    if made.None? {
      return None, more;
    }
    MakingNext(rs, made.value, top, t, make, entries, i, fp, more);
    r := Some(rs + [made.value]);
  }

  /** The entries in turn; what one request was given, the next ones do not see. */
  method MakeEntries(top: Dict, entries: seq<map<string, Node>>, eval: Eval, id: Identity, fold: Fold, b: Budget,
                     ghost t: Members, ghost make: Maker, ghost fp: set<Dict>)
    returns (r: Option<seq<Request>>, ghost all: set<Dict>)
    requires RepDict(top, t, fp) && b.values >= 0 && b.bytes >= 0 && make == EntryMaker(t, eval, id, fold)
    modifies b
    ensures fresh(all - fp)
    ensures r.None? ==> EntriesFail(make, entries, eval, old(b.values), old(b.bytes))
    ensures r.Some? ==> Made(r.value, make, entries, |entries|, all)
    ensures r.Some? ==> Affords(old(b.values), old(b.bytes), TotalSeq(RequestCosts(entries, eval)))
  {
    all := fp;
    var rs: seq<Request> := [];
    ghost var v, y := b.values, b.bytes;
    assert RequestCosts(entries, eval)[..0] == [];
    for i := 0 to |entries|
      invariant fresh(all - fp)
      invariant Making(rs, top, t, make, entries, i, all)
      invariant Spent(b, v, y, TotalSeq(RequestCosts(entries, eval)[..i]))
    {
      EntryFailsAll(make, entries, i, eval, b, v, y);
      TotalSeqNext(RequestCosts(entries, eval), i);
      var next, more := MakeNext(rs, i, top, entries, eval, id, fold, b, t, make, all);
      all := all + more;
      if next.None? {
        return None, all;
      }
      rs := next.value;
    }
    assert RequestCosts(entries, eval)[..|entries|] == RequestCosts(entries, eval);
    r := Some(rs);
  }

  /** The requests on the heap are the requests the mapping means. */
  ghost predicate RepRequests(rs: seq<Request>, ts: seq<RequestTree>, fp: set<Dict>)
    reads fp
  {
    |rs| == |ts| && forall i :: 0 <= i < |rs| ==> RepRequest(rs[i], ts[i], fp)
  }

  lemma MadeIsRequests(m: Mapping, rs: seq<Request>, eval: Eval, id: Identity, fold: Fold, fp: set<Dict>)
    requires m.entries.Some? && Resolve(m.top, eval).Some?
    requires Made(rs, EntryMaker(Resolve(m.top, eval).value, eval, id, fold), m.entries.value, |m.entries.value|, fp)
    ensures Requests(m, eval, id, fold).Some?
    ensures RepRequests(rs, Requests(m, eval, id, fold).value, fp)
  {
    MadeIsTraverse(EntryMaker(Resolve(m.top, eval).value, eval, id, fold), m.entries.value, rs, fp);
  }

  lemma MadeIsTraverse(make: Maker, entries: seq<map<string, Node>>, rs: seq<Request>, fp: set<Dict>)
    requires Made(rs, make, entries, |entries|, fp)
    ensures Traverse(entries, make).Some? && RepRequests(rs, Traverse(entries, make).value, fp)
  {
    TraverseMeaning(entries, make);
    forall i | 0 <= i < |entries| ensures make(entries[i]).Some? {
      assert MadeOne(rs[i], make(entries[i]), fp);
    }
    var ts := Traverse(entries, make).value;
    forall i | 0 <= i < |rs| ensures RepRequest(rs[i], ts[i], fp) {
      assert MadeOne(rs[i], make(entries[i]), fp);
    }
  }

  lemma EntryErrorIsError(m: Mapping, i: nat, eval: Eval, id: Identity, fold: Fold)
    requires m.entries.Some? && Resolve(m.top, eval).Some? && i < |m.entries.value|
    requires EntryMaker(Resolve(m.top, eval).value, eval, id, fold)(m.entries.value[i]).None?
    ensures Requests(m, eval, id, fold).None?
  {
    TraverseMeaning(m.entries.value, EntryMaker(Resolve(m.top, eval).value, eval, id, fold));
  }

  /** The requests of a batch, given what its defaults resolved to. */
  method MakeBatch(m: Mapping, top: Dict, eval: Eval, id: Identity, fold: Fold, b: Budget, ghost t: Members, ghost fp: set<Dict>)
    returns (r: Option<seq<Request>>, ghost all: set<Dict>)
    requires m.entries.Some? && Resolve(m.top, eval) == Some(t)
    requires RepDict(top, t, fp) && b.values >= 0 && b.bytes >= 0
    modifies b
    ensures fresh(all - fp)
    ensures r.Some? <==> Requests(m, eval, id, fold).Some?
                         && Affords(old(b.values), old(b.bytes), TotalSeq(RequestCosts(m.entries.value, eval)))
    ensures r.Some? ==> RepRequests(r.value, Requests(m, eval, id, fold).value, all)
  {
    ghost var make := EntryMaker(t, eval, id, fold);
    r, all := MakeEntries(top, m.entries.value, eval, id, fold, b, t, make, fp);
    if r.Some? {
      MadeIsRequests(m, r.value, eval, id, fold, all);
    } else if exists i :: 0 <= i < |m.entries.value| && make(m.entries.value[i]).None? {
      ghost var i :| 0 <= i < |m.entries.value| && make(m.entries.value[i]).None?;
      EntryErrorIsError(m, i, eval, id, fold);
    }
  }

  /**
   The evaluation requests of one call. In whatever order maps are walked it succeeds exactly
   when no expression, conversion or anchoring fails and the whole mapping's cost fits the two
   limits, and then the requests are the ones the mapping means, all of them still so at the end.
   */
  method ToolCallRequests(m: Mapping, eval: Eval, id: Identity, fold: Fold) returns (r: Option<seq<Request>>, ghost fp: set<Dict>)
    ensures fresh(fp)
    ensures r.Some? <==> Requests(m, eval, id, fold).Some? && MappingCost(m, eval).AtMost(LIMIT)
    ensures r.Some? ==> RepRequests(r.value, Requests(m, eval, id, fold).value, fp)
  {
    var b := new Budget();
    var top, own := ResolveMembers(m.top, eval, b);
    fp := own;
    if top.None? {
      return None, fp;
    }
    ghost var t := Resolve(m.top, eval).value;
    if m.entries.Some? {
      r, fp := MakeBatch(m, top.value, eval, id, fold, b, t, fp);
    } else {
      var made, more := Anchor(top.value, id, fold, t, fp);
      assert Requests(m, eval, id, fold).Some? <==> Anchored(t, id, fold).Some?;
      fp := fp + more;
      r := if made.Some? then Some([made.value]) else None;
    }
  }
}
