/**
 Declared mappings as values (pkg/authzen/declared.go): the template a tool declares, what
 resolving it means, and what that costs. CEL is an opaque, deterministic function from an
 expression to a value or a failure.
 */
module Templates {
  import opened Wrappers

  datatype Number = Digits(text: string) | Signed(i: int) | Unsigned(u: nat) | Double(rank: int)

  /** A JSON value. `Delegation` is the verified chain as the policy point sees it. */
  datatype Tree =
    | Null | Bool(b: bool) | Number(n: Number) | Text(s: string)
    | Array(items: seq<Tree>) | Object(members: map<string, Tree>)
    | Delegation(chain: string)

  /** A value without parts. */
  type Atom = t: Tree | !t.Array? && !t.Object? witness Null

  datatype Key = TextKey(name: string) | OtherKey(id: int)

  /** A CEL result; a double is a rank, or None when it is NaN or infinite. */
  datatype Cel =
    | CNull | CBool(b: bool) | CInt(i: int) | CUint(u: nat) | CDouble(rank: Option<int>) | CText(s: string)
    | COptional(value: Option<Cel>) | CList(items: seq<Cel>) | CMap(entries: map<Key, Cel>) | COther

  /** A compiled template. */
  datatype Node =
    | Literal(v: Atom) | Expression(source: string)
    | ObjectNode(fields: map<string, Node>) | ArrayNode(items: seq<Node>)

  /** What resolving gives: an error, an omitted optional, or a value. */
  datatype Resolved<+T> = Bad | Absent | Present(v: T)

  /* ----- Costs ----- */

  datatype Cost = Cost(values: nat, bytes: nat)
  {
    function Plus(c: Cost): Cost {
      Cost(values + c.values, bytes + c.bytes)
    }

    predicate AtMost(c: Cost) {
      values <= c.values && bytes <= c.bytes
    }
  }

  const ZERO := Cost(0, 0)
  const LIMIT := Cost(10_000, 1_048_576)

  /** The bytes of a text in UTF-8. */
  function Utf8Length(s: string): nat {
    if s == "" then 0
    else (if s[0] < 0x80 as char then 1 else if s[0] < 0x800 as char then 2 else if s[0] < 0x10000 as char then 3 else 4)
         + Utf8Length(s[1..])
  }

  /** Some element of a set; which one is never relied on. */
  ghost function Pick<K>(s: set<K>): K
    requires s != {}
  {
    var k :| k in s; k
  }

  ghost function Total<K>(costs: map<K, Cost>, keys: set<K>): Cost
    requires keys <= costs.Keys
    decreases |keys|
  {
    if keys == {} then ZERO
    else
      var k := Pick(keys);
      Total(costs, keys - {k}).Plus(costs[k])
  }

  /** The sum over a map is the same whichever entry is taken first. */
  lemma {:induction false} TotalAnyOrder<K>(costs: map<K, Cost>, keys: set<K>, k: K)
    requires keys <= costs.Keys && k in keys
    ensures Total(costs, keys) == Total(costs, keys - {k}).Plus(costs[k])
    decreases |keys|
  {
    var p := Pick(keys);
    if p != k {
      TotalAnyOrder(costs, keys - {p}, k);
      TotalAnyOrder(costs, keys - {k}, p);
      assert keys - {p} - {k} == keys - {k} - {p};
    }
  }

  /** A part costs no more than the whole. */
  lemma {:induction false} TotalMonotone<K>(costs: map<K, Cost>, keys: set<K>, all: set<K>)
    requires keys <= all <= costs.Keys
    ensures Total(costs, keys).AtMost(Total(costs, all))
    decreases |all|
  {
    if keys != all {
      var k :| k in all && k !in keys;
      TotalAnyOrder(costs, all, k);
      TotalMonotone(costs, keys, all - {k});
    }
  }

  lemma {:induction false} TotalPointwise<K>(small: map<K, Cost>, large: map<K, Cost>, keys: set<K>)
    requires keys <= small.Keys && keys <= large.Keys
    requires forall k :: k in keys ==> small[k].AtMost(large[k])
    ensures Total(small, keys).AtMost(Total(large, keys))
    decreases |keys|
  {
    if keys != {} {
      TotalPointwise(small, large, keys - {Pick(keys)});
    }
  }

  function TotalSeq(costs: seq<Cost>): Cost {
    if costs == [] then ZERO else TotalSeq(costs[..|costs| - 1]).Plus(costs[|costs| - 1])
  }

  lemma {:induction false} TotalSeqMonotone(costs: seq<Cost>, n: nat)
    requires n <= |costs|
    ensures TotalSeq(costs[..n]).AtMost(TotalSeq(costs))
    decreases |costs|
  {
    if n < |costs| {
      TotalSeqMonotone(costs[..|costs| - 1], n);
      assert costs[..|costs| - 1][..n] == costs[..n];
    } else {
      assert costs[..n] == costs;
    }
  }

  lemma {:induction false} TotalSeqPointwise(small: seq<Cost>, large: seq<Cost>)
    requires |small| == |large| && forall i :: 0 <= i < |small| ==> small[i].AtMost(large[i])
    ensures TotalSeq(small).AtMost(TotalSeq(large))
  {
    if small != [] {
      TotalSeqPointwise(small[..|small| - 1], large[..|large| - 1]);
    }
  }

  function KeyCost(k: Key): Cost {
    match k
    case TextKey(name) => Cost(1, Utf8Length(name))
    case OtherKey(_) => ZERO
  }

  /** What converting a CEL result spends: one value for it and for each key and part, and the bytes of its texts. */
  ghost function CelCost(c: Cel): Cost
    decreases c, 1
  {
    match c
    case CText(s) => Cost(1, Utf8Length(s))
    case COptional(o) => Cost(1, 0).Plus(if o.Some? then CelCost(o.value) else ZERO)
    case CList(items) => Cost(1, 0).Plus(TotalSeq(ItemCosts(c)))
    case CMap(entries) => Cost(1, 0).Plus(Total(EntryCosts(c), entries.Keys))
    case _ => Cost(1, 0)
  }

  ghost function ItemCosts(c: Cel): seq<Cost>
    requires c.CList?
    decreases c, 0
  {
    seq(|c.items|, i requires 0 <= i < |c.items| => CelCost(c.items[i]))
  }

  ghost function EntryCosts(c: Cel): map<Key, Cost>
    requires c.CMap?
    decreases c, 0
  {
    map k | k in c.entries :: KeyCost(k).Plus(CelCost(c.entries[k]))
  }

  /* ----- The JSON value of a CEL result ----- */

  function ToTree(c: Cel): Resolved<Tree>
    decreases c, 1
  {
    match c
    case CNull => Present(Null)
    case CBool(b) => Present(Bool(b))
    case CInt(i) => Present(Number(Signed(i)))
    case CUint(u) => Present(Number(Unsigned(u)))
    case CDouble(rank) => if rank.Some? then Present(Number(Double(rank.value))) else Bad
    case CText(s) => Present(Text(s))
    case COptional(o) => if o.Some? then ToTree(o.value) else Absent
    case CList(_) => var items := ListItems(c); if items.Some? then Present(Array(items.value)) else Bad
    case CMap(_) => var members := MapMembers(c); if members.Some? then Present(Object(members.value)) else Bad
    case COther => Bad
  }

  /** A list has a JSON form when every element has one; an absent optional is not an element. */
  function ListItems(c: Cel): Option<seq<Tree>>
    requires c.CList?
    decreases c, 0
  {
    if forall i :: 0 <= i < |c.items| ==> ToTree(c.items[i]).Present? then
      Some(seq(|c.items|, i requires 0 <= i < |c.items| && ToTree(c.items[i]).Present? => ToTree(c.items[i]).v))
    else None
  }

  /** A map has a JSON form when its keys are texts and its values have one; absent ones are omitted. */
  function MapMembers(c: Cel): Option<map<string, Tree>>
    requires c.CMap?
    decreases c, 0
  {
    if forall k :: k in c.entries ==> k.TextKey? && !ToTree(c.entries[k]).Bad? then
      Some(map x | x in Names(c.entries.Keys) && TextKey(x) in c.entries && ToTree(c.entries[TextKey(x)]).Present?
               :: ToTree(c.entries[TextKey(x)]).v)
    else None
  }

  function Names(keys: set<Key>): set<string> {
    set k | k in keys && k.TextKey? :: k.name
  }

  /** The results without parts: numbers but those JSON cannot write, texts, truth values and null. */
  lemma ScalarConverts(c: Cel)
    requires !c.CList? && !c.CMap?
    ensures match c
            case CNull => ToTree(c) == Present(Null)
            case CBool(b) => ToTree(c) == Present(Bool(b))
            case CInt(i) => ToTree(c) == Present(Number(Signed(i)))
            case CUint(u) => ToTree(c) == Present(Number(Unsigned(u)))
            case CDouble(rank) => if rank.None? then ToTree(c) == Bad else ToTree(c) == Present(Number(Double(rank.value)))
            case CText(s) => ToTree(c) == Present(Text(s))
            case COptional(o) => if o.None? then ToTree(c) == Absent else ToTree(c) == ToTree(o.value)
            case _ => ToTree(c) == Bad
  {}

  /** A list converts, element by element, if and only if every element does and is there. */
  lemma ListConverts(items: seq<Cel>)
    ensures var r := ToTree(CList(items));
            && (r.Present? <==> forall i :: 0 <= i < |items| ==> ToTree(items[i]).Present?)
            && (r.Present? <==> !r.Bad?)
            && (r.Present? ==>
                  && r.v.Array? && |r.v.items| == |items|
                  && forall i :: 0 <= i < |items| ==> ToTree(items[i]) == Present(r.v.items[i]))
  {
    assert ListItems(CList(items)).Some? <==> forall i :: 0 <= i < |items| ==> ToTree(items[i]).Present?;
  }

  /** A map converts if and only if its keys are texts and no value is an error; a member is there when its value is. */
  lemma MapConverts(entries: map<Key, Cel>)
    ensures var r := ToTree(CMap(entries));
            && (r.Present? <==> forall k :: k in entries ==> k.TextKey? && !ToTree(entries[k]).Bad?)
            && (r.Present? <==> !r.Bad?)
            && (r.Present? ==>
                  && r.v.Object?
                  && (forall x :: x in r.v.members <==> TextKey(x) in entries && ToTree(entries[TextKey(x)]).Present?)
                  && forall x :: x in r.v.members ==> ToTree(entries[TextKey(x)]) == Present(r.v.members[x]))
  {
    assert MapMembers(CMap(entries)).Some? <==> forall k :: k in entries ==> k.TextKey? && !ToTree(entries[k]).Bad?;
    if MapMembers(CMap(entries)).Some? {
      var members := MapMembers(CMap(entries)).value;
      forall x ensures x in members <==> TextKey(x) in entries && ToTree(entries[TextKey(x)]).Present? {
        if TextKey(x) in entries {
          assert TextKey(x).name in Names(entries.Keys);
        }
      }
    }
  }

  /* ----- Resolving a template ----- */

  type Eval = string -> Option<Cel>

  ghost function ExpressionCost(eval: Eval, source: string): Cost {
    if eval(source).Some? then CelCost(eval(source).value) else ZERO
  }

  /** A sum over the expressions of a template. */
  ghost function Sum(n: Node, f: string -> Cost): Cost
    decreases n, 1
  {
    match n
    case Literal(_) => ZERO
    case Expression(source) => f(source)
    case ObjectNode(fields) => Total(FieldSums(n, f), fields.Keys)
    case ArrayNode(items) => TotalSeq(ItemSums(n, f))
  }

  ghost function ItemSums(n: Node, f: string -> Cost): seq<Cost>
    requires n.ArrayNode?
    decreases n, 0
  {
    seq(|n.items|, i requires 0 <= i < |n.items| => Sum(n.items[i], f))
  }

  ghost function FieldSums(n: Node, f: string -> Cost): map<string, Cost>
    requires n.ObjectNode?
    decreases n, 0
  {
    map k | k in n.fields :: Sum(n.fields[k], f)
  }

  /** What resolving a template spends, whatever the order of its maps. */
  ghost function NodeCost(n: Node, eval: Eval): Cost {
    Sum(n, Spending(eval))
  }

  ghost function Spending(eval: Eval): string -> Cost {
    source => ExpressionCost(eval, source)
  }

  ghost function Producing(eval: Eval): string -> Cost {
    source => Produced(eval, source)
  }

  /** What a template means. */
  function Meaning(n: Node, eval: Eval): Resolved<Tree>
    decreases n, 1
  {
    match n
    case Literal(v) => Present(v)
    case Expression(source) => if eval(source).Some? then ToTree(eval(source).value) else Bad
    case ObjectNode(_) => var members := FieldsMeaning(n, eval); if members.Some? then Present(Object(members.value)) else Bad
    case ArrayNode(_) => var items := ItemsMeaning(n, eval); if items.Some? then Present(Array(items.value)) else Bad
  }

  /** An absent optional omits its field. */
  function FieldsMeaning(n: Node, eval: Eval): Option<map<string, Tree>>
    requires n.ObjectNode?
    decreases n, 0
  {
    if forall k :: k in n.fields ==> !Meaning(n.fields[k], eval).Bad? then
      Some(map k | k in n.fields && Meaning(n.fields[k], eval).Present? :: Meaning(n.fields[k], eval).v)
    else None
  }

  /** An absent optional cannot stand in an array. */
  function ItemsMeaning(n: Node, eval: Eval): Option<seq<Tree>>
    requires n.ArrayNode?
    decreases n, 0
  {
    if forall i :: 0 <= i < |n.items| ==> Meaning(n.items[i], eval).Present? then
      Some(seq(|n.items|, i requires 0 <= i < |n.items| && Meaning(n.items[i], eval).Present? => Meaning(n.items[i], eval).v))
    else None
  }

  /** An object resolves if and only if no field is an error; an absent optional leaves its field out. */
  lemma ObjectResolves(fields: map<string, Node>, eval: Eval)
    ensures var r := Meaning(ObjectNode(fields), eval);
            && (r.Present? <==> forall k :: k in fields ==> !Meaning(fields[k], eval).Bad?)
            && (r.Present? <==> !r.Bad?)
            && (r.Present? ==>
                  && r.v.Object?
                  && (forall k :: k in r.v.members <==> k in fields && Meaning(fields[k], eval).Present?)
                  && forall k :: k in r.v.members ==> Meaning(fields[k], eval) == Present(r.v.members[k]))
  {
    assert FieldsMeaning(ObjectNode(fields), eval).Some? <==> forall k :: k in fields ==> !Meaning(fields[k], eval).Bad?;
  }

  /** An array resolves, element by element, if and only if every element does and is there. */
  lemma ArrayResolves(items: seq<Node>, eval: Eval)
    ensures var r := Meaning(ArrayNode(items), eval);
            && (r.Present? <==> forall i :: 0 <= i < |items| ==> Meaning(items[i], eval).Present?)
            && (r.Present? <==> !r.Bad?)
            && (r.Present? ==>
                  && r.v.Array? && |r.v.items| == |items|
                  && forall i :: 0 <= i < |items| ==> Meaning(items[i], eval) == Present(r.v.items[i]))
  {
    assert ItemsMeaning(ArrayNode(items), eval).Some? <==> forall i :: 0 <= i < |items| ==> Meaning(items[i], eval).Present?;
  }

  /* ----- What expressions produce stays within the budget ----- */

  /** The nodes of a value and the bytes of its texts, keys included. */
  ghost function Size(t: Tree): Cost
    decreases t, 1
  {
    match t
    case Text(s) => Cost(1, Utf8Length(s))
    case Array(items) => Cost(1, 0).Plus(TotalSeq(seq(|items|, i requires 0 <= i < |items| => Size(items[i]))))
    case Object(members) => Cost(1, 0).Plus(Total(MemberSizes(t), members.Keys))
    case _ => Cost(1, 0)
  }

  ghost function MemberSizes(t: Tree): map<string, Cost>
    requires t.Object?
    decreases t, 0
  {
    map x | x in t.members :: Cost(1, Utf8Length(x)).Plus(Size(t.members[x]))
  }

  lemma {:induction false} TotalRenamed(named: map<string, Cost>, names: set<string>, keyed: map<Key, Cost>)
    requires names <= named.Keys
    requires forall x :: x in names ==> TextKey(x) in keyed && keyed[TextKey(x)] == named[x]
    ensures Total(named, names) == Total(keyed, set x | x in names :: TextKey(x))
    decreases |names|
  {
    var keys := set x | x in names :: TextKey(x);
    if names != {} {
      var x := Pick(names);
      TotalRenamed(named, names - {x}, keyed);
      TotalAnyOrder(keyed, keys, TextKey(x));
      assert keys - {TextKey(x)} == set y | y in names - {x} :: TextKey(y);
    }
  }

  /** A converted value is no larger than what converting it spent. */
  lemma {:induction false} SizeWithinCost(c: Cel)
    requires ToTree(c).Present?
    ensures Size(ToTree(c).v).AtMost(CelCost(c))
    decreases c
  {
    match c
    case COptional(o) => SizeWithinCost(o.value);
    case CList(items) =>
      forall i | 0 <= i < |items| ensures Size(ToTree(items[i]).v).AtMost(CelCost(items[i])) {
        SizeWithinCost(items[i]);
      }
      var t := ToTree(c).v;
      TotalSeqPointwise(seq(|t.items|, i requires 0 <= i < |t.items| => Size(t.items[i])),
                        ItemCosts(c));
    case CMap(entries) =>
      var members := ToTree(c).v.members;
      forall x | x in members ensures TextKey(x) in entries && Size(members[x]).AtMost(CelCost(entries[TextKey(x)])) {
        MemberComesFromEntry(c, x);
        SizeWithinCost(entries[TextKey(x)]);
      }
      MapSizeWithinCost(members, c);
    case _ =>
  }

  /** Entries of which some are omitted, measured name by name, are within all entries measured key by key. */
  lemma OmittingFitsWithin(sizes: map<string, Cost>, costs: map<Key, Cost>)
    requires forall x :: x in sizes ==> TextKey(x) in costs && sizes[x].AtMost(costs[TextKey(x)])
    ensures Total(sizes, sizes.Keys).AtMost(Total(costs, costs.Keys))
  {
    var kept := set x | x in sizes.Keys :: TextKey(x);
    var keyed := map k | k in kept :: sizes[k.name];
    TotalRenamed(sizes, sizes.Keys, keyed);
    TotalPointwise(keyed, costs, kept);
    TotalMonotone(costs, kept, costs.Keys);
  }

  lemma MapSizeWithinCost(members: map<string, Tree>, c: Cel)
    requires c.CMap?
    requires forall x :: x in members ==> TextKey(x) in c.entries && Size(members[x]).AtMost(CelCost(c.entries[TextKey(x)]))
    ensures Size(Object(members)).AtMost(CelCost(c))
  {
    var sizes, costs := MemberSizes(Object(members)), EntryCosts(c);
    assert sizes.Keys == members.Keys && costs.Keys == c.entries.Keys;
    forall x | x in sizes ensures TextKey(x) in costs && sizes[x].AtMost(costs[TextKey(x)]) {
      assert Size(members[x]).AtMost(CelCost(c.entries[TextKey(x)]));
    }
    OmittingFitsWithin(sizes, costs);
  }

  lemma MemberComesFromEntry(c: Cel, x: string)
    requires c.CMap? && ToTree(c).Present? && x in ToTree(c).v.members
    ensures TextKey(x) in c.entries && ToTree(c.entries[TextKey(x)]) == Present(ToTree(c).v.members[x])
  {}

  /** No part of the result is an optional. */
  predicate NoOptionals(c: Cel) {
    match c
    case COptional(_) => false
    case CList(items) => forall i :: 0 <= i < |items| ==> NoOptionals(items[i])
    case CMap(entries) => forall k :: k in entries ==> NoOptionals(entries[k])
    case _ => true
  }

  /** Converting spends no more than the size of what it gives, when there is no optional to unwrap. */
  lemma {:induction false} CostWithinSize(c: Cel)
    requires ToTree(c).Present? && NoOptionals(c)
    ensures CelCost(c).AtMost(Size(ToTree(c).v))
    decreases c
  {
    match c
    case CList(items) =>
      ListConverts(items);
      forall i | 0 <= i < |items| ensures CelCost(items[i]).AtMost(Size(ToTree(items[i]).v)) {
        CostWithinSize(items[i]);
      }
      var t := ToTree(c).v;
      TotalSeqPointwise(ItemCosts(c), seq(|t.items|, i requires 0 <= i < |t.items| => Size(t.items[i])));
    case CMap(entries) =>
      MapConverts(entries);
      var members := ToTree(c).v.members;
      forall k | k in entries ensures k.TextKey? && k.name in members && CostFits(entries[k], members[k.name]) {
        NeverAbsent(entries[k]);
        assert TextKey(k.name) == k;
        CostWithinSize(entries[k]);
      }
      MapCostWithinSize(members, c);
    case _ =>
  }

  lemma NeverAbsent(c: Cel)
    requires NoOptionals(c)
    ensures !ToTree(c).Absent?
  {}

  ghost predicate CostFits(c: Cel, t: Tree) {
    CelCost(c).AtMost(Size(t))
  }

  /** Costs key by key, each within the size of its name, are together within the sizes name by name. */
  lemma NamesCoverKeys(sizes: map<string, Cost>, costs: map<Key, Cost>)
    requires forall k :: k in costs ==> k.TextKey? && k.name in sizes && costs[k].AtMost(sizes[k.name])
    requires forall x :: x in sizes ==> TextKey(x) in costs
    ensures Total(costs, costs.Keys).AtMost(Total(sizes, sizes.Keys))
  {
    var keyed := map k | k in costs :: sizes[k.name];
    TotalPointwise(costs, keyed, costs.Keys);
    TotalRenamed(sizes, sizes.Keys, keyed);
    RenamedKeys(sizes.Keys, costs.Keys);
  }

  lemma RenamedKeys(names: set<string>, keys: set<Key>)
    requires forall k :: k in keys ==> k.TextKey? && k.name in names
    requires forall x :: x in names ==> TextKey(x) in keys
    ensures (set x | x in names :: TextKey(x)) == keys
  {
    forall k | k in keys ensures k in set x | x in names :: TextKey(x) {
      assert TextKey(k.name) == k;
    }
  }

  lemma EntriesWithinMembers(members: map<string, Tree>, c: Cel, sizes: map<string, Cost>, costs: map<Key, Cost>)
    requires c.CMap? && sizes == MemberSizes(Object(members)) && costs == EntryCosts(c)
    requires forall k :: k in c.entries ==> k.TextKey? && k.name in members && CostFits(c.entries[k], members[k.name])
    ensures sizes.Keys == members.Keys && costs.Keys == c.entries.Keys
    ensures forall k :: k in costs ==> k.TextKey? && k.name in sizes && costs[k].AtMost(sizes[k.name])
  {
    forall k | k in c.entries ensures k.TextKey? && k.name in sizes && k in costs && costs[k].AtMost(sizes[k.name]) {
      EntryWithinMember(members, c, k, sizes, costs);
    }
  }

  lemma MapCostWithinSize(members: map<string, Tree>, c: Cel)
    requires c.CMap?
    requires forall k :: k in c.entries ==> k.TextKey? && k.name in members && CostFits(c.entries[k], members[k.name])
    requires forall x :: x in members ==> TextKey(x) in c.entries
    ensures CelCost(c).AtMost(Size(Object(members)))
  {
    TotalsFit(members, c, MemberSizes(Object(members)), EntryCosts(c));
    FitsWhenTotalsDo(members, c);
  }

  lemma FitsWhenTotalsDo(members: map<string, Tree>, c: Cel)
    requires c.CMap? && c.entries.Keys <= EntryCosts(c).Keys && members.Keys <= MemberSizes(Object(members)).Keys
    requires Total(EntryCosts(c), c.entries.Keys).AtMost(Total(MemberSizes(Object(members)), members.Keys))
    ensures CelCost(c).AtMost(Size(Object(members)))
  {
    assert CelCost(c) == Cost(1, 0).Plus(Total(EntryCosts(c), c.entries.Keys));
    assert Size(Object(members)) == Cost(1, 0).Plus(Total(MemberSizes(Object(members)), members.Keys));
  }

  lemma TotalsFit(members: map<string, Tree>, c: Cel, sizes: map<string, Cost>, costs: map<Key, Cost>)
    requires c.CMap? && sizes == MemberSizes(Object(members)) && costs == EntryCosts(c)
    requires forall k :: k in c.entries ==> k.TextKey? && k.name in members && CostFits(c.entries[k], members[k.name])
    requires forall x :: x in members ==> TextKey(x) in c.entries
    ensures sizes.Keys == members.Keys && costs.Keys == c.entries.Keys
    ensures Total(costs, c.entries.Keys).AtMost(Total(sizes, members.Keys))
  {
    EntriesWithinMembers(members, c, sizes, costs);
    NamesCoverKeys(sizes, costs);
  }

  lemma EntryWithinMember(members: map<string, Tree>, c: Cel, k: Key, sizes: map<string, Cost>, costs: map<Key, Cost>)
    requires c.CMap? && k in c.entries && k.TextKey? && k.name in members
    requires sizes == MemberSizes(Object(members)) && costs == EntryCosts(c)
    requires CostFits(c.entries[k], members[k.name])
    ensures k.name in sizes && k in costs && costs[k].AtMost(sizes[k.name])
  {
    assert sizes[k.name] == Cost(1, Utf8Length(k.name)).Plus(Size(members[k.name]));
    assert costs[k] == KeyCost(k).Plus(CelCost(c.entries[k]));
  }

  /** Without optionals the budget counts exactly the nodes and the text bytes of the value. */
  lemma CostIsSize(c: Cel)
    requires ToTree(c).Present? && NoOptionals(c)
    ensures CelCost(c) == Size(ToTree(c).v)
  {
    SizeWithinCost(c);
    CostWithinSize(c);
  }

  /** The size of the value an expression produces. */
  ghost function Produced(eval: Eval, source: string): Cost {
    if eval(source).Some? && ToTree(eval(source).value).Present? then Size(ToTree(eval(source).value).v) else ZERO
  }

  lemma {:induction false} SumPointwise(n: Node, f: string -> Cost, g: string -> Cost)
    requires forall source :: f(source).AtMost(g(source))
    ensures Sum(n, f).AtMost(Sum(n, g))
    decreases n
  {
    match n
    case ObjectNode(fields) =>
      forall k | k in fields ensures Sum(fields[k], f).AtMost(Sum(fields[k], g)) {
        SumPointwise(fields[k], f, g);
      }
      TotalPointwise(FieldSums(n, f), FieldSums(n, g), fields.Keys);
    case ArrayNode(items) =>
      forall i | 0 <= i < |items| ensures Sum(items[i], f).AtMost(Sum(items[i], g)) {
        SumPointwise(items[i], f, g);
      }
      TotalSeqPointwise(ItemSums(n, f), ItemSums(n, g));
    case _ =>
  }

  /** All the values the expressions of a template produce, together, fit in what resolving it spent. */
  lemma ProducedWithinCost(n: Node, eval: Eval)
    ensures Sum(n, Producing(eval)).AtMost(NodeCost(n, eval))
  {
    forall source ensures Produced(eval, source).AtMost(ExpressionCost(eval, source)) {
      if eval(source).Some? && ToTree(eval(source).value).Present? {
        SizeWithinCost(eval(source).value);
      }
    }
    SumPointwise(n, Producing(eval), Spending(eval));
  }

  /** And exactly so much, when every expression gives a value without optionals. */
  lemma ProducedIsCost(n: Node, eval: Eval)
    requires forall source :: eval(source).Some? ==> ToTree(eval(source).value).Present? && NoOptionals(eval(source).value)
    ensures Sum(n, Producing(eval)) == NodeCost(n, eval)
  {
    ProducedWithinCost(n, eval);
    forall source ensures ExpressionCost(eval, source).AtMost(Produced(eval, source)) {
      if eval(source).Some? {
        CostIsSize(eval(source).value);
      }
    }
    SumPointwise(n, Spending(eval), Producing(eval));
  }

  /* ----- Compiling ----- */

  /** A text with one dollar is an expression, with two a literal that starts with one. */
  function Compile(t: Tree, compiles: string -> bool): Option<Node>
    decreases t
  {
    match t
    case Text(s) =>
      if "$$" <= s then Some(Literal(Text(s[1..])))
      else if "$" <= s then if compiles(s[1..]) then Some(Expression(s[1..])) else None
      else Some(Literal(t))
    case Object(members) =>
      if forall k :: k in members ==> Compile(members[k], compiles).Some? then
        Some(ObjectNode(map k | k in members && Compile(members[k], compiles).Some? :: Compile(members[k], compiles).value))
      else None
    case Array(items) =>
      if forall i :: 0 <= i < |items| ==> Compile(items[i], compiles).Some? then
        Some(ArrayNode(seq(|items|, i requires 0 <= i < |items| && Compile(items[i], compiles).Some? => Compile(items[i], compiles).value)))
      else None
    case _ => Some(Literal(t))
  }

  /** A text after one dollar is an expression; it means what evaluating it gives. */
  lemma ExpressionResolves(source: string, compiles: string -> bool, eval: Eval)
    requires !("$" <= source)
    ensures Compile(Text("$" + source), compiles).Some? <==> compiles(source)
    ensures compiles(source) ==>
              Meaning(Compile(Text("$" + source), compiles).value, eval) == if eval(source).Some? then ToTree(eval(source).value) else Bad
  {
    var text := "$" + source;
    assert text[1..] == source;
    assert source != "" ==> text[1] == source[0];
  }

  /** Doubles a leading dollar in every text of a value; keys are never read as expressions. */
  function Escape(t: Tree): Tree
    decreases t
  {
    match t
    case Text(s) => if "$" <= s then Text("$" + s) else t
    case Object(members) => Object(map k | k in members :: Escape(members[k]))
    case Array(items) => Array(seq(|items|, i requires 0 <= i < |items| => Escape(items[i])))
    case _ => t
  }

  predicate Free(c: Cost) {
    c == ZERO
  }

  lemma {:induction false} TotalOfZeros<K>(costs: map<K, Cost>, keys: set<K>)
    requires keys <= costs.Keys && forall k :: k in keys ==> Free(costs[k])
    ensures Free(Total(costs, keys))
    decreases |keys|
  {
    if keys != {} {
      TotalOfZeros(costs, keys - {Pick(keys)});
    }
  }

  lemma {:induction false} TotalSeqOfZeros(costs: seq<Cost>)
    requires forall i :: 0 <= i < |costs| ==> Free(costs[i])
    ensures Free(TotalSeq(costs))
  {
    if costs != [] {
      TotalSeqOfZeros(costs[..|costs| - 1]);
      assert Free(costs[|costs| - 1]);
    }
  }

  /** A template that resolves to a value at no cost. */
  ghost predicate ResolvesFreely(n: Node, t: Tree, eval: Eval) {
    Meaning(n, eval) == Present(t) && Free(NodeCost(n, eval))
  }

  /** Escaped, the value compiles and resolves back to itself at no cost. */
  ghost predicate EscapesFreely(t: Tree, compiles: string -> bool, eval: Eval) {
    Compile(Escape(t), compiles).Some? && ResolvesFreely(Compile(Escape(t), compiles).value, t, eval)
  }

  lemma EscapedObject(members: map<string, Tree>, compiles: string -> bool, eval: Eval)
    requires forall k :: k in members ==> EscapesFreely(members[k], compiles, eval)
    ensures EscapesFreely(Object(members), compiles, eval)
  {
    forall k | k in members ensures Compile(Escape(members[k]), compiles).Some? {
      assert EscapesFreely(members[k], compiles, eval);
    }
    CompiledObject(members, compiles);
    var fields := EscapedFields(members, compiles);
    forall k | k in members ensures ResolvesFreely(fields[k], members[k], eval) {
      assert EscapesFreely(members[k], compiles, eval);
    }
    ObjectResolvesFreely(fields, members, eval);
  }

  lemma ObjectResolvesFreely(fields: map<string, Node>, members: map<string, Tree>, eval: Eval)
    requires fields.Keys == members.Keys
    requires forall k :: k in members ==> ResolvesFreely(fields[k], members[k], eval)
    ensures ResolvesFreely(ObjectNode(fields), Object(members), eval)
  {
    forall k | k in members ensures Meaning(fields[k], eval) == Present(members[k]) && Free(NodeCost(fields[k], eval)) {
      assert ResolvesFreely(fields[k], members[k], eval);
    }
    FieldsMeanMembers(fields, members, eval);
    ObjectCostsNothing(fields, eval);
  }

  lemma ObjectCostsNothing(fields: map<string, Node>, eval: Eval)
    requires forall k :: k in fields ==> Free(NodeCost(fields[k], eval))
    ensures Free(NodeCost(ObjectNode(fields), eval))
  {
    var f := Spending(eval);
    forall k | k in fields ensures Free(Sum(fields[k], f)) {
      assert Free(NodeCost(fields[k], eval));
    }
    TotalOfZeros(FieldSums(ObjectNode(fields), f), fields.Keys);
  }

  function EscapedFields(members: map<string, Tree>, compiles: string -> bool): map<string, Node>
    requires forall k :: k in members ==> Compile(Escape(members[k]), compiles).Some?
  {
    map k | k in members :: Compile(Escape(members[k]), compiles).value
  }

  lemma CompiledObject(members: map<string, Tree>, compiles: string -> bool)
    requires forall k :: k in members ==> Compile(Escape(members[k]), compiles).Some?
    ensures Compile(Escape(Object(members)), compiles)
            == Some(ObjectNode(EscapedFields(members, compiles)))
  {
    var escaped := map k | k in members :: Escape(members[k]);
    assert Escape(Object(members)) == Object(escaped);
    forall k | k in escaped ensures Compile(escaped[k], compiles).Some? {
      assert escaped[k] == Escape(members[k]);
    }
    assert Compile(Object(escaped), compiles).Some?;
    assert Compile(Object(escaped), compiles).value.fields == EscapedFields(members, compiles);
  }

  lemma FieldsMeanMembers(fields: map<string, Node>, members: map<string, Tree>, eval: Eval)
    requires fields.Keys == members.Keys
    requires forall k :: k in members ==> Meaning(fields[k], eval) == Present(members[k])
    ensures Meaning(ObjectNode(fields), eval) == Present(Object(members))
  {
    assert Meaning(ObjectNode(fields), eval).Present?;
    assert Meaning(ObjectNode(fields), eval).v.members == members;
  }

  lemma EscapedArray(items: seq<Tree>, compiles: string -> bool, eval: Eval)
    requires forall i :: 0 <= i < |items| ==> EscapesFreely(items[i], compiles, eval)
    ensures EscapesFreely(Array(items), compiles, eval)
  {
    forall i | 0 <= i < |items| ensures Compile(Escape(items[i]), compiles).Some? {
      assert EscapesFreely(items[i], compiles, eval);
    }
    var nodes := seq(|items|, i requires 0 <= i < |items| => Compile(Escape(items[i]), compiles).value);
    CompiledArray(items, compiles);
    forall i | 0 <= i < |items| ensures ResolvesFreely(nodes[i], items[i], eval) {
      assert EscapesFreely(items[i], compiles, eval);
    }
    ArrayResolvesFreely(nodes, items, eval);
  }

  lemma CompiledArray(items: seq<Tree>, compiles: string -> bool)
    requires forall i :: 0 <= i < |items| ==> Compile(Escape(items[i]), compiles).Some?
    ensures Compile(Escape(Array(items)), compiles)
            == Some(ArrayNode(seq(|items|, i requires 0 <= i < |items| => Compile(Escape(items[i]), compiles).value)))
  {
    var escaped := seq(|items|, i requires 0 <= i < |items| => Escape(items[i]));
    assert Escape(Array(items)) == Array(escaped);
    assert Compile(Array(escaped), compiles).Some?;
    assert Compile(Array(escaped), compiles).value.items
        == seq(|items|, i requires 0 <= i < |items| => Compile(Escape(items[i]), compiles).value);
  }

  lemma ArrayResolvesFreely(nodes: seq<Node>, items: seq<Tree>, eval: Eval)
    requires |nodes| == |items|
    requires forall i :: 0 <= i < |items| ==> ResolvesFreely(nodes[i], items[i], eval)
    ensures ResolvesFreely(ArrayNode(nodes), Array(items), eval)
  {
    assert Meaning(ArrayNode(nodes), eval).Present? by {
      assert forall i :: 0 <= i < |items| ==> ResolvesFreely(nodes[i], items[i], eval);
    }
    forall i | 0 <= i < |items| ensures Meaning(nodes[i], eval) == Present(items[i]) {
      assert ResolvesFreely(nodes[i], items[i], eval);
    }
    assert Meaning(ArrayNode(nodes), eval).v.items == items;
    var f := Spending(eval);
    var costs := ItemSums(ArrayNode(nodes), f);
    forall i | 0 <= i < |costs| ensures Free(costs[i]) {
      assert ResolvesFreely(nodes[i], items[i], eval);
    }
    TotalSeqOfZeros(costs);
  }

  /** An escaped value compiles whatever compiles, resolves back to itself and spends nothing. */
  lemma {:induction false} EscapedRoundTrip(t: Tree, compiles: string -> bool, eval: Eval)
    ensures EscapesFreely(t, compiles, eval)
    decreases t
  {
    match t
    case Text(s) =>
      if "$" <= s {
        assert ("$" + s)[1..] == s;
        assert "$$" <= "$" + s;
      }
    case Object(members) =>
      forall k | k in members ensures EscapesFreely(members[k], compiles, eval) {
        EscapedRoundTrip(members[k], compiles, eval);
      }
      EscapedObject(members, compiles, eval);
    case Array(items) =>
      forall i | 0 <= i < |items| ensures EscapesFreely(items[i], compiles, eval) {
        EscapedRoundTrip(items[i], compiles, eval);
      }
      EscapedArray(items, compiles, eval);
    case _ =>
  }
}
