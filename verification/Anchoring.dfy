/**
 The requests a declared mapping means (pkg/authzen/declared.go): which mappings parse, and how
 the resolved members are pinned to what verification established.
 */
module Anchoring {
  import opened Wrappers
  import opened Templates

  const SUBJECT_TYPE := "identity"
  const AGENT_KEY := "agent"
  const DELEGATION_KEY := "mandatum.delegation"
  const REQUEST_MEMBERS := {"subject", "action", "resource", "context"}
  const ENTRY_MEMBERS := {"action", "resource", "context"}

  /** What verification established, as far as a request carries it. */
  datatype Identity = Identity(sponsor: string, issuer: string, agent: string, chain: string)

  type Members = map<string, Tree>

  /** Unicode case folding equality, as a case-insensitive JSON decoder applies it to keys. */
  type Fold = (string, string) -> bool

  datatype Subject = Subject(typ: string, id: string, properties: Members)
  datatype Target = Target(typ: string, id: string, properties: Option<Members>)
  datatype RequestTree = RequestTree(
    subject: Subject, actionName: string, actionProperties: Option<Members>, resource: Target, context: Members)

  /* ----- Anchoring one request ----- */

  /** An absent member is no object; a member that is not an object is an error. */
  function OptionalObject(fields: Members, key: string): Option<Option<Members>> {
    if key !in fields then Some(None)
    else if fields[key].Object? then Some(Some(fields[key].members))
    else None
  }

  function OrEmpty(m: Option<Members>): Members {
    if m.Some? then m.value else map[]
  }

  function NonEmptyText(fields: Members, key: string): Option<string> {
    if key in fields && fields[key].Text? && fields[key].s != "" then Some(fields[key].s) else None
  }

  predicate HasTwin(keys: set<string>, anchored: string, fold: Fold) {
    exists k :: k in keys && k != anchored && fold(k, anchored)
  }

  function AnchoredProperties(subject: Members, id: Identity, fold: Fold): Option<Members> {
    var props := OptionalObject(subject, "properties");
    if props.None? then None
    else
      var properties := OrEmpty(props.value);
      if HasTwin(properties.Keys, "iss", fold) then None
      else if "iss" in properties && properties["iss"] != Text(id.issuer) then None
      else Some(properties["iss" := Text(id.issuer)])
  }

  function AnchoredSubject(fields: Members, id: Identity, fold: Fold): Option<Subject> {
    var found := OptionalObject(fields, "subject");
    if found.None? then None
    else
      var subject := OrEmpty(found.value);
      if !(subject.Keys <= {"type", "id", "properties"}) then None
      else if "type" in subject && NonEmptyText(subject, "type").None? then None
      else if "id" in subject && NonEmptyText(subject, "id") != Some(id.sponsor) then None
      else
        var properties := AnchoredProperties(subject, id, fold);
        if properties.None? then None
        else Some(Subject(if "type" in subject then subject["type"].s else SUBJECT_TYPE, id.sponsor, properties.value))
  }

  function AnchoredAction(fields: Members): Option<(string, Option<Members>)> {
    var found := OptionalObject(fields, "action");
    if found.None? || found.value.None? then None
    else
      var action := found.value.value;
      if !(action.Keys <= {"name", "properties"}) then None
      else
        var name := NonEmptyText(action, "name");
        var props := OptionalObject(action, "properties");
        if name.None? || props.None? then None else Some((name.value, props.value))
  }

  function AnchoredResource(fields: Members): Option<Target> {
    var found := OptionalObject(fields, "resource");
    if found.None? || found.value.None? then None
    else
      var resource := found.value.value;
      if !(resource.Keys <= {"type", "id", "properties"}) then None
      else
        var typ, id := NonEmptyText(resource, "type"), NonEmptyText(resource, "id");
        var props := OptionalObject(resource, "properties");
        if typ.None? || id.None? || props.None? then None else Some(Target(typ.value, id.value, props.value))
  }

  function AnchoredContext(fields: Members, id: Identity, fold: Fold): Option<Members> {
    var found := OptionalObject(fields, "context");
    if found.None? then None
    else
      var context := OrEmpty(found.value);
      if HasTwin(context.Keys, AGENT_KEY, fold) || HasTwin(context.Keys, DELEGATION_KEY, fold) then None
      else if AGENT_KEY in context && context[AGENT_KEY] != Text(id.agent) then None
      else if DELEGATION_KEY in context then None
      else Some(context[AGENT_KEY := Text(id.agent)][DELEGATION_KEY := Delegation(id.chain)])
  }

  /** The request the members make, or None where the mapping contradicts verification or is malformed. */
  function Anchored(fields: Members, id: Identity, fold: Fold): Option<RequestTree> {
    var subject, action := AnchoredSubject(fields, id, fold), AnchoredAction(fields);
    var resource, context := AnchoredResource(fields), AnchoredContext(fields, id, fold);
    if subject.None? || action.None? || resource.None? || context.None? then None
    else Some(RequestTree(subject.value, action.value.0, action.value.1, resource.value, context.value))
  }

  /**
   A request names the chain's sponsor, issuer, agent and delegation and nothing a
   case-insensitive reader would take for one of them.
   */
  ghost predicate SpeaksForChain(r: RequestTree, id: Identity, fold: Fold) {
    && r.subject.id == id.sponsor
    && "iss" in r.subject.properties && r.subject.properties["iss"] == Text(id.issuer)
    && AGENT_KEY in r.context && r.context[AGENT_KEY] == Text(id.agent)
    && DELEGATION_KEY in r.context && r.context[DELEGATION_KEY] == Delegation(id.chain)
    && !HasTwin(r.subject.properties.Keys, "iss", fold)
    && (forall k :: k in r.context && k != DELEGATION_KEY && k != AGENT_KEY ==> !fold(k, AGENT_KEY) && !fold(k, DELEGATION_KEY))
  }

  lemma AnchoredSpeaksForChain(fields: Members, id: Identity, fold: Fold)
    requires Anchored(fields, id, fold).Some?
    ensures SpeaksForChain(Anchored(fields, id, fold).value, id, fold)
  {}

  /** A member that may be left out but must be an object if it is there, and what it holds. */
  function Part(fields: Members, key: string): Members {
    if key in fields && fields[key].Object? then fields[key].members else map[]
  }

  ghost predicate ObjectIfThere(fields: Members, key: string) {
    key in fields ==> fields[key].Object?
  }

  ghost predicate TextIfThere(fields: Members, key: string, wanted: string) {
    key in fields ==> fields[key] == Text(wanted)
  }

  /**
   A subject is made if and only if nothing in it is foreign, empty or contrary to the chain;
   it is the chain's sponsor, of the type given or an identity, with the properties given and
   the sponsor's issuer among them.
   */
  lemma SubjectIff(fields: Members, id: Identity, fold: Fold)
    ensures var given := Part(fields, "subject");
            var properties := Part(given, "properties");
            var made := AnchoredSubject(fields, id, fold);
            && (made.Some? <==>
                  && ObjectIfThere(fields, "subject") && given.Keys <= {"type", "id", "properties"}
                  && ("type" in given ==> given["type"].Text? && given["type"].s != "")
                  && ("id" in given ==> given["id"] == Text(id.sponsor) && id.sponsor != "")
                  && ObjectIfThere(given, "properties")
                  && (forall k :: k in properties && k != "iss" ==> !fold(k, "iss"))
                  && TextIfThere(properties, "iss", id.issuer))
            && (made.Some? ==>
                  made.value == Subject(if "type" in given then given["type"].s else "identity", id.sponsor,
                                        properties["iss" := Text(id.issuer)]))
  {}

  /** An action is made if and only if it is there, is named and holds nothing foreign. */
  lemma ActionIff(fields: Members)
    ensures var given := Part(fields, "action");
            var made := AnchoredAction(fields);
            && (made.Some? <==>
                  && "action" in fields && fields["action"].Object? && given.Keys <= {"name", "properties"}
                  && "name" in given && given["name"].Text? && given["name"].s != ""
                  && ObjectIfThere(given, "properties"))
            && (made.Some? ==>
                  made.value == (given["name"].s, if "properties" in given then Some(Part(given, "properties")) else None))
  {}

  /** A resource is made if and only if it is there, has a type and an id and holds nothing foreign. */
  lemma ResourceIff(fields: Members)
    ensures var given := Part(fields, "resource");
            var made := AnchoredResource(fields);
            && (made.Some? <==>
                  && "resource" in fields && fields["resource"].Object? && given.Keys <= {"type", "id", "properties"}
                  && "type" in given && given["type"].Text? && given["type"].s != ""
                  && "id" in given && given["id"].Text? && given["id"].s != ""
                  && ObjectIfThere(given, "properties"))
            && (made.Some? ==>
                  made.value == Target(given["type"].s, given["id"].s,
                                       if "properties" in given then Some(Part(given, "properties")) else None))
  {}

  /**
   A context is made if and only if it leaves the delegation to the enforcement point, names no
   other agent and no twin of either key; it keeps what was given and adds the two.
   */
  lemma ContextIff(fields: Members, id: Identity, fold: Fold)
    ensures var given := Part(fields, "context");
            var made := AnchoredContext(fields, id, fold);
            && (made.Some? <==>
                  && ObjectIfThere(fields, "context")
                  && (forall k :: k in given && k != "agent" ==> !fold(k, "agent"))
                  && (forall k :: k in given && k != "mandatum.delegation" ==> !fold(k, "mandatum.delegation"))
                  && TextIfThere(given, "agent", id.agent)
                  && "mandatum.delegation" !in given)
            && (made.Some? ==>
                  made.value == given["agent" := Text(id.agent)]["mandatum.delegation" := Delegation(id.chain)])
  {}

  /** A request is made if and only if all its parts are, and it is made of them. */
  lemma AnchoredIff(fields: Members, id: Identity, fold: Fold)
    ensures var subject, context := AnchoredSubject(fields, id, fold), AnchoredContext(fields, id, fold);
            var action, resource := AnchoredAction(fields), AnchoredResource(fields);
            var made := Anchored(fields, id, fold);
            && (made.Some? <==> subject.Some? && action.Some? && resource.Some? && context.Some?)
            && (made.Some? ==>
                  && made.value.subject == subject.value && made.value.context == context.value
                  && made.value.resource == resource.value
                  && (made.value.actionName, made.value.actionProperties) == action.value)
  {}

  /** Applies make to every item, and fails when it fails on one. */
  function Traverse<T, U>(items: seq<T>, make: T -> Option<U>): Option<seq<U>> {
    if items == [] then Some([])
    else
      var before := Traverse(items[..|items| - 1], make);
      var last := make(items[|items| - 1]);
      if before.None? || last.None? then None else Some(before.value + [last.value])
  }

  lemma {:induction false} TraverseMeaning<T, U>(items: seq<T>, make: T -> Option<U>)
    ensures var r := Traverse(items, make);
            && (r.Some? <==> forall i :: 0 <= i < |items| ==> make(items[i]).Some?)
            && (r.Some? ==> |r.value| == |items| && forall i :: 0 <= i < |items| ==> make(items[i]) == Some(r.value[i]))
  {
    if items != [] {
      TraverseMeaning(items[..|items| - 1], make);
    }
  }

  lemma TraverseNext<T, U>(items: seq<T>, n: nat, make: T -> Option<U>)
    requires n < |items|
    ensures Traverse(items[..n + 1], make)
            == if Traverse(items[..n], make).None? || make(items[n]).None? then None
               else Some(Traverse(items[..n], make).value + [make(items[n]).value])
    ensures Traverse(items[..n + 1], make).None? ==> Traverse(items, make).None?
  {
    assert items[..n + 1][..n] == items[..n];
    TraverseMeaning(items[..n + 1], make);
    TraverseMeaning(items, make);
  }

  /* ----- Mappings ----- */

  /** `entries` is None under the `evaluation` envelope. */
  datatype Mapping = Mapping(top: map<string, Node>, entries: Option<seq<map<string, Node>>>)

  function CompileTemplate(t: Tree, allowed: set<string>, compiles: string -> bool): Option<map<string, Node>> {
    if !t.Object? || !(t.members.Keys <= allowed) then None
    else
      var n := Compile(t, compiles);
      if n.None? then None else Some(n.value.fields)
  }

  function EntryCompiler(compiles: string -> bool): Tree -> Option<map<string, Node>> {
    (t: Tree) => CompileTemplate(t, ENTRY_MEMBERS, compiles)
  }

  /** A mapping is an object with one member, `evaluation` or `evaluations`. */
  function Parse(t: Tree, compiles: string -> bool): Option<Mapping> {
    if !t.Object? || |t.members| != 1 then None
    else if "evaluation" in t.members then
      var top := CompileTemplate(t.members["evaluation"], REQUEST_MEMBERS, compiles);
      if top.None? then None else Some(Mapping(top.value, None))
    else if "evaluations" !in t.members || !t.members["evaluations"].Object? then None
    else
      var fields := t.members["evaluations"].members;
      if "options" in fields then None
      else if "evaluations" !in fields || !fields["evaluations"].Array? || fields["evaluations"].items == [] then None
      else
        var top := CompileTemplate(Object(fields - {"evaluations"}), REQUEST_MEMBERS, compiles);
        var entries := Traverse(fields["evaluations"].items, EntryCompiler(compiles));
        if top.None? || entries.None? then None else Some(Mapping(top.value, entries))
  }

  /** A template of allowed members, every expression of which compiles. */
  ghost predicate IsTemplate(t: Tree, allowed: set<string>, compiles: string -> bool) {
    t.Object? && t.members.Keys <= allowed && Compile(t, compiles).Some?
  }

  /**
   A document is a mapping if and only if it is one request, or defaults and at least one
   entry, with no member outside the allowed ones, no options and no subject in an entry.
   */
  lemma ParseIff(t: Tree, compiles: string -> bool)
    ensures Parse(t, compiles).Some? <==> IsRequest(t, compiles) || IsBatch(t, compiles)
  {
    if t.Object? {
      OneMember(t.members, "evaluation");
      OneMember(t.members, "evaluations");
      if "evaluations" in t.members && t.members["evaluations"].Object? {
        var batch := t.members["evaluations"].members;
        if "evaluations" in batch && batch["evaluations"].Array? {
          TraverseMeaning(batch["evaluations"].items, EntryCompiler(compiles));
        }
      }
    }
  }

  ghost predicate IsRequest(t: Tree, compiles: string -> bool) {
    && t.Object? && t.members.Keys == {"evaluation"}
    && IsTemplate(t.members["evaluation"], {"subject", "action", "resource", "context"}, compiles)
  }

  ghost predicate IsBatch(t: Tree, compiles: string -> bool) {
    && t.Object? && t.members.Keys == {"evaluations"} && t.members["evaluations"].Object?
    && var batch := t.members["evaluations"].members;
       && "options" !in batch && "evaluations" in batch
       && batch["evaluations"].Array? && batch["evaluations"].items != []
       && IsTemplate(Object(batch - {"evaluations"}), {"subject", "action", "resource", "context"}, compiles)
       && forall i :: 0 <= i < |batch["evaluations"].items| ==>
            IsTemplate(batch["evaluations"].items[i], {"action", "resource", "context"}, compiles)
  }

  lemma OneMember(m: Members, key: string)
    ensures |m| == 1 && key in m <==> m.Keys == {key}
  {
    if |m| == 1 && key in m {
      assert |m.Keys - {key}| == 0;
    }
    if m.Keys == {key} {
      assert |m| == |m.Keys|;
    }
  }

  method ParseMapping(t: Tree, compiles: string -> bool) returns (r: Option<Mapping>)
    ensures r == Parse(t, compiles)
  {
    if !t.Object? || |t.members| != 1 {
      return None;
    }
    if "evaluation" in t.members {
      var top := CompileTemplate(t.members["evaluation"], REQUEST_MEMBERS, compiles);
      return if top.None? then None else Some(Mapping(top.value, None));
    }
    if "evaluations" !in t.members || !t.members["evaluations"].Object? {
      return None;
    }
    var fields := t.members["evaluations"].members;
    if "options" in fields {
      return None;
    }
    if "evaluations" !in fields || !fields["evaluations"].Array? || |fields["evaluations"].items| == 0 {
      return None;
    }
    var items := fields["evaluations"].items;
    var top := CompileTemplate(Object(fields - {"evaluations"}), REQUEST_MEMBERS, compiles);
    if top.None? {
      return None;
    }
    var entries: seq<map<string, Node>> := [];
    for i := 0 to |items|
      invariant Traverse(items[..i], EntryCompiler(compiles)) == Some(entries)
    {
      var item := items[i];
      TraverseNext(items, i, EntryCompiler(compiles));
      if item.Object? && "subject" in item.members {
        return None;
      }
      var entry := CompileTemplate(item, ENTRY_MEMBERS, compiles);
      if entry.None? {
        return None;
      }
      entries := entries + [entry.value];
    }
    assert items[..|items|] == items;
    return Some(Mapping(top.value, Some(entries)));
  }

  /* ----- The requests of a mapping ----- */

  function Resolve(fields: map<string, Node>, eval: Eval): Option<Members> {
    FieldsMeaning(ObjectNode(fields), eval)
  }

  /** An entry's request: a member the entry sets replaces the default whole. */
  function EntryRequest(top: Members, entry: map<string, Node>, eval: Eval, id: Identity, fold: Fold): Option<RequestTree> {
    var fields := Resolve(entry, eval);
    if fields.None? then None else Anchored(top + fields.value, id, fold)
  }

  function EntryMaker(top: Members, eval: Eval, id: Identity, fold: Fold): map<string, Node> -> Option<RequestTree> {
    (entry: map<string, Node>) => EntryRequest(top, entry, eval, id, fold)
  }

  function Requests(m: Mapping, eval: Eval, id: Identity, fold: Fold): Option<seq<RequestTree>> {
    var top := Resolve(m.top, eval);
    if top.None? then None
    else if m.entries.Some? then Traverse(m.entries.value, EntryMaker(top.value, eval, id, fold))
    else
      var r := Anchored(top.value, id, fold);
      if r.None? then None else Some([r.value])
  }

  ghost function RequestCosts(entries: seq<map<string, Node>>, eval: Eval): seq<Cost> {
    seq(|entries|, i requires 0 <= i < |entries| => NodeCost(ObjectNode(entries[i]), eval))
  }

  /** What all the expressions of a mapping spend for one call. */
  ghost function MappingCost(m: Mapping, eval: Eval): Cost {
    NodeCost(ObjectNode(m.top), eval).Plus(if m.entries.Some? then TotalSeq(RequestCosts(m.entries.value, eval)) else ZERO)
  }

  ghost function RequestSizes(entries: seq<map<string, Node>>, eval: Eval): seq<Cost> {
    seq(|entries|, i requires 0 <= i < |entries| => Sum(ObjectNode(entries[i]), Producing(eval)))
  }

  /** The nodes and text bytes of all the values the expressions of a mapping produce for one call. */
  ghost function MappingOutput(m: Mapping, eval: Eval): Cost {
    Sum(ObjectNode(m.top), Producing(eval)).Plus(if m.entries.Some? then TotalSeq(RequestSizes(m.entries.value, eval)) else ZERO)
  }

  /** Within the limits on spending, what the expressions produce is within the same limits. */
  lemma OutputWithinCost(m: Mapping, eval: Eval)
    ensures MappingOutput(m, eval).AtMost(MappingCost(m, eval))
  {
    ProducedWithinCost(ObjectNode(m.top), eval);
    if m.entries.Some? {
      var entries := m.entries.value;
      forall i | 0 <= i < |entries| ensures RequestSizes(entries, eval)[i].AtMost(RequestCosts(entries, eval)[i]) {
        ProducedWithinCost(ObjectNode(entries[i]), eval);
      }
      TotalSeqPointwise(RequestSizes(entries, eval), RequestCosts(entries, eval));
    }
  }

  /** Request i is its own entry anchored over the defaults, whatever the other entries are. */
  lemma EntryRequestAlone(m: Mapping, eval: Eval, id: Identity, fold: Fold)
    requires m.entries.Some? && Requests(m, eval, id, fold).Some?
    ensures var rs := Requests(m, eval, id, fold).value;
            && Resolve(m.top, eval).Some?
            && |rs| == |m.entries.value|
            && forall i :: 0 <= i < |rs| ==> EntryRequest(Resolve(m.top, eval).value, m.entries.value[i], eval, id, fold) == Some(rs[i])
  {
    TraverseMeaning(m.entries.value, EntryMaker(Resolve(m.top, eval).value, eval, id, fold));
  }

  /**
   What an entry sets replaces the default whole, and what it leaves out is the default: each
   part of request i is that of its entry if the entry has it, and otherwise of the defaults.
   */
  lemma EntryWins(m: Mapping, eval: Eval, id: Identity, fold: Fold, i: nat)
    requires m.entries.Some? && Requests(m, eval, id, fold).Some? && i < |m.entries.value|
    ensures |Requests(m, eval, id, fold).value| == |m.entries.value|
    ensures Resolve(m.top, eval).Some? && Resolve(m.entries.value[i], eval).Some?
    ensures var r := Requests(m, eval, id, fold).value[i];
            var top, own := Resolve(m.top, eval).value, Resolve(m.entries.value[i], eval).value;
            && AnchoredAction(if "action" in own then own else top) == Some((r.actionName, r.actionProperties))
            && AnchoredResource(if "resource" in own then own else top) == Some(r.resource)
            && AnchoredContext(if "context" in own then own else top, id, fold) == Some(r.context)
            && AnchoredSubject(if "subject" in own then own else top, id, fold) == Some(r.subject)
  {
    EntryRequestAlone(m, eval, id, fold);
    var top, own := Resolve(m.top, eval).value, Resolve(m.entries.value[i], eval).value;
    OverlayParts(top, own, id, fold);
    assert EntryRequest(top, m.entries.value[i], eval, id, fold) == Some(Requests(m, eval, id, fold).value[i]);
  }

  lemma OverlayParts(top: Members, own: Members, id: Identity, fold: Fold)
    ensures AnchoredAction(top + own) == AnchoredAction(if "action" in own then own else top)
    ensures AnchoredResource(top + own) == AnchoredResource(if "resource" in own then own else top)
    ensures AnchoredContext(top + own, id, fold) == AnchoredContext(if "context" in own then own else top, id, fold)
    ensures AnchoredSubject(top + own, id, fold) == AnchoredSubject(if "subject" in own then own else top, id, fold)
  {
    SameAction(top + own, if "action" in own then own else top);
    SameResource(top + own, if "resource" in own then own else top);
    SameContext(top + own, if "context" in own then own else top, id, fold);
    SameSubject(top + own, if "subject" in own then own else top, id, fold);
  }

  /** The two hold the same under a key, or both nothing. */
  ghost predicate Agree(a: Members, b: Members, key: string) {
    (key in a <==> key in b) && (key in a ==> a[key] == b[key])
  }

  lemma SameAction(a: Members, b: Members)
    requires Agree(a, b, "action")
    ensures AnchoredAction(a) == AnchoredAction(b)
  {
    assert OptionalObject(a, "action") == OptionalObject(b, "action");
  }

  lemma SameResource(a: Members, b: Members)
    requires Agree(a, b, "resource")
    ensures AnchoredResource(a) == AnchoredResource(b)
  {
    assert OptionalObject(a, "resource") == OptionalObject(b, "resource");
  }

  lemma SameContext(a: Members, b: Members, id: Identity, fold: Fold)
    requires Agree(a, b, "context")
    ensures AnchoredContext(a, id, fold) == AnchoredContext(b, id, fold)
  {
    assert OptionalObject(a, "context") == OptionalObject(b, "context");
  }

  lemma SameSubject(a: Members, b: Members, id: Identity, fold: Fold)
    requires Agree(a, b, "subject")
    ensures AnchoredSubject(a, id, fold) == AnchoredSubject(b, id, fold)
  {
    assert OptionalObject(a, "subject") == OptionalObject(b, "subject");
  }

  /** The limits are ten thousand values and a mebibyte of text, on what is spent and so on what is produced. */
  lemma LimitsIff(m: Mapping, eval: Eval)
    ensures MappingCost(m, eval).AtMost(LIMIT) <==>
              MappingCost(m, eval).values <= 10_000 && MappingCost(m, eval).bytes <= 1_048_576
    ensures MappingCost(m, eval).AtMost(LIMIT) ==>
              MappingOutput(m, eval).values <= 10_000 && MappingOutput(m, eval).bytes <= 1_048_576
  {
    OutputWithinCost(m, eval);
  }

  lemma SubjectFromTop(top: Members, fields: Members, id: Identity, fold: Fold)
    requires "subject" !in fields
    ensures AnchoredSubject(top + fields, id, fold) == AnchoredSubject(top, id, fold)
  {}

  /**
   A parsed mapping makes an error or at least one request; every request speaks for the
   chain, and all of them have one subject.
   */
  lemma ParsedMappingRequests(t: Tree, compiles: string -> bool, eval: Eval, id: Identity, fold: Fold)
    requires Parse(t, compiles).Some? && Requests(Parse(t, compiles).value, eval, id, fold).Some?
    ensures var rs := Requests(Parse(t, compiles).value, eval, id, fold).value;
            && rs != []
            && (forall r :: r in rs ==> SpeaksForChain(r, id, fold))
            && forall r, q :: r in rs && q in rs ==> r.subject == q.subject
  {
    var m := Parse(t, compiles).value;
    var top := Resolve(m.top, eval).value;
    if m.entries.None? {
      AnchoredSpeaksForChain(top, id, fold);
    } else {
      ParsedEntriesLackSubject(t, compiles);
      EntryRequestAlone(m, eval, id, fold);
      var rs := Requests(m, eval, id, fold).value;
      forall i | 0 <= i < |rs|
        ensures SpeaksForChain(rs[i], id, fold) && Some(rs[i].subject) == AnchoredSubject(top, id, fold)
      {
        EntryRequestFacts(top, m.entries.value[i], eval, id, fold);
      }
    }
  }

  lemma EntryRequestFacts(top: Members, entry: map<string, Node>, eval: Eval, id: Identity, fold: Fold)
    requires "subject" !in entry && EntryRequest(top, entry, eval, id, fold).Some?
    ensures var r := EntryRequest(top, entry, eval, id, fold).value;
            SpeaksForChain(r, id, fold) && Some(r.subject) == AnchoredSubject(top, id, fold)
  {
    var fields := Resolve(entry, eval).value;
    SubjectFromTop(top, fields, id, fold);
    AnchoredSpeaksForChain(top + fields, id, fold);
  }

  lemma ParsedEntriesLackSubject(t: Tree, compiles: string -> bool)
    requires Parse(t, compiles).Some? && Parse(t, compiles).value.entries.Some?
    ensures Parse(t, compiles).value.entries.value != []
    ensures forall i :: 0 <= i < |Parse(t, compiles).value.entries.value| ==> "subject" !in Parse(t, compiles).value.entries.value[i]
  {
    var items := t.members["evaluations"].members["evaluations"].items;
    TraverseMeaning(items, EntryCompiler(compiles));
    var entries := Parse(t, compiles).value.entries.value;
    forall i | 0 <= i < |entries| ensures "subject" !in entries[i] {
      assert EntryCompiler(compiles)(items[i]) == Some(entries[i]);
    }
  }
}
