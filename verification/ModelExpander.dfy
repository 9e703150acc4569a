/** Inlining a model graph: each model is defined at its first reference, and every later
    reference stays bare. Values are Bokeh encodings as JSON. */
module ModelExpander {
  import Ordering

  type Id = string

  datatype Json =
    | Atom(text: string)
    | Text(str: string)
    | Arr(items: seq<Json>)
    | Rec(fields: seq<Field>)

  datatype Field = Field(key: string, value: Json)

  datatype ModelState = ModelState(name: string, props: seq<Field>)

  type Models = map<Id, ModelState>

  // ── References and definitions ──────────────────────────────────────

  /** `{"id": id}`. */
  function Reference(id: Id): Json {
    Rec([Field("id", Text(id))])
  }

  /** `{"type": "object", "name": …, "id": …, "attributes": …}`. */
  function Definition(id: Id, name: string, attributes: seq<Field>): Json {
    Rec([Field("type", Text("object")), Field("name", Text(name)),
         Field("id", Text(id)), Field("attributes", Rec(attributes))])
  }

  predicate IsReference(v: Json) {
    v.Rec? && |v.fields| == 1 && v.fields[0].key == "id" && v.fields[0].value.Text?
  }

  function ReferredId(v: Json): Id
    requires IsReference(v)
  {
    v.fields[0].value.str
  }

  predicate IsDefinition(v: Json) {
    && v.Rec? && |v.fields| == 4
    && v.fields[0] == Field("type", Text("object"))
    && v.fields[1].key == "name" && v.fields[1].value.Text?
    && v.fields[2].key == "id" && v.fields[2].value.Text?
    && v.fields[3].key == "attributes" && v.fields[3].value.Rec?
  }

  function DefinedId(v: Json): Id
    requires IsDefinition(v)
  {
    v.fields[2].value.str
  }

  function DefinedName(v: Json): string
    requires IsDefinition(v)
  {
    v.fields[1].value.str
  }

  function Attributes(v: Json): seq<Field>
    requires IsDefinition(v)
  {
    v.fields[3].value.fields
  }

  // ── The expansion ───────────────────────────────────────────────────

  /** A value with the models emitted so far; each step may only add to them. */
  function ExpandModel(models: Models, emitted: set<Id>, id: Id): (r: (Json, set<Id>))
    ensures emitted <= r.1
    decreases models.Keys - emitted, 0, 0
  {
    if id in emitted || id !in models then (Reference(id), emitted)
    else
      assert id in models.Keys - emitted && id !in models.Keys - (emitted + {id});
      var (attributes, after) := ExpandFields(models, emitted + {id}, models[id].props);
      (Definition(id, models[id].name, attributes), after)
  }

  function ExpandValue(models: Models, emitted: set<Id>, v: Json): (r: (Json, set<Id>))
    ensures emitted <= r.1
    decreases models.Keys - emitted, 1, v
  {
    match v
    case Atom(_) => (v, emitted)
    case Text(_) => (v, emitted)
    case Arr(items) => var (out, after) := ExpandItems(models, emitted, items); (Arr(out), after)
    case Rec(fields) =>
      if IsReference(v) && ReferredId(v) in models then ExpandModel(models, emitted, ReferredId(v))
      else var (out, after) := ExpandFields(models, emitted, fields); (Rec(out), after)
  }

  function ExpandItems(models: Models, emitted: set<Id>, items: seq<Json>): (r: (seq<Json>, set<Id>))
    ensures emitted <= r.1 && |r.0| == |items|
    decreases models.Keys - emitted, 1, items
  {
    if items == [] then ([], emitted)
    else
      var (head, mid) := ExpandValue(models, emitted, items[0]);
      Shrinks(models, emitted, mid);
      var (rest, after) := ExpandItems(models, mid, items[1..]);
      ([head] + rest, after)
  }

  function ExpandFields(models: Models, emitted: set<Id>, fields: seq<Field>): (r: (seq<Field>, set<Id>))
    ensures emitted <= r.1 && |r.0| == |fields|
    decreases models.Keys - emitted, 1, fields
  {
    if fields == [] then ([], emitted)
    else
      var (head, mid) := ExpandValue(models, emitted, fields[0].value);
      Shrinks(models, emitted, mid);
      var (rest, after) := ExpandFields(models, mid, fields[1..]);
      ([Field(fields[0].key, head)] + rest, after)
  }

  lemma Shrinks(models: Models, emitted: set<Id>, mid: set<Id>)
    requires emitted <= mid
    ensures models.Keys - mid == models.Keys - emitted || models.Keys - mid < models.Keys - emitted
  {
  }

  /** The roots in order: the first mention of a root defines it, a repeat stays bare. */
  function ExpandRoots(models: Models, emitted: set<Id>, ids: seq<Id>): (r: (seq<Json>, set<Id>))
    ensures emitted <= r.1
    decreases ids
  {
    if ids == [] then ([], emitted)
    else if ids[0] !in models then ExpandRoots(models, emitted, ids[1..])
    else
      var (head, mid) := ExpandModel(models, emitted, ids[0]);
      var (rest, after) := ExpandRoots(models, mid, ids[1..]);
      ([head] + rest, after)
  }

  // ── Meaning: erasing definitions gives the input back ───────────────

  /** Every definition becomes the reference it stands for. */
  function Erase(v: Json): Json {
    if IsDefinition(v) then Reference(DefinedId(v))
    else match v
      case Atom(_) => v
      case Text(_) => v
      case Arr(items) => Arr(EraseItems(items))
      case Rec(fields) => Rec(EraseFields(fields))
  }

  function EraseItems(items: seq<Json>): seq<Json> {
    if items == [] then [] else [Erase(items[0])] + EraseItems(items[1..])
  }

  function EraseFields(fields: seq<Field>): seq<Field> {
    if fields == [] then [] else [Field(fields[0].key, Erase(fields[0].value))] + EraseFields(fields[1..])
  }

  /** No record in the value has the shape of a definition. */
  predicate Plain(v: Json) {
    !IsDefinition(v) &&
    match v
    case Atom(_) => true
    case Text(_) => true
    case Arr(items) => PlainItems(items)
    case Rec(fields) => PlainFields(fields)
  }

  predicate PlainItems(items: seq<Json>) {
    items == [] || (Plain(items[0]) && PlainItems(items[1..]))
  }

  predicate PlainFields(fields: seq<Field>) {
    fields == [] || (Plain(fields[0].value) && PlainFields(fields[1..]))
  }

  predicate PlainModels(models: Models) {
    forall id :: id in models ==> PlainFields(models[id].props)
  }

  /** Every definition in the value states a model of the graph: its name, and attributes
      that erase to its properties. */
  predicate Faithful(models: Models, v: Json) {
    if IsDefinition(v) then
      && DefinedId(v) in models && DefinedName(v) == models[DefinedId(v)].name
      && EraseFields(Attributes(v)) == models[DefinedId(v)].props
      && FaithfulFields(models, Attributes(v))
    else match v
      case Atom(_) => true
      case Text(_) => true
      case Arr(items) => FaithfulItems(models, items)
      case Rec(fields) => FaithfulFields(models, fields)
  }

  predicate FaithfulItems(models: Models, items: seq<Json>) {
    items == [] || (Faithful(models, items[0]) && FaithfulItems(models, items[1..]))
  }

  predicate FaithfulFields(models: Models, fields: seq<Field>) {
    fields == [] || (Faithful(models, fields[0].value) && FaithfulFields(models, fields[1..]))
  }

  lemma {:induction false} ModelKeepsMeaning(models: Models, emitted: set<Id>, id: Id)
    requires PlainModels(models)
    ensures var out := ExpandModel(models, emitted, id).0;
            Erase(out) == Reference(id) && Faithful(models, out)
    decreases models.Keys - emitted, 0, 0
  {
    if id in emitted || id !in models {
      ReferenceErases(models, id);
    } else {
      assert id in models.Keys - emitted && id !in models.Keys - (emitted + {id});
      FieldsKeepMeaning(models, emitted + {id}, models[id].props);
    }
  }

  lemma ReferenceErases(models: Models, id: Id)
    ensures Erase(Reference(id)) == Reference(id) && Faithful(models, Reference(id))
  {
    var fields := Reference(id).fields;
    assert fields[1..] == [];
    assert EraseFields([]) == [];
    assert EraseFields(fields) == [Field("id", Erase(Text(id)))] + EraseFields(fields[1..]);
  }

  lemma {:induction false} ValueKeepsMeaning(models: Models, emitted: set<Id>, v: Json)
    requires PlainModels(models) && Plain(v)
    ensures var out := ExpandValue(models, emitted, v).0;
            Erase(out) == v && Faithful(models, out)
    decreases models.Keys - emitted, 1, v
  {
    match v
    case Atom(_) =>
    case Text(_) =>
    case Arr(items) => ItemsKeepMeaning(models, emitted, items);
    case Rec(fields) =>
      if IsReference(v) && ReferredId(v) in models {
        ModelKeepsMeaning(models, emitted, ReferredId(v));
        assert v == Reference(ReferredId(v));
      } else {
        FieldsKeepMeaning(models, emitted, fields);
        var out := ExpandFields(models, emitted, fields).0;
        FieldsKeepShape(models, emitted, fields);
        assert !IsDefinition(Rec(out));
      }
  }

  lemma {:induction false} ItemsKeepMeaning(models: Models, emitted: set<Id>, items: seq<Json>)
    requires PlainModels(models) && PlainItems(items)
    ensures var out := ExpandItems(models, emitted, items).0;
            EraseItems(out) == items && FaithfulItems(models, out)
    decreases models.Keys - emitted, 1, items
  {
    if items != [] {
      ValueKeepsMeaning(models, emitted, items[0]);
      var (head, mid) := ExpandValue(models, emitted, items[0]);
      Shrinks(models, emitted, mid);
      ItemsKeepMeaning(models, mid, items[1..]);
      ItemJoins(models, items, head, ExpandItems(models, mid, items[1..]).0);
    }
  }

  lemma ItemJoins(models: Models, items: seq<Json>, head: Json, rest: seq<Json>)
    requires items != [] && Erase(head) == items[0] && EraseItems(rest) == items[1..]
    requires Faithful(models, head) && FaithfulItems(models, rest)
    ensures EraseItems([head] + rest) == items && FaithfulItems(models, [head] + rest)
  {
    assert ([head] + rest)[1..] == rest;
  }

  lemma {:induction false} FieldsKeepMeaning(models: Models, emitted: set<Id>, fields: seq<Field>)
    requires PlainModels(models) && PlainFields(fields)
    ensures var out := ExpandFields(models, emitted, fields).0;
            EraseFields(out) == fields && FaithfulFields(models, out)
    decreases models.Keys - emitted, 1, fields
  {
    if fields != [] {
      ValueKeepsMeaning(models, emitted, fields[0].value);
      var (head, mid) := ExpandValue(models, emitted, fields[0].value);
      Shrinks(models, emitted, mid);
      FieldsKeepMeaning(models, mid, fields[1..]);
      FieldJoins(models, fields, head, ExpandFields(models, mid, fields[1..]).0);
    }
  }

  lemma FieldJoins(models: Models, fields: seq<Field>, head: Json, rest: seq<Field>)
    requires fields != [] && Erase(head) == fields[0].value && EraseFields(rest) == fields[1..]
    requires Faithful(models, head) && FaithfulFields(models, rest)
    ensures var out := [Field(fields[0].key, head)] + rest;
            EraseFields(out) == fields && FaithfulFields(models, out)
  {
    assert ([Field(fields[0].key, head)] + rest)[1..] == rest;
  }

  lemma ValueKeepsShape(models: Models, emitted: set<Id>, v: Json)
    ensures var out := ExpandValue(models, emitted, v).0;
            && (v.Text? || out.Text? ==> out == v)
            && (out.Rec? <==> v.Rec?)
  {
  }

  /** Expansion keeps keys, leaves text alone and turns only records into records. */
  lemma {:induction false} FieldsKeepShape(models: Models, emitted: set<Id>, fields: seq<Field>)
    ensures var out := ExpandFields(models, emitted, fields).0;
            forall i :: 0 <= i < |fields| ==>
              && out[i].key == fields[i].key
              && (fields[i].value.Text? || out[i].value.Text? ==> out[i].value == fields[i].value)
              && (out[i].value.Rec? <==> fields[i].value.Rec?)
    decreases models.Keys - emitted, 1, fields
  {
    if fields != [] {
      var (head, mid) := ExpandValue(models, emitted, fields[0].value);
      Shrinks(models, emitted, mid);
      FieldsKeepShape(models, mid, fields[1..]);
      var out, rest := ExpandFields(models, emitted, fields).0, ExpandFields(models, mid, fields[1..]).0;
      forall i | 0 <= i < |fields|
        ensures out[i].key == fields[i].key
        ensures fields[i].value.Text? || out[i].value.Text? ==> out[i].value == fields[i].value
        ensures out[i].value.Rec? <==> fields[i].value.Rec?
      {
        if i > 0 {
          assert out[i] == rest[i - 1] && fields[i] == fields[1..][i - 1];
        } else {
          ValueKeepsShape(models, emitted, fields[0].value);
        }
      }
    }
  }

  // ── Exactly once, and before any bare reference ─────────────────────

  datatype Token = Open(id: Id) | Bare(id: Id)

  /** The definitions and bare references of a value, from left to right; a definition
      opens before its attributes. */
  function Tokens(v: Json): seq<Token> {
    if IsDefinition(v) then [Open(DefinedId(v))] + FieldTokens(Attributes(v))
    else if IsReference(v) then [Bare(ReferredId(v))]
    else match v
      case Atom(_) => []
      case Text(_) => []
      case Arr(items) => ItemTokens(items)
      case Rec(fields) => FieldTokens(fields)
  }

  function ItemTokens(items: seq<Json>): seq<Token> {
    if items == [] then [] else Tokens(items[0]) + ItemTokens(items[1..])
  }

  function FieldTokens(fields: seq<Field>): seq<Token> {
    if fields == [] then [] else Tokens(fields[0].value) + FieldTokens(fields[1..])
  }

  /** Reading tokens left to right from the models open so far: a model opens at most once,
      and a bare reference to a model of the graph finds it open. */
  predicate Opens(models: Models, ts: seq<Token>, before: set<Id>, after: set<Id>) {
    if ts == [] then after == before
    else match ts[0]
      case Open(id) => id in models && id !in before && Opens(models, ts[1..], before + {id}, after)
      case Bare(id) => (id in models ==> id in before) && Opens(models, ts[1..], before, after)
  }

  lemma {:induction false} OpensAppend(models: Models, ts: seq<Token>, us: seq<Token>,
                                       a: set<Id>, b: set<Id>, c: set<Id>)
    requires Opens(models, ts, a, b) && Opens(models, us, b, c)
    ensures Opens(models, ts + us, a, c)
    decreases |ts|
  {
    if ts == [] {
      assert ts + us == us;
    } else {
      assert (ts + us)[1..] == ts[1..] + us;
      OpensAppend(models, ts[1..], us, if ts[0].Open? then a + {ts[0].id} else a, b, c);
    }
  }

  lemma {:induction false} ModelOpens(models: Models, emitted: set<Id>, id: Id)
    requires PlainModels(models)
    ensures var (out, after) := ExpandModel(models, emitted, id);
            Opens(models, Tokens(out), emitted, after)
    decreases models.Keys - emitted, 0, 0
  {
    if id !in emitted && id in models {
      assert id in models.Keys - emitted && id !in models.Keys - (emitted + {id});
      FieldsOpen(models, emitted + {id}, models[id].props);
      var out := ExpandModel(models, emitted, id).0;
      assert Tokens(out)[1..] == FieldTokens(Attributes(out));
    }
  }

  lemma {:induction false} ValueOpens(models: Models, emitted: set<Id>, v: Json)
    requires PlainModels(models) && Plain(v)
    ensures var (out, after) := ExpandValue(models, emitted, v);
            Opens(models, Tokens(out), emitted, after)
    decreases models.Keys - emitted, 1, v
  {
    match v
    case Atom(_) =>
    case Text(_) =>
    case Arr(items) => ItemsOpen(models, emitted, items);
    case Rec(fields) =>
      if IsReference(v) && ReferredId(v) in models {
        ModelOpens(models, emitted, ReferredId(v));
      } else {
        FieldsOpen(models, emitted, fields);
        FieldsKeepShape(models, emitted, fields);
        if IsReference(v) {
          TextExpands(models, emitted, fields);
        }
      }
  }

  /** A bare reference to a model outside the graph stays as it is. */
  lemma TextExpands(models: Models, emitted: set<Id>, fields: seq<Field>)
    requires |fields| == 1 && fields[0].value.Text?
    ensures ExpandFields(models, emitted, fields) == (fields, emitted)
  {
    assert fields[1..] == [];
    assert ExpandFields(models, emitted, fields[1..]) == ([], emitted);
    assert ExpandValue(models, emitted, fields[0].value) == (fields[0].value, emitted);
    assert [fields[0]] + [] == fields;
  }

  lemma {:induction false} ItemsOpen(models: Models, emitted: set<Id>, items: seq<Json>)
    requires PlainModels(models) && PlainItems(items)
    ensures var (out, after) := ExpandItems(models, emitted, items);
            Opens(models, ItemTokens(out), emitted, after)
    decreases models.Keys - emitted, 1, items
  {
    if items != [] {
      ValueOpens(models, emitted, items[0]);
      var (head, mid) := ExpandValue(models, emitted, items[0]);
      Shrinks(models, emitted, mid);
      ItemsOpen(models, mid, items[1..]);
      var (rest, after) := ExpandItems(models, mid, items[1..]);
      assert ([head] + rest)[1..] == rest;
      OpensAppend(models, Tokens(head), ItemTokens(rest), emitted, mid, after);
    }
  }

  lemma {:induction false} FieldsOpen(models: Models, emitted: set<Id>, fields: seq<Field>)
    requires PlainModels(models) && PlainFields(fields)
    ensures var (out, after) := ExpandFields(models, emitted, fields);
            Opens(models, FieldTokens(out), emitted, after)
    decreases models.Keys - emitted, 1, fields
  {
    if fields != [] {
      ValueOpens(models, emitted, fields[0].value);
      var (head, mid) := ExpandValue(models, emitted, fields[0].value);
      Shrinks(models, emitted, mid);
      FieldsOpen(models, mid, fields[1..]);
      var (rest, after) := ExpandFields(models, mid, fields[1..]);
      assert ([Field(fields[0].key, head)] + rest)[1..] == rest;
      OpensAppend(models, Tokens(head), FieldTokens(rest), emitted, mid, after);
    }
  }

  /** What the left-to-right reading means: each model that ends open was opened exactly
      once, no other, and before its first bare reference. */
  lemma {:induction false} OpensOnce(models: Models, ts: seq<Token>, before: set<Id>, after: set<Id>)
    requires Opens(models, ts, before, after)
    ensures before <= after
    ensures forall id :: multiset(ts)[Open(id)] == if id in after - before then 1 else 0
    ensures forall k :: 0 <= k < |ts| && ts[k].Bare? && ts[k].id in models && ts[k].id !in before
              ==> Open(ts[k].id) in ts[..k]
    decreases |ts|
  {
    if ts != [] {
      var mid := if ts[0].Open? then before + {ts[0].id} else before;
      OpensOnce(models, ts[1..], mid, after);
      assert ts == [ts[0]] + ts[1..];
      forall k | 0 <= k < |ts| && ts[k].Bare? && ts[k].id in models && ts[k].id !in before
        ensures Open(ts[k].id) in ts[..k]
      {
        assert k > 0 && ts[k] == ts[1..][k - 1];
        assert ts[..k] == [ts[0]] + ts[1..][..k - 1];
      }
    }
  }

  // ── Which models: those reachable from the roots ────────────────────

  /** The models of the graph a value refers to. */
  function Refs(models: Models, v: Json): set<Id> {
    if IsReference(v) && ReferredId(v) in models then {ReferredId(v)}
    else match v
      case Atom(_) => {}
      case Text(_) => {}
      case Arr(items) => ItemRefs(models, items)
      case Rec(fields) => FieldRefs(models, fields)
  }

  function ItemRefs(models: Models, items: seq<Json>): set<Id> {
    if items == [] then {} else Refs(models, items[0]) + ItemRefs(models, items[1..])
  }

  function FieldRefs(models: Models, fields: seq<Field>): set<Id> {
    if fields == [] then {} else Refs(models, fields[0].value) + FieldRefs(models, fields[1..])
  }

  function Successors(models: Models, id: Id): set<Id> {
    if id in models then FieldRefs(models, models[id].props) else {}
  }

  /** A chain of references through the graph that begins in `from`. */
  predicate IsPath(models: Models, from: set<Id>, path: seq<Id>) {
    && path != [] && path[0] in from && path[0] in models
    && forall i :: 0 <= i < |path| - 1 ==> path[i + 1] in Successors(models, path[i])
  }

  ghost predicate Reachable(models: Models, from: set<Id>, id: Id) {
    exists path :: IsPath(models, from, path) && path[|path| - 1] == id
  }

  /** Everything new is reachable, every reference is emitted, and new models are closed. */
  ghost predicate Explores(models: Models, from: set<Id>, emitted: set<Id>, after: set<Id>) {
    && (forall x :: x in after - emitted ==> Reachable(models, from, x))
    && (forall x :: x in from && x in models ==> x in after)
    && (forall x :: x in after - emitted ==> Successors(models, x) <= after)
  }

  lemma ReachableWider(models: Models, from: set<Id>, wider: set<Id>, x: Id)
    requires from <= wider && Reachable(models, from, x)
    ensures Reachable(models, wider, x)
  {
    var path :| IsPath(models, from, path) && path[|path| - 1] == x;
    assert IsPath(models, wider, path);
  }

  lemma ReachableThrough(models: Models, id: Id, x: Id)
    requires id in models && Reachable(models, Successors(models, id), x)
    ensures Reachable(models, {id}, x)
  {
    var path :| IsPath(models, Successors(models, id), path) && path[|path| - 1] == x;
    var longer := [id] + path;
    forall i | 0 <= i < |longer| - 1 ensures longer[i + 1] in Successors(models, longer[i]) {
      if i > 0 {
        assert longer[i] == path[i - 1] && longer[i + 1] == path[i];
      }
    }
    assert IsPath(models, {id}, longer);
  }

  lemma ExploresAppend(models: Models, from: set<Id>, more: set<Id>, a: set<Id>, b: set<Id>, c: set<Id>)
    requires a <= b <= c && Explores(models, from, a, b) && Explores(models, more, b, c)
    ensures Explores(models, from + more, a, c)
  {
    forall x | x in c - a ensures Reachable(models, from + more, x) {
      if x in b {
        ReachableWider(models, from, from + more, x);
      } else {
        ReachableWider(models, more, from + more, x);
      }
    }
  }

  lemma {:induction false} ModelExplores(models: Models, emitted: set<Id>, id: Id)
    ensures Explores(models, {id}, emitted, ExpandModel(models, emitted, id).1)
    decreases models.Keys - emitted, 0, 0
  {
    if id !in emitted && id in models {
      assert id in models.Keys - emitted && id !in models.Keys - (emitted + {id});
      FieldsExplore(models, emitted + {id}, models[id].props);
      var after := ExpandModel(models, emitted, id).1;
      FieldRefsInModels(models, models[id].props);
      forall x | x in after - emitted ensures Reachable(models, {id}, x) {
        if x == id {
          assert IsPath(models, {id}, [id]);
        } else {
          ReachableThrough(models, id, x);
        }
      }
    }
  }

  lemma {:induction false} RefsInModels(models: Models, v: Json)
    ensures Refs(models, v) <= models.Keys
    decreases v
  {
    match v
    case Atom(_) =>
    case Text(_) =>
    case Arr(items) => ItemRefsInModels(models, items);
    case Rec(fields) => FieldRefsInModels(models, fields);
  }

  lemma {:induction false} ItemRefsInModels(models: Models, items: seq<Json>)
    ensures ItemRefs(models, items) <= models.Keys
    decreases items
  {
    if items != [] {
      RefsInModels(models, items[0]);
      ItemRefsInModels(models, items[1..]);
    }
  }

  lemma {:induction false} FieldRefsInModels(models: Models, fields: seq<Field>)
    ensures FieldRefs(models, fields) <= models.Keys
    decreases fields
  {
    if fields != [] {
      RefsInModels(models, fields[0].value);
      FieldRefsInModels(models, fields[1..]);
    }
  }

  lemma {:induction false} ValueExplores(models: Models, emitted: set<Id>, v: Json)
    ensures Explores(models, Refs(models, v), emitted, ExpandValue(models, emitted, v).1)
    decreases models.Keys - emitted, 1, v
  {
    match v
    case Atom(_) =>
    case Text(_) =>
    case Arr(items) => ItemsExplore(models, emitted, items);
    case Rec(fields) =>
      if IsReference(v) && ReferredId(v) in models {
        ModelExplores(models, emitted, ReferredId(v));
      } else {
        FieldsExplore(models, emitted, fields);
      }
  }

  lemma {:induction false} ItemsExplore(models: Models, emitted: set<Id>, items: seq<Json>)
    ensures Explores(models, ItemRefs(models, items), emitted, ExpandItems(models, emitted, items).1)
    decreases models.Keys - emitted, 1, items
  {
    if items != [] {
      ValueExplores(models, emitted, items[0]);
      var mid := ExpandValue(models, emitted, items[0]).1;
      Shrinks(models, emitted, mid);
      ItemsExplore(models, mid, items[1..]);
      ExploresAppend(models, Refs(models, items[0]), ItemRefs(models, items[1..]), emitted, mid,
                     ExpandItems(models, mid, items[1..]).1);
    }
  }

  lemma {:induction false} FieldsExplore(models: Models, emitted: set<Id>, fields: seq<Field>)
    ensures Explores(models, FieldRefs(models, fields), emitted, ExpandFields(models, emitted, fields).1)
    decreases models.Keys - emitted, 1, fields
  {
    if fields != [] {
      ValueExplores(models, emitted, fields[0].value);
      var mid := ExpandValue(models, emitted, fields[0].value).1;
      Shrinks(models, emitted, mid);
      FieldsExplore(models, mid, fields[1..]);
      ExploresAppend(models, Refs(models, fields[0].value), FieldRefs(models, fields[1..]), emitted, mid,
                     ExpandFields(models, mid, fields[1..]).1);
    }
  }

  lemma {:induction false} RootsExplore(models: Models, emitted: set<Id>, ids: seq<Id>)
    ensures Explores(models, Ordering.Elements(ids), emitted, ExpandRoots(models, emitted, ids).1)
    decreases ids
  {
    if ids != [] {
      assert Ordering.Elements(ids) == {ids[0]} + Ordering.Elements(ids[1..]);
      ModelExplores(models, emitted, ids[0]);
      var mid := ExpandModel(models, emitted, ids[0]).1;
      RootsExplore(models, mid, ids[1..]);
      ExploresAppend(models, {ids[0]}, Ordering.Elements(ids[1..]), emitted, mid, ExpandRoots(models, mid, ids[1..]).1);
    }
  }

  lemma {:induction false} RootsOpen(models: Models, emitted: set<Id>, ids: seq<Id>)
    requires PlainModels(models)
    ensures var (out, after) := ExpandRoots(models, emitted, ids);
            Opens(models, ItemTokens(out), emitted, after)
    decreases ids
  {
    if ids != [] && ids[0] in models {
      ModelOpens(models, emitted, ids[0]);
      var (head, mid) := ExpandModel(models, emitted, ids[0]);
      RootsOpen(models, mid, ids[1..]);
      var (rest, after) := ExpandRoots(models, mid, ids[1..]);
      assert ([head] + rest)[1..] == rest;
      OpensAppend(models, Tokens(head), ItemTokens(rest), emitted, mid, after);
    } else if ids != [] {
      RootsOpen(models, emitted, ids[1..]);
    }
  }

  lemma {:induction false} ClosedHoldsPaths(models: Models, from: set<Id>, closed: set<Id>, path: seq<Id>)
    requires IsPath(models, from, path)
    requires forall x :: x in from && x in models ==> x in closed
    requires forall x :: x in closed ==> Successors(models, x) <= closed
    ensures path[|path| - 1] in closed
    decreases |path|
  {
    if |path| > 1 {
      var n := |path| - 1;
      assert IsPath(models, from, path[..n]);
      ClosedHoldsPaths(models, from, closed, path[..n]);
      assert path[n - 1 + 1] in Successors(models, path[n - 1]);
    }
  }

  /** Expanding the roots of any graph, cycles included, defines every model reachable
      from them exactly once and no other model, each before any bare reference to it. */
  lemma DefinesReachableOnce(models: Models, ids: seq<Id>)
    requires PlainModels(models)
    ensures var ts := ItemTokens(ExpandRoots(models, {}, ids).0);
            && (forall id :: multiset(ts)[Open(id)] == if Reachable(models, Ordering.Elements(ids), id) then 1 else 0)
            && (forall k :: 0 <= k < |ts| && ts[k].Bare? && ts[k].id in models ==> Open(ts[k].id) in ts[..k])
  {
    var (out, after) := ExpandRoots(models, {}, ids);
    RootsOpen(models, {}, ids);
    OpensOnce(models, ItemTokens(out), {}, after);
    RootsExplore(models, {}, ids);
    forall id | Reachable(models, Ordering.Elements(ids), id) ensures id in after {
      var path :| IsPath(models, Ordering.Elements(ids), path) && path[|path| - 1] == id;
      ClosedHoldsPaths(models, Ordering.Elements(ids), after, path);
    }
  }

  /** Erasing the definitions gives back the roots that are in the graph, in order, and
      every definition among them states its model. */
  lemma {:induction false} RootsKeepMeaning(models: Models, emitted: set<Id>, ids: seq<Id>)
    requires PlainModels(models)
    ensures var out := ExpandRoots(models, emitted, ids).0;
            EraseItems(out) == Known(models, ids) && FaithfulItems(models, out)
    decreases ids
  {
    if ids != [] && ids[0] in models {
      ModelKeepsMeaning(models, emitted, ids[0]);
      var (head, mid) := ExpandModel(models, emitted, ids[0]);
      RootsKeepMeaning(models, mid, ids[1..]);
      assert ([head] + ExpandRoots(models, mid, ids[1..]).0)[1..] == ExpandRoots(models, mid, ids[1..]).0;
    } else if ids != [] {
      RootsKeepMeaning(models, emitted, ids[1..]);
    }
  }

  /** References to the ids that name a model of the graph. */
  function Known(models: Models, ids: seq<Id>): seq<Json> {
    if ids == [] then []
    else (if ids[0] in models then [Reference(ids[0])] else []) + Known(models, ids[1..])
  }

  // ── The expander object ─────────────────────────────────────────────

  class Expander {
    const models: Models
    var emitted: set<Id>

    constructor (models: Models)
      ensures this.models == models && emitted == {}
    {
      this.models := models;
      emitted := {};
    }

    method Model(id: Id) returns (r: Json)
      modifies this
      ensures (r, emitted) == ExpandModel(models, old(emitted), id)
      decreases models.Keys - emitted, 0, 0
    {
      if id in emitted || id !in models {
        return Reference(id);
      }
      assert id in models.Keys - emitted && id !in models.Keys - (emitted + {id});
      emitted := emitted + {id};
      var attributes := Fields(models[id].props);
      r := Definition(id, models[id].name, attributes);
    }

    method Value(v: Json) returns (r: Json)
      modifies this
      ensures (r, emitted) == ExpandValue(models, old(emitted), v)
      decreases models.Keys - emitted, 1, v, 1
    {
      match v
      case Atom(_) => r := v;
      case Text(_) => r := v;
      case Arr(items) =>
        var out: seq<Json> := [];
        var i := 0;
        assert items[0..] == items;
        while i < |items|
          invariant 0 <= i <= |items|
          invariant old(emitted) <= emitted
          invariant ExpandItems(models, old(emitted), items).0 == out + ExpandItems(models, emitted, items[i..]).0
          invariant ExpandItems(models, old(emitted), items).1 == ExpandItems(models, emitted, items[i..]).1
        {
          Shrinks(models, old(emitted), emitted);
          var item := Value(items[i]);
          assert items[i..][1..] == items[i + 1..];
          out := out + [item];
          i := i + 1;
        }
        assert items[i..] == [] && out + [] == out;
        r := Arr(out);
      case Rec(fields) =>
        if IsReference(v) && ReferredId(v) in models {
          r := Model(ReferredId(v));
        } else {
          var out := Fields(fields);
          r := Rec(out);
        }
    }

    method Fields(fields: seq<Field>) returns (out: seq<Field>)
      modifies this
      ensures (out, emitted) == ExpandFields(models, old(emitted), fields)
      decreases models.Keys - emitted, 1, fields, 0
    {
      out := [];
      var i := 0;
      assert fields[0..] == fields;
      while i < |fields|
        invariant 0 <= i <= |fields|
        invariant old(emitted) <= emitted
        invariant ExpandFields(models, old(emitted), fields).0 == out + ExpandFields(models, emitted, fields[i..]).0
        invariant ExpandFields(models, old(emitted), fields).1 == ExpandFields(models, emitted, fields[i..]).1
      {
        Shrinks(models, old(emitted), emitted);
        var value := Value(fields[i].value);
        assert fields[i..][1..] == fields[i + 1..];
        out := out + [Field(fields[i].key, value)];
        i := i + 1;
      }
      assert fields[i..] == [] && out + [] == out;
    }
  }

  /** The roots of a full update, as `materializeDocJson` and `reconcile` expand them. */
  method MaterializeRoots(models: Models, rootIds: seq<Id>) returns (roots: seq<Json>)
    ensures roots == ExpandRoots(models, {}, rootIds).0
  {
    var expander := new Expander(models);
    roots := [];
    var i := 0;
    assert rootIds[0..] == rootIds;
    while i < |rootIds|
      invariant 0 <= i <= |rootIds| && expander.models == models
      invariant ExpandRoots(models, {}, rootIds).0 == roots + ExpandRoots(models, expander.emitted, rootIds[i..]).0
    {
      assert rootIds[i..][1..] == rootIds[i + 1..];
      if rootIds[i] in models {
        var root := expander.Model(rootIds[i]);
        roots := roots + [root];
      }
      i := i + 1;
    }
  }
}
