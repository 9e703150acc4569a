/** A full update from the kernel's model graph to the models of the view: the roots are
    expanded to definitions, and the patch is decoded over a live or an empty registry. */
module FullUpdates {
  import opened Options
  import Ordering
  import Expander = ModelExpander
  import opened Deserializer
  import opened Remounting

  type Json = Expander.Json

  /** What BokehJS makes of an atom or a string, if it takes it. */
  type Leaf = Json -> Option<int>

  // ── Expanded values as the deserializer sees them ───────────────────

  function EncOf(leaf: Leaf, v: Json): Enc
    decreases v
  {
    if Expander.IsDefinition(v) then
      Def(Expander.DefinedId(v), Expander.DefinedName(v), EncFields(leaf, Expander.Attributes(v)))
    else if Expander.IsReference(v) then Ref(Expander.ReferredId(v))
    else match v
      case Atom(_) => Scalar(leaf(v))
      case Text(_) => Scalar(leaf(v))
      case Arr(items) => Items(EncItems(leaf, items))
      case Rec(fields) => Record(EncFields(leaf, fields))
  }

  function Scalar(n: Option<int>): Enc {
    if n.Some? then Plain(n.value) else Bad
  }

  function EncItems(leaf: Leaf, items: seq<Json>): seq<Enc>
    decreases items
  {
    if items == [] then [] else [EncOf(leaf, items[0])] + EncItems(leaf, items[1..])
  }

  function EncFields(leaf: Leaf, fields: seq<Expander.Field>): seq<Attr>
    decreases fields
  {
    if fields == [] then []
    else [Attr(fields[0].key, EncOf(leaf, fields[0].value))] + EncFields(leaf, fields[1..])
  }

  // ── A definition is where a model opens ─────────────────────────────

  lemma {:induction false} DefsAreOpens(leaf: Leaf, v: Json, id: Id)
    ensures |DefsOf(EncOf(leaf, v), id)| == multiset(Expander.Tokens(v))[Expander.Open(id)]
    decreases v
  {
    if Expander.IsDefinition(v) {
      FieldDefsAreOpens(leaf, Expander.Attributes(v), id);
      DefinitionOpens(leaf, v, id);
    } else if Expander.IsReference(v) {
      assert Expander.Tokens(v) == [Expander.Bare(Expander.ReferredId(v))];
    } else {
      match v
      case Atom(_) =>
      case Text(_) =>
      case Arr(items) => ItemDefsAreOpens(leaf, items, id);
      case Rec(fields) => FieldDefsAreOpens(leaf, fields, id);
    }
  }

  lemma DefinitionOpens(leaf: Leaf, v: Json, id: Id)
    requires Expander.IsDefinition(v)
    ensures var attributes := Expander.Attributes(v);
            |DefsOf(EncOf(leaf, v), id)| - multiset(Expander.Tokens(v))[Expander.Open(id)]
            == |DefsOfAttrs(EncFields(leaf, attributes), id)|
               - multiset(Expander.FieldTokens(attributes))[Expander.Open(id)]
  {
    var x, ts := Expander.DefinedId(v), Expander.FieldTokens(Expander.Attributes(v));
    var defs := DefsOfAttrs(EncFields(leaf, Expander.Attributes(v)), id);
    assert Expander.Tokens(v) == [Expander.Open(x)] + ts;
    OpensFirst(x, ts, id);
    assert |DefsOf(EncOf(leaf, v), id)| == |defs| + if x == id then 1 else 0 by {
      DefinitionAdds(x, Expander.DefinedName(v), EncFields(leaf, Expander.Attributes(v)), id);
    }
  }

  lemma DefinitionAdds(x: Id, name: string, attrs: seq<Attr>, id: Id)
    ensures |DefsOf(Def(x, name, attrs), id)| == |DefsOfAttrs(attrs, id)| + if x == id then 1 else 0
  {
  }

  lemma OpensFirst(x: Id, ts: seq<Expander.Token>, id: Id)
    ensures multiset([Expander.Open(x)] + ts)[Expander.Open(id)]
         == multiset(ts)[Expander.Open(id)] + if x == id then 1 else 0
  {
  }

  lemma {:induction false} ItemDefsAreOpens(leaf: Leaf, items: seq<Json>, id: Id)
    ensures |DefsOfItems(EncItems(leaf, items), id)| == multiset(Expander.ItemTokens(items))[Expander.Open(id)]
    decreases items
  {
    if items != [] {
      DefsAreOpens(leaf, items[0], id);
      ItemDefsAreOpens(leaf, items[1..], id);
      assert EncItems(leaf, items)[1..] == EncItems(leaf, items[1..]);
    }
  }

  lemma {:induction false} FieldDefsAreOpens(leaf: Leaf, fields: seq<Expander.Field>, id: Id)
    ensures |DefsOfAttrs(EncFields(leaf, fields), id)| == multiset(Expander.FieldTokens(fields))[Expander.Open(id)]
    decreases fields
  {
    if fields != [] {
      DefsAreOpens(leaf, fields[0].value, id);
      FieldDefsAreOpens(leaf, fields[1..], id);
      assert EncFields(leaf, fields)[1..] == EncFields(leaf, fields[1..]);
    }
  }

  // ── Erasing definitions changes no value ────────────────────────────

  lemma {:induction false} ErasureKeepsShape(fields: seq<Expander.Field>)
    ensures var out := Expander.EraseFields(fields);
            |out| == |fields| &&
            forall i :: 0 <= i < |fields| ==>
              && out[i].key == fields[i].key
              && (fields[i].value.Text? || out[i].value.Text? ==> out[i].value == fields[i].value)
              && (out[i].value.Rec? <==> fields[i].value.Rec?)
    decreases fields
  {
    if fields != [] {
      ErasureKeepsShape(fields[1..]);
      var out, rest := Expander.EraseFields(fields), Expander.EraseFields(fields[1..]);
      assert out[1..] == rest;
      forall i | 0 < i < |fields| ensures out[i] == rest[i - 1] && fields[i] == fields[1..][i - 1] {
      }
    }
  }

  lemma {:induction false} ErasureKeepsValue(leaf: Leaf, v: Json)
    ensures ValueOf(EncOf(leaf, Expander.Erase(v))) == ValueOf(EncOf(leaf, v))
    decreases v
  {
    if !Expander.IsDefinition(v) {
      match v
      case Atom(_) =>
      case Text(_) =>
      case Arr(items) => ItemsKeepValues(leaf, items);
      case Rec(fields) =>
        FieldsKeepValues(leaf, fields);
        ErasureKeepsShape(fields);
    }
  }

  lemma {:induction false} ItemsKeepValues(leaf: Leaf, items: seq<Json>)
    ensures ValuesOf(EncItems(leaf, Expander.EraseItems(items))) == ValuesOf(EncItems(leaf, items))
    decreases items
  {
    if items != [] {
      ErasureKeepsValue(leaf, items[0]);
      ItemsKeepValues(leaf, items[1..]);
      var out := Expander.EraseItems(items);
      assert out[1..] == Expander.EraseItems(items[1..]);
      assert EncItems(leaf, items)[1..] == EncItems(leaf, items[1..]);
      assert EncItems(leaf, out)[1..] == EncItems(leaf, out[1..]);
    }
  }

  lemma {:induction false} FieldsKeepValues(leaf: Leaf, fields: seq<Expander.Field>)
    ensures AttrsOf(EncFields(leaf, Expander.EraseFields(fields))) == AttrsOf(EncFields(leaf, fields))
    decreases fields
  {
    if fields != [] {
      ErasureKeepsValue(leaf, fields[0].value);
      FieldsKeepValues(leaf, fields[1..]);
      var out := Expander.EraseFields(fields);
      assert out[1..] == Expander.EraseFields(fields[1..]);
      assert EncFields(leaf, fields)[1..] == EncFields(leaf, fields[1..]);
      assert EncFields(leaf, out)[1..] == EncFields(leaf, out[1..]);
    }
  }

  // ── Every definition states its model ───────────────────────────────

  /** The properties a model of the graph states. */
  function Stated(leaf: Leaf, state: Expander.ModelState): Values {
    AttrsOf(EncFields(leaf, state.props))
  }

  ghost predicate StateModel(leaf: Leaf, models: Expander.Models, id: Id, defs: seq<(string, Values)>) {
    defs != [] ==>
      id in models && forall i :: 0 <= i < |defs| ==> defs[i] == (models[id].name, Stated(leaf, models[id]))
  }

  lemma StateModelJoins(leaf: Leaf, models: Expander.Models, id: Id, a: seq<(string, Values)>, b: seq<(string, Values)>)
    requires StateModel(leaf, models, id, a) && StateModel(leaf, models, id, b)
    ensures StateModel(leaf, models, id, a + b)
  {
    if a + b != [] {
      assert a != [] || b != [];
    }
  }

  lemma {:induction false} DefsStateModel(leaf: Leaf, models: Expander.Models, v: Json, id: Id)
    requires Expander.Faithful(models, v)
    ensures StateModel(leaf, models, id, DefsOf(EncOf(leaf, v), id))
    decreases v
  {
    if Expander.IsDefinition(v) {
      var attributes := Expander.Attributes(v);
      FieldDefsStateModel(leaf, models, attributes, id);
      FieldsKeepValues(leaf, attributes);
      var own := (Expander.DefinedName(v), AttrsOf(EncFields(leaf, attributes)));
      StateModelJoins(leaf, models, id, DefsOfAttrs(EncFields(leaf, attributes), id),
                      if Expander.DefinedId(v) == id then [own] else []);
    } else if !Expander.IsReference(v) {
      match v
      case Atom(_) =>
      case Text(_) =>
      case Arr(items) => ItemDefsStateModel(leaf, models, items, id);
      case Rec(fields) => FieldDefsStateModel(leaf, models, fields, id);
    }
  }

  lemma {:induction false} ItemDefsStateModel(leaf: Leaf, models: Expander.Models, items: seq<Json>, id: Id)
    requires Expander.FaithfulItems(models, items)
    ensures StateModel(leaf, models, id, DefsOfItems(EncItems(leaf, items), id))
    decreases items
  {
    if items != [] {
      DefsStateModel(leaf, models, items[0], id);
      ItemDefsStateModel(leaf, models, items[1..], id);
      assert EncItems(leaf, items)[1..] == EncItems(leaf, items[1..]);
      StateModelJoins(leaf, models, id, DefsOf(EncOf(leaf, items[0]), id), DefsOfItems(EncItems(leaf, items[1..]), id));
    }
  }

  lemma {:induction false} FieldDefsStateModel(leaf: Leaf, models: Expander.Models, fields: seq<Expander.Field>, id: Id)
    requires Expander.FaithfulFields(models, fields)
    ensures StateModel(leaf, models, id, DefsOfAttrs(EncFields(leaf, fields), id))
    decreases fields
  {
    if fields != [] {
      DefsStateModel(leaf, models, fields[0].value, id);
      FieldDefsStateModel(leaf, models, fields[1..], id);
      assert EncFields(leaf, fields)[1..] == EncFields(leaf, fields[1..]);
      StateModelJoins(leaf, models, id, DefsOf(EncOf(leaf, fields[0].value), id),
                      DefsOfAttrs(EncFields(leaf, fields[1..]), id));
    }
  }

  // ── The patch of a full update ──────────────────────────────────────

  function References(ids: seq<Id>): seq<Enc> {
    if ids == [] then [] else [Ref(ids[0])] + References(ids[1..])
  }

  /** The expanded roots, then references to the roots that are to go. Mounting removes none. */
  function FullPatch(leaf: Leaf, models: Expander.Models, rootIds: seq<Id>, gone: seq<Id>): Enc {
    Items(EncItems(leaf, Expander.ExpandRoots(models, {}, rootIds).0) + References(gone))
  }

  lemma {:induction false} NothingDefinedAfter(items: seq<Enc>, gone: seq<Id>, id: Id)
    ensures DefsOfItems(items + References(gone), id) == DefsOfItems(items, id)
    decreases |items|, |gone|
  {
    if items != [] {
      assert (items + References(gone))[1..] == items[1..] + References(gone);
      NothingDefinedAfter(items[1..], gone, id);
    } else if gone != [] {
      assert items + References(gone) == References(gone);
      assert References(gone)[1..] == [] + References(gone[1..]);
      NothingDefinedAfter([], gone[1..], id);
    }
  }

  lemma RootDefs(leaf: Leaf, models: Expander.Models, rootIds: seq<Id>, id: Id)
    requires Expander.PlainModels(models)
    ensures var defs := DefsOfItems(EncItems(leaf, Expander.ExpandRoots(models, {}, rootIds).0), id);
            && StateModel(leaf, models, id, defs)
            && |defs| == if Expander.Reachable(models, Ordering.Elements(rootIds), id) then 1 else 0
  {
    var roots := Expander.ExpandRoots(models, {}, rootIds).0;
    Expander.DefinesReachableOnce(models, rootIds);
    assert Expander.FaithfulItems(models, roots) by {
      Expander.RootsKeepMeaning(models, {}, rootIds);
    }
    ItemDefsAreOpens(leaf, roots, id);
    ItemDefsStateModel(leaf, models, roots, id);
  }

  /** The patch defines every model reachable from the roots once, with what the graph says. */
  lemma PatchDefines(leaf: Leaf, models: Expander.Models, rootIds: seq<Id>, gone: seq<Id>, id: Id)
    requires Expander.PlainModels(models)
    ensures var defs := DefsOf(FullPatch(leaf, models, rootIds, gone), id);
            if Expander.Reachable(models, Ordering.Elements(rootIds), id)
            then id in models && defs == [(models[id].name, Stated(leaf, models[id]))]
            else defs == []
  {
    RootDefs(leaf, models, rootIds, id);
    NothingDefinedAfter(EncItems(leaf, Expander.ExpandRoots(models, {}, rootIds).0), gone, id);
  }
}
