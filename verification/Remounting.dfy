/** Reconciling a live document with a full-state patch, compared with mounting the same
    patch into an empty registry. */
module Remounting {
  import opened Deserializer

  // ── What a patch says, whatever registry it is decoded over ─────────

  function ValueOf(v: Enc): Dec {
    match v
    case Plain(n) => Number(n)
    case Bad => Number(0)
    case Items(items) => List(ValuesOf(items))
    case Record(fields) => Entries(AttrsOf(fields))
    case Ref(id) => Model(id)
    case Def(id, _, _) => Model(id)
  }

  function ValuesOf(items: seq<Enc>): seq<Dec> {
    if items == [] then [] else [ValueOf(items[0])] + ValuesOf(items[1..])
  }

  function AttrsOf(attrs: seq<Attr>): Values {
    if attrs == [] then map[] else map[attrs[0].key := ValueOf(attrs[0].value)] + AttrsOf(attrs[1..])
  }

  /** The definitions of `id` in a value, in the order they close. */
  function DefsOf(v: Enc, id: Id): seq<(string, Values)>
    decreases v
  {
    match v
    case Plain(_) => []
    case Bad => []
    case Items(items) => DefsOfItems(items, id)
    case Record(fields) => DefsOfAttrs(fields, id)
    case Ref(_) => []
    case Def(x, name, attrs) => DefsOfAttrs(attrs, id) + if x == id then [(name, AttrsOf(attrs))] else []
  }

  function DefsOfItems(items: seq<Enc>, id: Id): seq<(string, Values)>
    decreases items
  {
    if items == [] then [] else DefsOf(items[0], id) + DefsOfItems(items[1..], id)
  }

  function DefsOfAttrs(attrs: seq<Attr>, id: Id): seq<(string, Values)>
    decreases attrs
  {
    if attrs == [] then [] else DefsOf(attrs[0].value, id) + DefsOfAttrs(attrs[1..], id)
  }

  /** A value that decodes decodes to what it says, over any registry. */
  lemma {:induction false} DecodesAsSaid(cs: Classes, d: Progress, v: Enc)
    ensures Decode(cs, d, v).0.Some? ==> Decode(cs, d, v).0.value == ValueOf(v)
    decreases v
  {
    if v.Items? {
      ItemsAsSaid(cs, d, v.items);
    } else if v.Record? {
      AttrsAsSaid(cs, d, v.fields);
    }
  }

  lemma {:induction false} ItemsAsSaid(cs: Classes, d: Progress, items: seq<Enc>)
    ensures DecodeItems(cs, d, items).0.Some? ==> DecodeItems(cs, d, items).0.value == ValuesOf(items)
    decreases items
  {
    if items != [] {
      DecodesAsSaid(cs, d, items[0]);
      ItemsAsSaid(cs, Decode(cs, d, items[0]).1, items[1..]);
    }
  }

  lemma {:induction false} AttrsAsSaid(cs: Classes, d: Progress, attrs: seq<Attr>)
    ensures DecodeAttrs(cs, d, attrs).0.Some? ==> DecodeAttrs(cs, d, attrs).0.value == AttrsOf(attrs)
    decreases attrs
  {
    if attrs != [] {
      DecodesAsSaid(cs, d, attrs[0].value);
      AttrsAsSaid(cs, Decode(cs, d, attrs[0].value).1, attrs[1..]);
    }
  }

  // ── A known model: every definition is held back ────────────────────

  /** The updates held back for one model. */
  function For(us: seq<(Id, Values)>, id: Id): seq<Values>
    decreases |us|
  {
    if us == [] then []
    else For(us[..|us| - 1], id) + if us[|us| - 1].0 == id then [us[|us| - 1].1] else []
  }

  function ValuesIn(defs: seq<(string, Values)>): seq<Values> {
    if defs == [] then [] else [defs[0].1] + ValuesIn(defs[1..])
  }

  lemma {:induction false} ValuesInAppend(a: seq<(string, Values)>, b: seq<(string, Values)>)
    ensures ValuesIn(a + b) == ValuesIn(a) + ValuesIn(b)
  {
    if a == [] {
      assert a + b == b;
    } else {
      assert (a + b)[1..] == a[1..] + b;
      ValuesInAppend(a[1..], b);
    }
  }

  /** What decoding adds for a model that is known already. */
  ghost predicate HoldsBack(d: Progress, d': Progress, id: Id, defs: seq<(string, Values)>) {
    && id in d.references && id in d'.references && d'.references[id] == d.references[id]
    && For(d'.deferred, id) == For(d.deferred, id) + ValuesIn(defs)
    && (forall i :: 0 <= i < |defs| ==> defs[i].0 == d.references[id].name)
  }

  lemma HoldsBackOn(a: Progress, b: Progress, c: Progress, id: Id,
                    defs: seq<(string, Values)>, more: seq<(string, Values)>)
    requires HoldsBack(a, b, id, defs) && HoldsBack(b, c, id, more)
    ensures HoldsBack(a, c, id, defs + more)
  {
    ValuesInAppend(defs, more);
  }

  lemma ForSnoc(us: seq<(Id, Values)>, u: (Id, Values), id: Id)
    ensures For(us + [u], id) == For(us, id) + if u.0 == id then [u.1] else []
  {
    assert (us + [u])[..|us|] == us;
  }

  lemma {:induction false} KnownHeldBack(cs: Classes, d: Progress, v: Enc, id: Id)
    requires id in d.references && Decode(cs, d, v).0.Some?
    ensures HoldsBack(d, Decode(cs, d, v).1, id, DefsOf(v, id))
    decreases v
  {
    match v
    case Plain(_) =>
    case Bad =>
    case Items(items) => ItemsHeldBack(cs, d, items, id);
    case Record(fields) => AttrsHeldBack(cs, d, fields, id);
    case Ref(_) =>
    case Def(x, name, attrs) =>
      if x !in d.references {
        var registered := Register(d, x, name);
        AttrsHeldBack(cs, registered, attrs, id);
        assert DefsOfAttrs(attrs, id) + [] == DefsOfAttrs(attrs, id);
      } else {
        AttrsHeldBack(cs, d, attrs, id);
        DefersOne(cs, d, x, name, attrs, id);
      }
  }

  function Register(d: Progress, x: Id, name: string): Progress {
    d.(created := d.created + [x], references := d.references[x := Instance(name, map[])])
  }

  lemma DefersOne(cs: Classes, d: Progress, x: Id, name: string, attrs: seq<Attr>, id: Id)
    requires x in d.references && id in d.references && Decode(cs, d, Def(x, name, attrs)).0.Some?
    requires HoldsBack(d, DecodeAttrs(cs, d, attrs).1, id, DefsOfAttrs(attrs, id))
    ensures HoldsBack(d, Decode(cs, d, Def(x, name, attrs)).1, id, DefsOf(Def(x, name, attrs), id))
  {
    AttrsAsSaid(cs, d, attrs);
    DefersFor(d, DecodeAttrs(cs, d, attrs).1, x, name, AttrsOf(attrs), id, DefsOfAttrs(attrs, id));
  }

  lemma DefersFor(d: Progress, d': Progress, x: Id, name: string, values: Values, id: Id, defs: seq<(string, Values)>)
    requires HoldsBack(d, d', id, defs) && (x == id ==> name == d.references[id].name)
    ensures HoldsBack(d, d'.(deferred := d'.deferred + [(x, values)]), id,
                      defs + if x == id then [(name, values)] else [])
  {
    ForSnoc(d'.deferred, (x, values), id);
    if x == id {
      ValuesInAppend(defs, [(name, values)]);
      assert ValuesIn([(name, values)]) == [values];
    } else {
      assert defs + [] == defs;
    }
  }

  lemma {:induction false} ItemsHeldBack(cs: Classes, d: Progress, items: seq<Enc>, id: Id)
    requires id in d.references && DecodeItems(cs, d, items).0.Some?
    ensures HoldsBack(d, DecodeItems(cs, d, items).1, id, DefsOfItems(items, id))
    decreases items
  {
    if items != [] {
      var mid := Decode(cs, d, items[0]).1;
      KnownHeldBack(cs, d, items[0], id);
      ItemsHeldBack(cs, mid, items[1..], id);
      HoldsBackOn(d, mid, DecodeItems(cs, mid, items[1..]).1, id, DefsOf(items[0], id), DefsOfItems(items[1..], id));
    }
  }

  lemma {:induction false} AttrsHeldBack(cs: Classes, d: Progress, attrs: seq<Attr>, id: Id)
    requires id in d.references && DecodeAttrs(cs, d, attrs).0.Some?
    ensures HoldsBack(d, DecodeAttrs(cs, d, attrs).1, id, DefsOfAttrs(attrs, id))
    decreases attrs
  {
    if attrs != [] {
      var mid := Decode(cs, d, attrs[0].value).1;
      KnownHeldBack(cs, d, attrs[0].value, id);
      AttrsHeldBack(cs, mid, attrs[1..], id);
      HoldsBackOn(d, mid, DecodeAttrs(cs, mid, attrs[1..]).1, id,
                  DefsOf(attrs[0].value, id), DefsOfAttrs(attrs[1..], id));
    }
  }

  // ── A new model: its one definition makes it ────────────────────────

  /** What decoding does for a model that is not known and defined at most once. */
  ghost predicate Mounts(cs: Classes, d: Progress, d': Progress, id: Id, defs: seq<(string, Values)>) {
    && |defs| <= 1 && For(d'.deferred, id) == For(d.deferred, id)
    && (defs == [] ==> id !in d'.references)
    && (defs != [] ==> id in d'.references && defs[0].0 in cs
                       && d'.references[id] == Instance(defs[0].0, FreshValues(cs[defs[0].0], defs[0].1)))
  }

  lemma {:induction false} NewMounted(cs: Classes, d: Progress, v: Enc, id: Id)
    requires id !in d.references && Decode(cs, d, v).0.Some? && |DefsOf(v, id)| <= 1
    ensures Mounts(cs, d, Decode(cs, d, v).1, id, DefsOf(v, id))
    decreases v
  {
    match v
    case Plain(_) =>
    case Bad =>
    case Items(items) => ItemsMounted(cs, d, items, id);
    case Record(fields) => AttrsMounted(cs, d, fields, id);
    case Ref(_) =>
    case Def(x, name, attrs) => DefMounted(cs, d, x, name, attrs, id);
  }

  lemma {:induction false} DefMounted(cs: Classes, d: Progress, x: Id, name: string, attrs: seq<Attr>, id: Id)
    requires id !in d.references && Decode(cs, d, Def(x, name, attrs)).0.Some? && |DefsOf(Def(x, name, attrs), id)| <= 1
    ensures Mounts(cs, d, Decode(cs, d, Def(x, name, attrs)).1, id, DefsOf(Def(x, name, attrs), id))
    decreases attrs, 1
  {
    var inner := if x in d.references then d else Register(d, x, name);
    AttrsAsSaid(cs, inner, attrs);
    if x == id {
      assert DefsOfAttrs(attrs, id) == [];
      AttrsHeldBack(cs, inner, attrs, id);
    } else {
      AttrsMounted(cs, inner, attrs, id);
      ForSnoc(DecodeAttrs(cs, inner, attrs).1.deferred, (x, AttrsOf(attrs)), id);
    }
  }

  lemma {:induction false} ItemsMounted(cs: Classes, d: Progress, items: seq<Enc>, id: Id)
    requires id !in d.references && DecodeItems(cs, d, items).0.Some? && |DefsOfItems(items, id)| <= 1
    ensures Mounts(cs, d, DecodeItems(cs, d, items).1, id, DefsOfItems(items, id))
    decreases items
  {
    if items != [] {
      var mid := Decode(cs, d, items[0]).1;
      NewMounted(cs, d, items[0], id);
      if DefsOf(items[0], id) == [] {
        ItemsMounted(cs, mid, items[1..], id);
      } else {
        ItemsHeldBack(cs, mid, items[1..], id);
      }
    }
  }

  lemma {:induction false} AttrsMounted(cs: Classes, d: Progress, attrs: seq<Attr>, id: Id)
    requires id !in d.references && DecodeAttrs(cs, d, attrs).0.Some? && |DefsOfAttrs(attrs, id)| <= 1
    ensures Mounts(cs, d, DecodeAttrs(cs, d, attrs).1, id, DefsOfAttrs(attrs, id))
    decreases attrs, 0
  {
    if attrs != [] {
      var mid := Decode(cs, d, attrs[0].value).1;
      NewMounted(cs, d, attrs[0].value, id);
      if DefsOf(attrs[0].value, id) == [] {
        AttrsMounted(cs, mid, attrs[1..], id);
      } else {
        AttrsHeldBack(cs, mid, attrs[1..], id);
      }
    }
  }

  // ── Reconciling and mounting agree ──────────────────────────────────

  lemma {:induction false} ForOne(us: seq<(Id, Values)>, id: Id) returns (k: nat)
    requires |For(us, id)| == 1
    ensures k < |us| && us[k] == (id, For(us, id)[0]) && forall j :: 0 <= j < |us| && j != k ==> us[j].0 != id
    decreases |us|
  {
    var n := |us| - 1;
    if us[n].0 == id {
      ForNone(us[..n], id);
      k := n;
    } else {
      k := ForOne(us[..n], id);
    }
  }

  lemma {:induction false} ForNone(us: seq<(Id, Values)>, id: Id)
    requires For(us, id) == []
    ensures forall j :: 0 <= j < |us| ==> us[j].0 != id
    decreases |us|
  {
    if us != [] {
      ForNone(us[..|us| - 1], id);
    }
  }

  /** The model the patch defines, as reconciling leaves it. */
  lemma Reconciled(cs: Classes, references: Registry, v: Enc, id: Id)
    requires Outermost(cs, references, v, true).0.Some? && id in references && |DefsOf(v, id)| == 1
    requires DefsOf(v, id)[0].0 in cs
    ensures var (name, attrs) := DefsOf(v, id)[0];
            var after := Outermost(cs, references, v, true).1;
            && id in after && after[id].name == name == references[id].name
            && (forall p :: p in attrs ==> p in after[id].values && after[id].values[p] == attrs[p])
            && (forall p :: Resettable(cs[name], p) ==>
                  p in after[id].values && after[id].values[p] == FreshValues(cs[name], attrs)[p])
  {
    var start := Progress(references, [], [], []);
    var d := Decode(cs, start, v).1;
    KnownHeldBack(cs, start, v, id);
    assert ValuesIn(DefsOf(v, id)) == [DefsOf(v, id)[0].1];
    var k := ForOne(d.deferred, id);
    LastUpdateIsFresh(cs, d.references, d.deferred, k);
    UpdatesKeepNames(cs, d.references, d.deferred, true, id);
  }

  /** A model the patch defines and the registry does not know is made from its definition. */
  lemma Mounted(cs: Classes, references: Registry, v: Enc, id: Id)
    requires Outermost(cs, references, v, true).0.Some? && id !in references && |DefsOf(v, id)| == 1
    ensures var (name, attrs) := DefsOf(v, id)[0];
            var after := Outermost(cs, references, v, true).1;
            name in cs && id in after && after[id] == Instance(name, FreshValues(cs[name], attrs))
  {
    var start := Progress(references, [], [], []);
    var d := Decode(cs, start, v).1;
    NewMounted(cs, start, v, id);
    ForNone(d.deferred, id);
    UpdatesKeepNames(cs, d.references, d.deferred, true, id);
  }

  /** A full-state patch leaves every model it defines once as mounting the same patch anew
      would make it, on every property that may be reset, whatever the model held before. */
  lemma ReconcilingIsRemounting(cs: Classes, references: Registry, v: Enc, id: Id)
    requires Outermost(cs, references, v, true).0.Some? && Outermost(cs, map[], v, true).0.Some?
    requires id in references && |DefsOf(v, id)| == 1
    ensures var after, mounted := Outermost(cs, references, v, true).1, Outermost(cs, map[], v, true).1;
            && id in after && id in mounted && after[id].name == mounted[id].name && after[id].name in cs
            && forall p :: Resettable(cs[after[id].name], p) ==>
                 p in after[id].values && p in mounted[id].values && after[id].values[p] == mounted[id].values[p]
    ensures Outermost(cs, references, v, true).0 == Outermost(cs, map[], v, true).0
  {
    Mounted(cs, map[], v, id);
    Reconciled(cs, references, v, id);
    DecodesAsSaid(cs, Progress(references, [], [], []), v);
    DecodesAsSaid(cs, Progress(map[], [], [], []), v);
  }
}
