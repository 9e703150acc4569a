/** Decoding a patch over a registry of live models with updates of existing models held
    back until every new model is decoded, and the reset of omitted properties that makes
    a full-state definition mean the same to an existing model as to a new one. */
module Deserializer {
  import opened Options
  import Ordering

  type Id = string

  /** Encoded values. `Bad` is whatever BokehJS refuses to decode, `Record` any record that
      is neither a reference nor a definition. */
  datatype Enc =
    | Plain(value: int)
    | Bad
    | Items(items: seq<Enc>)
    | Record(fields: seq<Attr>)
    | Ref(id: Id)
    | Def(id: Id, name: string, attrs: seq<Attr>)

  datatype Attr = Attr(key: string, value: Enc)

  datatype Dec = Number(n: int) | List(elements: seq<Dec>) | Entries(entries: Values) | Model(model: Id)

  type Values = map<string, Dec>

  /** `default` is the coerced default, absent for a required property. */
  datatype Property = Property(syncable: bool, readonly: bool, mayHaveRefs: bool, default: Option<Dec>)

  datatype ModelClass = ModelClass(columnar: bool, properties: map<string, Property>)

  type Classes = map<string, ModelClass>

  datatype Instance = Instance(name: string, values: Values)

  type Registry = map<Id, Instance>

  // ── Values of a new model, and resets of an existing one ────────────

  /** What BokehJS gives a new model: the attributes, and defaults for the rest. */
  function FreshValues(c: ModelClass, attrs: Values): Values {
    (map p | p in c.properties && c.properties[p].default.Some? :: c.properties[p].default.value) + attrs
  }

  predicate Resettable(c: ModelClass, p: string) {
    && p in c.properties
    && c.properties[p].syncable && !c.properties[p].readonly && !c.properties[p].mayHaveRefs
    && !(p == "data" && c.columnar)
    && c.properties[p].default.Some?
  }

  function WithOmittedDefaults(c: ModelClass, attrs: Values): Values {
    attrs + map p | p in c.properties && p !in attrs && Resettable(c, p) :: c.properties[p].default.value
  }

  // ── Decoding ────────────────────────────────────────────────────────

  /** The registry with what a decode has collected: new models in registration order,
      updates of known models in decoding order, and new models whose attributes are set. */
  datatype Progress = Progress(references: Registry, created: seq<Id>,
                               deferred: seq<(Id, Values)>, finalizable: seq<Id>)

  function Decode(cs: Classes, d: Progress, v: Enc): (Option<Dec>, Progress)
    decreases v
  {
    match v
    case Plain(n) => (Some(Number(n)), d)
    case Bad => (None, d)
    case Items(items) =>
      var (out, d') := DecodeItems(cs, d, items);
      (if out.Some? then Some(List(out.value)) else None, d')
    case Record(fields) =>
      var (out, d') := DecodeAttrs(cs, d, fields);
      (if out.Some? then Some(Entries(out.value)) else None, d')
    case Ref(id) => (if id in d.references then Some(Model(id)) else None, d)
    case Def(id, name, attrs) =>
      if id !in d.references then
        var d := d.(created := d.created + [id]);
        if name !in cs then (None, d)
        else
          var (values, d') := DecodeAttrs(cs, d.(references := d.references[id := Instance(name, map[])]), attrs);
          if values.None? then (None, d')
          else (Some(Model(id)),
                d'.(references := d'.references[id := Instance(name, FreshValues(cs[name], values.value))],
                    finalizable := d'.finalizable + [id]))
      else if d.references[id].name != name then (None, d)
      else
        var (values, d') := DecodeAttrs(cs, d, attrs);
        if values.None? then (None, d')
        else (Some(Model(id)), d'.(deferred := d'.deferred + [(id, values.value)]))
  }

  function DecodeItems(cs: Classes, d: Progress, items: seq<Enc>): (Option<seq<Dec>>, Progress)
    decreases items
  {
    if items == [] then (Some([]), d)
    else
      var (head, mid) := Decode(cs, d, items[0]);
      if head.None? then (None, mid)
      else
        var (rest, d') := DecodeItems(cs, mid, items[1..]);
        (if rest.Some? then Some([head.value] + rest.value) else None, d')
  }

  /** Later attributes of one name win, as in a JavaScript record. */
  function DecodeAttrs(cs: Classes, d: Progress, attrs: seq<Attr>): (Option<Values>, Progress)
    decreases attrs
  {
    if attrs == [] then (Some(map[]), d)
    else
      var (head, mid) := Decode(cs, d, attrs[0].value);
      if head.None? then (None, mid)
      else
        var (rest, d') := DecodeAttrs(cs, mid, attrs[1..]);
        (if rest.Some? then Some(map[attrs[0].key := head.value] + rest.value) else None, d')
  }

  // ── The outermost decode ────────────────────────────────────────────

  datatype Action = Finalize(id: Id) | Update(id: Id, attrs: Values)

  function Without(references: Registry, ids: seq<Id>): Registry {
    references - Ordering.Elements(ids)
  }

  function UpdateAttrs(cs: Classes, references: Registry, u: (Id, Values), fullState: bool): Values {
    if fullState && u.0 in references && references[u.0].name in cs
    then WithOmittedDefaults(cs[references[u.0].name], u.1) else u.1
  }

  function Updated(cs: Classes, references: Registry, u: (Id, Values), fullState: bool): (r: Registry)
    ensures r.Keys == references.Keys
  {
    if u.0 in references
    then references[u.0 := Instance(references[u.0].name,
                                    references[u.0].values + UpdateAttrs(cs, references, u, fullState))]
    else references
  }

  function AllUpdated(cs: Classes, references: Registry, us: seq<(Id, Values)>, fullState: bool): (r: Registry)
    ensures r.Keys == references.Keys
    decreases |us|
  {
    if us == [] then references
    else Updated(cs, AllUpdated(cs, references, us[..|us| - 1], fullState), us[|us| - 1], fullState)
  }

  function Outermost(cs: Classes, references: Registry, v: Enc, fullState: bool): (Option<Dec>, Registry) {
    var (r, d) := Decode(cs, Progress(references, [], [], []), v);
    if r.None? then (None, Without(d.references, d.created))
    else (r, AllUpdated(cs, d.references, d.deferred, fullState))
  }

  // ── Nothing known changes while a value is decoded ──────────────────

  /** Models known before are as they were, every other one is listed as created, and
      what was collected is only added to. */
  ghost predicate Grows(d: Progress, d': Progress) {
    && (forall id :: id in d.references ==> id in d'.references && d'.references[id] == d.references[id])
    && (forall id :: id in d'.references && id !in d.references ==> id in d'.created)
    && d.created <= d'.created && d.deferred <= d'.deferred && d.finalizable <= d'.finalizable
    && (forall i :: |d.created| <= i < |d'.created| ==> d'.created[i] !in d.references)
  }

  lemma GrowsOn(a: Progress, b: Progress, c: Progress)
    requires Grows(a, b) && Grows(b, c)
    ensures Grows(a, c)
  {
    forall i | |a.created| <= i < |c.created| ensures c.created[i] !in a.references {
      if i < |b.created| {
        assert c.created[i] == b.created[i];
      }
    }
    forall id | id in c.references && id !in a.references ensures id in c.created {
      if id in b.references {
        assert id in b.created;
      }
    }
  }

  lemma {:induction false} DecodeGrows(cs: Classes, d: Progress, v: Enc)
    ensures Grows(d, Decode(cs, d, v).1)
    decreases v
  {
    match v
    case Plain(_) =>
    case Bad =>
    case Items(items) => ItemsGrow(cs, d, items);
    case Record(fields) => AttrsGrow(cs, d, fields);
    case Ref(_) =>
    case Def(id, name, attrs) =>
      if id !in d.references {
        DefinesNew(cs, d, id, name, attrs);
      } else if d.references[id].name == name {
        AttrsGrow(cs, d, attrs);
      }
  }

  lemma {:induction false} DefinesNew(cs: Classes, d: Progress, id: Id, name: string, attrs: seq<Attr>)
    requires id !in d.references
    ensures Grows(d, Decode(cs, d, Def(id, name, attrs)).1)
    decreases attrs, 1
  {
    if name in cs {
      var started := Progress(d.references[id := Instance(name, map[])], d.created + [id], d.deferred, d.finalizable);
      AttrsGrow(cs, started, attrs);
      var d' := Decode(cs, d, Def(id, name, attrs)).1;
      assert d'.created[|d.created|] == id by {
        assert started.created[|d.created|] == id;
      }
      forall i | |d.created| <= i < |d'.created| ensures d'.created[i] !in d.references {
        if i > |d.created| {
          assert d'.created[i] !in started.references;
        }
      }
    }
  }

  lemma {:induction false} ItemsGrow(cs: Classes, d: Progress, items: seq<Enc>)
    ensures Grows(d, DecodeItems(cs, d, items).1)
    decreases items
  {
    if items != [] {
      DecodeGrows(cs, d, items[0]);
      var (head, mid) := Decode(cs, d, items[0]);
      if head.Some? {
        ItemsGrow(cs, mid, items[1..]);
        GrowsOn(d, mid, DecodeItems(cs, mid, items[1..]).1);
      }
    }
  }

  lemma {:induction false} AttrsGrow(cs: Classes, d: Progress, attrs: seq<Attr>)
    ensures Grows(d, DecodeAttrs(cs, d, attrs).1)
    decreases attrs, 0
  {
    if attrs != [] {
      DecodeGrows(cs, d, attrs[0].value);
      var (head, mid) := Decode(cs, d, attrs[0].value);
      if head.Some? {
        AttrsGrow(cs, mid, attrs[1..]);
        GrowsOn(d, mid, DecodeAttrs(cs, mid, attrs[1..]).1);
      }
    }
  }

  /** A decode that fails leaves the registry exactly as it was: no new model stays, and
      no known model has changed. */
  lemma FailedDecodeChangesNothing(cs: Classes, references: Registry, v: Enc, fullState: bool)
    requires Outermost(cs, references, v, fullState).0.None?
    ensures Outermost(cs, references, v, fullState).1 == references
  {
    var start := Progress(references, [], [], []);
    DecodeGrows(cs, start, v);
    var d := Decode(cs, start, v).1;
    forall id ensures id in Without(d.references, d.created) <==> id in references {
      if id in d.created {
        var i :| 0 <= i < |d.created| && d.created[i] == id;
        assert d.created[i] !in start.references;
      }
    }
  }

  // ── The order of a successful decode ────────────────────────────────

  /** A walk of the encoded value alone: the ids known so far, first definitions as they
      open and as they close, and repeated definitions as they close. */
  datatype Walk = Walk(known: set<Id>, opens: seq<Id>, closes: seq<Id>, repeats: seq<Id>)

  function WalkValue(w: Walk, v: Enc): Walk
    decreases v
  {
    match v
    case Plain(_) => w
    case Bad => w
    case Items(items) => WalkItems(w, items)
    case Record(fields) => WalkAttrs(w, fields)
    case Ref(_) => w
    case Def(id, _, attrs) =>
      if id in w.known then
        var w' := WalkAttrs(w, attrs);
        w'.(repeats := w'.repeats + [id])
      else
        var w' := WalkAttrs(w.(known := w.known + {id}, opens := w.opens + [id]), attrs);
        w'.(closes := w'.closes + [id])
  }

  function WalkItems(w: Walk, items: seq<Enc>): Walk
    decreases items
  {
    if items == [] then w else WalkItems(WalkValue(w, items[0]), items[1..])
  }

  function WalkAttrs(w: Walk, attrs: seq<Attr>): Walk
    decreases attrs
  {
    if attrs == [] then w else WalkAttrs(WalkValue(w, attrs[0].value), attrs[1..])
  }

  function Ids(us: seq<(Id, Values)>): seq<Id> {
    seq(|us|, i requires 0 <= i < |us| => us[i].0)
  }

  function WalkOf(d: Progress): Walk {
    Walk(d.references.Keys, d.created, d.finalizable, Ids(d.deferred))
  }

  lemma {:induction false} DecodeWalks(cs: Classes, d: Progress, v: Enc)
    requires Decode(cs, d, v).0.Some?
    ensures WalkOf(Decode(cs, d, v).1) == WalkValue(WalkOf(d), v)
    decreases v
  {
    match v
    case Plain(_) =>
    case Items(items) => ItemsWalk(cs, d, items);
    case Record(fields) => AttrsWalk(cs, d, fields);
    case Ref(_) =>
    case Def(id, name, attrs) =>
      var before := if id in d.references then d
                    else d.(references := d.references[id := Instance(name, map[])], created := d.created + [id]);
      AttrsWalk(cs, before, attrs);
      AttrsGrow(cs, before, attrs);
      var after := DecodeAttrs(cs, before, attrs).1;
      assert before.references.Keys == d.references.Keys + {id};
      assert id in after.references;
      var d' := Decode(cs, d, v).1;
      assert d'.references.Keys == after.references.Keys;
      if id in d.references {
        assert Ids(d'.deferred) == Ids(after.deferred) + [id];
      }
  }

  lemma {:induction false} ItemsWalk(cs: Classes, d: Progress, items: seq<Enc>)
    requires DecodeItems(cs, d, items).0.Some?
    ensures WalkOf(DecodeItems(cs, d, items).1) == WalkItems(WalkOf(d), items)
    decreases items
  {
    if items != [] {
      DecodeWalks(cs, d, items[0]);
      ItemsWalk(cs, Decode(cs, d, items[0]).1, items[1..]);
    }
  }

  lemma {:induction false} AttrsWalk(cs: Classes, d: Progress, attrs: seq<Attr>)
    requires DecodeAttrs(cs, d, attrs).0.Some?
    ensures WalkOf(DecodeAttrs(cs, d, attrs).1) == WalkAttrs(WalkOf(d), attrs)
    decreases attrs
  {
    if attrs != [] {
      DecodeWalks(cs, d, attrs[0].value);
      AttrsWalk(cs, Decode(cs, d, attrs[0].value).1, attrs[1..]);
    }
  }

  /** Every first definition that opens also closes. */
  ghost predicate Balanced(w: Walk, w': Walk) {
    forall id :: multiset(w'.opens)[id] + multiset(w.closes)[id] == multiset(w.opens)[id] + multiset(w'.closes)[id]
  }

  lemma {:induction false} WalkBalances(w: Walk, v: Enc)
    ensures Balanced(w, WalkValue(w, v))
    decreases v
  {
    match v
    case Plain(_) =>
    case Bad =>
    case Items(items) => ItemsBalance(w, items);
    case Record(fields) => AttrsBalance(w, fields);
    case Ref(_) =>
    case Def(id, _, attrs) =>
      AttrsBalance(if id in w.known then w else w.(known := w.known + {id}, opens := w.opens + [id]), attrs);
  }

  lemma {:induction false} ItemsBalance(w: Walk, items: seq<Enc>)
    ensures Balanced(w, WalkItems(w, items))
    decreases items
  {
    if items != [] {
      WalkBalances(w, items[0]);
      ItemsBalance(WalkValue(w, items[0]), items[1..]);
    }
  }

  lemma {:induction false} AttrsBalance(w: Walk, attrs: seq<Attr>)
    ensures Balanced(w, WalkAttrs(w, attrs))
    decreases attrs
  {
    if attrs != [] {
      WalkBalances(w, attrs[0].value);
      AttrsBalance(WalkValue(w, attrs[0].value), attrs[1..]);
    }
  }

  /** A successful decode finalizes exactly the models it registered, innermost first, and
      holds back one update per repeated definition, in the order those close. */
  lemma SuccessfulDecodeOrder(cs: Classes, references: Registry, v: Enc)
    requires Decode(cs, Progress(references, [], [], []), v).0.Some?
    ensures var d := Decode(cs, Progress(references, [], [], []), v).1;
            var w := WalkValue(Walk(references.Keys, [], [], []), v);
            && d.references.Keys == w.known
            && d.created == w.opens && d.finalizable == w.closes && Ids(d.deferred) == w.repeats
            && (forall id :: multiset(d.created)[id] == multiset(d.finalizable)[id])
            && (forall id :: id in w.known <==> id in references || id in d.created)
  {
    var start := Progress(references, [], [], []);
    assert WalkOf(start) == Walk(references.Keys, [], [], []);
    DecodeWalks(cs, start, v);
    DecodeGrows(cs, start, v);
    WalkBalances(WalkOf(start), v);
    CreatedAreRegistered(WalkOf(start), v);
  }

  /** Registered ids stay known. */
  lemma {:induction false} CreatedAreRegistered(w: Walk, v: Enc)
    ensures w.known <= WalkValue(w, v).known
    ensures (forall id :: id in w.opens ==> id in w.known) ==>
              forall id :: id in WalkValue(w, v).opens ==> id in WalkValue(w, v).known
    decreases v
  {
    match v
    case Plain(_) =>
    case Bad =>
    case Items(items) => ItemsAreRegistered(w, items);
    case Record(fields) => AttrsAreRegistered(w, fields);
    case Ref(_) =>
    case Def(id, _, attrs) =>
      AttrsAreRegistered(if id in w.known then w else w.(known := w.known + {id}, opens := w.opens + [id]), attrs);
  }

  lemma {:induction false} ItemsAreRegistered(w: Walk, items: seq<Enc>)
    ensures w.known <= WalkItems(w, items).known
    ensures (forall id :: id in w.opens ==> id in w.known) ==>
              forall id :: id in WalkItems(w, items).opens ==> id in WalkItems(w, items).known
    decreases items
  {
    if items != [] {
      CreatedAreRegistered(w, items[0]);
      ItemsAreRegistered(WalkValue(w, items[0]), items[1..]);
    }
  }

  lemma {:induction false} AttrsAreRegistered(w: Walk, attrs: seq<Attr>)
    ensures w.known <= WalkAttrs(w, attrs).known
    ensures (forall id :: id in w.opens ==> id in w.known) ==>
              forall id :: id in WalkAttrs(w, attrs).opens ==> id in WalkAttrs(w, attrs).known
    decreases attrs
  {
    if attrs != [] {
      CreatedAreRegistered(w, attrs[0].value);
      AttrsAreRegistered(WalkValue(w, attrs[0].value), attrs[1..]);
    }
  }

  // ── A full-state update agrees with a new model ─────────────────────

  lemma {:induction false} UpdatesKeepNames(cs: Classes, references: Registry, us: seq<(Id, Values)>, fullState: bool,
                                            id: Id)
    requires id in references
    ensures AllUpdated(cs, references, us, fullState)[id].name == references[id].name
    ensures (forall i :: 0 <= i < |us| ==> us[i].0 != id) ==>
              AllUpdated(cs, references, us, fullState)[id] == references[id]
    decreases |us|
  {
    if us != [] {
      UpdatesKeepNames(cs, references, us[..|us| - 1], fullState, id);
    }
  }

  function LookUp(references: Registry, id: Id, p: string): Option<Dec> {
    if id in references && p in references[id].values then Some(references[id].values[p]) else None
  }

  /** What a deferred update does to each property of each model: those it states are set; of
      those it omits, a full-state update resets the ones that are synced, writable, without
      references, with a default, and not the data of a columnar model; all else stays. */
  lemma UpdateSets(cs: Classes, references: Registry, u: (Id, Values), fullState: bool, id: Id, p: string)
    requires id in references
    ensures var after := Updated(cs, references, u, fullState);
            LookUp(after, id, p)
            == if id != u.0 then LookUp(references, id, p)
               else if p in u.1 then Some(u.1[p])
               else if fullState && references[id].name in cs && p in cs[references[id].name].properties
                       && var c := cs[references[id].name]; var prop := c.properties[p];
                          prop.syncable && !prop.readonly && !prop.mayHaveRefs && prop.default.Some?
                          && (c.columnar ==> p != "data")
               then cs[references[id].name].properties[p].default
               else LookUp(references, id, p)
  {
  }

  /** The last full-state update of a model decides: on every property that it states or that
      may be reset, the model holds what a new model built from that definition would hold,
      whatever it held before. */
  lemma {:induction false} LastUpdateIsFresh(cs: Classes, references: Registry, us: seq<(Id, Values)>, k: nat)
    requires k < |us| && us[k].0 in references && references[us[k].0].name in cs
    requires forall j :: k < j < |us| ==> us[j].0 != us[k].0
    ensures var c := cs[references[us[k].0].name];
            var values := AllUpdated(cs, references, us, true)[us[k].0].values;
            && (forall p :: Resettable(c, p) ==> p in values && values[p] == FreshValues(c, us[k].1)[p])
            && (forall p :: p in us[k].1 ==> p in values && values[p] == us[k].1[p])
    decreases |us|
  {
    var n := |us| - 1;
    UpdatesKeepNames(cs, references, us[..n], true, us[k].0);
    if k < n {
      LastUpdateIsFresh(cs, references, us[..n], k);
    }
  }

  /** A model known before that the patch does not define again is left alone, and no
      model is lost. */
  lemma OthersUntouched(cs: Classes, references: Registry, v: Enc, fullState: bool, id: Id)
    requires Outermost(cs, references, v, fullState).0.Some? && id in references
    requires id !in WalkValue(Walk(references.Keys, [], [], []), v).repeats
    ensures var after := Outermost(cs, references, v, fullState).1;
            id in after && after[id] == references[id]
  {
    var start := Progress(references, [], [], []);
    DecodeGrows(cs, start, v);
    assert WalkOf(start) == Walk(references.Keys, [], [], []);
    DecodeWalks(cs, start, v);
    var d := Decode(cs, start, v).1;
    forall i | 0 <= i < |d.deferred| ensures d.deferred[i].0 != id {
      assert Ids(d.deferred)[i] == d.deferred[i].0;
    }
    UpdatesKeepNames(cs, d.references, d.deferred, fullState, id);
  }

  // ── The patched deserializer ────────────────────────────────────────

  function Finalizes(ids: seq<Id>): seq<Action> {
    seq(|ids|, i requires 0 <= i < |ids| => Finalize(ids[i]))
  }

  /** What `setv` receives, in order; each call sees the registry as the earlier ones left it. */
  function Updates(cs: Classes, references: Registry, us: seq<(Id, Values)>, fullState: bool): (r: seq<Action>)
    ensures |r| == |us| && forall i :: 0 <= i < |us| ==> r[i].Update? && r[i].id == us[i].0
    decreases |us|
  {
    if us == [] then []
    else
      var n := |us| - 1;
      Updates(cs, references, us[..n], fullState)
      + [Update(us[n].0, UpdateAttrs(cs, AllUpdated(cs, references, us[..n], fullState), us[n], fullState))]
  }

  /** A hook of BokehJS's deserializer prototype: its own, or the one that defers updates. */
  datatype Hook = Original | Deferring

  /** BokehJS's deserializer with the two hooks `deferExistingModelUpdates` replaces. Only
      the replaced hooks decode as this class does. */
  class PatchedDeserializer {
    const classes: Classes
    var references: Registry
    var created: seq<Id>
    var deferred: seq<(Id, Values)>
    var finalizable: seq<Id>
    var log: seq<Action>
    var refHook: Hook
    var decodeHook: Hook

    ghost function State(): Progress
      reads this
    {
      Progress(references, created, deferred, finalizable)
    }

    constructor (classes: Classes, references: Registry)
      ensures this.classes == classes && this.references == references
      ensures State() == Progress(references, [], [], []) && log == [] && refHook.Original? && decodeHook.Original?
    {
      this.classes, this.references := classes, references;
      created, deferred, finalizable, log, refHook, decodeHook := [], [], [], [], Original, Original;
    }

    method DecodeNode(v: Enc) returns (r: Option<Dec>)
      requires refHook.Deferring? && decodeHook.Deferring?
      modifies this`references, this`created, this`deferred, this`finalizable
      ensures (r, State()) == Decode(classes, old(State()), v)
      decreases v, 0
    {
      match v
      case Plain(n) => r := Some(Number(n));
      case Bad => r := None;
      case Items(items) =>
        var elements: seq<Dec> := [];
        var i := 0;
        assert items[0..] == items;
        ghost var whole := DecodeItems(classes, State(), items).0;
        assert whole.Some? ==> elements + whole.value == whole.value;
        while i < |items|
          invariant 0 <= i <= |items|
          invariant var (rest, d) := DecodeItems(classes, State(), items[i..]);
                    DecodeItems(classes, old(State()), items)
                    == (if rest.Some? then Some(elements + rest.value) else None, d)
        {
          assert items[i..][1..] == items[i + 1..];
          var element := DecodeNode(items[i]);
          if element.None? {
            return None;
          }
          ghost var (rest, d) := DecodeItems(classes, State(), items[i + 1..]);
          assert rest.Some? ==> elements + ([element.value] + rest.value) == (elements + [element.value]) + rest.value;
          elements := elements + [element.value];
          i := i + 1;
        }
        assert items[i..] == [] && elements + [] == elements;
        r := Some(List(elements));
      case Record(fields) =>
        var entries := DecodeRecord(fields);
        r := if entries.Some? then Some(Entries(entries.value)) else None;
      case Ref(id) => r := if id in references then Some(Model(id)) else None;
      case Def(id, name, attrs) => r := DecodeObjectRef(id, name, attrs);
    }

    /** The hook: a known id is not updated now but later. */
    method DecodeObjectRef(id: Id, name: string, attrs: seq<Attr>) returns (r: Option<Dec>)
      requires refHook.Deferring? && decodeHook.Deferring?
      modifies this`references, this`created, this`deferred, this`finalizable
      ensures (r, State()) == Decode(classes, old(State()), Def(id, name, attrs))
      decreases attrs, 2
    {
      if id !in references {
        created := created + [id];
        if name !in classes {
          return None;
        }
        references := references[id := Instance(name, map[])];
        var values := DecodeRecord(attrs);
        if values.None? {
          return None;
        }
        references := references[id := Instance(name, FreshValues(classes[name], values.value))];
        finalizable := finalizable + [id];
        return Some(Model(id));
      }
      if references[id].name != name {
        return None;
      }
      var values := DecodeRecord(attrs);
      if values.None? {
        return None;
      }
      deferred := deferred + [(id, values.value)];
      r := Some(Model(id));
    }

    method DecodeRecord(attrs: seq<Attr>) returns (r: Option<Values>)
      requires refHook.Deferring? && decodeHook.Deferring?
      modifies this`references, this`created, this`deferred, this`finalizable
      ensures (r, State()) == DecodeAttrs(classes, old(State()), attrs)
      decreases attrs, 1
    {
      var values: Values := map[];
      var i := 0;
      assert attrs[0..] == attrs;
      ghost var whole := DecodeAttrs(classes, State(), attrs).0;
      assert whole.Some? ==> values + whole.value == whole.value;
      while i < |attrs|
        invariant 0 <= i <= |attrs|
        invariant var (rest, d) := DecodeAttrs(classes, State(), attrs[i..]);
                  DecodeAttrs(classes, old(State()), attrs)
                  == (if rest.Some? then Some(values + rest.value) else None, d)
      {
        assert attrs[i..][1..] == attrs[i + 1..];
        var value := DecodeNode(attrs[i].value);
        if value.None? {
          return None;
        }
        ghost var (rest, d) := DecodeAttrs(classes, State(), attrs[i + 1..]);
        if rest.Some? {
          assert values + (map[attrs[i].key := value.value] + rest.value)
              == values[attrs[i].key := value.value] + rest.value;
        }
        values := values[attrs[i].key := value.value];
        i := i + 1;
      }
      assert attrs[i..] == [] && values + map[] == values;
      r := Some(values);
    }

    /** `deferExistingModelUpdates` around one patch. `eventsFail`: the patch decodes, and
        applying its events then throws. Both hooks are back on every exit. */
    method DeferExistingModelUpdates(patch: Enc, fullState: bool, eventsFail: bool) returns (ok: bool)
      requires created == [] && deferred == [] && finalizable == []
      modifies this
      ensures refHook == old(refHook) && decodeHook == old(decodeHook)
      ensures references == Outermost(classes, old(references), patch, fullState).1
      ensures created == [] && deferred == [] && finalizable == []
      ensures ok == (Outermost(classes, old(references), patch, fullState).0.Some? && !eventsFail)
      ensures var (r, d) := Decode(classes, Progress(old(references), [], [], []), patch);
              if r.None? then log == old(log)
              else log == old(log) + Finalizes(d.finalizable) + Updates(classes, d.references, d.deferred, fullState)
    {
      var decodeObjectRef, decode := refHook, decodeHook;
      refHook, decodeHook := Deferring, Deferring;
      var decoded := DecodeNode(patch);
      if decoded.None? {
        Unregister();
        deferred, finalizable := [], [];
        ok := false;
      } else {
        created := [];
        FinalizeAll();
        UpdateAll(fullState);
        ok := !eventsFail;
      }
      refHook, decodeHook := decodeObjectRef, decode;
    }

    method Unregister()
      modifies this`references, this`created
      ensures references == Without(old(references), old(created)) && created == []
    {
      var ids := created;
      created := [];
      var i := 0;
      while i < |ids|
        invariant 0 <= i <= |ids|
        invariant references == old(references) - Ordering.Elements(ids[..i]) && created == []
      {
        assert Ordering.Elements(ids[..i + 1]) == Ordering.Elements(ids[..i]) + {ids[i]};
        references := references - {ids[i]};
        i := i + 1;
      }
      assert ids[..|ids|] == ids;
    }

    method FinalizeAll()
      modifies this`finalizable, this`log
      ensures log == old(log) + Finalizes(old(finalizable)) && finalizable == []
    {
      var ids := finalizable;
      finalizable := [];
      var i := 0;
      while i < |ids|
        invariant 0 <= i <= |ids|
        invariant log == old(log) + Finalizes(ids)[..i] && finalizable == []
      {
        log := log + [Finalize(ids[i])];
        i := i + 1;
      }
    }

    method UpdateAll(fullState: bool)
      modifies this`references, this`deferred, this`log
      ensures references == AllUpdated(classes, old(references), old(deferred), fullState) && deferred == []
      ensures log == old(log) + Updates(classes, old(references), old(deferred), fullState)
    {
      var us := deferred;
      deferred := [];
      var i := 0;
      while i < |us|
        invariant 0 <= i <= |us| && deferred == []
        invariant references == AllUpdated(classes, old(references), us[..i], fullState)
        invariant log == old(log) + Updates(classes, old(references), us[..i], fullState)
      {
        UpdatesStep(classes, old(references), us, i, fullState);
        UpdateOne(us[i].0, us[i].1, fullState);
        i := i + 1;
      }
      assert us[..|us|] == us;
    }

    method UpdateOne(id: Id, attributes: Values, fullState: bool)
      modifies this`references, this`log
      ensures references == Updated(classes, old(references), (id, attributes), fullState)
      ensures log == old(log) + [Update(id, UpdateAttrs(classes, old(references), (id, attributes), fullState))]
    {
      var attrs := attributes;
      if fullState && id in references && references[id].name in classes {
        attrs := AddOmittedDefaults(classes[references[id].name], attributes);
      }
      log := log + [Update(id, attrs)];
      if id in references {
        references := references[id := Instance(references[id].name, references[id].values + attrs)];
      }
    }

    /** `withOmittedDefaults`: the properties in turn, skipping those that may not be reset. */
    method AddOmittedDefaults(c: ModelClass, attrs: Values) returns (r: Values)
      ensures r == WithOmittedDefaults(c, attrs)
    {
      r := attrs;
      var rest := c.properties.Keys;
      while rest != {}
        invariant rest <= c.properties.Keys
        invariant r == DefaultsAmong(c, attrs, c.properties.Keys - rest)
      {
        var p :| p in rest;
        var prop := c.properties[p];
        DefaultsStep(c, attrs, c.properties.Keys - rest, p);
        assert c.properties.Keys - (rest - {p}) == (c.properties.Keys - rest) + {p};
        rest := rest - {p};
        if p in r || !prop.syncable || prop.readonly || prop.mayHaveRefs {
          continue;
        }
        if p == "data" && c.columnar {
          continue;
        }
        if prop.default.Some? {
          r := r[p := prop.default.value];
        }
      }
    }
  }

  /** The defaults of the properties looked at so far. */
  function DefaultsAmong(c: ModelClass, attrs: Values, done: set<string>): Values {
    attrs + map p | p in c.properties && p in done && p !in attrs && Resettable(c, p) :: c.properties[p].default.value
  }

  lemma DefaultsStep(c: ModelClass, attrs: Values, done: set<string>, p: string)
    requires p in c.properties && p !in done
    ensures DefaultsAmong(c, attrs, done + {p})
         == if p !in attrs && Resettable(c, p) then DefaultsAmong(c, attrs, done)[p := c.properties[p].default.value]
            else DefaultsAmong(c, attrs, done)
    ensures p in DefaultsAmong(c, attrs, done) <==> p in attrs
  {
  }

  lemma UpdatesStep(cs: Classes, references: Registry, us: seq<(Id, Values)>, i: nat, fullState: bool)
    requires i < |us|
    ensures var before := AllUpdated(cs, references, us[..i], fullState);
            && AllUpdated(cs, references, us[..i + 1], fullState) == Updated(cs, before, us[i], fullState)
            && Updates(cs, references, us[..i + 1], fullState)
               == Updates(cs, references, us[..i], fullState)
                  + [Update(us[i].0, UpdateAttrs(cs, before, us[i], fullState))]
  {
    assert us[..i + 1][..i] == us[..i];
  }
}
