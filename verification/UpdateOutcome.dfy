/** When a full update decodes, said of the kernel's graph and the live models, and what it
    leaves on the view. */
module UpdateOutcome {
  import opened Options
  import Ordering
  import Expander = ModelExpander
  import opened Deserializer
  import opened Decodability
  import opened Remounting
  import opened FullUpdates

  // ── What the marks of an expanded value are ─────────────────────────

  /** The definitions and references among the marks. */
  function Strip(ms: seq<Mark>): seq<Expander.Token>
    decreases |ms|
  {
    if ms == [] then []
    else (match ms[0]
          case Refused => []
          case Refers(id) => [Expander.Bare(id)]
          case Defines(id, _) => [Expander.Open(id)]) + Strip(ms[1..])
  }

  lemma {:induction false} StripAppend(ms: seq<Mark>, ns: seq<Mark>)
    ensures Strip(ms + ns) == Strip(ms) + Strip(ns)
    decreases |ms|
  {
    if ms == [] {
      assert ms + ns == ns;
    } else {
      assert (ms + ns)[1..] == ms[1..] + ns;
      StripAppend(ms[1..], ns);
    }
  }

  lemma StripOne(m: Mark)
    ensures Strip([m]) == match m
                          case Refused => []
                          case Refers(id) => [Expander.Bare(id)]
                          case Defines(id, _) => [Expander.Open(id)]
  {
    assert [m][1..] == [];
    assert Strip([]) == [];
  }

  lemma {:induction false} MarksAreTokens(leaf: Leaf, v: Json)
    ensures Strip(Marks(EncOf(leaf, v))) == Expander.Tokens(v)
    decreases v
  {
    if Expander.IsDefinition(v) {
      var mark := Defines(Expander.DefinedId(v), Expander.DefinedName(v));
      FieldMarksAreTokens(leaf, Expander.Attributes(v));
      StripOne(mark);
      StripAppend([mark], MarksOfAttrs(EncFields(leaf, Expander.Attributes(v))));
    } else if Expander.IsReference(v) {
      StripOne(Refers(Expander.ReferredId(v)));
    } else {
      match v
      case Atom(_) => StripOne(Refused);
      case Text(_) => StripOne(Refused);
      case Arr(items) => ItemMarksAreTokens(leaf, items);
      case Rec(fields) => FieldMarksAreTokens(leaf, fields);
    }
  }

  lemma {:induction false} ItemMarksAreTokens(leaf: Leaf, items: seq<Json>)
    ensures Strip(MarksOfItems(EncItems(leaf, items))) == Expander.ItemTokens(items)
    decreases items
  {
    if items != [] {
      MarksAreTokens(leaf, items[0]);
      ItemMarksAreTokens(leaf, items[1..]);
      assert EncItems(leaf, items)[1..] == EncItems(leaf, items[1..]);
      StripAppend(Marks(EncOf(leaf, items[0])), MarksOfItems(EncItems(leaf, items[1..])));
    }
  }

  lemma {:induction false} FieldMarksAreTokens(leaf: Leaf, fields: seq<Expander.Field>)
    ensures Strip(MarksOfAttrs(EncFields(leaf, fields))) == Expander.FieldTokens(fields)
    decreases fields
  {
    if fields != [] {
      MarksAreTokens(leaf, fields[0].value);
      FieldMarksAreTokens(leaf, fields[1..]);
      assert EncFields(leaf, fields)[1..] == EncFields(leaf, fields[1..]);
      StripAppend(Marks(EncOf(leaf, fields[0].value)), MarksOfAttrs(EncFields(leaf, fields[1..])));
    }
  }

  // ── Sound properties ────────────────────────────────────────────────

  /** BokehJS takes every atom and string in the value, and every reference is to a model of
      the graph or a known one. */
  predicate Sound(leaf: Leaf, models: Expander.Models, known: Names, v: Json)
    decreases v
  {
    if Expander.IsReference(v) then Expander.ReferredId(v) in models || Expander.ReferredId(v) in known
    else match v
      case Atom(_) => leaf(v).Some?
      case Text(_) => leaf(v).Some?
      case Arr(items) => SoundItems(leaf, models, known, items)
      case Rec(fields) => SoundFields(leaf, models, known, fields)
  }

  predicate SoundItems(leaf: Leaf, models: Expander.Models, known: Names, items: seq<Json>)
    decreases items
  {
    items == [] || (Sound(leaf, models, known, items[0]) && SoundItems(leaf, models, known, items[1..]))
  }

  predicate SoundFields(leaf: Leaf, models: Expander.Models, known: Names, fields: seq<Expander.Field>)
    decreases fields
  {
    fields == [] || (Sound(leaf, models, known, fields[0].value) && SoundFields(leaf, models, known, fields[1..]))
  }

  /** No mark is a refusal or a reference to a model neither in the graph nor known. */
  predicate Clean(models: Expander.Models, known: Names, ms: seq<Mark>) {
    forall k :: 0 <= k < |ms| ==> !ms[k].Refused? && (ms[k].Refers? ==> ms[k].id in models || ms[k].id in known)
  }

  lemma CleanAppend(models: Expander.Models, known: Names, ms: seq<Mark>, ns: seq<Mark>)
    ensures Clean(models, known, ms + ns) <==> Clean(models, known, ms) && Clean(models, known, ns)
  {
    forall k | 0 <= k < |ms| ensures (ms + ns)[k] == ms[k] {
    }
    forall k | 0 <= k < |ns| ensures (ms + ns)[|ms| + k] == ns[k] {
    }
  }

  /** The models the tokens define have sound properties. */
  ghost predicate SoundModels(leaf: Leaf, models: Expander.Models, known: Names, ts: seq<Expander.Token>) {
    forall id :: Expander.Open(id) in ts && id in models ==> SoundFields(leaf, models, known, models[id].props)
  }

  lemma SoundModelsAppend(leaf: Leaf, models: Expander.Models, known: Names,
                          ts: seq<Expander.Token>, us: seq<Expander.Token>)
    ensures SoundModels(leaf, models, known, ts + us)
        <==> SoundModels(leaf, models, known, ts) && SoundModels(leaf, models, known, us)
  {
  }

  /** Expanding neither adds nor hides what could stop a decode. */
  lemma {:induction false} CleanWhenSound(leaf: Leaf, models: Expander.Models, known: Names, v: Json)
    requires Expander.Faithful(models, v)
    ensures Clean(models, known, Marks(EncOf(leaf, v)))
        <==> Sound(leaf, models, known, Expander.Erase(v)) && SoundModels(leaf, models, known, Expander.Tokens(v))
    decreases v
  {
    if Expander.IsDefinition(v) {
      FieldsCleanWhenSound(leaf, models, known, Expander.Attributes(v));
      DefinitionCleans(leaf, models, known, v);
    } else if Expander.IsReference(v) {
      var id := Expander.ReferredId(v);
      assert v == Expander.Reference(id);
      Expander.ReferenceErases(models, id);
      CleanOne(models, known, Refers(id));
    } else {
      match v
      case Atom(_) => CleanOne(models, known, Refused);
      case Text(_) => CleanOne(models, known, Refused);
      case Arr(items) => ItemsCleanWhenSound(leaf, models, known, items);
      case Rec(fields) =>
        FieldsCleanWhenSound(leaf, models, known, fields);
        ErasureKeepsShape(fields);
    }
  }

  lemma CleanOne(models: Expander.Models, known: Names, m: Mark)
    ensures Clean(models, known, [m]) <==> !m.Refused? && (m.Refers? ==> m.id in models || m.id in known)
  {
    assert [m][0] == m;
  }

  lemma DefinitionCleans(leaf: Leaf, models: Expander.Models, known: Names, v: Json)
    requires Expander.IsDefinition(v) && Expander.Faithful(models, v)
    requires var attributes := Expander.Attributes(v);
             Clean(models, known, MarksOfAttrs(EncFields(leaf, attributes)))
             <==> SoundFields(leaf, models, known, Expander.EraseFields(attributes))
                  && SoundModels(leaf, models, known, Expander.FieldTokens(attributes))
    ensures Clean(models, known, Marks(EncOf(leaf, v)))
        <==> Sound(leaf, models, known, Expander.Erase(v)) && SoundModels(leaf, models, known, Expander.Tokens(v))
  {
    var id, attributes := Expander.DefinedId(v), Expander.Attributes(v);
    CleanAppend(models, known, [Defines(id, Expander.DefinedName(v))], MarksOfAttrs(EncFields(leaf, attributes)));
    SoundModelsAppend(leaf, models, known, [Expander.Open(id)], Expander.FieldTokens(attributes));
    OneOpened(leaf, models, known, id);
  }

  lemma OneOpened(leaf: Leaf, models: Expander.Models, known: Names, id: Id)
    ensures SoundModels(leaf, models, known, [Expander.Open(id)])
        <==> (id in models ==> SoundFields(leaf, models, known, models[id].props))
  {
    assert Expander.Open(id) in [Expander.Open(id)];
  }

  lemma {:induction false} ItemsCleanWhenSound(leaf: Leaf, models: Expander.Models, known: Names, items: seq<Json>)
    requires Expander.FaithfulItems(models, items)
    ensures Clean(models, known, MarksOfItems(EncItems(leaf, items)))
        <==> SoundItems(leaf, models, known, Expander.EraseItems(items))
             && SoundModels(leaf, models, known, Expander.ItemTokens(items))
    decreases items
  {
    if items != [] {
      CleanWhenSound(leaf, models, known, items[0]);
      ItemsCleanWhenSound(leaf, models, known, items[1..]);
      assert EncItems(leaf, items)[1..] == EncItems(leaf, items[1..]);
      assert Expander.EraseItems(items)[1..] == Expander.EraseItems(items[1..]);
      CleanAppend(models, known, Marks(EncOf(leaf, items[0])), MarksOfItems(EncItems(leaf, items[1..])));
      SoundModelsAppend(leaf, models, known, Expander.Tokens(items[0]), Expander.ItemTokens(items[1..]));
    }
  }

  lemma {:induction false} FieldsCleanWhenSound(leaf: Leaf, models: Expander.Models, known: Names,
                                                fields: seq<Expander.Field>)
    requires Expander.FaithfulFields(models, fields)
    ensures Clean(models, known, MarksOfAttrs(EncFields(leaf, fields)))
        <==> SoundFields(leaf, models, known, Expander.EraseFields(fields))
             && SoundModels(leaf, models, known, Expander.FieldTokens(fields))
    decreases fields
  {
    if fields != [] {
      CleanWhenSound(leaf, models, known, fields[0].value);
      FieldsCleanWhenSound(leaf, models, known, fields[1..]);
      assert EncFields(leaf, fields)[1..] == EncFields(leaf, fields[1..]);
      assert Expander.EraseFields(fields)[1..] == Expander.EraseFields(fields[1..]);
      CleanAppend(models, known, Marks(EncOf(leaf, fields[0].value)), MarksOfAttrs(EncFields(leaf, fields[1..])));
      SoundModelsAppend(leaf, models, known, Expander.Tokens(fields[0].value), Expander.FieldTokens(fields[1..]));
    }
  }

  // ── Names ───────────────────────────────────────────────────────────

  /** Every definition among the marks has the name of its model. */
  ghost predicate Named(models: Expander.Models, ms: seq<Mark>) {
    forall k :: 0 <= k < |ms| && ms[k].Defines? ==> ms[k].id in models && ms[k].name == models[ms[k].id].name
  }

  lemma NamedAppend(models: Expander.Models, ms: seq<Mark>, ns: seq<Mark>)
    requires Named(models, ms) && Named(models, ns)
    ensures Named(models, ms + ns)
  {
  }

  lemma {:induction false} MarksNamed(leaf: Leaf, models: Expander.Models, v: Json)
    requires Expander.Faithful(models, v)
    ensures Named(models, Marks(EncOf(leaf, v)))
    decreases v
  {
    if Expander.IsDefinition(v) {
      FieldMarksNamed(leaf, models, Expander.Attributes(v));
      NamedAppend(models, [Defines(Expander.DefinedId(v), Expander.DefinedName(v))],
                  MarksOfAttrs(EncFields(leaf, Expander.Attributes(v))));
    } else if !Expander.IsReference(v) {
      match v
      case Atom(_) =>
      case Text(_) =>
      case Arr(items) => ItemMarksNamed(leaf, models, items);
      case Rec(fields) => FieldMarksNamed(leaf, models, fields);
    }
  }

  lemma {:induction false} ItemMarksNamed(leaf: Leaf, models: Expander.Models, items: seq<Json>)
    requires Expander.FaithfulItems(models, items)
    ensures Named(models, MarksOfItems(EncItems(leaf, items)))
    decreases items
  {
    if items != [] {
      MarksNamed(leaf, models, items[0]);
      ItemMarksNamed(leaf, models, items[1..]);
      assert EncItems(leaf, items)[1..] == EncItems(leaf, items[1..]);
      NamedAppend(models, Marks(EncOf(leaf, items[0])), MarksOfItems(EncItems(leaf, items[1..])));
    }
  }

  lemma {:induction false} FieldMarksNamed(leaf: Leaf, models: Expander.Models, fields: seq<Expander.Field>)
    requires Expander.FaithfulFields(models, fields)
    ensures Named(models, MarksOfAttrs(EncFields(leaf, fields)))
    decreases fields
  {
    if fields != [] {
      MarksNamed(leaf, models, fields[0].value);
      FieldMarksNamed(leaf, models, fields[1..]);
      assert EncFields(leaf, fields)[1..] == EncFields(leaf, fields[1..]);
      NamedAppend(models, Marks(EncOf(leaf, fields[0].value)), MarksOfAttrs(EncFields(leaf, fields[1..])));
    }
  }

  // ── Reading an expanded graph ───────────────────────────────────────

  /** A known model keeps its name, and a new one has a class. */
  predicate Fits(cs: Classes, base: Names, models: Expander.Models, id: Id)
    requires id in models
  {
    if id in base then base[id] == models[id].name else models[id].name in cs
  }

  ghost predicate AllFit(cs: Classes, base: Names, models: Expander.Models, ts: seq<Expander.Token>) {
    forall id :: Expander.Open(id) in ts && id in models ==> Fits(cs, base, models, id)
  }

  /** What is known after the models in `before` were opened. */
  ghost predicate Knows(base: Names, before: set<Id>, known: Names) {
    known.Keys == base.Keys + before && forall id :: id in base ==> known[id] == base[id]
  }

  lemma AllFitHead(cs: Classes, base: Names, models: Expander.Models, ts: seq<Expander.Token>)
    requires ts != []
    ensures AllFit(cs, base, models, ts)
        <==> (ts[0].Open? && ts[0].id in models ==> Fits(cs, base, models, ts[0].id))
             && AllFit(cs, base, models, ts[1..])
  {
    assert ts == [ts[0]] + ts[1..];
  }

  lemma CleanHead(models: Expander.Models, known: Names, ms: seq<Mark>)
    requires ms != []
    ensures Clean(models, known, ms) <==> Clean(models, known, [ms[0]]) && Clean(models, known, ms[1..])
  {
    assert ms == [ms[0]] + ms[1..];
    CleanAppend(models, known, [ms[0]], ms[1..]);
  }

  lemma {:induction false} ReadsGraph(cs: Classes, base: Names, models: Expander.Models, ms: seq<Mark>,
                                      known: Names, before: set<Id>, after: set<Id>)
    requires Named(models, ms) && Expander.Opens(models, Strip(ms), before, after)
    requires Knows(base, before, known) && before <= models.Keys
    ensures Readable(cs, known, ms) <==> Clean(models, base, ms) && AllFit(cs, base, models, Strip(ms))
    ensures Knows(base, after, LearnAll(known, ms))
    decreases |ms|
  {
    if ms != [] {
      CleanHead(models, base, ms);
      assert Named(models, ms[1..]);
      ReadsMark(cs, base, models, ms, known, before, after);
      var mid := if ms[0].Defines? then before + {ms[0].id} else before;
      ReadsGraph(cs, base, models, ms[1..], Learn(known, ms[0]), mid, after);
    }
  }

  lemma ReadsMark(cs: Classes, base: Names, models: Expander.Models, ms: seq<Mark>,
                  known: Names, before: set<Id>, after: set<Id>)
    requires ms != [] && Named(models, ms) && Expander.Opens(models, Strip(ms), before, after)
    requires Knows(base, before, known) && before <= models.Keys
    ensures ms[0].Defines? ==> ms[0].id in models
    ensures var mid := if ms[0].Defines? then before + {ms[0].id} else before;
            && Expander.Opens(models, Strip(ms[1..]), mid, after) && mid <= models.Keys
            && Knows(base, mid, Learn(known, ms[0]))
            && (AllFit(cs, base, models, Strip(ms))
                <==> (ms[0].Defines? ==> Fits(cs, base, models, ms[0].id)) && AllFit(cs, base, models, Strip(ms[1..])))
            && (Passes(cs, known, ms[0])
                <==> Clean(models, base, [ms[0]]) && (ms[0].Defines? ==> Fits(cs, base, models, ms[0].id)))
  {
    OpensMark(models, ms, before, after);
    PassesMark(cs, base, models, ms[0], known, before);
    if ms[0].Refused? {
      assert Strip(ms) == Strip(ms[1..]);
    } else {
      assert Strip(ms)[1..] == Strip(ms[1..]);
      AllFitHead(cs, base, models, Strip(ms));
    }
  }

  lemma OpensMark(models: Expander.Models, ms: seq<Mark>, before: set<Id>, after: set<Id>)
    requires ms != [] && Named(models, ms) && Expander.Opens(models, Strip(ms), before, after)
    ensures var mid := if ms[0].Defines? then before + {ms[0].id} else before;
            Expander.Opens(models, Strip(ms[1..]), mid, after)
    ensures ms[0].Refers? && ms[0].id in models ==> ms[0].id in before
    ensures ms[0].Defines? ==> ms[0].id in models && ms[0].name == models[ms[0].id].name && ms[0].id !in before
  {
    if ms[0].Refused? {
      assert Strip(ms) == Strip(ms[1..]);
    } else {
      assert Strip(ms)[1..] == Strip(ms[1..]);
    }
  }

  lemma PassesMark(cs: Classes, base: Names, models: Expander.Models, m: Mark, known: Names, before: set<Id>)
    requires Knows(base, before, known) && before <= models.Keys
    requires m.Refers? && m.id in models ==> m.id in before
    requires m.Defines? ==> m.id in models && m.name == models[m.id].name && m.id !in before
    ensures Passes(cs, known, m) <==> Clean(models, base, [m]) && (m.Defines? ==> Fits(cs, base, models, m.id))
    ensures Knows(base, if m.Defines? then before + {m.id} else before, Learn(known, m))
  {
    CleanOne(models, base, m);
  }

  // ── When a full update decodes ──────────────────────────────────────

  /** Every model reachable from the roots has sound properties and fits the registry, and
      every root that is to go is a known model or a reachable one. */
  ghost predicate Takes(cs: Classes, references: Registry, leaf: Leaf, models: Expander.Models,
                        rootIds: seq<Id>, gone: seq<Id>)
  {
    var names, roots := NamesOf(references), Ordering.Elements(rootIds);
    && (forall id :: id in models && Expander.Reachable(models, roots, id) ==>
          SoundFields(leaf, models, names, models[id].props) && Fits(cs, names, models, id))
    && (forall i :: 0 <= i < |gone| ==> gone[i] in references || Expander.Reachable(models, roots, gone[i]))
  }

  lemma {:induction false} KnownSound(leaf: Leaf, models: Expander.Models, known: Names, ids: seq<Id>)
    ensures SoundItems(leaf, models, known, Expander.Known(models, ids))
    decreases ids
  {
    if ids != [] {
      KnownSound(leaf, models, known, ids[1..]);
      if ids[0] in models {
        assert Expander.Known(models, ids)[1..] == Expander.Known(models, ids[1..]);
      } else {
        assert Expander.Known(models, ids) == Expander.Known(models, ids[1..]);
      }
    }
  }

  lemma {:induction false} ReferencesRead(cs: Classes, known: Names, ids: seq<Id>)
    ensures Readable(cs, known, MarksOfItems(References(ids))) <==> forall i :: 0 <= i < |ids| ==> ids[i] in known
    decreases ids
  {
    if ids != [] {
      ReferencesRead(cs, known, ids[1..]);
      assert References(ids)[1..] == References(ids[1..]);
      var rest := MarksOfItems(References(ids[1..]));
      assert MarksOfItems(References(ids)) == [Refers(ids[0])] + rest && ([Refers(ids[0])] + rest)[1..] == rest;
      forall i | 0 < i < |ids| ensures ids[i] == ids[1..][i - 1] {
      }
    }
  }

  lemma {:induction false} MarksOfAppend(items: seq<Enc>, more: seq<Enc>)
    ensures MarksOfItems(items + more) == MarksOfItems(items) + MarksOfItems(more)
    decreases items
  {
    if items == [] {
      assert items + more == more;
    } else {
      assert (items + more)[1..] == items[1..] + more;
      MarksOfAppend(items[1..], more);
      Ordering.Regroup(Marks(items[0]), MarksOfItems(items[1..]), MarksOfItems(more));
    }
  }

  /** The models opened are the reachable ones. */
  lemma OpenedAreReachable(models: Expander.Models, rootIds: seq<Id>, id: Id)
    requires Expander.PlainModels(models)
    ensures var (roots, after) := Expander.ExpandRoots(models, {}, rootIds);
            && (Expander.Open(id) in Expander.ItemTokens(roots)
                <==> Expander.Reachable(models, Ordering.Elements(rootIds), id))
            && (id in after <==> Expander.Reachable(models, Ordering.Elements(rootIds), id))
            && (id in after ==> id in models)
  {
    var (roots, after) := Expander.ExpandRoots(models, {}, rootIds);
    Expander.DefinesReachableOnce(models, rootIds);
    Expander.RootsOpen(models, {}, rootIds);
    Expander.OpensOnce(models, Expander.ItemTokens(roots), {}, after);
    var ts := Expander.ItemTokens(roots);
    assert multiset(ts)[Expander.Open(id)] > 0 <==> Expander.Open(id) in ts;
    OpenedInGraph(models, Expander.ItemTokens(roots), {}, after);
  }

  lemma {:induction false} OpenedInGraph(models: Expander.Models, ts: seq<Expander.Token>,
                                         before: set<Id>, after: set<Id>)
    requires Expander.Opens(models, ts, before, after) && before <= models.Keys
    ensures after <= models.Keys
    decreases |ts|
  {
    if ts != [] {
      OpenedInGraph(models, ts[1..], if ts[0].Open? then before + {ts[0].id} else before, after);
    }
  }

  lemma RootsRead(cs: Classes, names: Names, leaf: Leaf, models: Expander.Models, rootIds: seq<Id>)
    requires Expander.PlainModels(models)
    ensures var (roots, after) := Expander.ExpandRoots(models, {}, rootIds);
            var ms, ts := MarksOfItems(EncItems(leaf, roots)), Expander.ItemTokens(roots);
            && (Readable(cs, names, ms) <==> SoundModels(leaf, models, names, ts) && AllFit(cs, names, models, ts))
            && Knows(names, after, LearnAll(names, ms))
  {
    var (roots, after) := Expander.ExpandRoots(models, {}, rootIds);
    Expander.RootsKeepMeaning(models, {}, rootIds);
    Expander.RootsOpen(models, {}, rootIds);
    ItemMarksAreTokens(leaf, roots);
    ItemMarksNamed(leaf, models, roots);
    ReadsGraph(cs, names, models, MarksOfItems(EncItems(leaf, roots)), names, {}, after);
    ItemsCleanWhenSound(leaf, models, names, roots);
    KnownSound(leaf, models, names, rootIds);
  }

  /** A full update decodes over a registry if and only if the registry takes its graph. */
  lemma FullUpdateDecodes(cs: Classes, references: Registry, leaf: Leaf, models: Expander.Models,
                          rootIds: seq<Id>, gone: seq<Id>)
    requires Expander.PlainModels(models)
    ensures Outermost(cs, references, FullPatch(leaf, models, rootIds, gone), true).0.Some?
        <==> Takes(cs, references, leaf, models, rootIds, gone)
  {
    var names := NamesOf(references);
    var (roots, after) := Expander.ExpandRoots(models, {}, rootIds);
    var ms := MarksOfItems(EncItems(leaf, roots));
    DecodeReads(cs, Progress(references, [], [], []), FullPatch(leaf, models, rootIds, gone));
    MarksOfAppend(EncItems(leaf, roots), References(gone));
    ReadableAppend(cs, names, ms, MarksOfItems(References(gone)));
    RootsRead(cs, names, leaf, models, rootIds);
    ReferencesRead(cs, LearnAll(names, ms), gone);
    forall id
      ensures Expander.Open(id) in Expander.ItemTokens(roots)
          <==> Expander.Reachable(models, Ordering.Elements(rootIds), id)
      ensures id in after <==> Expander.Reachable(models, Ordering.Elements(rootIds), id)
    {
      OpenedAreReachable(models, rootIds, id);
    }
  }

  /** The model holds what the graph states, and defaults where it may be reset. */
  ghost predicate Holds(cs: Classes, instance: Instance, name: string, stated: Values) {
    && instance.name == name
    && (forall p :: p in stated ==> p in instance.values && instance.values[p] == stated[p])
    && (name in cs ==> forall p :: Resettable(cs[name], p) && p !in stated ==>
          p in instance.values && Some(instance.values[p]) == cs[name].properties[p].default)
  }

  ghost predicate KnowsClasses(cs: Classes, references: Registry) {
    forall id :: id in references ==> references[id].name in cs
  }

  /** After a full update, over any live registry, every model reachable from the roots is
      there, new or known before, and holds what the kernel's graph states, with defaults
      for what it omits. */
  lemma FullUpdateShowsGraph(cs: Classes, references: Registry, leaf: Leaf, models: Expander.Models,
                             rootIds: seq<Id>, gone: seq<Id>, id: Id)
    requires Expander.PlainModels(models) && Expander.Reachable(models, Ordering.Elements(rootIds), id)
    requires KnowsClasses(cs, references) && Takes(cs, references, leaf, models, rootIds, gone)
    ensures var after := Outermost(cs, references, FullPatch(leaf, models, rootIds, gone), true).1;
            id in models && id in after && Holds(cs, after[id], models[id].name, Stated(leaf, models[id]))
  {
    var patch := FullPatch(leaf, models, rootIds, gone);
    FullUpdateDecodes(cs, references, leaf, models, rootIds, gone);
    PatchDefines(leaf, models, rootIds, gone, id);
    if id in references {
      KnownHeldBack(cs, Progress(references, [], [], []), patch, id);
      Reconciled(cs, references, patch, id);
    } else {
      Mounted(cs, references, patch, id);
    }
  }

  /** Reconciling a live document with a full update and mounting the update anew agree on
      every model reachable from the roots: on what the graph states, and on every property
      that may be reset. */
  lemma UpdatingIsRemounting(cs: Classes, references: Registry, leaf: Leaf, models: Expander.Models,
                             rootIds: seq<Id>, gone: seq<Id>, id: Id)
    requires Expander.PlainModels(models) && Expander.Reachable(models, Ordering.Elements(rootIds), id)
    requires KnowsClasses(cs, references)
    requires Takes(cs, references, leaf, models, rootIds, gone) && Takes(cs, map[], leaf, models, rootIds, [])
    ensures var after := Outermost(cs, references, FullPatch(leaf, models, rootIds, gone), true).1;
            var mounted := Outermost(cs, map[], FullPatch(leaf, models, rootIds, []), true).1;
            && id in models && id in after && id in mounted
            && after[id].name == mounted[id].name && after[id].name in cs
            && forall p :: p in Stated(leaf, models[id]) || Resettable(cs[after[id].name], p) ==>
                 p in after[id].values && p in mounted[id].values && after[id].values[p] == mounted[id].values[p]
  {
    FullUpdateShowsGraph(cs, references, leaf, models, rootIds, gone, id);
    FullUpdateShowsGraph(cs, map[], leaf, models, rootIds, [], id);
    FullUpdateDecodes(cs, map[], leaf, models, rootIds, []);
    PatchDefines(leaf, models, rootIds, [], id);
    Mounted(cs, map[], FullPatch(leaf, models, rootIds, []), id);
  }
}
