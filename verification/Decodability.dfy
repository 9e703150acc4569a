/** Exactly which patches decode, said of the patch and the names of the known models. */
module Decodability {
  import opened Options
  import opened Deserializer

  /** What can stop a decode, in the order it is met: a value BokehJS refuses, a reference,
      and a definition, which is met before its attributes. */
  datatype Mark = Refused | Refers(id: Id) | Defines(id: Id, name: string)

  function Marks(v: Enc): seq<Mark>
    decreases v
  {
    match v
    case Plain(_) => []
    case Bad => [Refused]
    case Items(items) => MarksOfItems(items)
    case Record(fields) => MarksOfAttrs(fields)
    case Ref(id) => [Refers(id)]
    case Def(id, name, attrs) => [Defines(id, name)] + MarksOfAttrs(attrs)
  }

  function MarksOfItems(items: seq<Enc>): seq<Mark>
    decreases items
  {
    if items == [] then [] else Marks(items[0]) + MarksOfItems(items[1..])
  }

  function MarksOfAttrs(attrs: seq<Attr>): seq<Mark>
    decreases attrs
  {
    if attrs == [] then [] else Marks(attrs[0].value) + MarksOfAttrs(attrs[1..])
  }

  /** The names of the known models. */
  type Names = map<Id, string>

  function NamesOf(references: Registry): Names {
    map id | id in references :: references[id].name
  }

  /** A mark is passed when it is a reference to a known model, a definition of a known model
      under its own name, or a definition of a new model of a known class. */
  predicate Passes(cs: Classes, known: Names, m: Mark) {
    match m
    case Refused => false
    case Refers(id) => id in known
    case Defines(id, name) => if id in known then known[id] == name else name in cs
  }

  function Learn(known: Names, m: Mark): Names {
    if m.Defines? && m.id !in known then known[m.id := m.name] else known
  }

  predicate Readable(cs: Classes, known: Names, ms: seq<Mark>)
    decreases |ms|
  {
    ms == [] || (Passes(cs, known, ms[0]) && Readable(cs, Learn(known, ms[0]), ms[1..]))
  }

  function LearnAll(known: Names, ms: seq<Mark>): Names
    decreases |ms|
  {
    if ms == [] then known else LearnAll(Learn(known, ms[0]), ms[1..])
  }

  lemma {:induction false} ReadableAppend(cs: Classes, known: Names, ms: seq<Mark>, ns: seq<Mark>)
    ensures Readable(cs, known, ms + ns) <==> Readable(cs, known, ms) && Readable(cs, LearnAll(known, ms), ns)
    ensures LearnAll(known, ms + ns) == LearnAll(LearnAll(known, ms), ns)
    decreases |ms|
  {
    if ms == [] {
      assert ms + ns == ns;
    } else {
      assert (ms + ns)[1..] == ms[1..] + ns;
      ReadableAppend(cs, Learn(known, ms[0]), ms[1..], ns);
    }
  }

  // ── Decoding succeeds exactly on readable values ────────────────────

  /** The decode succeeds exactly if the marks are readable, and then knows what they teach. */
  ghost predicate Reads(cs: Classes, d: Progress, ok: bool, d': Progress, ms: seq<Mark>) {
    && (ok <==> Readable(cs, NamesOf(d.references), ms))
    && (ok ==> NamesOf(d'.references) == LearnAll(NamesOf(d.references), ms))
  }

  lemma {:induction false} DecodeReads(cs: Classes, d: Progress, v: Enc)
    ensures Reads(cs, d, Decode(cs, d, v).0.Some?, Decode(cs, d, v).1, Marks(v))
    decreases v
  {
    match v
    case Plain(_) =>
    case Bad =>
    case Items(items) => ItemsRead(cs, d, items);
    case Record(fields) => AttrsRead(cs, d, fields);
    case Ref(id) => assert [Refers(id)][1..] == [];
    case Def(id, name, attrs) => DefinitionReads(cs, d, id, name, attrs);
  }

  lemma {:induction false} DefinitionReads(cs: Classes, d: Progress, id: Id, name: string, attrs: seq<Attr>)
    ensures var (r, d') := Decode(cs, d, Def(id, name, attrs)); Reads(cs, d, r.Some?, d', Marks(Def(id, name, attrs)))
    decreases attrs, 1
  {
    assert Marks(Def(id, name, attrs))[1..] == MarksOfAttrs(attrs);
    if id !in d.references {
      var begun := d.(references := d.references[id := Instance(name, map[])], created := d.created + [id]);
      assert NamesOf(begun.references) == NamesOf(d.references)[id := name];
      if name in cs {
        AttrsRead(cs, begun, attrs);
        AttrsGrow(cs, begun, attrs);
        ClosesAsOpened(cs, begun, id, name, attrs);
      }
    } else if d.references[id].name == name {
      AttrsRead(cs, d, attrs);
    }
  }

  lemma ClosesAsOpened(cs: Classes, d: Progress, id: Id, name: string, attrs: seq<Attr>)
    requires id in d.references && d.references[id].name == name && Grows(d, DecodeAttrs(cs, d, attrs).1)
    ensures var d' := DecodeAttrs(cs, d, attrs).1;
            forall values :: NamesOf(d'.references[id := Instance(name, values)]) == NamesOf(d'.references)
  {
  }

  lemma {:induction false} ItemsRead(cs: Classes, d: Progress, items: seq<Enc>)
    ensures Reads(cs, d, DecodeItems(cs, d, items).0.Some?, DecodeItems(cs, d, items).1, MarksOfItems(items))
    decreases items
  {
    if items != [] {
      DecodeReads(cs, d, items[0]);
      var (head, mid) := Decode(cs, d, items[0]);
      ReadableAppend(cs, NamesOf(d.references), Marks(items[0]), MarksOfItems(items[1..]));
      if head.Some? {
        ItemsRead(cs, mid, items[1..]);
      }
    }
  }

  lemma {:induction false} AttrsRead(cs: Classes, d: Progress, attrs: seq<Attr>)
    ensures Reads(cs, d, DecodeAttrs(cs, d, attrs).0.Some?, DecodeAttrs(cs, d, attrs).1, MarksOfAttrs(attrs))
    decreases attrs, 0
  {
    if attrs != [] {
      DecodeReads(cs, d, attrs[0].value);
      var (head, mid) := Decode(cs, d, attrs[0].value);
      ReadableAppend(cs, NamesOf(d.references), Marks(attrs[0].value), MarksOfAttrs(attrs[1..]));
      if head.Some? {
        AttrsRead(cs, mid, attrs[1..]);
      }
    }
  }

  // ── Said position by position ───────────────────────────────────────

  /** No value is refused, every reference is to a model known or defined before it, every
      definition of a known model has that model's name, every other one has a class and the
      name of each earlier definition of the same model. */
  predicate Admissible(cs: Classes, known: Names, ms: seq<Mark>, k: nat)
    requires k < |ms|
  {
    match ms[k]
    case Refused => false
    case Refers(id) => id in known || exists j :: 0 <= j < k && ms[j].Defines? && ms[j].id == id
    case Defines(id, name) =>
      if id in known then known[id] == name
      else name in cs && forall j :: 0 <= j < k && ms[j].Defines? && ms[j].id == id ==> ms[j].name == name
  }

  lemma {:induction false} LearntNames(known: Names, ms: seq<Mark>, id: Id)
    ensures id in LearnAll(known, ms) <==> id in known || exists j :: 0 <= j < |ms| && ms[j].Defines? && ms[j].id == id
    ensures id in known ==> LearnAll(known, ms)[id] == known[id]
    ensures id in LearnAll(known, ms) && id !in known ==>
              exists j :: 0 <= j < |ms| && ms[j] == Defines(id, LearnAll(known, ms)[id])
    decreases |ms|
  {
    if ms != [] {
      LearntNames(Learn(known, ms[0]), ms[1..], id);
      assert ms == [ms[0]] + ms[1..];
      if j :| 0 <= j < |ms[1..]| && ms[1..][j].Defines? && ms[1..][j].id == id {
        assert ms[j + 1] == ms[1..][j];
      }
      if j :| 0 < j < |ms| && ms[j].Defines? && ms[j].id == id {
        assert ms[1..][j - 1] == ms[j];
      }
    }
  }

  /** In a readable script every definition has the name its model is known by afterwards. */
  lemma {:induction false} DefinedName(cs: Classes, known: Names, ms: seq<Mark>, j: nat)
    requires Readable(cs, known, ms) && j < |ms| && ms[j].Defines?
    ensures ms[j].id in LearnAll(known, ms) && LearnAll(known, ms)[ms[j].id] == ms[j].name
    ensures ms[j].id !in known ==> ms[j].name in cs
    decreases |ms|
  {
    if j == 0 {
      LearntNames(Learn(known, ms[0]), ms[1..], ms[0].id);
    } else {
      DefinedName(cs, Learn(known, ms[0]), ms[1..], j - 1);
      if ms[j].id !in known && ms[j].id in Learn(known, ms[0]) {
        LearntNames(Learn(known, ms[0]), ms[1..], ms[j].id);
      }
    }
  }

  lemma PassesIsAdmissible(cs: Classes, known: Names, ms: seq<Mark>, k: nat)
    requires k < |ms| && Readable(cs, known, ms[..k])
    ensures Passes(cs, LearnAll(known, ms[..k]), ms[k]) <==> Admissible(cs, known, ms, k)
  {
    if !ms[k].Refused? {
      LearntNames(known, ms[..k], ms[k].id);
      if ms[k].Defines? {
        forall j | 0 <= j < k && ms[j].Defines? && ms[j].id == ms[k].id
          ensures LearnAll(known, ms[..k])[ms[k].id] == ms[j].name && (ms[k].id !in known ==> ms[j].name in cs)
        {
          DefinedName(cs, known, ms[..k], j);
        }
      }
    }
  }

  lemma {:induction false} ReadableIsAdmissible(cs: Classes, known: Names, ms: seq<Mark>, n: nat)
    requires n <= |ms|
    ensures Readable(cs, known, ms[..n]) <==> forall k :: 0 <= k < n ==> Admissible(cs, known, ms, k)
    decreases n
  {
    if n > 0 {
      ReadableIsAdmissible(cs, known, ms, n - 1);
      assert ms[..n] == ms[..n - 1] + [ms[n - 1]];
      ReadableAppend(cs, known, ms[..n - 1], [ms[n - 1]]);
      assert [ms[n - 1]][1..] == [];
      if Readable(cs, known, ms[..n - 1]) {
        PassesIsAdmissible(cs, known, ms, n - 1);
      }
    }
  }

  /** A patch decodes if and only if every mark in it is admissible. */
  lemma DecodesExactly(cs: Classes, d: Progress, v: Enc)
    ensures Decode(cs, d, v).0.Some?
        <==> forall k :: 0 <= k < |Marks(v)| ==> Admissible(cs, NamesOf(d.references), Marks(v), k)
  {
    DecodeReads(cs, d, v);
    ReadableIsAdmissible(cs, NamesOf(d.references), Marks(v), |Marks(v)|);
    assert Marks(v)[..|Marks(v)|] == Marks(v);
  }
}
