/** Pulling binary buffers out of a patch: each becomes a record that names it, and the
    buffers travel beside the patch under those names. */
module PatchBuffers {
  type Bytes = seq<int>

  datatype Value =
    | Scalar(n: int)
    | Str(text: string)
    | Buffer(bytes: Bytes)
    | Items(items: seq<Value>)
    | Mapping(entries: seq<Entry>)
    | Rec(fields: seq<Entry>)

  datatype Entry = Entry(key: string, value: Value)

  datatype Resolved = Resolved(id: string, data: Bytes)

  // ── Names ───────────────────────────────────────────────────────────

  function Digit(n: nat): char
    requires n < 10
  {
    '0' + n as char
  }

  function Decimal(n: nat): (s: string)
    ensures s != []
  {
    if n < 10 then [Digit(n)] else Decimal(n / 10) + [Digit(n % 10)]
  }

  function ParseDecimal(s: string): int
    decreases |s|
  {
    if s == [] then 0 else 10 * ParseDecimal(s[..|s| - 1]) + (s[|s| - 1] as int - '0' as int)
  }

  lemma {:induction false} DecimalRoundTrip(n: nat)
    ensures ParseDecimal(Decimal(n)) == n
  {
    if n >= 10 {
      DecimalRoundTrip(n / 10);
      assert Decimal(n)[..|Decimal(n)| - 1] == Decimal(n / 10);
    } else {
      assert Decimal(n)[..0] == [];
    }
  }

  /** The `n`th buffer of a transaction. */
  function BufferId(tx: string, n: nat): string {
    tx + ":" + Decimal(n)
  }

  lemma BufferIdsDiffer(tx: string, m: nat, n: nat)
    requires BufferId(tx, m) == BufferId(tx, n)
    ensures m == n
  {
    DecimalRoundTrip(m);
    DecimalRoundTrip(n);
    assert BufferId(tx, m)[|tx| + 1..] == Decimal(m);
    assert BufferId(tx, n)[|tx| + 1..] == Decimal(n);
  }

  function NameOf(id: string): Value {
    Rec([Entry("id", Str(id))])
  }

  predicate IsName(v: Value) {
    v.Rec? && |v.fields| == 1 && v.fields[0].key == "id" && v.fields[0].value.Str?
  }

  // ── Extraction ──────────────────────────────────────────────────────

  /** The rewritten value, with the buffers collected so far. */
  function Extract(tx: string, buffers: seq<Resolved>, v: Value): (Value, seq<Resolved>)
    decreases v
  {
    match v
    case Scalar(_) => (v, buffers)
    case Str(_) => (v, buffers)
    case Buffer(bytes) =>
      var id := BufferId(tx, |buffers|);
      (NameOf(id), buffers + [Resolved(id, bytes)])
    case Items(items) => var (out, after) := ExtractItems(tx, buffers, items); (Items(out), after)
    case Mapping(entries) => var (out, after) := ExtractEntries(tx, buffers, entries); (Mapping(out), after)
    case Rec(fields) => var (out, after) := ExtractEntries(tx, buffers, fields); (Rec(out), after)
  }

  function ExtractItems(tx: string, buffers: seq<Resolved>, items: seq<Value>): (r: (seq<Value>, seq<Resolved>))
    ensures |r.0| == |items|
    decreases items
  {
    if items == [] then ([], buffers)
    else
      var (head, mid) := Extract(tx, buffers, items[0]);
      var (rest, after) := ExtractItems(tx, mid, items[1..]);
      ([head] + rest, after)
  }

  function ExtractEntries(tx: string, buffers: seq<Resolved>, entries: seq<Entry>): (r: (seq<Entry>, seq<Resolved>))
    ensures |r.0| == |entries|
    decreases entries
  {
    if entries == [] then ([], buffers)
    else
      var (head, mid) := Extract(tx, buffers, entries[0].value);
      var (rest, after) := ExtractEntries(tx, mid, entries[1..]);
      ([Entry(entries[0].key, head)] + rest, after)
  }

  // ── The buffers: one per occurrence, numbered in traversal order ────

  function BuffersOf(v: Value): seq<Bytes> {
    match v
    case Scalar(_) => []
    case Str(_) => []
    case Buffer(bytes) => [bytes]
    case Items(items) => BuffersOfItems(items)
    case Mapping(entries) => BuffersOfEntries(entries)
    case Rec(fields) => BuffersOfEntries(fields)
  }

  function BuffersOfItems(items: seq<Value>): seq<Bytes> {
    if items == [] then [] else BuffersOf(items[0]) + BuffersOfItems(items[1..])
  }

  function BuffersOfEntries(entries: seq<Entry>): seq<Bytes> {
    if entries == [] then [] else BuffersOf(entries[0].value) + BuffersOfEntries(entries[1..])
  }

  function Named(tx: string, first: nat, bs: seq<Bytes>): seq<Resolved> {
    seq(|bs|, i requires 0 <= i < |bs| => Resolved(BufferId(tx, first + i), bs[i]))
  }

  lemma NamedAppend(tx: string, first: nat, bs: seq<Bytes>, cs: seq<Bytes>)
    ensures Named(tx, first, bs + cs) == Named(tx, first, bs) + Named(tx, first + |bs|, cs)
  {
  }

  lemma {:induction false} Collects(tx: string, buffers: seq<Resolved>, v: Value)
    ensures Extract(tx, buffers, v).1 == buffers + Named(tx, |buffers|, BuffersOf(v))
    decreases v
  {
    match v
    case Scalar(_) =>
    case Str(_) =>
    case Buffer(_) =>
    case Items(items) => CollectsItems(tx, buffers, items);
    case Mapping(entries) => CollectsEntries(tx, buffers, entries);
    case Rec(fields) => CollectsEntries(tx, buffers, fields);
  }

  lemma {:induction false} CollectsItems(tx: string, buffers: seq<Resolved>, items: seq<Value>)
    ensures ExtractItems(tx, buffers, items).1 == buffers + Named(tx, |buffers|, BuffersOfItems(items))
    decreases items
  {
    if items != [] {
      Collects(tx, buffers, items[0]);
      CollectsItems(tx, Extract(tx, buffers, items[0]).1, items[1..]);
      NamedAppend(tx, |buffers|, BuffersOf(items[0]), BuffersOfItems(items[1..]));
    }
  }

  lemma {:induction false} CollectsEntries(tx: string, buffers: seq<Resolved>, entries: seq<Entry>)
    ensures ExtractEntries(tx, buffers, entries).1 == buffers + Named(tx, |buffers|, BuffersOfEntries(entries))
    decreases entries
  {
    if entries != [] {
      Collects(tx, buffers, entries[0].value);
      CollectsEntries(tx, Extract(tx, buffers, entries[0].value).1, entries[1..]);
      NamedAppend(tx, |buffers|, BuffersOf(entries[0].value), BuffersOfEntries(entries[1..]));
    }
  }

  /** A value without buffers is left as it is, whatever names it holds. */
  lemma {:induction false} NothingToExtract(tx: string, buffers: seq<Resolved>, v: Value)
    requires BuffersOf(v) == []
    ensures Extract(tx, buffers, v) == (v, buffers)
    decreases v
  {
    match v
    case Scalar(_) =>
    case Str(_) =>
    case Items(items) => NothingInItems(tx, buffers, items);
    case Mapping(entries) => NothingInEntries(tx, buffers, entries);
    case Rec(fields) => NothingInEntries(tx, buffers, fields);
  }

  lemma {:induction false} NothingInItems(tx: string, buffers: seq<Resolved>, items: seq<Value>)
    requires BuffersOfItems(items) == []
    ensures ExtractItems(tx, buffers, items) == (items, buffers)
    decreases items
  {
    if items != [] {
      NothingToExtract(tx, buffers, items[0]);
      NothingInItems(tx, buffers, items[1..]);
      assert items == [items[0]] + items[1..];
    }
  }

  lemma {:induction false} NothingInEntries(tx: string, buffers: seq<Resolved>, entries: seq<Entry>)
    requires BuffersOfEntries(entries) == []
    ensures ExtractEntries(tx, buffers, entries) == (entries, buffers)
    decreases entries
  {
    if entries != [] {
      NothingToExtract(tx, buffers, entries[0].value);
      NothingInEntries(tx, buffers, entries[1..]);
      assert entries == [entries[0]] + entries[1..];
    }
  }

  // ── Putting the buffers back ────────────────────────────────────────

  /** What the receiver does: a record that names a buffer stands for that buffer. */
  function Restore(m: map<string, Bytes>, v: Value): Value {
    if IsName(v) && v.fields[0].value.text in m then Buffer(m[v.fields[0].value.text])
    else match v
      case Scalar(_) => v
      case Str(_) => v
      case Buffer(_) => v
      case Items(items) => Items(RestoreItems(m, items))
      case Mapping(entries) => Mapping(RestoreEntries(m, entries))
      case Rec(fields) => Rec(RestoreEntries(m, fields))
  }

  function RestoreItems(m: map<string, Bytes>, items: seq<Value>): seq<Value> {
    if items == [] then [] else [Restore(m, items[0])] + RestoreItems(m, items[1..])
  }

  function RestoreEntries(m: map<string, Bytes>, entries: seq<Entry>): seq<Entry> {
    if entries == [] then []
    else [Entry(entries[0].key, Restore(m, entries[0].value))] + RestoreEntries(m, entries[1..])
  }

  /** No record of the value already has one of the names. */
  predicate Unnamed(names: set<string>, v: Value) {
    !(IsName(v) && v.fields[0].value.text in names) &&
    match v
    case Scalar(_) => true
    case Str(_) => true
    case Buffer(_) => true
    case Items(items) => UnnamedItems(names, items)
    case Mapping(entries) => UnnamedEntries(names, entries)
    case Rec(fields) => UnnamedEntries(names, fields)
  }

  predicate UnnamedItems(names: set<string>, items: seq<Value>) {
    items == [] || (Unnamed(names, items[0]) && UnnamedItems(names, items[1..]))
  }

  predicate UnnamedEntries(names: set<string>, entries: seq<Entry>) {
    entries == [] || (Unnamed(names, entries[0].value) && UnnamedEntries(names, entries[1..]))
  }

  /** The map holds every buffer of the list under its own name. */
  predicate Holds(m: map<string, Bytes>, buffers: seq<Resolved>) {
    forall i :: 0 <= i < |buffers| ==> buffers[i].id in m && m[buffers[i].id] == buffers[i].data
  }

  lemma {:induction false} Restores(tx: string, buffers: seq<Resolved>, v: Value, m: map<string, Bytes>)
    requires Holds(m, Extract(tx, buffers, v).1)
    ensures Restore(m, Extract(tx, buffers, v).0) == v <==> Unnamed(m.Keys, v)
    decreases v
  {
    match v
    case Scalar(_) =>
    case Str(_) =>
    case Buffer(bytes) =>
      assert Extract(tx, buffers, v).1[|buffers|] == Resolved(BufferId(tx, |buffers|), bytes);
    case Items(items) => RestoresItems(tx, buffers, items, m);
    case Mapping(entries) => RestoresEntries(tx, buffers, entries, m);
    case Rec(fields) =>
      RestoresEntries(tx, buffers, fields, m);
      KeepsNames(tx, buffers, fields);
  }

  /** Rewriting turns no record into a name, and leaves names alone. */
  lemma KeepsNames(tx: string, buffers: seq<Resolved>, fields: seq<Entry>)
    ensures var out := ExtractEntries(tx, buffers, fields).0;
            IsName(Rec(out)) || IsName(Rec(fields)) ==> out == fields
  {
    var out := ExtractEntries(tx, buffers, fields).0;
    if |fields| == 1 {
      assert fields[1..] == [] && ExtractEntries(tx, Extract(tx, buffers, fields[0].value).1, []).0 == [];
      assert out == [Entry(fields[0].key, Extract(tx, buffers, fields[0].value).0)];
      assert out[0].value.Str? ==> fields[0].value == out[0].value;
    }
  }

  lemma Prefix(tx: string, buffers: seq<Resolved>, v: Value, after: seq<Resolved>, m: map<string, Bytes>)
    requires Holds(m, after) && Extract(tx, buffers, v).1 <= after
    ensures Holds(m, Extract(tx, buffers, v).1)
  {
    var mid := Extract(tx, buffers, v).1;
    forall i | 0 <= i < |mid| ensures mid[i].id in m && m[mid[i].id] == mid[i].data {
      assert mid[i] == after[i];
    }
  }

  lemma {:induction false} RestoresItems(tx: string, buffers: seq<Resolved>, items: seq<Value>, m: map<string, Bytes>)
    requires Holds(m, ExtractItems(tx, buffers, items).1)
    ensures RestoreItems(m, ExtractItems(tx, buffers, items).0) == items <==> UnnamedItems(m.Keys, items)
    decreases items
  {
    if items != [] {
      var (head, mid) := Extract(tx, buffers, items[0]);
      var (rest, after) := ExtractItems(tx, mid, items[1..]);
      CollectsItems(tx, mid, items[1..]);
      Prefix(tx, buffers, items[0], after, m);
      Restores(tx, buffers, items[0], m);
      RestoresItems(tx, mid, items[1..], m);
      assert ([head] + rest)[1..] == rest;
      var back := RestoreItems(m, [head] + rest);
      assert back[0] == Restore(m, head) && back[1..] == RestoreItems(m, rest);
      assert items == [items[0]] + items[1..];
    }
  }

  lemma {:induction false} RestoresEntries(tx: string, buffers: seq<Resolved>, entries: seq<Entry>,
                                           m: map<string, Bytes>)
    requires Holds(m, ExtractEntries(tx, buffers, entries).1)
    ensures RestoreEntries(m, ExtractEntries(tx, buffers, entries).0) == entries <==> UnnamedEntries(m.Keys, entries)
    decreases entries
  {
    if entries != [] {
      var (head, mid) := Extract(tx, buffers, entries[0].value);
      var (rest, after) := ExtractEntries(tx, mid, entries[1..]);
      CollectsEntries(tx, mid, entries[1..]);
      Prefix(tx, buffers, entries[0].value, after, m);
      Restores(tx, buffers, entries[0].value, m);
      RestoresEntries(tx, mid, entries[1..], m);
      assert ([Entry(entries[0].key, head)] + rest)[1..] == rest;
      var back := RestoreEntries(m, [Entry(entries[0].key, head)] + rest);
      assert back[0] == Entry(entries[0].key, Restore(m, head)) && back[1..] == RestoreEntries(m, rest);
      assert entries == [entries[0]] + entries[1..];
    }
  }

  function BufferIds(tx: string, n: nat): set<string>
    decreases n
  {
    if n == 0 then {} else BufferIds(tx, n - 1) + {BufferId(tx, n - 1)}
  }

  function BufferMap(buffers: seq<Resolved>): map<string, Bytes>
    decreases |buffers|
  {
    if buffers == [] then map[]
    else BufferMap(buffers[..|buffers| - 1])[buffers[|buffers| - 1].id := buffers[|buffers| - 1].data]
  }

  lemma {:induction false} BufferMapHolds(tx: string, bs: seq<Bytes>)
    ensures Holds(BufferMap(Named(tx, 0, bs)), Named(tx, 0, bs))
    ensures BufferMap(Named(tx, 0, bs)).Keys == BufferIds(tx, |bs|)
    decreases |bs|
  {
    if bs != [] {
      var n := |bs| - 1;
      var all := Named(tx, 0, bs);
      assert all[..n] == Named(tx, 0, bs[..n]);
      BufferMapHolds(tx, bs[..n]);
      forall i | 0 <= i < n ensures all[i].id in BufferMap(all) && BufferMap(all)[all[i].id] == all[i].data {
        assert all[..n][i] == all[i];
        assert all[i].id != all[n].id by {
          if all[i].id == all[n].id {
            BufferIdsDiffer(tx, i, n);
          }
        }
      }
    }
  }

  /** Extraction loses nothing: the buffers are those of the patch in traversal order,
      numbered from 0 under distinct names, and putting them back restores the patch
      exactly when it held no record with one of those names. */
  lemma ExtractionRoundTrips(tx: string, patch: Value)
    ensures var (out, buffers) := Extract(tx, [], patch);
            && buffers == Named(tx, 0, BuffersOf(patch))
            && (forall i, j :: 0 <= i < j < |buffers| ==> buffers[i].id != buffers[j].id)
            && (Restore(BufferMap(buffers), out) == patch <==> Unnamed(BufferIds(tx, |buffers|), patch))
  {
    var (out, buffers) := Extract(tx, [], patch);
    Collects(tx, [], patch);
    assert buffers == Named(tx, 0, BuffersOf(patch));
    BufferMapHolds(tx, BuffersOf(patch));
    forall i, j | 0 <= i < j < |buffers| && buffers[i].id == buffers[j].id ensures false {
      BufferIdsDiffer(tx, i, j);
    }
    Restores(tx, [], patch, BufferMap(buffers));
  }

  /** A record that already has the name of the first buffer comes back as that buffer. */
  lemma NameIsTaken(tx: string, bytes: Bytes)
    ensures var patch := Items([NameOf(BufferId(tx, 0)), Buffer(bytes)]);
            var (out, buffers) := Extract(tx, [], patch);
            Restore(BufferMap(buffers), out) != patch
  {
    var name := NameOf(BufferId(tx, 0));
    var patch := Items([name, Buffer(bytes)]);
    assert BuffersOf(patch) == [bytes] by {
      assert BuffersOf(name) == BuffersOf(Str(BufferId(tx, 0))) + BuffersOfEntries(name.fields[1..]);
      assert patch.items[1..] == [Buffer(bytes)] && [Buffer(bytes)][1..] == [];
      assert BuffersOfItems([Buffer(bytes)]) == BuffersOf(Buffer(bytes)) + BuffersOfItems([]);
    }
    assert BufferId(tx, 0) in BufferIds(tx, 1);
    assert !Unnamed(BufferIds(tx, 1), name);
    assert !UnnamedItems(BufferIds(tx, 1), patch.items);
    ExtractionRoundTrips(tx, patch);
  }

  // ── The rewriting itself ────────────────────────────────────────────

  /** `extractBokehPatchBuffers`: containers are rewritten entry by entry while the list
      of buffers grows. */
  class Extractor {
    const tx: string
    var buffers: seq<Resolved>

    constructor (tx: string)
      ensures this.tx == tx && buffers == []
    {
      this.tx := tx;
      buffers := [];
    }

    method Replace(v: Value) returns (r: Value)
      modifies this
      ensures (r, buffers) == Extract(tx, old(buffers), v)
      decreases v, 1
    {
      match v
      case Scalar(_) => r := v;
      case Str(_) => r := v;
      case Buffer(bytes) =>
        var id := BufferId(tx, |buffers|);
        buffers := buffers + [Resolved(id, bytes)];
        r := NameOf(id);
      case Items(items) =>
        var out := items;
        var i := 0;
        while i < |items|
          invariant 0 <= i <= |items| && |out| == |items| && out[i..] == items[i..]
          invariant ExtractItems(tx, old(buffers), items).0 == out[..i] + ExtractItems(tx, buffers, items[i..]).0
          invariant ExtractItems(tx, old(buffers), items).1 == ExtractItems(tx, buffers, items[i..]).1
        {
          assert items[i..][1..] == items[i + 1..] && out[i] == items[i];
          var item := Replace(out[i]);
          out := out[i := item];
          assert out[..i + 1] == out[..i] + [item];
          i := i + 1;
        }
        assert out[..i] + [] == out;
        r := Items(out);
      case Mapping(entries) =>
        var out := ReplaceEntries(entries);
        r := Mapping(out);
      case Rec(fields) =>
        var out := ReplaceEntries(fields);
        r := Rec(out);
    }

    method ReplaceEntries(entries: seq<Entry>) returns (out: seq<Entry>)
      modifies this
      ensures (out, buffers) == ExtractEntries(tx, old(buffers), entries)
      decreases entries, 0
    {
      out := entries;
      var i := 0;
      while i < |entries|
        invariant 0 <= i <= |entries| && |out| == |entries| && out[i..] == entries[i..]
        invariant ExtractEntries(tx, old(buffers), entries).0 == out[..i] + ExtractEntries(tx, buffers, entries[i..]).0
        invariant ExtractEntries(tx, old(buffers), entries).1 == ExtractEntries(tx, buffers, entries[i..]).1
      {
        assert entries[i..][1..] == entries[i + 1..] && out[i] == entries[i];
        var value := Replace(entries[i].value);
        out := out[i := Entry(entries[i].key, value)];
        assert out[..i + 1] == out[..i] + [Entry(entries[i].key, value)];
        i := i + 1;
      }
      assert out[..i] + [] == out;
    }
  }

  method ExtractBokehPatchBuffers(patch: Value, tx: string) returns (out: Value, buffers: seq<Resolved>)
    ensures (out, buffers) == Extract(tx, [], patch)
  {
    var extractor := new Extractor(tx);
    out := extractor.Replace(patch);
    buffers := extractor.buffers;
  }
}
