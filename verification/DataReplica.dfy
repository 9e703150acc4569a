/** The data half of the session controller: following versioned data events, reloading
    a source after a gap, and remembering the frame's own optimistic edits. The functions
    give each step on values; the class performs the steps in place. */
module DataReplica {
  import opened Options
  import opened ColumnData
  import opened Ordering

  const OWN_TRANSACTION_LIMIT: nat := 64

  /** A local stream or patch; `base` is the data version it was applied on. */
  datatype OwnDataEdit = OwnDataEdit(source: SourceId, index: nat, base: Option<int>)

  /** A JavaScript `Map`: its entries and the order they were inserted in. */
  datatype Ledger = Ledger(edits: map<TxId, OwnDataEdit>, order: seq<TxId>) {
    ghost predicate Valid() {
      Distinct(order) && (forall t :: t in order <==> t in edits)
    }
  }

  function Find(l: Ledger, t: TxId): Option<OwnDataEdit> {
    if t in l.edits then Some(l.edits[t]) else None
  }

  function Forget(l: Ledger, t: TxId): (r: Ledger)
    ensures l.Valid() ==> r.Valid()
  {
    assert l.Valid() ==> Distinct(Without(l.order, t)) by {
      if l.Valid() {
        WithoutDistinct(l.order, t);
      }
    }
    Ledger(l.edits - {t}, Without(l.order, t))
  }

  /** The oldest entry makes room once the limit is passed. */
  function Remember(l: Ledger, t: TxId, edit: OwnDataEdit): (r: Ledger)
    ensures l.Valid() ==> r.Valid()
    ensures |l.order| <= OWN_TRANSACTION_LIMIT ==> |r.order| <= OWN_TRANSACTION_LIMIT
  {
    var order := if t in l.edits then l.order else l.order + [t];
    var added := Ledger(l.edits[t := edit], order);
    assert l.Valid() ==> added.Valid() by {
      if l.Valid() && t !in l.edits {
        DistinctSnoc(l.order, t);
      }
    }
    if |order| <= OWN_TRANSACTION_LIMIT then added
    else Ledger(added.edits - {order[0]}, order[1..])
  }

  // ── A batch of events ───────────────────────────────────────────────

  datatype Batch = Batch(tx: TxId, events: seq<DataEvent>)

  /** What the event loop of `applyEvents` holds. `accepted` lists the events it pushes
      onto the JSON patch; their removals are collected beside it. */
  datatype Scan = Scan(versions: map<SourceId, int>, own: Ledger, ownEdit: Option<OwnDataEdit>,
                       accepted: seq<DataEvent>, gaps: seq<SourceId>)

  predicate IsEcho(e: DataEvent, edit: OwnDataEdit) {
    e.Edit? && e.source == edit.source && e.echoOf == Some(edit.index)
  }

  predicate HasEchoAfter(events: seq<DataEvent>, position: nat, edit: OwnDataEdit) {
    exists i :: position < i < |events| && IsEcho(events[i], edit)
  }

  function ScanOne(k: Scan, models: set<SourceId>, batch: Batch, i: nat): Scan
    requires i < |batch.events|
  {
    var e := batch.events[i];
    var folded := k.ownEdit.Some? && k.ownEdit.value.source == e.source && e.Replace?
                  && !HasEchoAfter(batch.events, i, k.ownEdit.value);
    var k := if folded then k.(own := Forget(k.own, batch.tx), ownEdit := None) else k;
    if e.source in k.gaps || e.source !in k.versions then k
    else if e.source !in models then k.(versions := k.versions - {e.source})
    else if e.next <= k.versions[e.source] then k
    else if e.base != k.versions[e.source] then k.(gaps := k.gaps + [e.source])
    else
      var k := k.(versions := k.versions[e.source := e.next]);
      if k.ownEdit.Some? && IsEcho(e, k.ownEdit.value)
      then k.(own := Forget(k.own, batch.tx), ownEdit := None,
              gaps := if k.ownEdit.value.base == Some(e.base) then k.gaps else k.gaps + [e.source])
      else k.(accepted := k.accepted + [e])
  }

  function ScanTo(k: Scan, models: set<SourceId>, batch: Batch, n: nat): Scan
    requires n <= |batch.events|
    decreases n
  {
    if n == 0 then k else ScanOne(ScanTo(k, models, batch, n - 1), models, batch, n - 1)
  }

  function StartScan(versions: map<SourceId, int>, own: Ledger, batch: Batch): Scan {
    Scan(versions, own, Find(own, batch.tx), [], [])
  }

  function ScanBatch(versions: map<SourceId, int>, own: Ledger, models: set<SourceId>, batch: Batch): Scan {
    ScanTo(StartScan(versions, own, batch), models, batch, |batch.events|)
  }

  /** The ledger has each edit once and no more edits than the limit allows. */
  ghost predicate WithinLimit(l: Ledger) {
    l.Valid() && |l.order| <= OWN_TRANSACTION_LIMIT
  }

  lemma ForgetKeepsLimit(l: Ledger, t: TxId)
    requires WithinLimit(l)
    ensures WithinLimit(Forget(l, t))
  {
    WithoutShorter(l.order, t);
  }

  lemma {:induction false} ScanKeepsLimit(k: Scan, models: set<SourceId>, batch: Batch, n: nat)
    requires WithinLimit(k.own) && n <= |batch.events|
    ensures WithinLimit(ScanTo(k, models, batch, n).own)
    decreases n
  {
    if n > 0 {
      ScanKeepsLimit(k, models, batch, n - 1);
      ForgetKeepsLimit(ScanTo(k, models, batch, n - 1).own, batch.tx);
      ScanForgets(ScanTo(k, models, batch, n - 1), models, batch, n - 1);
    }
  }

  lemma ScanForgets(k: Scan, models: set<SourceId>, batch: Batch, i: nat)
    requires i < |batch.events|
    ensures ScanOne(k, models, batch, i).own == k.own || ScanOne(k, models, batch, i).own == Forget(k.own, batch.tx)
  {
  }

  // ── A reload ────────────────────────────────────────────────────────

  datatype ColumnBlob = ColumnBlob(version: int, data: Column)

  /** The host's answer to a data request: column blobs, and the tail retained since. */
  datatype Loaded = Loaded(columns: map<SourceId, map<string, ColumnBlob>>, tail: seq<Batch>)

  function ColumnsOf(loaded: Loaded, s: SourceId): map<string, ColumnBlob> {
    if s in loaded.columns then loaded.columns[s] else map[]
  }

  function TableOf(columns: map<string, ColumnBlob>): Table {
    map name | name in columns :: columns[name].data
  }

  /** `v` is the largest version in `columns`, or -1 when there is none above it. */
  ghost predicate IsMaxVersion(columns: map<string, ColumnBlob>, v: int) {
    && v >= -1
    && (forall name :: name in columns ==> columns[name].version <= v)
    && (v == -1 || exists name :: name in columns && columns[name].version == v)
  }

  /** The tail events a replay applies: for each chosen source, those that continue its version. */
  datatype Replay = Replay(versions: map<SourceId, int>, accepted: seq<DataEvent>)

  function ReplayOne(r: Replay, sources: set<SourceId>, e: DataEvent): Replay {
    if e.source in sources && e.source in r.versions && r.versions[e.source] == e.base
    then Replay(r.versions[e.source := e.next], r.accepted + [e])
    else r
  }

  function ReplayEvents(r: Replay, sources: set<SourceId>, es: seq<DataEvent>): (r': Replay)
    ensures r'.versions.Keys == r.versions.Keys
    decreases |es|
  {
    if es == [] then r
    else ReplayOne(ReplayEvents(r, sources, es[..|es| - 1]), sources, es[|es| - 1])
  }

  function Flatten(tail: seq<Batch>): seq<DataEvent>
    decreases |tail|
  {
    if tail == [] then [] else Flatten(tail[..|tail| - 1]) + tail[|tail| - 1].events
  }

  lemma {:induction false} ReplayAppend(r: Replay, sources: set<SourceId>, es: seq<DataEvent>, fs: seq<DataEvent>)
    ensures ReplayEvents(r, sources, es + fs) == ReplayEvents(ReplayEvents(r, sources, es), sources, fs)
    decreases |fs|
  {
    if fs == [] {
      assert es + fs == es;
    } else {
      var n := |fs| - 1;
      assert (es + fs)[..|es| + n] == es + fs[..n];
      ReplayAppend(r, sources, es, fs[..n]);
    }
  }

  lemma {:induction false} MergedAppend(es: seq<DataEvent>, fs: seq<DataEvent>, doc: Document)
    ensures Merged(es + fs, doc) == Merged(fs, Merged(es, doc))
    decreases |fs|
  {
    if fs == [] {
      assert es + fs == es;
    } else {
      var n := |fs| - 1;
      assert (es + fs)[..|es| + n] == es + fs[..n];
      MergedAppend(es, fs[..n], doc);
    }
  }

  lemma GroupReplayed(start: Replay, sources: set<SourceId>, tail: seq<Batch>, g: nat)
    requires g < |tail|
    ensures ReplayEvents(start, sources, Flatten(tail[..g + 1]))
         == ReplayEvents(ReplayEvents(start, sources, Flatten(tail[..g])), sources, tail[g].events)
  {
    assert tail[..g + 1][..g] == tail[..g];
    ReplayAppend(start, sources, Flatten(tail[..g]), tail[g].events);
  }

  lemma GroupMerged(accepted: seq<DataEvent>, pushed: seq<DataEvent>, doc: Document)
    ensures Merged(accepted + pushed, doc) == ApplyPatches(Patches(pushed), Merged(accepted, doc))
  {
    MergedAppend(accepted, pushed, doc);
    PatchesMerge(pushed, Merged(accepted, doc));
  }

  // ── The replica ─────────────────────────────────────────────────────

  /** The columnar document a frame shows, the version it shows each source at, and its
      own edits whose echo has not arrived. */
  datatype Replica = Replica(document: Document, versions: map<SourceId, int>, own: Ledger,
                             epoch: Option<int>, dirty: bool)

  /** The synchronous part of `applyEvents`; the sources in `gaps` are then reloaded. */
  function ApplyBatch(r: Replica, batch: Batch): (Replica, seq<SourceId>) {
    if r.epoch.None? || r.dirty then (r, [])
    else
      var k := ScanBatch(r.versions, r.own, r.document.Keys, batch);
      (r.(document := Deferred(k.accepted, r.document), versions := k.versions, own := k.own), k.gaps)
  }

  /** `replayTail`: the continuing events' patches, without their removals. */
  function TailReplayed(r: Replica, tail: seq<Batch>, sources: set<SourceId>): Replica {
    var replay := ReplayEvents(Replay(r.versions, []), sources, Flatten(tail));
    r.(document := Merged(replay.accepted, r.document), versions := replay.versions)
  }

  /** What a data request for a source comes to: it throws, or answers with no result at
      all, or with the source's blobs and tail. */
  datatype Reply = Threw | Nothing | Delivered(loaded: Loaded)

  /** The blobs replace the source at version `v`, then the tail is replayed. */
  function Reload(r: Replica, s: SourceId, loaded: Loaded, v: int): Replica {
    var table := TableOf(ColumnsOf(loaded, s));
    var document := if s in r.document then r.document[s := table] else r.document;
    TailReplayed(r.(document := document, versions := r.versions[s := v]), loaded.tail, {s})
  }

  /** A local stream or patch: applied to the view at once and remembered until its echo. */
  function EditLocally(r: Replica, t: TxId, s: SourceId, op: Op): Replica {
    var document := if s in r.document then r.document[s := ApplyOp(op, r.document[s])] else r.document;
    var base := if s in r.versions then Some(r.versions[s]) else None;
    r.(document := document, own := Remember(r.own, t, OwnDataEdit(s, 0, base)))
  }

  /** The data half of `BokehSessionController`. */
  class DataController {
    var document: Document
    var versions: map<SourceId, int>
    var ownEdits: map<TxId, OwnDataEdit>
    var ownOrder: seq<TxId>
    var epoch: Option<int>
    var dirty: bool

    ghost function State(): Replica
      reads this
    {
      Replica(document, versions, Ledger(ownEdits, ownOrder), epoch, dirty)
    }

    ghost predicate Valid()
      reads this
    {
      WithinLimit(Ledger(ownEdits, ownOrder))
    }

    constructor (document: Document, versions: map<SourceId, int>, epoch: Option<int>)
      ensures Valid() && State() == Replica(document, versions, Ledger(map[], []), epoch, false)
    {
      this.document, this.versions, this.epoch := document, versions, epoch;
      ownEdits, ownOrder, dirty := map[], [], false;
    }

    method DropOwn(t: TxId)
      modifies this`ownEdits, this`ownOrder
      ensures Ledger(ownEdits, ownOrder) == Forget(old(Ledger(ownEdits, ownOrder)), t)
    {
      ownEdits := ownEdits - {t};
      ownOrder := Without(ownOrder, t);
    }

    method RememberOwnTransaction(t: TxId, edit: OwnDataEdit)
      requires Valid()
      modifies this`ownEdits, this`ownOrder
      ensures Ledger(ownEdits, ownOrder) == Remember(old(Ledger(ownEdits, ownOrder)), t, edit)
      ensures Valid() && t in ownEdits && ownEdits[t] == edit
      ensures t !in old(ownEdits) ==> ownOrder == LastN(old(ownOrder) + [t], OWN_TRANSACTION_LIMIT)
      ensures forall u :: u in ownEdits && u != t ==> u in old(ownEdits) && ownEdits[u] == old(ownEdits)[u]
    {
      if t !in ownEdits {
        ownOrder := ownOrder + [t];
      }
      ownEdits := ownEdits[t := edit];
      if |ownOrder| > OWN_TRANSACTION_LIMIT {
        ownEdits := ownEdits - {ownOrder[0]};
        ownOrder := ownOrder[1..];
      }
    }

    method ApplyJsonPatch(patch: seq<PatchEvent>)
      modifies this`document
      ensures document == ApplyPatches(patch, old(document))
    {
      var i := 0;
      while i < |patch|
        invariant 0 <= i <= |patch|
        invariant document == ApplyPatches(patch[..i], old(document))
      {
        document := ApplyPatchEvent(document, patch[i]);
        assert patch[..i + 1][..i] == patch[..i];
        i := i + 1;
      }
      assert patch[..|patch|] == patch;
    }

    /** Everything `applyEvents` does before its first await. */
    method ApplyEvents(batch: Batch) returns (gaps: seq<SourceId>)
      requires Valid()
      modifies this
      ensures Valid()
      ensures (State(), gaps) == ApplyBatch(old(State()), batch)
    {
      gaps := [];
      if epoch.None? || dirty {
        return;
      }
      ghost var start := StartScan(versions, Ledger(ownEdits, ownOrder), batch);
      assert WithinLimit(ScanBatch(versions, Ledger(ownEdits, ownOrder), document.Keys, batch).own) by {
        ScanKeepsLimit(start, document.Keys, batch, |batch.events|);
      }
      var patchEvents, removals;
      ghost var accepted;
      gaps, patchEvents, removals, accepted := CollectEvents(batch);
      ApplyJsonPatch(patchEvents);
      RemoveEach(removals);
    }

    /** The event loop: what to patch, what to remove afterwards, what to reload. */
    method CollectEvents(batch: Batch)
      returns (gaps: seq<SourceId>, patchEvents: seq<PatchEvent>, removals: seq<(SourceId, set<string>)>,
               ghost accepted: seq<DataEvent>)
      modifies this`versions, this`ownEdits, this`ownOrder
      ensures patchEvents == Patches(accepted) && removals == Removals(accepted)
      ensures var k := ScanBatch(old(versions), old(Ledger(ownEdits, ownOrder)), document.Keys, batch);
              (k.versions, k.own, k.accepted, k.gaps) == (versions, Ledger(ownEdits, ownOrder), accepted, gaps)
    {
      ghost var start := StartScan(versions, Ledger(ownEdits, ownOrder), batch);
      var ownEdit := if batch.tx in ownEdits then Some(ownEdits[batch.tx]) else None;
      gaps, patchEvents, removals, accepted := [], [], [], [];
      var i := 0;
      while i < |batch.events|
        invariant 0 <= i <= |batch.events|
        invariant ScanTo(start, document.Keys, batch, i)
               == Scan(versions, Ledger(ownEdits, ownOrder), ownEdit, accepted, gaps)
        invariant patchEvents == Patches(accepted) && removals == Removals(accepted)
      {
        var e := batch.events[i];
        var taken;
        ownEdit, gaps, taken := TakeEvent(batch, i, ownEdit, gaps, accepted);
        if taken {
          Accept(accepted, e);
          accepted := accepted + [e];
          patchEvents := patchEvents + [PatchOf(e)];
          if e.Replace? && e.removed != {} {
            removals := removals + [(e.source, e.removed)];
          }
        }
        i := i + 1;
      }
    }

    /** The body of the event loop: whether the event is pushed onto the patch. */
    method TakeEvent(batch: Batch, i: nat, own: Option<OwnDataEdit>, known: seq<SourceId>,
                     ghost accepted: seq<DataEvent>)
      returns (ownEdit: Option<OwnDataEdit>, gaps: seq<SourceId>, taken: bool)
      requires i < |batch.events|
      modifies this`versions, this`ownEdits, this`ownOrder
      ensures ScanOne(Scan(old(versions), old(Ledger(ownEdits, ownOrder)), own, accepted, known),
                      document.Keys, batch, i)
           == Scan(versions, Ledger(ownEdits, ownOrder), ownEdit,
                   if taken then accepted + [batch.events[i]] else accepted, gaps)
    {
      ownEdit, gaps, taken := own, known, false;
      var e := batch.events[i];
      if ownEdit.Some? && ownEdit.value.source == e.source && e.Replace?
         && !HasEchoAfter(batch.events, i, ownEdit.value) {
        DropOwn(batch.tx);
        ownEdit := None;
      }
      if e.source in gaps || e.source !in versions {
        return;
      }
      if e.source !in document {
        versions := versions - {e.source};
        return;
      }
      if e.next <= versions[e.source] {
        return;
      }
      if e.base != versions[e.source] {
        gaps := gaps + [e.source];
        return;
      }
      versions := versions[e.source := e.next];
      if e.Edit? && ownEdit.Some? && ownEdit.value.source == e.source && e.echoOf == Some(ownEdit.value.index) {
        var appliedOn := ownEdit.value.base;
        DropOwn(batch.tx);
        ownEdit := None;
        if appliedOn != Some(e.base) {
          gaps := gaps + [e.source];
        }
        return;
      }
      taken := true;
    }

    method RemoveEach(removals: seq<(SourceId, set<string>)>)
      modifies this`document
      ensures document == RemoveAll(removals, old(document))
    {
      var j := 0;
      while j < |removals|
        invariant 0 <= j <= |removals|
        invariant document == RemoveAll(removals[..j], old(document))
      {
        document := RemoveColumns(document, removals[j].0, removals[j].1);
        assert removals[..j + 1][..j] == removals[..j];
        j := j + 1;
      }
      assert removals[..|removals|] == removals;
    }

    method MaxVersion(columns: map<string, ColumnBlob>) returns (v: int)
      ensures IsMaxVersion(columns, v)
    {
      v := -1;
      var rest := columns.Keys;
      while rest != {}
        invariant rest <= columns.Keys && v >= -1
        invariant forall name :: name in columns && name !in rest ==> columns[name].version <= v
        invariant v == -1 || exists name :: name in columns && columns[name].version == v
      {
        var name :| name in rest;
        if columns[name].version > v {
          v := columns[name].version;
        }
        rest := rest - {name};
      }
    }

    /** A request that throws leaves the document out of step until the next full update;
        one without a result is ignored. */
    method ReloadSource(s: SourceId, reply: Reply) returns (ghost v: int)
      requires Valid()
      modifies this
      ensures Valid()
      ensures match reply
              case Threw => State() == old(State()).(dirty := true)
              case Nothing => State() == old(State())
              case Delivered(loaded) =>
                IsMaxVersion(ColumnsOf(loaded, s), v) && State() == Reload(old(State()), s, loaded, v)
    {
      v := -1;
      if reply.Threw? {
        dirty := true;
        return;
      }
      if reply.Nothing? {
        return;
      }
      var columns := ColumnsOf(reply.loaded, s);
      if s in document {
        ApplyJsonPatch([ColumnDataChanged(s, TableOf(columns), None)]);
        assert document == ApplyPatchEvent(old(document), ColumnDataChanged(s, TableOf(columns), None));
      }
      var version := MaxVersion(columns);
      v := version;
      versions := versions[s := version];
      ReplayTail(reply.loaded.tail, {s});
    }

    method ReplayTail(tail: seq<Batch>, sources: set<SourceId>)
      modifies this`document, this`versions
      ensures State() == TailReplayed(old(State()), tail, sources)
    {
      ghost var start := Replay(versions, []);
      ghost var accepted: seq<DataEvent> := [];
      var g := 0;
      while g < |tail|
        invariant 0 <= g <= |tail|
        invariant ReplayEvents(start, sources, Flatten(tail[..g])) == Replay(versions, accepted)
        invariant document == Merged(accepted, old(document))
      {
        var patchEvents;
        ghost var pushed;
        patchEvents, pushed := ReplayGroup(tail[g].events, sources, accepted);
        GroupReplayed(start, sources, tail, g);
        GroupMerged(accepted, pushed, old(document));
        accepted := accepted + pushed;
        if patchEvents != [] {
          ApplyJsonPatch(patchEvents);
        }
        g := g + 1;
      }
      assert tail[..|tail|] == tail;
    }

    /** One retained batch: the patch of its events that continue a chosen source. */
    method ReplayGroup(events: seq<DataEvent>, sources: set<SourceId>, ghost accepted: seq<DataEvent>)
      returns (patchEvents: seq<PatchEvent>, ghost pushed: seq<DataEvent>)
      modifies this`versions
      ensures patchEvents == Patches(pushed)
      ensures ReplayEvents(Replay(old(versions), accepted), sources, events) == Replay(versions, accepted + pushed)
    {
      ghost var before := Replay(versions, accepted);
      patchEvents, pushed := [], [];
      var i := 0;
      while i < |events|
        invariant 0 <= i <= |events|
        invariant ReplayEvents(before, sources, events[..i]) == Replay(versions, accepted + pushed)
        invariant patchEvents == Patches(pushed)
      {
        var e := events[i];
        assert events[..i + 1][..i] == events[..i];
        i := i + 1;
        if e.source !in sources || e.source !in versions || versions[e.source] != e.base {
          continue;
        }
        versions := versions[e.source := e.next];
        Accept(pushed, e);
        assert accepted + (pushed + [e]) == (accepted + pushed) + [e];
        patchEvents := patchEvents + [PatchOf(e)];
        pushed := pushed + [e];
      }
      assert events[..|events|] == events;
    }

    /** `sendOneOff` for a stream or patch BokehJS has just applied to the view. */
    method EditSource(t: TxId, s: SourceId, op: Op)
      requires Valid()
      modifies this
      ensures Valid() && State() == EditLocally(old(State()), t, s, op)
    {
      if s in document {
        document := document[s := ApplyOp(op, document[s])];
      }
      var base := if s in versions then Some(versions[s]) else None;
      RememberOwnTransaction(t, OwnDataEdit(s, 0, base));
    }
  }

  /** Pushing an event pushes its patch and, if it removes columns, its removal. */
  lemma Accept(accepted: seq<DataEvent>, e: DataEvent)
    ensures Patches(accepted + [e]) == Patches(accepted) + [PatchOf(e)]
    ensures Removals(accepted + [e]) == Removals(accepted) + if Removed(e) != {} then [(e.source, Removed(e))] else []
  {
    assert (accepted + [e])[..|accepted|] == accepted;
  }
}
