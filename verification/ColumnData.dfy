/** Column tables, the versioned data events that change them, and the two ways the
    session controller applies a list of events: patches first and removals last
    (`applyEvents`), or patches without removals (`replayTail`). Both are compared with
    the kernel's own order, one event after the other. */
module ColumnData {
  import opened Options

  type SourceId = string
  type TxId = string
  type Cell = int
  type Column = seq<Cell>
  type Table = map<string, Column>
  /** The columnar part of a mounted document: one table per ColumnDataSource. */
  type Document = map<SourceId, Table>

  /** Bokeh's two incremental edits. A stream appends rows and keeps the last `rollover`. */
  datatype Op =
    | Stream(rows: map<string, Column>, rollover: Option<nat>)
    | Patch(cells: map<string, seq<(nat, Cell)>>)

  datatype DataEvent =
    | Edit(source: SourceId, base: int, next: int, op: Op, echoOf: Option<nat>)
    | Replace(source: SourceId, base: int, next: int, columns: Table, removed: set<string>)

  /** An event of a Bokeh JSON patch. `cols` set means merge, unset means replace. */
  datatype PatchEvent =
    | ColumnDataChanged(model: SourceId, data: Table, cols: Option<set<string>>)
    | ColumnsEdited(model: SourceId, edit: Op)

  // ── One column ──────────────────────────────────────────────────────

  function Touched(op: Op): set<string> {
    match op
    case Stream(rows, _) => rows.Keys
    case Patch(cells) => cells.Keys
  }

  function SetCells(column: Column, cells: seq<(nat, Cell)>): Column
    decreases |cells|
  {
    if cells == [] then column
    else
      var (row, cell) := cells[0];
      SetCells(if row < |column| then column[row := cell] else column, cells[1..])
  }

  function Streamed(column: Column, rows: Column, rollover: Option<nat>): Column {
    var grown := column + rows;
    if rollover.Some? && rollover.value < |grown| then grown[|grown| - rollover.value..] else grown
  }

  function EditColumn(op: Op, name: string, column: Column): Column
    requires name in Touched(op)
  {
    match op
    case Stream(rows, rollover) => Streamed(column, rows[name], rollover)
    case Patch(cells) => SetCells(column, cells[name])
  }

  function Look(table: Table, name: string): Option<Column> {
    if name in table then Some(table[name]) else None
  }

  function EditLook(op: Op, name: string, column: Option<Column>): Option<Column> {
    if name in Touched(op)
    then Some(EditColumn(op, name, if column.Some? then column.value else []))
    else column
  }

  lemma SameTable(t: Table, u: Table)
    requires forall c :: Look(t, c) == Look(u, c)
    ensures t == u
  {
    forall c ensures c in t <==> c in u {
      assert Look(t, c) == Look(u, c);
    }
    forall c | c in t ensures t[c] == u[c] {
      assert Look(t, c) == Look(u, c);
    }
  }

  // ── One table ───────────────────────────────────────────────────────

  function ApplyOp(op: Op, table: Table): Table {
    table + map name | name in Touched(op) ::
              EditColumn(op, name, if name in table then table[name] else [])
  }

  function Written(e: DataEvent): set<string> {
    match e
    case Edit(_, _, _, op, _) => Touched(op)
    case Replace(_, _, _, columns, _) => columns.Keys
  }

  function Removed(e: DataEvent): set<string> {
    if e.Replace? then e.removed else {}
  }

  /** What the event means in the kernel: its columns, then its removals. */
  function KernelApply(e: DataEvent, table: Table): Table {
    MergeApply(e, table) - Removed(e)
  }

  /** What the event's JSON patch does: its columns, without its removals. */
  function MergeApply(e: DataEvent, table: Table): Table {
    match e
    case Edit(_, _, _, op, _) => ApplyOp(op, table)
    case Replace(_, _, _, columns, _) => table + columns
  }

  function MergeLook(e: DataEvent, name: string, column: Option<Column>): Option<Column> {
    match e
    case Edit(_, _, _, op, _) => EditLook(op, name, column)
    case Replace(_, _, _, columns, _) => if name in columns then Some(columns[name]) else column
  }

  lemma ApplyLooks(e: DataEvent, table: Table, name: string)
    ensures Look(MergeApply(e, table), name) == MergeLook(e, name, Look(table, name))
    ensures Look(KernelApply(e, table), name)
         == if name in Removed(e) then None else MergeLook(e, name, Look(table, name))
  {
  }

  // ── A document under a list of events ───────────────────────────────

  function LookIn(doc: Document, s: SourceId, name: string): Option<Column> {
    if s in doc then Look(doc[s], name) else None
  }

  lemma SameDocument(d: Document, e: Document)
    requires d.Keys == e.Keys
    requires forall s, c :: LookIn(d, s, c) == LookIn(e, s, c)
    ensures d == e
  {
    forall s | s in d ensures d[s] == e[s] {
      forall c ensures Look(d[s], c) == Look(e[s], c) {
        assert LookIn(d, s, c) == LookIn(e, s, c);
      }
      SameTable(d[s], e[s]);
    }
  }

  /** The kernel's order: each event with its own removals, one after the other. */
  function Sequential(es: seq<DataEvent>, doc: Document): (r: Document)
    ensures r.Keys == doc.Keys
    decreases |es|
  {
    if es == [] then doc
    else
      var before := Sequential(es[..|es| - 1], doc);
      var e := es[|es| - 1];
      if e.source in before then before[e.source := KernelApply(e, before[e.source])] else before
  }

  /** The events' patches alone. */
  function Merged(es: seq<DataEvent>, doc: Document): (r: Document)
    ensures r.Keys == doc.Keys
    decreases |es|
  {
    if es == [] then doc
    else
      var before := Merged(es[..|es| - 1], doc);
      var e := es[|es| - 1];
      if e.source in before then before[e.source := MergeApply(e, before[e.source])] else before
  }

  function PatchOf(e: DataEvent): PatchEvent {
    match e
    case Edit(source, _, _, op, _) => ColumnsEdited(source, op)
    case Replace(source, _, _, columns, _) => ColumnDataChanged(source, columns, Some(columns.Keys))
  }

  function Patches(es: seq<DataEvent>): (ps: seq<PatchEvent>)
    ensures |ps| == |es|
  {
    seq(|es|, i requires 0 <= i < |es| => PatchOf(es[i]))
  }

  function Removals(es: seq<DataEvent>): seq<(SourceId, set<string>)>
    decreases |es|
  {
    if es == [] then []
    else
      var e := es[|es| - 1];
      Removals(es[..|es| - 1]) + if Removed(e) != {} then [(e.source, Removed(e))] else []
  }

  /** BokehJS applying one patch event; a merge names its columns in `cols`. */
  function ApplyPatchEvent(doc: Document, p: PatchEvent): (r: Document)
    ensures r.Keys == doc.Keys
  {
    if p.model !in doc then doc
    else match p
      case ColumnDataChanged(s, data, cols) =>
        doc[s := if cols.Some? then doc[s] + data else data]
      case ColumnsEdited(s, op) => doc[s := ApplyOp(op, doc[s])]
  }

  function ApplyPatches(ps: seq<PatchEvent>, doc: Document): (r: Document)
    ensures r.Keys == doc.Keys
    decreases |ps|
  {
    if ps == [] then doc else ApplyPatchEvent(ApplyPatches(ps[..|ps| - 1], doc), ps[|ps| - 1])
  }

  function RemoveColumns(doc: Document, s: SourceId, names: set<string>): (r: Document)
    ensures r.Keys == doc.Keys
  {
    if s in doc then doc[s := doc[s] - names] else doc
  }

  function RemoveAll(rs: seq<(SourceId, set<string>)>, doc: Document): (r: Document)
    ensures r.Keys == doc.Keys
    decreases |rs|
  {
    if rs == [] then doc
    else RemoveColumns(RemoveAll(rs[..|rs| - 1], doc), rs[|rs| - 1].0, rs[|rs| - 1].1)
  }

  /** `applyEvents`: one JSON patch for the whole batch, then every removal of the batch. */
  function Deferred(es: seq<DataEvent>, doc: Document): Document {
    RemoveAll(Removals(es), ApplyPatches(Patches(es), doc))
  }

  // ── Last mentions ───────────────────────────────────────────────────

  datatype Fate = Unmentioned | Present | Gone

  /** The last thing a list of events says about a column. */
  function LastMention(es: seq<DataEvent>, s: SourceId, name: string): Fate
    decreases |es|
  {
    if es == [] then Unmentioned
    else
      var e := es[|es| - 1];
      if e.source == s && name in Removed(e) then Gone
      else if e.source == s && name in Written(e) then Present
      else LastMention(es[..|es| - 1], s, name)
  }

  predicate RemovedBy(es: seq<DataEvent>, s: SourceId, name: string) {
    exists i :: 0 <= i < |es| && es[i].source == s && name in Removed(es[i])
  }

  predicate WrittenBy(es: seq<DataEvent>, s: SourceId, name: string) {
    exists i :: 0 <= i < |es| && es[i].source == s && name in Written(es[i])
  }

  /** No column that some event removes is written again after its last removal. */
  ghost predicate KeepsRemovals(es: seq<DataEvent>, doc: Document) {
    forall s, name :: s in doc && RemovedBy(es, s, name) ==> LastMention(es, s, name) == Gone
  }

  /** No column ends removed, unless the client never had it. */
  ghost predicate LeavesNothingBehind(es: seq<DataEvent>, doc: Document) {
    forall s, name :: s in doc && LastMention(es, s, name) == Gone
      ==> name !in doc[s] && !WrittenBy(es, s, name)
  }

  /** Bokeh streams and patches only columns the source has. */
  ghost predicate WellTargeted(es: seq<DataEvent>, doc: Document) {
    forall i :: 0 <= i < |es| && es[i].Edit? && es[i].source in doc
      ==> Touched(es[i].op) <= Sequential(es[..i], doc)[es[i].source].Keys
  }

  // ── Removals last, against the kernel's order ───────────────────────

  lemma {:induction false} PatchesMerge(es: seq<DataEvent>, doc: Document)
    ensures ApplyPatches(Patches(es), doc) == Merged(es, doc)
    decreases |es|
  {
    if es != [] {
      var n := |es| - 1;
      PatchesMerge(es[..n], doc);
      assert Patches(es)[..n] == Patches(es[..n]);
    }
  }

  lemma {:induction false} RemoveAllLooks(es: seq<DataEvent>, doc: Document, s: SourceId, name: string)
    ensures LookIn(RemoveAll(Removals(es), doc), s, name)
         == if RemovedBy(es, s, name) then None else LookIn(doc, s, name)
    decreases |es|
  {
    if es != [] {
      var n := |es| - 1;
      var front := es[..n];
      RemoveAllLooks(front, doc, s, name);
      RemovedBySnoc(es, s, name);
      if Removed(es[n]) != {} {
        assert Removals(es)[..|Removals(es)| - 1] == Removals(front);
      } else {
        assert Removals(es) == Removals(front);
      }
    }
  }

  lemma RemovedBySnoc(es: seq<DataEvent>, s: SourceId, name: string)
    requires es != []
    ensures RemovedBy(es, s, name)
        <==> RemovedBy(es[..|es| - 1], s, name)
             || (es[|es| - 1].source == s && name in Removed(es[|es| - 1]))
  {
    var n := |es| - 1;
    if RemovedBy(es[..n], s, name) {
      var i :| 0 <= i < n && es[..n][i].source == s && name in Removed(es[..n][i]);
      assert es[i].source == s && name in Removed(es[i]);
    }
    if i :| 0 <= i < |es| && es[i].source == s && name in Removed(es[i]) && i < n {
      assert es[..n][i] == es[i];
    }
  }

  /** A column nobody removes ends the same either way; otherwise the last mention decides. */
  lemma {:induction false} SequentialFate(es: seq<DataEvent>, doc: Document, s: SourceId, name: string)
    requires s in doc
    ensures !RemovedBy(es, s, name) ==> LookIn(Sequential(es, doc), s, name) == LookIn(Merged(es, doc), s, name)
    ensures LastMention(es, s, name) == Gone ==> LookIn(Sequential(es, doc), s, name) == None
    ensures LastMention(es, s, name) == Present ==> LookIn(Sequential(es, doc), s, name).Some?
    ensures LastMention(es, s, name) == Unmentioned ==> !RemovedBy(es, s, name)
    decreases |es|
  {
    if es != [] {
      var n := |es| - 1;
      var e := es[n];
      SequentialFate(es[..n], doc, s, name);
      RemovedBySnoc(es, s, name);
      if e.source == s {
        ApplyLooks(e, Sequential(es[..n], doc)[s], name);
        ApplyLooks(e, Merged(es[..n], doc)[s], name);
      }
    }
  }

  /** Applying a whole batch and then all its removals equals applying each event with
      its own removals in turn exactly when no removed column is written again. */
  lemma DeferredRemovals(es: seq<DataEvent>, doc: Document)
    ensures Deferred(es, doc) == Sequential(es, doc) <==> KeepsRemovals(es, doc)
  {
    PatchesMerge(es, doc);
    var merged := Merged(es, doc);
    if KeepsRemovals(es, doc) {
      forall s, c ensures LookIn(Deferred(es, doc), s, c) == LookIn(Sequential(es, doc), s, c) {
        RemoveAllLooks(es, merged, s, c);
        if s in doc {
          SequentialFate(es, doc, s, c);
        }
      }
      SameDocument(Deferred(es, doc), Sequential(es, doc));
    } else {
      var s, c :| s in doc && RemovedBy(es, s, c) && LastMention(es, s, c) != Gone;
      RemoveAllLooks(es, merged, s, c);
      SequentialFate(es, doc, s, c);
      assert LookIn(Deferred(es, doc), s, c) != LookIn(Sequential(es, doc), s, c);
    }
  }

  // ── No removals, against the kernel's order ─────────────────────────

  lemma WrittenBySnoc(es: seq<DataEvent>, s: SourceId, name: string)
    requires es != []
    ensures WrittenBy(es, s, name)
        <==> WrittenBy(es[..|es| - 1], s, name)
             || (es[|es| - 1].source == s && name in Written(es[|es| - 1]))
  {
    var n := |es| - 1;
    if WrittenBy(es[..n], s, name) {
      var i :| 0 <= i < n && es[..n][i].source == s && name in Written(es[..n][i]);
      assert es[i].source == s && name in Written(es[i]);
    }
    if i :| 0 <= i < |es| && es[i].source == s && name in Written(es[i]) && i < n {
      assert es[..n][i] == es[i];
    }
  }

  lemma WellTargetedPrefix(es: seq<DataEvent>, doc: Document, n: nat)
    requires n <= |es| && WellTargeted(es, doc)
    ensures WellTargeted(es[..n], doc)
  {
    forall i | 0 <= i < n && es[i].Edit? && es[i].source in doc
      ensures Touched(es[i].op) <= Sequential(es[..n][..i], doc)[es[i].source].Keys
    {
      assert es[..n][..i] == es[..i];
    }
  }

  lemma WellTargetedSnoc(es: seq<DataEvent>, e: DataEvent, doc: Document)
    requires WellTargeted(es, doc)
    requires e.Edit? && e.source in doc ==> Touched(e.op) <= Sequential(es, doc)[e.source].Keys
    ensures WellTargeted(es + [e], doc)
  {
    var fs := es + [e];
    forall i | 0 <= i < |fs| && fs[i].Edit? && fs[i].source in doc
      ensures Touched(fs[i].op) <= Sequential(fs[..i], doc)[fs[i].source].Keys
    {
      if i < |es| {
        assert fs[..i] == es[..i];
      } else {
        assert fs[..i] == es;
      }
    }
  }

  lemma {:induction false} MergedFate(es: seq<DataEvent>, doc: Document, s: SourceId, name: string)
    requires s in doc && WellTargeted(es, doc)
    ensures LastMention(es, s, name) == Gone ==> LookIn(Sequential(es, doc), s, name) == None
    ensures LastMention(es, s, name) != Gone
        ==> LookIn(Merged(es, doc), s, name) == LookIn(Sequential(es, doc), s, name)
    ensures LookIn(Merged(es, doc), s, name) == None <==> name !in doc[s] && !WrittenBy(es, s, name)
    decreases |es|
  {
    if es != [] {
      var n := |es| - 1;
      var e := es[n];
      WellTargetedPrefix(es, doc, n);
      MergedFate(es[..n], doc, s, name);
      WrittenBySnoc(es, s, name);
      if e.source == s {
        ApplyLooks(e, Sequential(es[..n], doc)[s], name);
        ApplyLooks(e, Merged(es[..n], doc)[s], name);
      }
    }
  }

  /** Replaying events without their removals reaches the kernel's state exactly when no
      column the client had ends up removed. */
  lemma RemovalsDropped(es: seq<DataEvent>, doc: Document)
    requires WellTargeted(es, doc)
    ensures Merged(es, doc) == Sequential(es, doc) <==> LeavesNothingBehind(es, doc)
  {
    if LeavesNothingBehind(es, doc) {
      forall s, c ensures LookIn(Merged(es, doc), s, c) == LookIn(Sequential(es, doc), s, c) {
        if s in doc {
          MergedFate(es, doc, s, c);
        }
      }
      SameDocument(Merged(es, doc), Sequential(es, doc));
    } else {
      var s, c :| s in doc && LastMention(es, s, c) == Gone && (c in doc[s] || WrittenBy(es, s, c));
      MergedFate(es, doc, s, c);
      assert LookIn(Merged(es, doc), s, c) != LookIn(Sequential(es, doc), s, c);
    }
  }

  /** A batch that removes a column and writes it again loses it. */
  lemma RewrittenColumnIsLost()
    ensures var es := [Replace("s", 0, 1, map[], {"a"}), Replace("s", 1, 2, map["a" := [2]], {})];
            var doc: Document := map["s" := map["a" := [1]]];
            Deferred(es, doc) != Sequential(es, doc)
  {
    var es := [Replace("s", 0, 1, map[], {"a"}), Replace("s", 1, 2, map["a" := [2]], {})];
    var doc: Document := map["s" := map["a" := [1]]];
    assert "a" in Removed(es[0]) && RemovedBy(es, "s", "a");
    assert LastMention(es, "s", "a") == Present;
    DeferredRemovals(es, doc);
  }

  /** A tail that removes a column the client has leaves it on the view. */
  lemma TailLeavesColumnBehind()
    ensures var es := [Replace("s", 0, 1, map[], {"a"})];
            var doc: Document := map["s" := map["a" := [1]]];
            Merged(es, doc) != Sequential(es, doc)
  {
    var es := [Replace("s", 0, 1, map[], {"a"})];
    var doc: Document := map["s" := map["a" := [1]]];
    assert LastMention(es, "s", "a") == Gone;
    RemovalsDropped(es, doc);
  }
}
