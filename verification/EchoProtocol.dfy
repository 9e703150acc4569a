/** Runs of the data protocol against the kernel's history: batches that drop, repeat and
    reorder events, reloads after gaps, and this frame's own edits, applied before the
    kernel has versioned them. */
module EchoProtocol {
  import opened Options
  import opened ColumnData
  import opened DataReplica

  // ── The kernel's history ────────────────────────────────────────────

  /** Every version of every source, the event that leaves each version, and the
      transaction that event belongs to. */
  datatype Kernel = Kernel(tables: map<SourceId, map<int, Table>>,
                           events: map<(SourceId, int), DataEvent>,
                           tx: map<(SourceId, int), TxId>)

  ghost predicate HasVersion(K: Kernel, s: SourceId, v: int) {
    s in K.tables && v in K.tables[s]
  }

  /** The event leads from its base version to the next one of its source. */
  ghost predicate Leads(K: Kernel, e: DataEvent) {
    && HasVersion(K, e.source, e.base) && HasVersion(K, e.source, e.next)
    && e.base < e.next
    && (forall u :: u in K.tables[e.source] ==> u <= e.base || e.next <= u)
    && K.tables[e.source][e.next] == KernelApply(e, K.tables[e.source][e.base])
    && (e.Edit? ==> Touched(e.op) <= K.tables[e.source][e.base].Keys)
  }

  ghost predicate Consistent(K: Kernel) {
    forall key :: key in K.events ==>
      && K.events[key].source == key.0 && K.events[key].base == key.1
      && key in K.tx
      && Leads(K, K.events[key])
  }

  ghost predicate Genuine(K: Kernel, e: DataEvent) {
    (e.source, e.base) in K.events && K.events[(e.source, e.base)] == e
  }

  ghost function TxOf(K: Kernel, e: DataEvent): Option<TxId> {
    if (e.source, e.base) in K.tx then Some(K.tx[(e.source, e.base)]) else None
  }

  // ── Edits and what answers them ─────────────────────────────────────

  /** An edit this frame made: applied to the view when `base` was shown. */
  datatype LocalEdit = LocalEdit(tx: TxId, source: SourceId, op: Op, base: Option<int>)

  /** The kernel answers an edit with its echo, or folds it into a replacement. */
  predicate Answers(e: DataEvent, s: SourceId) {
    e.source == s && (e.Replace? || e.echoOf == Some(0))
  }

  ghost predicate AnsweredAt(K: Kernel, edit: LocalEdit, b: int) {
    var key := (edit.source, b);
    key in K.events && key in K.tx && K.tx[key] == edit.tx && Answers(K.events[key], edit.source)
  }

  ghost predicate EchoedAt(K: Kernel, edit: LocalEdit, b: int) {
    AnsweredAt(K, edit, b) && K.events[(edit.source, b)].Edit?
  }

  /** The echo carries the edit. */
  ghost predicate Honest(K: Kernel, edit: LocalEdit) {
    forall b :: EchoedAt(K, edit, b) ==> K.events[(edit.source, b)].op == edit.op
  }

  /** The kernel has not answered the edit in any version up to `v`. */
  ghost predicate UnansweredBefore(K: Kernel, edit: LocalEdit, v: int) {
    forall b :: AnsweredAt(K, edit, b) ==> v <= b
  }

  // ── A frame and its environment ─────────────────────────────────────

  /** `queue`: gaps the current batch still has to reload. `rejected`: one reload
      per refused edit, in order. `onView`: edits the view shows ahead of the kernel.
      `awaiting`: edits not yet answered, with their sources. */
  datatype World = World(rep: Replica, queue: seq<SourceId>, rejected: seq<SourceId>,
                         onView: set<LocalEdit>, awaiting: map<TxId, SourceId>)

  datatype Step =
    | EditView(tx: TxId, source: SourceId, op: Op)
    | Refused(refusedTx: TxId)
    | Events(batch: Batch)
    | ReloadGap(reply: Reply, version: int)
    | ReloadRefused(reply: Reply, version: int)

  function VersionOf(r: Replica, s: SourceId): Option<int> {
    if s in r.versions then Some(r.versions[s]) else None
  }

  predicate AnswersIn(batch: Batch, s: SourceId) {
    exists i :: 0 <= i < |batch.events| && Answers(batch.events[i], s)
  }

  function Reloaded(w: World, s: SourceId, reply: Reply, v: int): World {
    match reply
    case Threw => w.(rep := w.rep.(dirty := true), queue := [])
    case Nothing => w
    case Delivered(loaded) =>
      w.(rep := Reload(w.rep, s, loaded, v), onView := set e | e in w.onView && e.source != s)
  }

  function AfterEvents(w: World, batch: Batch): World {
    var (rep, gaps) := ApplyBatch(w.rep, batch);
    if w.rep.epoch.None? || w.rep.dirty then w.(queue := gaps)
    else World(rep, gaps, w.rejected,
          (set e | e in w.onView && (e.tx != batch.tx || batch.tx in rep.own.edits)),
          if batch.tx in w.awaiting && AnswersIn(batch, w.awaiting[batch.tx])
          then w.awaiting - {batch.tx} else w.awaiting)
  }

  function Next(w: World, step: Step): World {
    match step
    case EditView(t, s, op) =>
      w.(rep := EditLocally(w.rep, t, s, op),
         onView := w.onView + {LocalEdit(t, s, op, VersionOf(w.rep, s))},
         awaiting := w.awaiting[t := s])
    case Refused(t) =>
      if t !in w.awaiting then w
      else w.(rep := w.rep.(own := Forget(w.rep.own, t)), rejected := w.rejected + [w.awaiting[t]],
              awaiting := w.awaiting - {t})
    case Events(batch) => if w.queue == [] then AfterEvents(w, batch) else w
    case ReloadGap(reply, v) =>
      if w.queue == [] then w
      else
        var w' := Reloaded(w, w.queue[0], reply, v);
        if reply.Threw? then w' else w'.(queue := w.queue[1..])
    case ReloadRefused(reply, v) =>
      if w.queue != [] || w.rejected == [] then w
      else Reloaded(w, w.rejected[0], reply, v).(rejected := w.rejected[1..])
  }

  // ── What the environment promises at each step ──────────────────────

  ghost predicate FreshEdit(K: Kernel, w: World, t: TxId, s: SourceId, op: Op) {
    var edit := LocalEdit(t, s, op, VersionOf(w.rep, s));
    && s in w.rep.document
    && t !in w.rep.own.edits && t !in w.awaiting && (forall e :: e in w.onView ==> e.tx != t)
    && Honest(K, edit)
    && (s in w.rep.versions ==> UnansweredBefore(K, edit, w.rep.versions[s]))
    // the limit of remembered edits does not push out one that is still unanswered
    && (|w.rep.own.order| >= OWN_TRANSACTION_LIMIT ==> w.rep.own.order[0] !in w.awaiting)
  }

  ghost predicate AllGenuine(K: Kernel, batch: Batch) {
    forall i :: 0 <= i < |batch.events| ==> Genuine(K, batch.events[i]) && TxOf(K, batch.events[i]) == Some(batch.tx)
  }

  predicate EchoFrom(batch: Batch, i: nat, s: SourceId) {
    exists j :: i <= j < |batch.events| && batch.events[j].Edit? && batch.events[j].source == s
                && batch.events[j].echoOf == Some(0)
  }

  /** A replacement in the batch of an edit's own transaction folds the edit in, and then
      carries or removes its columns, unless the batch has the edit's echo or the kernel
      echoed the edit before. */
  ghost predicate FoldsHonestly(K: Kernel, x: LocalEdit, batch: Batch) {
    forall i :: 0 <= i < |batch.events| && batch.events[i].Replace? && batch.events[i].source == x.source ==>
      || EchoFrom(batch, 0, x.source)
      || (exists b :: b < batch.events[i].base && EchoedAt(K, x, b))
      || Touched(x.op) <= Written(batch.events[i]) + Removed(batch.events[i])
  }

  ghost predicate OwnFoldsHonestly(K: Kernel, w: World, batch: Batch, s: SourceId) {
    forall x :: x in w.onView && x.tx == batch.tx && x.source == s ==> FoldsHonestly(K, x, batch)
  }

  /** Any selection of the transaction's events, in any order and number. */
  ghost predicate GenuineBatch(K: Kernel, w: World, batch: Batch) {
    && AllGenuine(K, batch)
    && KeepsRemovals(ScanBatch(w.rep.versions, w.rep.own, w.rep.document.Keys, batch).accepted, w.rep.document)
    && (forall s :: Settled(w, s) ==> OwnFoldsHonestly(K, w, batch, s))
  }

  function TailOf(r: Replica, s: SourceId, loaded: Loaded, v: int): Replay {
    ReplayEvents(Replay(r.versions[s := v], []), {s}, Flatten(loaded.tail))
  }

  /** The blobs are the kernel's state at `v`, the tail continues it without leaving a
      removed column behind, and the reload ends past the base of every remembered edit. */
  ghost predicate GenuineReload(K: Kernel, r: Replica, s: SourceId, loaded: Loaded, v: int) {
    && s in r.document
    && IsMaxVersion(ColumnsOf(loaded, s), v)
    && HasVersion(K, s, v) && TableOf(ColumnsOf(loaded, s)) == K.tables[s][v]
    && (forall i :: 0 <= i < |Flatten(loaded.tail)| && Flatten(loaded.tail)[i].source == s
          ==> Genuine(K, Flatten(loaded.tail)[i]))
    && LeavesNothingBehind(TailOf(r, s, loaded, v).accepted, r.document[s := TableOf(ColumnsOf(loaded, s))])
    && (forall t :: t in r.own.edits && r.own.edits[t].source == s && r.own.edits[t].base.Some?
          ==> r.own.edits[t].base.value < TailOf(r, s, loaded, v).versions[s])
  }

  /** The host answers a data request or fails; it does not answer with nothing. */
  ghost predicate GenuineReply(K: Kernel, r: Replica, s: SourceId, reply: Reply, v: int) {
    match reply
    case Threw => true
    case Nothing => false
    case Delivered(loaded) => GenuineReload(K, r, s, loaded, v)
  }

  ghost predicate Allowed(K: Kernel, w: World, step: Step) {
    match step
    case EditView(t, s, op) => FreshEdit(K, w, t, s, op)
    case Refused(t) => true
    case Events(batch) => GenuineBatch(K, w, batch)
    case ReloadGap(reply, v) => w.queue != [] ==> GenuineReply(K, w.rep, w.queue[0], reply, v)
    case ReloadRefused(reply, v) => w.rejected != [] ==> GenuineReply(K, w.rep, w.rejected[0], reply, v)
  }

  // ── The invariant ───────────────────────────────────────────────────

  predicate Settled(w: World, s: SourceId) {
    !w.rep.dirty && s in w.rep.document && s in w.rep.versions && s !in w.queue && s !in w.rejected
  }

  ghost predicate OnColumn(onView: set<LocalEdit>, e: LocalEdit, s: SourceId, c: string) {
    e in onView && e.source == s && c in Touched(e.op)
  }

  /** A column no edit touches is the kernel's. A column a single edit touches, made at
      the version shown, is the kernel's with that edit. */
  ghost predicate ColumnTracks(table: Table, kernel: Table, onView: set<LocalEdit>, s: SourceId, v: int, c: string) {
    && ((forall e :: !OnColumn(onView, e, s, c)) ==> Look(table, c) == Look(kernel, c))
    && (forall e :: OnColumn(onView, e, s, c) && e.base == Some(v)
                    && (forall f :: OnColumn(onView, f, s, c) ==> f == e)
                    ==> Look(table, c) == EditLook(e.op, c, Look(kernel, c)))
  }

  /** An edit on the view is remembered with its base and has no answer before `v`. */
  ghost predicate Remembered(K: Kernel, own: Ledger, e: LocalEdit, v: int) {
    && e.base.Some? && e.base.value <= v
    && e.tx in own.edits && own.edits[e.tx] == OwnDataEdit(e.source, 0, e.base)
    && Honest(K, e)
  }

  ghost predicate Tracks(K: Kernel, doc: Document, own: Ledger, onView: set<LocalEdit>, s: SourceId, v: int) {
    && s in doc && HasVersion(K, s, v)
    && (forall c :: ColumnTracks(doc[s], K.tables[s][v], onView, s, v, c))
    && (forall e :: e in onView && e.source == s ==> Remembered(K, own, e, v))
    && (forall t :: t in own.edits && own.edits[t].source == s ==> PastOrShown(own.edits[t], onView, t, v))
  }

  /** A remembered edit the view does not show was made before `v`. */
  ghost predicate PastOrShown(edit: OwnDataEdit, onView: set<LocalEdit>, t: TxId, v: int) {
    edit.base.None? || edit.base.value < v || (exists e :: e in onView && e.tx == t && e.source == edit.source)
  }

  ghost predicate DistinctTx(onView: set<LocalEdit>) {
    forall e, f :: e in onView && f in onView && e.tx == f.tx ==> e == f
  }

  ghost predicate SettledTracks(K: Kernel, w: World, s: SourceId) {
    && s in w.rep.versions
    && Tracks(K, w.rep.document, w.rep.own, w.onView, s, w.rep.versions[s])
    && (forall e :: e in w.onView && e.source == s ==>
          e.tx in w.awaiting && w.awaiting[e.tx] == s && UnansweredBefore(K, e, w.rep.versions[s]))
  }

  ghost predicate Inv(K: Kernel, w: World) {
    && Consistent(K) && w.rep.own.Valid() && DistinctTx(w.onView)
    && (forall t :: t in w.rep.own.edits ==> w.rep.own.edits[t].index == 0)
    && (forall s :: Settled(w, s) ==> SettledTracks(K, w, s))
  }

  // ── An edit made on the view ────────────────────────────────────────

  lemma EditKeeps(K: Kernel, w: World, t: TxId, s: SourceId, op: Op)
    requires Inv(K, w) && FreshEdit(K, w, t, s, op)
    ensures Inv(K, Next(w, EditView(t, s, op)))
  {
    var w' := Next(w, EditView(t, s, op));
    RememberKeeps(w.rep.own, t, OwnDataEdit(s, 0, VersionOf(w.rep, s)));
    forall r | Settled(w', r) ensures SettledTracks(K, w', r) {
      assert Settled(w, r);
      EditKeepsSource(K, w, t, s, op, r);
    }
  }

  lemma EditKeepsSource(K: Kernel, w: World, t: TxId, s: SourceId, op: Op, r: SourceId)
    requires Inv(K, w) && FreshEdit(K, w, t, s, op) && Settled(w, r)
    ensures SettledTracks(K, Next(w, EditView(t, s, op)), r)
  {
    var w' := Next(w, EditView(t, s, op));
    var edit := LocalEdit(t, s, op, VersionOf(w.rep, s));
    var own, own' := w.rep.own, w'.rep.own;
    RememberKeeps(own, t, OwnDataEdit(s, 0, edit.base));
    var v := w.rep.versions[r];
    assert SettledTracks(K, w, r);
    forall c ensures ColumnTracks(w'.rep.document[r], K.tables[r][v], w'.onView, r, v, c) {
      EditColumnTracks(K, w, edit, r, c);
    }
    forall e | e in w'.onView && e.source == r ensures Remembered(K, own', e, v) {
      if e != edit {
        assert Remembered(K, own, e, v);
      }
    }
    forall u | u in own'.edits && own'.edits[u].source == r
      ensures PastOrShown(own'.edits[u], w'.onView, u, v)
    {
      if u == t {
        assert edit in w'.onView;
      } else {
        assert PastOrShown(own.edits[u], w.onView, u, v);
      }
    }
  }

  lemma RememberKeeps(l: Ledger, t: TxId, edit: OwnDataEdit)
    requires l.Valid() && t !in l.edits
    ensures var l' := Remember(l, t, edit);
            && t in l'.edits && l'.edits[t] == edit
            && (forall u :: u in l'.edits && u != t ==> u in l.edits && l'.edits[u] == l.edits[u])
            && (forall u :: u in l.edits && (|l.order| < OWN_TRANSACTION_LIMIT || u != l.order[0])
                  ==> u in l'.edits && l'.edits[u] == l.edits[u])
  {
  }

  lemma EditColumnTracks(K: Kernel, w: World, edit: LocalEdit, s: SourceId, c: string)
    requires s in w.rep.document && s in w.rep.versions && HasVersion(K, s, w.rep.versions[s])
    requires edit.source in w.rep.document && edit.base == VersionOf(w.rep, edit.source)
    requires forall e :: e in w.onView ==> e.tx != edit.tx
    requires ColumnTracks(w.rep.document[s], K.tables[s][w.rep.versions[s]], w.onView, s, w.rep.versions[s], c)
    ensures ColumnTracks(EditLocally(w.rep, edit.tx, edit.source, edit.op).document[s],
                         K.tables[s][w.rep.versions[s]], w.onView + {edit}, s, w.rep.versions[s], c)
  {
    var onView := w.onView + {edit};
    if edit.source == s && c in Touched(edit.op) {
      assert OnColumn(onView, edit, s, c);
      if forall f :: OnColumn(onView, f, s, c) ==> f == edit {
        forall e ensures !OnColumn(w.onView, e, s, c) {
          assert OnColumn(w.onView, e, s, c) ==> OnColumn(onView, e, s, c);
        }
      }
    } else {
      assert forall e :: OnColumn(onView, e, s, c) <==> OnColumn(w.onView, e, s, c);
    }
  }

  // ── A reload ────────────────────────────────────────────────────────

  /** The accepted events are the source's, and lead from its table to the kernel's. */
  ghost predicate Reaches(K: Kernel, doc: Document, s: SourceId, accepted: seq<DataEvent>, v: int) {
    && HasVersion(K, s, v)
    && s in doc && Sequential(accepted, doc)[s] == K.tables[s][v]
    && WellTargeted(accepted, doc)
    && (forall i :: 0 <= i < |accepted| ==> accepted[i].source == s)
  }

  lemma ReachesFurther(K: Kernel, doc: Document, s: SourceId, accepted: seq<DataEvent>, e: DataEvent)
    requires Consistent(K) && Reaches(K, doc, s, accepted, e.base) && Genuine(K, e) && e.source == s
    ensures Reaches(K, doc, s, accepted + [e], e.next)
  {
    assert Leads(K, K.events[(s, e.base)]);
    assert (accepted + [e])[..|accepted|] == accepted;
    WellTargetedSnoc(accepted, e, doc);
  }

  /** Tail events that continue a source from a kernel state reach the kernel state at
      the version they end on. */
  lemma {:induction false} ReplayReaches(K: Kernel, doc: Document, versions: map<SourceId, int>,
                                         s: SourceId, es: seq<DataEvent>)
    requires Consistent(K) && s in versions && Reaches(K, doc, s, [], versions[s])
    requires forall i :: 0 <= i < |es| && es[i].source == s ==> Genuine(K, es[i])
    ensures var r := ReplayEvents(Replay(versions, []), {s}, es);
            Reaches(K, doc, s, r.accepted, r.versions[s])
    decreases |es|
  {
    if es != [] {
      var n := |es| - 1;
      ReplayReaches(K, doc, versions, s, es[..n]);
      var r := ReplayEvents(Replay(versions, []), {s}, es[..n]);
      if es[n].source == s && r.versions[s] == es[n].base {
        ReachesFurther(K, doc, s, r.accepted, es[n]);
      }
    }
  }

  lemma {:induction false} ReplayElsewhere(r: Replay, s: SourceId, es: seq<DataEvent>, u: SourceId)
    requires u in r.versions && u != s
    ensures ReplayEvents(r, {s}, es).versions[u] == r.versions[u]
    decreases |es|
  {
    if es != [] {
      ReplayElsewhere(r, s, es[..|es| - 1], u);
    }
  }

  lemma {:induction false} MergedElsewhere(es: seq<DataEvent>, doc: Document, s: SourceId, r: SourceId)
    requires forall i :: 0 <= i < |es| ==> es[i].source == s
    requires r != s && r in doc
    ensures Merged(es, doc)[r] == doc[r]
    decreases |es|
  {
    if es != [] {
      MergedElsewhere(es[..|es| - 1], doc, s, r);
    }
  }

  /** A reload shows the kernel's state at the version it ends on, and nothing else changes. */
  lemma ReloadReaches(K: Kernel, r: Replica, s: SourceId, loaded: Loaded, v: int)
    requires Consistent(K) && GenuineReload(K, r, s, loaded, v)
    ensures var r' := Reload(r, s, loaded, v);
            && s in r'.versions && HasVersion(K, s, r'.versions[s])
            && r'.document.Keys == r.document.Keys
            && r'.document[s] == K.tables[s][r'.versions[s]]
            && r'.versions[s] == TailOf(r, s, loaded, v).versions[s]
            && r'.versions.Keys == r.versions.Keys + {s}
            && (forall u :: u in r.versions && u != s ==> r'.versions[u] == r.versions[u])
            && (forall u :: u in r.document && u != s ==> r'.document[u] == r.document[u])
  {
    var doc := r.document[s := TableOf(ColumnsOf(loaded, s))];
    var versions := r.versions[s := v];
    ReplayReaches(K, doc, versions, s, Flatten(loaded.tail));
    var accepted := TailOf(r, s, loaded, v).accepted;
    RemovalsDropped(accepted, doc);
    ReloadElsewhere(K, r, s, loaded, v);
  }

  lemma ReloadElsewhere(K: Kernel, r: Replica, s: SourceId, loaded: Loaded, v: int)
    requires Consistent(K) && GenuineReload(K, r, s, loaded, v)
    ensures forall u :: u in r.versions && u != s ==> u in Reload(r, s, loaded, v).versions
                                                      && Reload(r, s, loaded, v).versions[u] == r.versions[u]
    ensures forall u :: u in r.document && u != s ==> u in Reload(r, s, loaded, v).document
                                                      && Reload(r, s, loaded, v).document[u] == r.document[u]
  {
    var doc := r.document[s := TableOf(ColumnsOf(loaded, s))];
    var versions := r.versions[s := v];
    ReplayReaches(K, doc, versions, s, Flatten(loaded.tail));
    forall u | u in r.document && u != s ensures Reload(r, s, loaded, v).document[u] == r.document[u] {
      MergedElsewhere(TailOf(r, s, loaded, v).accepted, doc, s, u);
    }
    forall u | u in r.versions && u != s ensures Reload(r, s, loaded, v).versions[u] == r.versions[u] {
      ReplayElsewhere(Replay(versions, []), s, Flatten(loaded.tail), u);
    }
  }

  lemma ReloadKeeps(K: Kernel, w: World, s: SourceId, loaded: Loaded, v: int, w': World)
    requires Inv(K, w) && GenuineReload(K, w.rep, s, loaded, v)
    requires w'.rep == Reload(w.rep, s, loaded, v)
    requires w'.onView == (set e | e in w.onView && e.source != s) && w'.awaiting == w.awaiting
    requires forall r :: r != s && Settled(w', r) ==> Settled(w, r)
    ensures Inv(K, w')
  {
    ReloadReaches(K, w.rep, s, loaded, v);
    forall r | Settled(w', r) ensures SettledTracks(K, w', r) {
      var x := w'.rep.versions[r];
      if r == s {
        forall c ensures ColumnTracks(w'.rep.document[s], K.tables[s][x], w'.onView, s, x, c) {
          assert forall e :: !OnColumn(w'.onView, e, s, c);
        }
      } else {
        assert SettledTracks(K, w, r);
        forall c ensures ColumnTracks(w'.rep.document[r], K.tables[r][x], w'.onView, r, x, c) {
          assert forall e :: OnColumn(w'.onView, e, r, c) <==> OnColumn(w.onView, e, r, c);
          assert ColumnTracks(w.rep.document[r], K.tables[r][x], w.onView, r, x, c);
        }
        forall t | t in w.rep.own.edits && w.rep.own.edits[t].source == r
          ensures PastOrShown(w.rep.own.edits[t], w'.onView, t, x)
        {
          assert PastOrShown(w.rep.own.edits[t], w.onView, t, x);
        }
      }
    }
  }

  // ── A batch, one event at a time ────────────────────────────────────

  predicate AnsweredBefore(batch: Batch, i: nat, s: SourceId) {
    exists j :: 0 <= j < i && j < |batch.events| && Answers(batch.events[j], s)
  }

  function ShownAfter(onView: set<LocalEdit>, own: Ledger, tx: TxId): set<LocalEdit> {
    set e | e in onView && (e.tx != tx || tx in own.edits)
  }

  /** Where the scan stands with an edit of the batch's own transaction: every answer the
      version has passed is a replacement whose echo is still to come in this batch. */
  ghost predicate OwnPending(K: Kernel, batch: Batch, i: nat, e: LocalEdit, v: int) {
    && (forall b :: AnsweredAt(K, e, b) ==>
          v <= b || (K.events[(e.source, b)].Replace? && EchoFrom(batch, i, e.source)))
    && (AnsweredBefore(batch, i, e.source) ==> EchoFrom(batch, i, e.source))
  }

  ghost predicate Pending(K: Kernel, batch: Batch, i: nat, e: LocalEdit, v: int) {
    if e.tx == batch.tx then OwnPending(K, batch, i, e, v) else UnansweredBefore(K, e, v)
  }

  ghost predicate ScanTracks(K: Kernel, w: World, batch: Batch, k: Scan, i: nat, s: SourceId) {
    var onView := ShownAfter(w.onView, k.own, batch.tx);
    && s in k.versions
    && Tracks(K, Sequential(k.accepted, w.rep.document), k.own, onView, s, k.versions[s])
    && (forall e :: e in onView && e.source == s ==> Pending(K, batch, i, e, k.versions[s]))
  }

  /** The source is to be reloaded, or what the scan has applied tracks it. */
  ghost predicate ScanGoesOn(K: Kernel, w: World, batch: Batch, k: Scan, i: nat, s: SourceId) {
    s in k.gaps || ScanTracks(K, w, batch, k, i, s)
  }

  ghost predicate OwnScanned(own: Ledger, k: Scan, tx: TxId) {
    && k.ownEdit == Find(k.own, tx)
    && (k.own.edits == own.edits || k.own.edits == own.edits - {tx})
    && (forall t :: t in k.own.edits ==> k.own.edits[t].index == 0)
  }

  /** An ordinary event: what the view shows follows the kernel to the next version.
      Edits may leave the view with a replacement that carries or removes their columns. */
  lemma ApplyTracks(K: Kernel, doc: Document, own: Ledger, onView: set<LocalEdit>, e: DataEvent,
                    own': Ledger, onView': set<LocalEdit>)
    requires Consistent(K) && Genuine(K, e)
    requires Tracks(K, doc, own, onView, e.source, e.base)
    requires onView' <= onView
    requires forall x :: x in onView - onView' && x.source == e.source
               ==> e.Replace? && Touched(x.op) <= Written(e) + Removed(e)
    requires forall t :: t in own'.edits ==> t in own.edits && own'.edits[t] == own.edits[t]
    requires forall x :: x in onView' && x.source == e.source ==> x.tx in own'.edits
    ensures Tracks(K, doc[e.source := KernelApply(e, doc[e.source])], own', onView', e.source, e.next)
  {
    var s, v := e.source, e.base;
    assert Leads(K, K.events[(s, v)]);
    var table := KernelApply(e, doc[s]);
    forall c ensures ColumnTracks(table, K.tables[s][e.next], onView', s, e.next, c) {
      ApplyLooks(e, doc[s], c);
      ApplyLooks(e, K.tables[s][v], c);
      assert ColumnTracks(doc[s], K.tables[s][v], onView, s, v, c);
      forall x | OnColumn(onView', x, s, c) ensures x.base != Some(e.next) {
        assert Remembered(K, own, x, v);
      }
      if e.Edit? || c !in Written(e) + Removed(e) {
        forall x | OnColumn(onView, x, s, c) ensures OnColumn(onView', x, s, c) {
        }
      }
    }
    KeepsPast(K, own, onView, s, v, own', onView', e.next);
  }

  lemma KeepsPast(K: Kernel, own: Ledger, onView: set<LocalEdit>, s: SourceId, v: int,
                  own': Ledger, onView': set<LocalEdit>, v': int)
    requires v < v' && onView' <= onView
    requires forall e :: e in onView && e.source == s ==> Remembered(K, own, e, v)
    requires forall t :: t in own.edits && own.edits[t].source == s ==> PastOrShown(own.edits[t], onView, t, v)
    requires forall t :: t in own'.edits ==> t in own.edits && own'.edits[t] == own.edits[t]
    requires forall x :: x in onView' && x.source == s ==> x.tx in own'.edits
    ensures forall e :: e in onView' && e.source == s ==> Remembered(K, own', e, v')
    ensures forall t :: t in own'.edits && own'.edits[t].source == s ==> PastOrShown(own'.edits[t], onView', t, v')
  {
    forall e | e in onView' && e.source == s ensures Remembered(K, own', e, v') {
      assert Remembered(K, own, e, v);
    }
    forall t | t in own'.edits && own'.edits[t].source == s ensures PastOrShown(own'.edits[t], onView', t, v') {
      assert PastOrShown(own.edits[t], onView, t, v);
      if e :| e in onView && e.tx == t && e.source == s {
        assert Remembered(K, own, e, v);
      }
    }
  }

  /** An absorbed echo: the view already shows the edit the kernel has just versioned. */
  lemma AbsorbTracks(K: Kernel, doc: Document, own: Ledger, onView: set<LocalEdit>, e: DataEvent, t: TxId, own': Ledger)
    requires Consistent(K) && Genuine(K, e) && e.Edit? && e.echoOf == Some(0) && TxOf(K, e) == Some(t)
    requires Tracks(K, doc, own, onView, e.source, e.base) && DistinctTx(onView)
    requires t in own.edits && own.edits[t].source == e.source && own.edits[t].base == Some(e.base)
    requires own'.edits == own.edits - {t}
    ensures Tracks(K, doc, own', (set x | x in onView && x.tx != t), e.source, e.next)
  {
    var s, v := e.source, e.base;
    assert Leads(K, K.events[(s, v)]);
    var onView' := set x | x in onView && x.tx != t;
    assert PastOrShown(own.edits[t], onView, t, v);
    var edit :| edit in onView && edit.tx == t && edit.source == s;
    assert Remembered(K, own, edit, v) && EchoedAt(K, edit, v);
    forall c ensures ColumnTracks(doc[s], K.tables[s][e.next], onView', s, e.next, c) {
      ApplyLooks(e, K.tables[s][v], c);
      assert ColumnTracks(doc[s], K.tables[s][v], onView, s, v, c);
      forall x | OnColumn(onView', x, s, c) ensures x.base != Some(e.next) {
        assert Remembered(K, own, x, v);
      }
      if forall x :: !OnColumn(onView', x, s, c) {
        forall x | OnColumn(onView, x, s, c) ensures x == edit {
          assert !OnColumn(onView', x, s, c);
        }
        assert c in Touched(edit.op) ==> OnColumn(onView, edit, s, c);
      }
    }
    forall x | x in onView' && x.source == s ensures x.tx in own'.edits {
      assert Remembered(K, own, x, v);
    }
    KeepsPast(K, own, onView, s, v, own', onView', e.next);
  }

  /** Past an event that is not the edit's own answer, the edit stays unanswered. */
  lemma PendingFurther(K: Kernel, batch: Batch, i: nat, x: LocalEdit)
    requires Consistent(K) && i < |batch.events|
    requires Genuine(K, batch.events[i]) && TxOf(K, batch.events[i]) == Some(batch.tx)
    requires x.source == batch.events[i].source
    requires Pending(K, batch, i, x, batch.events[i].base)
    requires x.tx == batch.tx && Answers(batch.events[i], x.source)
             ==> batch.events[i].Replace? && EchoFrom(batch, i + 1, x.source)
    ensures Pending(K, batch, i + 1, x, batch.events[i].next)
  {
    var e := batch.events[i];
    assert Leads(K, K.events[(e.source, e.base)]);
    forall b | AnsweredAt(K, x, b)
      ensures e.next <= b || b == e.base || (b < e.base && x.tx == batch.tx)
    {
      assert Leads(K, K.events[(x.source, b)]);
    }
    EchoMoves(batch, i, x.source);
  }

  lemma EchoMoves(batch: Batch, i: nat, s: SourceId)
    requires i < |batch.events|
    ensures EchoFrom(batch, i + 1, s) ==> EchoFrom(batch, i, s)
    ensures EchoFrom(batch, i, s) ==> EchoFrom(batch, i + 1, s)
                                      || (batch.events[i].Edit? && Answers(batch.events[i], s))
    ensures AnsweredBefore(batch, i + 1, s) <==> AnsweredBefore(batch, i, s) || Answers(batch.events[i], s)
  {
    assert AnsweredBefore(batch, i + 1, s) ==> AnsweredBefore(batch, i, s) || Answers(batch.events[i], s);
  }

  /** Past a stale or foreign event, the edit stays as it was. */
  lemma PendingPast(K: Kernel, batch: Batch, i: nat, x: LocalEdit, v: int)
    requires i < |batch.events|
    requires Pending(K, batch, i, x, v)
    requires var e := batch.events[i]; e.source == x.source && x.tx == batch.tx ==>
               Genuine(K, e) && TxOf(K, e) == Some(batch.tx) && e.base < v
    ensures Pending(K, batch, i + 1, x, v)
  {
    EchoMoves(batch, i, x.source);
    var e := batch.events[i];
    if x.tx == batch.tx && Answers(e, x.source) {
      assert AnsweredAt(K, x, e.base);
    }
  }

  /** Tracking a source looks only at its table, its edits and its ledger entries. */
  lemma TracksFrame(K: Kernel, doc: Document, own: Ledger, onView: set<LocalEdit>, s: SourceId, v: int,
                    doc': Document, own': Ledger, onView': set<LocalEdit>)
    requires Tracks(K, doc, own, onView, s, v)
    requires s in doc' && doc'[s] == doc[s]
    requires forall e: LocalEdit :: e.source == s ==> (e in onView' <==> e in onView)
    requires forall t :: t in own'.edits && own'.edits[t].source == s
               ==> t in own.edits && own'.edits[t] == own.edits[t]
    requires forall e :: e in onView && e.source == s && e.tx in own.edits
               ==> e.tx in own'.edits && own'.edits[e.tx] == own.edits[e.tx]
    ensures Tracks(K, doc', own', onView', s, v)
  {
    forall e | e in onView' && e.source == s ensures Remembered(K, own', e, v) {
      assert Remembered(K, own, e, v);
    }
    forall c ensures ColumnTracks(doc'[s], K.tables[s][v], onView', s, v, c) {
      assert ColumnTracks(doc[s], K.tables[s][v], onView, s, v, c);
      assert forall e :: OnColumn(onView', e, s, c) <==> OnColumn(onView, e, s, c);
    }
    forall t | t in own'.edits && own'.edits[t].source == s ensures PastOrShown(own'.edits[t], onView', t, v) {
      assert PastOrShown(own.edits[t], onView, t, v);
    }
  }

  lemma SequentialElsewhere(es: seq<DataEvent>, e: DataEvent, doc: Document, s: SourceId)
    requires s in doc && e.source != s
    ensures Sequential(es + [e], doc)[s] == Sequential(es, doc)[s]
  {
    assert (es + [e])[..|es|] == es;
  }

  /** An event of another source leaves `s` and its ledger entries alone. */
  lemma ScanOneElsewhere(k: Scan, models: set<SourceId>, batch: Batch, i: nat, s: SourceId)
    requires i < |batch.events| && batch.events[i].source != s
    requires k.ownEdit == Find(k.own, batch.tx)
    ensures var k' := ScanOne(k, models, batch, i);
            && (s in k'.versions <==> s in k.versions) && (s in k.versions ==> k'.versions[s] == k.versions[s])
            && (s in k'.gaps <==> s in k.gaps)
            && (k'.accepted == k.accepted || k'.accepted == k.accepted + [batch.events[i]])
            && (k'.own == k.own
                || (k'.own.edits == k.own.edits - {batch.tx}
                    && batch.tx in k.own.edits && k.own.edits[batch.tx].source != s))
  {
  }

  /** Events of other sources. */
  lemma ScanElsewhere(K: Kernel, w: World, batch: Batch, k: Scan, i: nat, s: SourceId, k': Scan)
    requires i < |batch.events| && batch.events[i].source != s
    requires OwnScanned(w.rep.own, k, batch.tx) && ScanTracks(K, w, batch, k, i, s)
    requires k' == ScanOne(k, w.rep.document.Keys, batch, i)
    ensures ScanTracks(K, w, batch, k', i + 1, s)
  {
    ScanOneElsewhere(k, w.rep.document.Keys, batch, i, s);
    var doc, doc' := Sequential(k.accepted, w.rep.document), Sequential(k'.accepted, w.rep.document);
    var onView, onView' := ShownAfter(w.onView, k.own, batch.tx), ShownAfter(w.onView, k'.own, batch.tx);
    var v := k.versions[s];
    SequentialElsewhere(k.accepted, batch.events[i], w.rep.document, s);
    forall x | x in onView && x.source == s ensures x.tx in k'.own.edits && k'.own.edits[x.tx] == k.own.edits[x.tx] {
      assert Remembered(K, k.own, x, v);
    }
    TracksFrame(K, doc, k.own, onView, s, v, doc', k'.own, onView');
    forall x | x in onView' && x.source == s ensures Pending(K, batch, i + 1, x, v) {
      PendingPast(K, batch, i, x, v);
    }
  }

  /** The batch's transaction is this frame's edit of `s`, and this is the replacement the
      kernel folded it into: the scan forgets the edit first. */
  predicate Folds(k: Scan, batch: Batch, i: nat)
    requires i < |batch.events|
  {
    var e := batch.events[i];
    && k.ownEdit.Some? && k.ownEdit.value.source == e.source
    && e.Replace? && !HasEchoAfter(batch.events, i, k.ownEdit.value)
  }

  function Folded(k: Scan, batch: Batch, i: nat): Scan
    requires i < |batch.events|
  {
    if Folds(k, batch, i) then k.(own := Forget(k.own, batch.tx), ownEdit := None) else k
  }

  /** An event the version has passed: nothing on the view depends on it. */
  lemma ScanStale(K: Kernel, w: World, batch: Batch, k: Scan, i: nat)
    requires Consistent(K) && i < |batch.events|
    requires Genuine(K, batch.events[i]) && TxOf(K, batch.events[i]) == Some(batch.tx)
    requires OwnScanned(w.rep.own, k, batch.tx) && ScanTracks(K, w, batch, k, i, batch.events[i].source)
    requires batch.events[i].next <= k.versions[batch.events[i].source]
    ensures ScanTracks(K, w, batch, Folded(k, batch, i), i + 1, batch.events[i].source)
  {
    var e := batch.events[i];
    var s, v := e.source, k.versions[e.source];
    assert Leads(K, K.events[(s, e.base)]);
    var k' := Folded(k, batch, i);
    var doc := Sequential(k.accepted, w.rep.document);
    var onView, onView' := ShownAfter(w.onView, k.own, batch.tx), ShownAfter(w.onView, k'.own, batch.tx);
    if Folds(k, batch, i) {
      EchoMoves(batch, i, s);
      forall x | x in onView && x.source == s ensures x.tx != batch.tx {
        if x.tx == batch.tx {
          assert AnsweredAt(K, x, e.base);
        }
      }
    }
    TracksFrame(K, doc, k.own, onView, s, v, doc, k'.own, onView');
    forall x | x in onView' && x.source == s ensures Pending(K, batch, i + 1, x, v) {
      PendingPast(K, batch, i, x, v);
    }
  }

  /** The replacement an edit is folded into covers it: nowhere before or after is its echo. */
  lemma FoldCovers(K: Kernel, batch: Batch, i: nat, x: LocalEdit)
    requires i < |batch.events| && batch.events[i].Replace? && batch.events[i].source == x.source
    requires !EchoFrom(batch, i + 1, x.source) && FoldsHonestly(K, x, batch)
    requires OwnPending(K, batch, i, x, batch.events[i].base)
    ensures Touched(x.op) <= Written(batch.events[i]) + Removed(batch.events[i])
  {
    EchoMoves(batch, i, x.source);
    assert !EchoFrom(batch, 0, x.source);
  }

  /** The next event of the source, other than the echo of the batch's own edit. */
  lemma ScanApplied(K: Kernel, w: World, batch: Batch, k: Scan, i: nat)
    requires Consistent(K) && i < |batch.events|
    requires Genuine(K, batch.events[i]) && TxOf(K, batch.events[i]) == Some(batch.tx)
    requires OwnScanned(w.rep.own, k, batch.tx) && ScanTracks(K, w, batch, k, i, batch.events[i].source)
    requires batch.events[i].base == k.versions[batch.events[i].source]
    requires !(k.ownEdit.Some? && IsEcho(batch.events[i], k.ownEdit.value))
    requires OwnFoldsHonestly(K, w, batch, batch.events[i].source)
    ensures var e := batch.events[i];
            var k' := Folded(k, batch, i);
            ScanTracks(K, w, batch, k'.(versions := k.versions[e.source := e.next], accepted := k.accepted + [e]),
                       i + 1, e.source)
  {
    var e := batch.events[i];
    var s := e.source;
    var k' := Folded(k, batch, i);
    var doc := Sequential(k.accepted, w.rep.document);
    var onView, onView' := ShownAfter(w.onView, k.own, batch.tx), ShownAfter(w.onView, k'.own, batch.tx);
    assert (k.accepted + [e])[..|k.accepted|] == k.accepted;
    forall x | x in onView && x.source == s
      ensures x.tx in k.own.edits && k.own.edits[x.tx] == OwnDataEdit(s, 0, x.base)
    {
      assert Remembered(K, k.own, x, e.base);
    }
    forall x | x in onView - onView' && x.source == s
      ensures e.Replace? && Touched(x.op) <= Written(e) + Removed(e)
    {
      assert Remembered(K, k.own, x, e.base) && Pending(K, batch, i, x, e.base) && FoldsHonestly(K, x, batch);
      FoldCovers(K, batch, i, x);
    }
    ApplyTracks(K, doc, k.own, onView, e, k'.own, onView');
    forall x | x in onView' && x.source == s ensures Pending(K, batch, i + 1, x, e.next) {
      PendingFurther(K, batch, i, x);
    }
  }

  /** The echo of the batch's own edit, made on the version it is answered on. */
  lemma ScanAbsorbed(K: Kernel, w: World, batch: Batch, k: Scan, i: nat)
    requires Consistent(K) && i < |batch.events| && DistinctTx(w.onView)
    requires Genuine(K, batch.events[i]) && TxOf(K, batch.events[i]) == Some(batch.tx)
    requires OwnScanned(w.rep.own, k, batch.tx) && ScanTracks(K, w, batch, k, i, batch.events[i].source)
    requires batch.events[i].base == k.versions[batch.events[i].source]
    requires k.ownEdit.Some? && IsEcho(batch.events[i], k.ownEdit.value)
    requires k.ownEdit.value.base == Some(batch.events[i].base)
    ensures var e := batch.events[i];
            ScanTracks(K, w, batch, k.(versions := k.versions[e.source := e.next], own := Forget(k.own, batch.tx),
                                       ownEdit := None), i + 1, e.source)
  {
    var e := batch.events[i];
    var doc := Sequential(k.accepted, w.rep.document);
    var own' := Forget(k.own, batch.tx);
    var onView := ShownAfter(w.onView, k.own, batch.tx);
    AbsorbTracks(K, doc, k.own, onView, e, batch.tx, own');
    assert ShownAfter(w.onView, own', batch.tx) == set x | x in onView && x.tx != batch.tx;
    forall x | x in onView && x.tx != batch.tx && x.source == e.source ensures Pending(K, batch, i + 1, x, e.next) {
      PendingFurther(K, batch, i, x);
    }
  }

  lemma ScanStarts(K: Kernel, w: World, batch: Batch, s: SourceId)
    requires SettledTracks(K, w, s)
    ensures ScanTracks(K, w, batch, StartScan(w.rep.versions, w.rep.own, batch), 0, s)
  {
    var onView := ShownAfter(w.onView, w.rep.own, batch.tx);
    forall x | x in w.onView && x.source == s ensures x in onView {
      assert Remembered(K, w.rep.own, x, w.rep.versions[s]);
    }
    TracksFrame(K, w.rep.document, w.rep.own, w.onView, s, w.rep.versions[s], w.rep.document, w.rep.own, onView);
  }

  lemma ScanStep(K: Kernel, w: World, batch: Batch, k: Scan, i: nat, s: SourceId, k': Scan)
    requires Consistent(K) && DistinctTx(w.onView) && i < |batch.events|
    requires Genuine(K, batch.events[i]) && TxOf(K, batch.events[i]) == Some(batch.tx)
    requires OwnScanned(w.rep.own, k, batch.tx) && ScanGoesOn(K, w, batch, k, i, s)
    requires OwnFoldsHonestly(K, w, batch, s)
    requires k' == ScanOne(k, w.rep.document.Keys, batch, i)
    ensures ScanGoesOn(K, w, batch, k', i + 1, s)
  {
    var e := batch.events[i];
    if s in k.gaps {
      assert k.gaps <= k'.gaps;
    } else if e.source != s {
      ScanElsewhere(K, w, batch, k, i, s, k');
    } else if e.next <= k.versions[s] {
      ScanStale(K, w, batch, k, i);
    } else if e.base == k.versions[s] {
      if k.ownEdit.Some? && IsEcho(e, k.ownEdit.value) {
        if k.ownEdit.value.base == Some(e.base) {
          ScanAbsorbed(K, w, batch, k, i);
        }
      } else {
        ScanApplied(K, w, batch, k, i);
      }
    }
  }

  function ScannedTo(r: Replica, batch: Batch, n: nat): Scan
    requires n <= |batch.events|
  {
    ScanTo(StartScan(r.versions, r.own, batch), r.document.Keys, batch, n)
  }

  lemma ScanOnwards(K: Kernel, w: World, batch: Batch, n: nat, s: SourceId)
    requires Consistent(K) && DistinctTx(w.onView) && AllGenuine(K, batch) && n < |batch.events|
    requires OwnScanned(w.rep.own, ScannedTo(w.rep, batch, n), batch.tx)
    requires ScanGoesOn(K, w, batch, ScannedTo(w.rep, batch, n), n, s) && OwnFoldsHonestly(K, w, batch, s)
    ensures ScanGoesOn(K, w, batch, ScannedTo(w.rep, batch, n + 1), n + 1, s)
  {
    ScanStep(K, w, batch, ScannedTo(w.rep, batch, n), n, s, ScannedTo(w.rep, batch, n + 1));
  }

  lemma ScanBegins(K: Kernel, w: World, batch: Batch, s: SourceId)
    requires SettledTracks(K, w, s)
    ensures ScanGoesOn(K, w, batch, ScannedTo(w.rep, batch, 0), 0, s)
  {
    ScanStarts(K, w, batch, s);
  }

  lemma {:induction false} ScanKeeps(K: Kernel, w: World, batch: Batch, n: nat, s: SourceId)
    requires Inv(K, w) && AllGenuine(K, batch) && SettledTracks(K, w, s) && n <= |batch.events|
    requires OwnFoldsHonestly(K, w, batch, s)
    ensures ScanGoesOn(K, w, batch, ScannedTo(w.rep, batch, n), n, s)
    decreases n
  {
    if n == 0 {
      ScanBegins(K, w, batch, s);
    } else {
      var m := n - 1;
      ScanKeeps(K, w, batch, m, s);
      ScanAdvances(K, w, batch, m, s);
      assert m + 1 == n;
    }
  }

  lemma ScanAdvances(K: Kernel, w: World, batch: Batch, n: nat, s: SourceId)
    requires Inv(K, w) && AllGenuine(K, batch) && SettledTracks(K, w, s) && n < |batch.events|
    requires ScanGoesOn(K, w, batch, ScannedTo(w.rep, batch, n), n, s) && OwnFoldsHonestly(K, w, batch, s)
    ensures ScanGoesOn(K, w, batch, ScannedTo(w.rep, batch, n + 1), n + 1, s)
  {
    ScanOwn(w.rep, batch, n);
    ScanOnwards(K, w, batch, n, s);
  }

  lemma EventsKeep(K: Kernel, w: World, batch: Batch)
    requires Inv(K, w) && w.queue == [] && GenuineBatch(K, w, batch)
    ensures Inv(K, AfterEvents(w, batch))
  {
    var w' := AfterEvents(w, batch);
    if w.rep.epoch.Some? && !w.rep.dirty {
      ScanOwn(w.rep, batch, |batch.events|);
      forall s | Settled(w', s) ensures SettledTracks(K, w', s) {
        EventsKeepSource(K, w, batch, s);
      }
    }
  }

  lemma EventsKeepSource(K: Kernel, w: World, batch: Batch, s: SourceId)
    requires Inv(K, w) && w.queue == [] && GenuineBatch(K, w, batch)
    requires w.rep.epoch.Some? && !w.rep.dirty && Settled(AfterEvents(w, batch), s)
    ensures SettledTracks(K, AfterEvents(w, batch), s)
  {
    var k := ScanBatch(w.rep.versions, w.rep.own, w.rep.document.Keys, batch);
    DeferredRemovals(k.accepted, w.rep.document);
    ScanOwn(w.rep, batch, |batch.events|);
    assert Settled(w, s) && SettledTracks(K, w, s);
    ScanKeeps(K, w, batch, |batch.events|, s);
    SettlesAfter(K, w, batch, k, s);
  }

  lemma SettlesAfter(K: Kernel, w: World, batch: Batch, k: Scan, s: SourceId)
    requires w.rep.epoch.Some? && !w.rep.dirty && SettledTracks(K, w, s)
    requires k == ScanBatch(w.rep.versions, w.rep.own, w.rep.document.Keys, batch)
    requires Deferred(k.accepted, w.rep.document) == Sequential(k.accepted, w.rep.document)
    requires ScanTracks(K, w, batch, k, |batch.events|, s)
    ensures SettledTracks(K, AfterEvents(w, batch), s)
  {
    assert AfterEvents(w, batch).onView == ShownAfter(w.onView, k.own, batch.tx);
  }

  lemma {:induction false} ScanOwn(r: Replica, batch: Batch, n: nat)
    requires n <= |batch.events|
    requires forall t :: t in r.own.edits ==> r.own.edits[t].index == 0
    ensures var k := ScannedTo(r, batch, n);
            && OwnScanned(r.own, k, batch.tx)
            && (k.own == r.own || k.own == Forget(r.own, batch.tx))
            && k.versions.Keys <= r.versions.Keys
            && (forall i :: 0 <= i < |k.accepted| ==> k.accepted[i].source in r.document)
  {
    if n > 0 {
      var m := n - 1;
      ScanOwn(r, batch, m);
      assert ScannedTo(r, batch, n) == ScanOne(ScannedTo(r, batch, m), r.document.Keys, batch, m);
    }
  }

  // ── Every run ───────────────────────────────────────────────────────

  lemma StepKeeps(K: Kernel, w: World, step: Step)
    requires Inv(K, w) && Allowed(K, w, step)
    ensures Inv(K, Next(w, step))
  {
    var w' := Next(w, step);
    match step
    case EditView(t, s, op) => EditKeeps(K, w, t, s, op);
    case Refused(t) => if t in w.awaiting { RefusedKeeps(K, w, t); }
    case Events(batch) => if w.queue == [] { EventsKeep(K, w, batch); }
    case ReloadGap(reply, v) =>
      if w.queue != [] && reply.Delivered? {
        ReloadKeeps(K, w, w.queue[0], reply.loaded, v, w');
      }
    case ReloadRefused(reply, v) =>
      if w.queue == [] && w.rejected != [] && reply.Delivered? {
        ReloadKeeps(K, w, w.rejected[0], reply.loaded, v, w');
      }
  }

  lemma RefusedKeeps(K: Kernel, w: World, t: TxId)
    requires Inv(K, w) && t in w.awaiting
    ensures Inv(K, Next(w, Refused(t)))
  {
    var w' := Next(w, Refused(t));
    forall s | Settled(w', s) ensures SettledTracks(K, w', s) {
      assert Settled(w, s) && SettledTracks(K, w, s);
      TracksFrame(K, w.rep.document, w.rep.own, w.onView, s, w.rep.versions[s],
                  w'.rep.document, w'.rep.own, w'.onView);
    }
  }

  function Run(w: World, steps: seq<Step>): World
    decreases |steps|
  {
    if steps == [] then w else Next(Run(w, steps[..|steps| - 1]), steps[|steps| - 1])
  }

  ghost predicate AllowedRun(K: Kernel, w: World, steps: seq<Step>) {
    forall i :: 0 <= i < |steps| ==> Allowed(K, Run(w, steps[..i]), steps[i])
  }

  lemma {:induction false} RunKeeps(K: Kernel, w: World, steps: seq<Step>)
    requires Inv(K, w) && AllowedRun(K, w, steps)
    ensures Inv(K, Run(w, steps))
    decreases |steps|
  {
    if steps != [] {
      var n := |steps| - 1;
      AllowedBefore(K, w, steps);
      RunKeeps(K, w, steps[..n]);
      StepKeeps(K, Run(w, steps[..n]), steps[n]);
    }
  }

  lemma AllowedBefore(K: Kernel, w: World, steps: seq<Step>)
    requires steps != [] && AllowedRun(K, w, steps)
    ensures var n := |steps| - 1; AllowedRun(K, w, steps[..n]) && Allowed(K, Run(w, steps[..n]), steps[n])
  {
    var n := |steps| - 1;
    forall i | 0 <= i < n ensures Allowed(K, Run(w, steps[..n][..i]), steps[..n][i]) {
      assert steps[..n][..i] == steps[..i];
    }
  }

  /** A frame that shows the kernel's tables and has made no edit. */
  ghost predicate Fresh(K: Kernel, w: World) {
    && Consistent(K)
    && w.rep.own == Ledger(map[], []) && !w.rep.dirty
    && w.queue == [] && w.rejected == [] && w.onView == {} && w.awaiting == map[]
    && (forall s :: s in w.rep.versions && s in w.rep.document ==>
          HasVersion(K, s, w.rep.versions[s]) && w.rep.document[s] == K.tables[s][w.rep.versions[s]])
  }

  /** The view of a source equals the kernel's state at the version the frame tracks. */
  ghost predicate ShowsKernel(K: Kernel, r: Replica, s: SourceId) {
    s in r.versions && s in r.document && HasVersion(K, s, r.versions[s]) && r.document[s] == K.tables[s][r.versions[s]]
  }

  /** In every run, a source with no reload outstanding shows the kernel's state at its
      tracked version once every edit this frame made to it has been answered. */
  lemma AnsweredEditsConverge(K: Kernel, w: World, steps: seq<Step>, s: SourceId)
    requires Fresh(K, w) && AllowedRun(K, w, steps)
    requires Settled(Run(w, steps), s)
    requires forall t :: t in Run(w, steps).awaiting ==> Run(w, steps).awaiting[t] != s
    ensures ShowsKernel(K, Run(w, steps).rep, s)
  {
    FreshInv(K, w);
    RunKeeps(K, w, steps);
    var z := Run(w, steps);
    assert SettledTracks(K, z, s);
    var v := z.rep.versions[s];
    forall c ensures Look(z.rep.document[s], c) == Look(K.tables[s][v], c) {
      assert ColumnTracks(z.rep.document[s], K.tables[s][v], z.onView, s, v, c);
      assert forall e :: !OnColumn(z.onView, e, s, c);
    }
    SameTable(z.rep.document[s], K.tables[s][v]);
  }

  lemma FreshInv(K: Kernel, w: World)
    requires Fresh(K, w)
    ensures Inv(K, w)
  {
    forall s | Settled(w, s) ensures SettledTracks(K, w, s) {
      var v := w.rep.versions[s];
      forall c ensures ColumnTracks(w.rep.document[s], K.tables[s][v], w.onView, s, v, c) {
      }
    }
  }
}
