/** Transactions that carry the echo of an edit and also replace columns of its source, as a
    callback in the kernel makes them: both orders are runs the convergence theorem allows. */
module MixedTransactions {
  import opened Options
  import opened ColumnData
  import opened DataReplica
  import opened EchoProtocol
  import opened EchoLimits

  ghost predicate PartOf(K: Kernel, e: DataEvent, t: TxId) {
    Genuine(K, e) && TxOf(K, e) == Some(t)
  }

  /** Right after the edit, and its own transaction is all the ledger knows. */
  ghost predicate JustEdited(w: World, t: TxId, s: SourceId, base: int) {
    && w.rep.epoch.Some? && !w.rep.dirty && w.queue == [] && w.rejected == []
    && s in w.rep.document && s in w.rep.versions && w.rep.versions[s] == base
    && w.rep.own.edits == map[t := OwnDataEdit(s, 0, Some(base))] && w.awaiting == map[t := s]
  }

  lemma ScansTwo(r: Replica, batch: Batch)
    requires |batch.events| == 2
    ensures var k := StartScan(r.versions, r.own, batch);
            ScanBatch(r.versions, r.own, r.document.Keys, batch)
            == ScanOne(ScanOne(k, r.document.Keys, batch, 0), r.document.Keys, batch, 1)
  {
    var k := StartScan(r.versions, r.own, batch);
    assert ScanTo(k, r.document.Keys, batch, 0) == k;
    assert ScanTo(k, r.document.Keys, batch, 1) == ScanOne(k, r.document.Keys, batch, 0);
  }

  // ── The echo first ──────────────────────────────────────────────────

  lemma ScansEchoFirst(w: World, t: TxId, e: DataEvent, f: DataEvent)
    requires JustEdited(w, t, e.source, e.base) && e.Edit? && e.echoOf == Some(0) && e.base < e.next
    requires f.Replace? && f.source == e.source && f.base == e.next && f.base < f.next
    ensures var k := ScanBatch(w.rep.versions, w.rep.own, w.rep.document.Keys, Batch(t, [e, f]));
            k.accepted == [f] && k.gaps == [] && e.source in k.versions && k.versions[e.source] == f.next
  {
    ScansTwo(w.rep, Batch(t, [e, f]));
  }

  lemma BatchAllowed(K: Kernel, w: World, batch: Batch, f: DataEvent)
    requires AllGenuine(K, batch)
    requires ScanBatch(w.rep.versions, w.rep.own, w.rep.document.Keys, batch).accepted == [f]
    requires forall s :: Settled(w, s) ==> OwnFoldsHonestly(K, w, batch, s)
    ensures Allowed(K, w, Events(batch))
  {
    OneKeepsRemovals(f, w.rep.document);
  }

  lemma EchoInBatch(K: Kernel, w: World, batch: Batch, i: nat, s: SourceId)
    requires i < |batch.events| && batch.events[i].source == s
    requires batch.events[i].Edit? && batch.events[i].echoOf == Some(0)
    requires forall x :: x in w.onView ==> x.source == s
    ensures forall r :: OwnFoldsHonestly(K, w, batch, r)
  {
    assert EchoFrom(batch, 0, s);
  }

  lemma AnswersFirst(w: World, t: TxId, s: SourceId, batch: Batch, i: nat)
    requires w.awaiting == map[t := s] && batch.tx == t && i < |batch.events| && Answers(batch.events[i], s)
    requires w.rep.epoch.Some? && !w.rep.dirty
    ensures AfterEvents(w, batch).awaiting == map[]
  {
    assert AnswersIn(batch, s);
  }

  lemma EditShown(K: Kernel, w: World, t: TxId, s: SourceId, op: Op)
    requires Fresh(K, w) && w.rep.epoch.Some? && s in w.rep.document && s in w.rep.versions
    requires var edit := LocalEdit(t, s, op, Some(w.rep.versions[s]));
             Honest(K, edit) && UnansweredBefore(K, edit, w.rep.versions[s])
    ensures Allowed(K, w, EditView(t, s, op))
    ensures var z := Next(w, EditView(t, s, op));
            && JustEdited(z, t, s, w.rep.versions[s])
            && z.onView == {LocalEdit(t, s, op, Some(w.rep.versions[s]))}
  {
  }

  /** The kernel's next events of the source are the echo and then a replacement, both of the
      edit's transaction. */
  lemma EchoThenReplace(K: Kernel, w: World, t: TxId, e: DataEvent, f: DataEvent)
    requires e.Edit? && EchoDue(K, w, t, e)
    requires f.Replace? && f.source == e.source && f.base == e.next && PartOf(K, f, t)
    ensures var steps := [EditView(t, e.source, e.op), Events(Batch(t, [e, f]))];
            && AllowedRun(K, w, steps)
            && Settled(Run(w, steps), e.source) && Run(w, steps).awaiting == map[]
            && Run(w, steps).rep.versions[e.source] == f.next
            && ShowsKernel(K, Run(w, steps).rep, e.source)
  {
    var s, batch := e.source, Batch(t, [e, f]);
    var edits, answer := EditView(t, s, e.op), Events(batch);
    EditShown(K, w, t, s, e.op);
    EchoFirst(K, Next(w, edits), t, e, f);
    RunTwo(w, edits, answer);
    TwoAllowed(K, w, edits, answer);
    AnsweredEditsConverge(K, w, [edits, answer], s);
  }

  lemma EchoFirst(K: Kernel, w: World, t: TxId, e: DataEvent, f: DataEvent)
    requires Consistent(K) && JustEdited(w, t, e.source, e.base) && PartOf(K, e, t) && e.Edit? && e.echoOf == Some(0)
    requires f.Replace? && f.source == e.source && f.base == e.next && PartOf(K, f, t)
    requires forall x :: x in w.onView ==> x.source == e.source
    ensures var z := Next(w, Events(Batch(t, [e, f])));
            && Allowed(K, w, Events(Batch(t, [e, f])))
            && Settled(z, e.source) && z.awaiting == map[] && z.rep.versions[e.source] == f.next
  {
    var batch := Batch(t, [e, f]);
    assert Leads(K, K.events[(e.source, e.base)]) && Leads(K, K.events[(f.source, f.base)]);
    ScansEchoFirst(w, t, e, f);
    EchoInBatch(K, w, batch, 0, e.source);
    BatchAllowed(K, w, batch, f);
    AnswersFirst(w, t, e.source, batch, 0);
    AppliesOne(f, w.rep.document);
  }

  // ── The replacement first ───────────────────────────────────────────

  lemma ScansReplaceFirst(w: World, t: TxId, f: DataEvent, e: DataEvent)
    requires JustEdited(w, t, f.source, f.base) && f.Replace? && f.base < f.next
    requires e.Edit? && e.echoOf == Some(0) && e.source == f.source && e.base == f.next && e.base < e.next
    ensures var k := ScanBatch(w.rep.versions, w.rep.own, w.rep.document.Keys, Batch(t, [f, e]));
            && k.accepted == [f] && k.gaps == [e.source] && t !in k.own.edits
  {
    ScansTwo(w.rep, Batch(t, [f, e]));
    assert IsEcho([f, e][1], OwnDataEdit(f.source, 0, Some(f.base)));
  }

  lemma ReplaceFirst(K: Kernel, w: World, t: TxId, f: DataEvent, e: DataEvent)
    requires Consistent(K) && JustEdited(w, t, f.source, f.base) && PartOf(K, f, t) && f.Replace?
    requires e.Edit? && e.echoOf == Some(0) && e.source == f.source && e.base == f.next && PartOf(K, e, t)
    requires forall x :: x in w.onView ==> x.source == e.source
    ensures var z := Next(w, Events(Batch(t, [f, e])));
            && Allowed(K, w, Events(Batch(t, [f, e])))
            && z.queue == [e.source] && z.rejected == [] && z.awaiting == map[] && !z.rep.dirty && t !in z.rep.own.edits
  {
    var batch := Batch(t, [f, e]);
    assert Leads(K, K.events[(e.source, e.base)]) && Leads(K, K.events[(f.source, f.base)]);
    ScansReplaceFirst(w, t, f, e);
    EchoInBatch(K, w, batch, 1, e.source);
    BatchAllowed(K, w, batch, f);
    AnswersFirst(w, t, e.source, batch, 0);
  }

  /** The kernel's next events of the source are a replacement and then the echo, both of the
      edit's transaction. */
  ghost predicate ReplaceDue(K: Kernel, w: World, t: TxId, f: DataEvent, e: DataEvent)
    requires f.Replace? && e.Edit?
  {
    var edit := LocalEdit(t, e.source, e.op, Some(f.base));
    && Fresh(K, w) && w.rep.epoch.Some? && f.source in w.rep.document
    && f.source in w.rep.versions && w.rep.versions[f.source] == f.base
    && PartOf(K, f, t) && PartOf(K, e, t)
    && e.echoOf == Some(0) && e.source == f.source && e.base == f.next
    && Honest(K, edit) && UnansweredBefore(K, edit, f.base)
  }

  function EditThenBatch(t: TxId, f: DataEvent, e: DataEvent): seq<Step>
    requires e.Edit?
  {
    [EditView(t, e.source, e.op), Events(Batch(t, [f, e]))]
  }

  lemma EditThenReplace(K: Kernel, w: World, t: TxId, f: DataEvent, e: DataEvent)
    requires f.Replace? && e.Edit? && ReplaceDue(K, w, t, f, e)
    ensures var steps := EditThenBatch(t, f, e);
            && AllowedRun(K, w, steps)
            && Run(w, steps).queue == [e.source] && Run(w, steps).rejected == []
            && Run(w, steps).awaiting == map[] && !Run(w, steps).rep.dirty
  {
    var edits, answer := EditView(t, e.source, e.op), Events(Batch(t, [f, e]));
    EditShown(K, w, t, e.source, e.op);
    ReplaceFirst(K, Next(w, edits), t, f, e);
    RunTwo(w, edits, answer);
    TwoAllowed(K, w, edits, answer);
  }

  lemma ThenReload(K: Kernel, w: World, steps: seq<Step>, s: SourceId, loaded: Loaded, v: int)
    requires AllowedRun(K, w, steps) && GenuineReload(K, Run(w, steps).rep, s, loaded, v)
    requires Consistent(K) && Run(w, steps).queue == [s] && Run(w, steps).rejected == [] && !Run(w, steps).rep.dirty
    ensures var after := steps + [ReloadGap(Delivered(loaded), v)];
            && AllowedRun(K, w, after)
            && Settled(Run(w, after), s) && Run(w, after).awaiting == Run(w, steps).awaiting
  {
    var reload := ReloadGap(Delivered(loaded), v);
    AllowedSnoc(K, w, steps, reload);
    RunSnoc(w, steps, reload);
    ReloadReaches(K, Run(w, steps).rep, s, loaded, v);
  }

  /** The replacement comes first, so the echo does not find the version the edit was made
      at: the source is reloaded, and every genuine reload ends on the kernel's state. */
  lemma ReplaceThenEcho(K: Kernel, w: World, t: TxId, f: DataEvent, e: DataEvent, loaded: Loaded, v: int)
    requires f.Replace? && e.Edit? && ReplaceDue(K, w, t, f, e)
    requires GenuineReload(K, Run(w, EditThenBatch(t, f, e)).rep, e.source, loaded, v)
    ensures var steps := EditThenBatch(t, f, e) + [ReloadGap(Delivered(loaded), v)];
            && AllowedRun(K, w, steps)
            && Settled(Run(w, steps), e.source) && Run(w, steps).awaiting == map[]
            && ShowsKernel(K, Run(w, steps).rep, e.source)
  {
    EditThenReplace(K, w, t, f, e);
    ThenReload(K, w, EditThenBatch(t, f, e), e.source, loaded, v);
    AnsweredEditsConverge(K, w, EditThenBatch(t, f, e) + [ReloadGap(Delivered(loaded), v)], e.source);
  }
}
