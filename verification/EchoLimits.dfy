/** Where the hypotheses of the echo protocol are needed: for one event each, exactly when
    the view is right without them. */
module EchoLimits {
  import opened Options
  import opened ColumnData
  import opened DataReplica
  import opened Ordering
  import opened EchoProtocol

  lemma OneKeepsRemovals(e: DataEvent, doc: Document)
    ensures KeepsRemovals([e], doc)
  {
    assert [e][..0] == [];
  }

  /** Applying one event alone, with its removals, is the kernel's step. */
  lemma AppliesOne(e: DataEvent, doc: Document)
    requires e.source in doc
    ensures Deferred([e], doc) == doc[e.source := KernelApply(e, doc[e.source])]
  {
    assert [e][..0] == [];
    assert Sequential([], doc) == doc;
    DeferredRemovals([e], doc);
  }

  lemma ScansOne(r: Replica, t: TxId, e: DataEvent)
    ensures ScanBatch(r.versions, r.own, r.document.Keys, Batch(t, [e]))
         == ScanOne(StartScan(r.versions, r.own, Batch(t, [e])), r.document.Keys, Batch(t, [e]), 0)
  {
    var k := StartScan(r.versions, r.own, Batch(t, [e]));
    assert ScanTo(k, r.document.Keys, Batch(t, [e]), 0) == k;
  }

  /** A contiguous event that is not the echo of this frame's edit. */
  lemma OneApplied(r: Replica, t: TxId, e: DataEvent)
    requires r.epoch.Some? && !r.dirty && e.source in r.document && e.source in r.versions
    requires r.versions[e.source] == e.base && e.base < e.next
    requires t in r.own.edits ==> e.Replace? && r.own.edits[t].source == e.source
    ensures ApplyBatch(r, Batch(t, [e]))
         == (r.(document := r.document[e.source := KernelApply(e, r.document[e.source])],
                versions := r.versions[e.source := e.next],
                own := if t in r.own.edits then Forget(r.own, t) else r.own), [])
  {
    ScansOne(r, t, e);
    var k := ScanBatch(r.versions, r.own, r.document.Keys, Batch(t, [e]));
    assert k.accepted == [e] && k.gaps == [];
    AppliesOne(e, r.document);
  }

  /** A reload wiped an edit made at version `b` off the view and landed on `e.base`. The
      echo that arrives next is adopted or reloaded correctly exactly when the two versions
      differ, or the edit changes nothing. */
  lemma EchoAfterReload(K: Kernel, r: Replica, t: TxId, e: DataEvent, b: int)
    requires Consistent(K) && Genuine(K, e) && e.Edit? && e.echoOf == Some(0)
    requires r.epoch.Some? && !r.dirty && ShowsKernel(K, r, e.source) && r.versions[e.source] == e.base
    requires t in r.own.edits && r.own.edits[t] == OwnDataEdit(e.source, 0, Some(b))
    ensures var (r', gaps) := ApplyBatch(r, Batch(t, [e]));
            ShowsKernel(K, r', e.source) || e.source in gaps
            <==> b != e.base || K.tables[e.source][e.next] == K.tables[e.source][e.base]
  {
    assert Leads(K, K.events[(e.source, e.base)]);
    if b == e.base {
      EchoAdopted(r, t, e);
    } else {
      EchoOvertaken(r, t, e, b);
    }
  }

  lemma EchoAdopted(r: Replica, t: TxId, e: DataEvent)
    requires e.Edit? && e.echoOf == Some(0) && r.epoch.Some? && !r.dirty
    requires e.source in r.document && e.source in r.versions && r.versions[e.source] == e.base && e.base < e.next
    requires t in r.own.edits && r.own.edits[t] == OwnDataEdit(e.source, 0, Some(e.base))
    ensures ApplyBatch(r, Batch(t, [e]))
         == (r.(versions := r.versions[e.source := e.next], own := Forget(r.own, t)), [])
  {
    ScansOne(r, t, e);
    assert Deferred([], r.document) == r.document;
  }

  lemma EchoOvertaken(r: Replica, t: TxId, e: DataEvent, b: int)
    requires e.Edit? && e.echoOf == Some(0) && r.epoch.Some? && !r.dirty && b != e.base
    requires e.source in r.document && e.source in r.versions && r.versions[e.source] == e.base && e.base < e.next
    requires t in r.own.edits && r.own.edits[t] == OwnDataEdit(e.source, 0, Some(b))
    ensures ApplyBatch(r, Batch(t, [e]))
         == (r.(versions := r.versions[e.source := e.next], own := Forget(r.own, t)), [e.source])
  {
    ScansOne(r, t, e);
    assert Deferred([], r.document) == r.document;
    assert [] + [e.source] == [e.source];
  }

  lemma EditLeads(K: Kernel, e: DataEvent)
    requires Consistent(K) && Genuine(K, e) && e.Edit?
    ensures HasVersion(K, e.source, e.base) && HasVersion(K, e.source, e.next) && e.base < e.next
    ensures K.tables[e.source][e.next] == ApplyOp(e.op, K.tables[e.source][e.base])
    ensures forall table :: KernelApply(e, table) == ApplyOp(e.op, table)
  {
    assert Leads(K, K.events[(e.source, e.base)]);
  }

  /** A replacement after an optimistic edit gives the kernel's table exactly when it
      carries or removes every column the edit changed. */
  lemma ReplacedEdit(op: Op, e: DataEvent, before: Table)
    requires e.Replace?
    ensures KernelApply(e, ApplyOp(op, before)) == KernelApply(e, before)
        <==> forall c :: c in Touched(op) - e.columns.Keys - e.removed
               ==> EditLook(op, c, Look(before, c)) == Look(before, c)
  {
    var shown, after := KernelApply(e, ApplyOp(op, before)), KernelApply(e, before);
    forall c
      ensures Look(shown, c) == Look(after, c)
          <==> (c in Touched(op) - e.columns.Keys - e.removed ==> EditLook(op, c, Look(before, c)) == Look(before, c))
    {
      ApplyLooks(e, ApplyOp(op, before), c);
      ApplyLooks(e, before, c);
    }
    if forall c :: Look(shown, c) == Look(after, c) {
      SameTable(shown, after);
    }
  }

  /** The replacement that folds this frame's edit in, arriving at the edit's base. */
  lemma FoldedEdit(K: Kernel, r: Replica, t: TxId, op: Op, e: DataEvent)
    requires Consistent(K) && Genuine(K, e) && e.Replace?
    requires r.epoch.Some? && !r.dirty && e.source in r.document && e.source in r.versions
    requires r.versions[e.source] == e.base && r.document[e.source] == ApplyOp(op, K.tables[e.source][e.base])
    requires t in r.own.edits && r.own.edits[t].source == e.source
    ensures var (r', gaps) := ApplyBatch(r, Batch(t, [e]));
            && gaps == [] && t !in r'.own.edits
            && (ShowsKernel(K, r', e.source)
                <==> forall c :: c in Touched(op) - e.columns.Keys - e.removed
                       ==> EditLook(op, c, Look(K.tables[e.source][e.base], c)) == Look(K.tables[e.source][e.base], c))
  {
    assert Leads(K, K.events[(e.source, e.base)]);
    OneApplied(r, t, e);
    ReplacedEdit(op, e, K.tables[e.source][e.base]);
  }

  // ── The run theorem at work ─────────────────────────────────────────

  /** The kernel's next event of the source will be the echo of the edit `e` carries. */
  ghost predicate EchoDue(K: Kernel, w: World, t: TxId, e: DataEvent)
    requires e.Edit?
  {
    var edit := LocalEdit(t, e.source, e.op, Some(e.base));
    && Fresh(K, w) && w.rep.epoch.Some? && e.source in w.rep.document
    && e.source in w.rep.versions && w.rep.versions[e.source] == e.base
    && Genuine(K, e) && e.echoOf == Some(0) && TxOf(K, e) == Some(t)
    && Honest(K, edit) && UnansweredBefore(K, edit, e.base)
  }

  lemma RunSnoc(w: World, steps: seq<Step>, step: Step)
    ensures Run(w, steps + [step]) == Next(Run(w, steps), step)
  {
    assert (steps + [step])[..|steps|] == steps;
  }

  lemma RunTwo(w: World, a: Step, b: Step)
    ensures Run(w, [a, b]) == Next(Next(w, a), b)
  {
    RunSnoc(w, [], a);
    RunSnoc(w, [a], b);
    assert [] + [a] == [a] && [a] + [b] == [a, b];
  }

  lemma TwoAllowed(K: Kernel, w: World, a: Step, b: Step)
    requires Allowed(K, w, a) && Allowed(K, Next(w, a), b)
    ensures AllowedRun(K, w, [a, b])
  {
    AllowedSnoc(K, w, [], a);
    RunSnoc(w, [], a);
    assert [] + [a] == [a] && [a] + [b] == [a, b];
    AllowedSnoc(K, w, [a], b);
  }

  lemma AllowedSnoc(K: Kernel, w: World, steps: seq<Step>, step: Step)
    requires AllowedRun(K, w, steps) && Allowed(K, Run(w, steps), step)
    ensures AllowedRun(K, w, steps + [step])
  {
    forall i | 0 <= i < |steps| + 1 ensures Allowed(K, Run(w, (steps + [step])[..i]), (steps + [step])[i]) {
      assert (steps + [step])[..i] == if i < |steps| then steps[..i] else steps;
    }
  }

  lemma EditAllowed(K: Kernel, w: World, t: TxId, e: DataEvent)
    requires e.Edit? && EchoDue(K, w, t, e)
    ensures Allowed(K, w, EditView(t, e.source, e.op))
    ensures var r := Next(w, EditView(t, e.source, e.op)).rep;
            && e.source in r.document && r.versions == w.rep.versions && r.epoch == w.rep.epoch && !r.dirty
            && t in r.own.edits && r.own.edits[t] == OwnDataEdit(e.source, 0, Some(e.base))
  {
  }

  lemma EchoAllowed(K: Kernel, w: World, t: TxId, e: DataEvent)
    requires e.Edit? && EchoDue(K, w, t, e)
    ensures var edited := Next(w, EditView(t, e.source, e.op));
            var z := Next(edited, Events(Batch(t, [e])));
            && Allowed(K, edited, Events(Batch(t, [e])))
            && Settled(z, e.source) && z.awaiting == map[] && z.rep.versions[e.source] == e.next
  {
    var edited := Next(w, EditView(t, e.source, e.op));
    assert Leads(K, K.events[(e.source, e.base)]);
    EditAllowed(K, w, t, e);
    EchoAdopted(edited.rep, t, e);
    NothingAccepted(edited.rep, t, e);
    assert Answers([e][0], e.source);
  }

  lemma NothingAccepted(r: Replica, t: TxId, e: DataEvent)
    requires e.Edit? && e.echoOf == Some(0) && e.source in r.document && e.source in r.versions
    requires r.versions[e.source] == e.base && e.base < e.next
    requires t in r.own.edits && r.own.edits[t] == OwnDataEdit(e.source, 0, Some(e.base))
    ensures ScanBatch(r.versions, r.own, r.document.Keys, Batch(t, [e])).accepted == []
  {
    ScansOne(r, t, e);
  }

  /** An edit and its echo are an allowed run from any fresh frame: the hypotheses of the
      run theorem are met, and the view ends on the kernel's next version. */
  lemma EditAndEcho(K: Kernel, w: World, t: TxId, e: DataEvent)
    requires e.Edit? && EchoDue(K, w, t, e)
    ensures var steps := [EditView(t, e.source, e.op), Events(Batch(t, [e]))];
            && AllowedRun(K, w, steps)
            && Settled(Run(w, steps), e.source) && Run(w, steps).awaiting == map[]
            && Run(w, steps).rep.versions[e.source] == e.next
            && ShowsKernel(K, Run(w, steps).rep, e.source)
  {
    var edits, echo := EditView(t, e.source, e.op), Events(Batch(t, [e]));
    EditAllowed(K, w, t, e);
    EchoAllowed(K, w, t, e);
    RunTwo(w, edits, echo);
    TwoAllowed(K, w, edits, echo);
    AnsweredEditsConverge(K, w, [edits, echo], e.source);
  }

  // ── Inputs on which the unrestricted claims fail ────────────────────

  const APPEND := Stream(map["a" := [2]], None)
  const APPEND_EVENT := Edit("s", 0, 1, APPEND, Some(0))
  /** One row, to which transaction `t` appends a second. */
  const APPENDING := Kernel(map["s" := map[0 := map["a" := [1]], 1 := map["a" := [1, 2]]]],
                            map[("s", 0) := APPEND_EVENT], map[("s", 0) := "t"])

  lemma Appends(column: Column)
    ensures ApplyOp(APPEND, map["a" := column]) == map["a" := column + [2]]
  {
    assert Touched(APPEND) == {"a"};
    assert EditColumn(APPEND, "a", column) == column + [2];
  }

  lemma AppendingIsConsistent()
    ensures Consistent(APPENDING) && Genuine(APPENDING, APPEND_EVENT)
  {
    var after: Table := map["a" := [1, 2]];
    Appends([1]);
    assert [1] + [2] == [1, 2];
    assert after - {} == after;
    assert Leads(APPENDING, APPEND_EVENT);
  }

  /** A frame that shows version 0 and has made no edit. */
  const FRAME := World(Replica(map["s" := map["a" := [1]], "o" := map["a" := []]], map["s" := 0],
                               Ledger(map[], []), Some(0), false), [], [], {}, map[])

  lemma FrameAwaitsEcho()
    ensures EchoDue(APPENDING, FRAME, "t", APPEND_EVENT)
  {
    AppendingIsConsistent();
  }

  const BLOBS := Loaded(map["s" := map["a" := ColumnBlob(0, [1])]], [])
  /** Two appends; the second is refused, which reloads the source at version 0; then the
      first one's echo arrives. */
  const APPEND_REFUSE_RELOAD :=
    [EditView("t", "s", APPEND), EditView("u", "s", APPEND), Refused("u"), ReloadRefused(Delivered(BLOBS), 0)]

  lemma ReloadWipesAppend()
    ensures var w := Run(FRAME, APPEND_REFUSE_RELOAD);
            && w.queue == [] && w.rejected == [] && w.awaiting == map["t" := "s"]
            && w.rep == FRAME.rep.(own := Ledger(map["t" := OwnDataEdit("s", 0, Some(0))], ["t"]))
  {
    var steps := APPEND_REFUSE_RELOAD;
    FourSteps(FRAME, steps[0], steps[1], steps[2], steps[3]);
    var edited := Next(Next(FRAME, steps[0]), steps[1]);
    TwoAppends(edited);
    SecondRefused(edited);
    ReloadsFrame(Next(edited, steps[2]));
  }

  lemma SecondRefused(edited: World)
    requires edited.queue == [] && edited.rejected == [] && edited.awaiting == map["t" := "s", "u" := "s"]
    requires var own := OwnDataEdit("s", 0, Some(0)); edited.rep.own == Ledger(map["t" := own, "u" := own], ["t", "u"])
    ensures var z := Next(edited, Refused("u"));
            && z.queue == [] && z.rejected == ["s"] && z.awaiting == map["t" := "s"]
            && z.rep == edited.rep.(own := Ledger(map["t" := OwnDataEdit("s", 0, Some(0))], ["t"]))
  {
    assert ["t", "u"][1..] == ["u"] && ["u"][1..] == [];
    assert Without(["u"], "u") == [] && Without(["t", "u"], "u") == ["t"];
  }

  lemma FourSteps(w: World, a: Step, b: Step, c: Step, d: Step)
    ensures Run(w, [a, b, c, d]) == Next(Next(Next(Next(w, a), b), c), d)
  {
    RunSnoc(w, [], a);
    RunSnoc(w, [a], b);
    RunSnoc(w, [a, b], c);
    RunSnoc(w, [a, b, c], d);
    assert [] + [a] == [a] && [a] + [b] == [a, b] && [a, b] + [c] == [a, b, c] && [a, b, c] + [d] == [a, b, c, d];
  }

  lemma TwoAppends(edited: World)
    requires edited == Next(Next(FRAME, EditView("t", "s", APPEND)), EditView("u", "s", APPEND))
    ensures edited.queue == [] && edited.rejected == [] && edited.awaiting == map["t" := "s", "u" := "s"]
    ensures var own := OwnDataEdit("s", 0, Some(0)); edited.rep.own == Ledger(map["t" := own, "u" := own], ["t", "u"])
    ensures edited.rep.versions == FRAME.rep.versions && edited.rep.epoch == Some(0) && !edited.rep.dirty
    ensures edited.rep.document.Keys == {"s", "o"} && edited.rep.document["o"] == map["a" := []]
  {
  }

  lemma ReloadsFrame(w: World)
    requires w.queue == [] && w.rejected == ["s"] && w.rep.versions == FRAME.rep.versions
    requires w.rep.document.Keys == {"s", "o"} && w.rep.document["o"] == map["a" := []]
    ensures var z := Next(w, ReloadRefused(Delivered(BLOBS), 0));
            && z.queue == [] && z.rejected == [] && z.awaiting == w.awaiting
            && z.rep == w.rep.(document := FRAME.rep.document)
  {
    assert TableOf(ColumnsOf(BLOBS, "s")) == map["a" := [1]];
    assert Flatten(BLOBS.tail) == [];
    assert w.rep.versions["s" := 0] == w.rep.versions;
    assert w.rep.document["s" := map["a" := [1]]] == FRAME.rep.document;
  }

  /** After that run the first append is off the view but still in the ledger. Its echo is
      absorbed, and the frame claims version 1 without the row. */
  lemma EchoAbsorbedForNothing()
    ensures var z := Run(FRAME, APPEND_REFUSE_RELOAD + [Events(Batch("t", [APPEND_EVENT]))]);
            Settled(z, "s") && "t" !in z.awaiting && !ShowsKernel(APPENDING, z.rep, "s")
  {
    AppendingIsConsistent();
    ReloadWipesAppend();
    var w := Run(FRAME, APPEND_REFUSE_RELOAD);
    RunSnoc(FRAME, APPEND_REFUSE_RELOAD, Events(Batch("t", [APPEND_EVENT])));
    assert APPENDING.tables["s"][1]["a"] != APPENDING.tables["s"][0]["a"];
    EchoAfterReload(APPENDING, w.rep, "t", APPEND_EVENT, 0);
    EchoSettles(w, "t", APPEND_EVENT);
  }

  lemma EchoSettles(w: World, t: TxId, e: DataEvent)
    requires e.Edit? && e.echoOf == Some(0) && w.rep.epoch.Some? && !w.rep.dirty && w.queue == [] && w.rejected == []
    requires e.source in w.rep.document && e.source in w.rep.versions && w.rep.versions[e.source] == e.base < e.next
    requires t in w.rep.own.edits && w.rep.own.edits[t] == OwnDataEdit(e.source, 0, Some(e.base))
    requires w.awaiting == map[t := e.source]
    ensures var z := Next(w, Events(Batch(t, [e])));
            Settled(z, e.source) && z.awaiting == map[] && z.rep == ApplyBatch(w.rep, Batch(t, [e])).0
  {
    EchoAdopted(w.rep, t, e);
    assert Answers([e][0], e.source);
  }

  const FOLDING_EVENT := Replace("s", 0, 1, map["b" := [0]], {})
  /** Transaction `t` replaces column `b` only. */
  const FOLDING := Kernel(map["s" := map[0 := map["a" := [1]], 1 := map["a" := [1], "b" := [0]]]],
                          map[("s", 0) := FOLDING_EVENT], map[("s", 0) := "t"])

  /** The frame appends a row, and the kernel folds that edit into a replacement of another
      column: the edit stays on the view. */
  lemma FoldLeavesEdit()
    ensures var z := Run(FRAME, [EditView("t", "s", APPEND), Events(Batch("t", [FOLDING_EVENT]))]);
            z.queue == [] && !ShowsKernel(FOLDING, z.rep, "s")
  {
    RunTwo(FRAME, EditView("t", "s", APPEND), Events(Batch("t", [FOLDING_EVENT])));
    FoldOnFrame(Next(FRAME, EditView("t", "s", APPEND)).rep);
  }

  lemma FoldOnFrame(r: Replica)
    requires r == EditLocally(FRAME.rep, "t", "s", APPEND)
    ensures var (r', gaps) := ApplyBatch(r, Batch("t", [FOLDING_EVENT]));
            gaps == [] && !ShowsKernel(FOLDING, r', "s")
  {
    FoldingIsConsistent();
    FrameAppended(r);
    assert "a" in Touched(APPEND) - FOLDING_EVENT.columns.Keys - FOLDING_EVENT.removed;
    assert EditLook(APPEND, "a", Some([1])) != Some([1]);
    FoldedEdit(FOLDING, r, "t", APPEND, FOLDING_EVENT);
  }

  lemma FrameAppended(r: Replica)
    requires r == EditLocally(FRAME.rep, "t", "s", APPEND)
    ensures r.epoch.Some? && !r.dirty && r.versions == map["s" := 0]
    ensures "s" in r.document && r.document["s"] == ApplyOp(APPEND, map["a" := [1]])
    ensures r.own.edits == map["t" := OwnDataEdit("s", 0, Some(0))]
  {
  }

  lemma FoldingIsConsistent()
    ensures Consistent(FOLDING) && Genuine(FOLDING, FOLDING_EVENT)
  {
    var after: Table := map["a" := [1], "b" := [0]];
    assert map["a" := [1]] + FOLDING_EVENT.columns == after && after - {} == after;
    assert Leads(FOLDING, FOLDING_EVENT);
  }

  // ── A reload without a result ───────────────────────────────────────

  /** An echo that finds another version than the edit was made at moves the version and asks
      for a reload. If the host answers with nothing, the view is right exactly when it was
      the kernel's next state all along. */
  lemma ReloadWithoutResult(K: Kernel, w: World, t: TxId, e: DataEvent, b: int, v: int)
    requires Consistent(K) && Genuine(K, e) && e.Edit? && e.echoOf == Some(0) && b != e.base
    requires w.queue == [] && w.rep.epoch.Some? && !w.rep.dirty && e.source in w.rep.document
    requires e.source in w.rep.versions && w.rep.versions[e.source] == e.base
    requires t in w.rep.own.edits && w.rep.own.edits[t] == OwnDataEdit(e.source, 0, Some(b))
    ensures var z := Next(Next(w, Events(Batch(t, [e]))), ReloadGap(Nothing, v));
            && z.queue == [] && z.rep.versions == w.rep.versions[e.source := e.next]
            && (ShowsKernel(K, z.rep, e.source) <==> w.rep.document[e.source] == K.tables[e.source][e.next])
  {
    EditLeads(K, e);
    EchoOvertaken(w.rep, t, e, b);
    NothingReloaded(Next(w, Events(Batch(t, [e]))), e.source, v);
  }

  lemma NothingReloaded(w: World, s: SourceId, v: int)
    requires w.queue == [s]
    ensures Next(w, ReloadGap(Nothing, v)) == w.(queue := [])
  {
  }

  const OTHER_EVENT := Edit("s", 0, 1, Stream(map["a" := [3]], None), None)
  const LATE_EVENT := Edit("s", 1, 2, APPEND, Some(0))
  /** Another frame's row comes before the one transaction `t` appends. */
  const OVERTAKEN := Kernel(map["s" := map[0 := map["a" := [1]], 1 := map["a" := [1, 3]], 2 := map["a" := [1, 3, 2]]]],
                            map[("s", 0) := OTHER_EVENT, ("s", 1) := LATE_EVENT],
                            map[("s", 0) := "u", ("s", 1) := "t"])

  lemma OtherApplied(column: Column)
    ensures KernelApply(OTHER_EVENT, map["a" := column]) == map["a" := column + [3]]
  {
    assert Touched(OTHER_EVENT.op) == {"a"};
    assert EditColumn(OTHER_EVENT.op, "a", column) == column + [3];
    var after: Table := map["a" := column + [3]];
    assert ApplyOp(OTHER_EVENT.op, map["a" := column]) == after && after - {} == after;
  }

  lemma OtherLeads()
    ensures Leads(OVERTAKEN, OTHER_EVENT)
  {
    OtherApplied([1]);
    assert [1] + [3] == [1, 3];
  }

  lemma LateLeads()
    ensures Leads(OVERTAKEN, LATE_EVENT)
  {
    var after: Table := map["a" := [1, 3, 2]];
    Appends([1, 3]);
    assert [1, 3] + [2] == [1, 3, 2] && after - {} == after;
  }

  lemma OvertakenIsConsistent()
    ensures Consistent(OVERTAKEN) && Genuine(OVERTAKEN, LATE_EVENT)
  {
    OtherLeads();
    LateLeads();
  }

  /** The frame appends a row, another frame's row arrives, then the echo; the reload it asks
      for has no result, and the rows stay in the wrong order. */
  lemma OvertakenEchoNotReloaded()
    ensures var z := Run(FRAME, [EditView("t", "s", APPEND), Events(Batch("u", [OTHER_EVENT])),
                                 Events(Batch("t", [LATE_EVENT])), ReloadGap(Nothing, 0)]);
            z.queue == [] && "s" in z.rep.versions && !ShowsKernel(OVERTAKEN, z.rep, "s")
  {
    var edit, other := EditView("t", "s", APPEND), Events(Batch("u", [OTHER_EVENT]));
    FourSteps(FRAME, edit, other, Events(Batch("t", [LATE_EVENT])), ReloadGap(Nothing, 0));
    OtherArrives(Next(FRAME, edit));
    LateEcho(Next(Next(FRAME, edit), other));
  }

  lemma LateEcho(w: World)
    requires w.queue == [] && w.rep.epoch.Some? && !w.rep.dirty && w.rep.versions == map["s" := 1]
    requires "s" in w.rep.document && w.rep.document["s"] == map["a" := [1, 2, 3]]
    requires w.rep.own.edits == map["t" := OwnDataEdit("s", 0, Some(0))]
    ensures var z := Next(Next(w, Events(Batch("t", [LATE_EVENT]))), ReloadGap(Nothing, 0));
            z.queue == [] && "s" in z.rep.versions && !ShowsKernel(OVERTAKEN, z.rep, "s")
  {
    OvertakenIsConsistent();
    assert OVERTAKEN.tables["s"][2]["a"][1] == 3;
    ReloadWithoutResult(OVERTAKEN, w, "t", LATE_EVENT, 0, 0);
  }

  lemma OtherArrives(w: World)
    requires w == Next(FRAME, EditView("t", "s", APPEND))
    ensures var z := Next(w, Events(Batch("u", [OTHER_EVENT])));
            && z.queue == [] && z.rep.epoch.Some? && !z.rep.dirty && z.rep.versions == map["s" := 1]
            && "s" in z.rep.document && z.rep.document["s"] == map["a" := [1, 2, 3]]
            && z.rep.own.edits == map["t" := OwnDataEdit("s", 0, Some(0))]
  {
    FrameAppended(w.rep);
    Appends([1]);
    OtherApplied([1] + [2]);
    assert [1] + [2] + [3] == [1, 2, 3];
    ForeignArrives(w, "u", OTHER_EVENT);
  }

  lemma ForeignArrives(w: World, t: TxId, e: DataEvent)
    requires w.queue == [] && w.rep.epoch.Some? && !w.rep.dirty && t !in w.rep.own.edits
    requires e.source in w.rep.document && e.source in w.rep.versions && w.rep.versions[e.source] == e.base < e.next
    ensures var z := Next(w, Events(Batch(t, [e])));
            && z.queue == [] && z.rep.own == w.rep.own && z.rep.epoch.Some? && !z.rep.dirty
            && z.rep.versions == w.rep.versions[e.source := e.next]
            && z.rep.document == w.rep.document[e.source := KernelApply(e, w.rep.document[e.source])]
  {
    OneApplied(w.rep, t, e);
  }
}
