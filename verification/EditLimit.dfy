/** The limit on remembered edits: how long an edit stays in the ledger, and what its echo
    does after that. */
module EditLimit {
  import opened Options
  import opened Ordering
  import opened ColumnData
  import opened RepeatedEdits
  import opened DataReplica
  import opened EchoProtocol
  import opened EchoLimits

  // ── How long an edit is remembered ──────────────────────────────────

  function RememberAll(l: Ledger, ids: seq<TxId>, edits: seq<OwnDataEdit>): Ledger
    requires |ids| == |edits|
    decreases |ids|
  {
    if ids == [] then l
    else
      var n := |ids| - 1;
      Remember(RememberAll(l, ids[..n], edits[..n]), ids[n], edits[n])
  }

  /** After any number of new edits the ledger holds exactly the 64 newest, in order. */
  lemma {:induction false} KeepsNewest(l: Ledger, ids: seq<TxId>, edits: seq<OwnDataEdit>)
    requires l.Valid() && |l.order| <= OWN_TRANSACTION_LIMIT && |ids| == |edits| && Distinct(l.order + ids)
    ensures var after := RememberAll(l, ids, edits);
            after.Valid() && after.order == LastN(l.order + ids, OWN_TRANSACTION_LIMIT)
    decreases |ids|
  {
    if ids == [] {
      assert l.order + ids == l.order;
    } else {
      var n := |ids| - 1;
      var before := l.order + ids[..n];
      assert l.order + ids == before + [ids[n]];
      DistinctFront(before, ids[n]);
      KeepsNewest(l, ids[..n], edits[..n]);
      RememberNewest(RememberAll(l, ids[..n], edits[..n]), before, ids[n], edits[n]);
    }
  }

  lemma DistinctFront<T>(s: seq<T>, x: T)
    requires Distinct(s + [x])
    ensures Distinct(s) && x !in s
  {
    forall i, j | 0 <= i < j < |s| ensures s[i] != s[j] {
      assert (s + [x])[i] == s[i] && (s + [x])[j] == s[j];
    }
    forall i | 0 <= i < |s| ensures s[i] != x {
      assert (s + [x])[i] == s[i] && (s + [x])[|s|] == x;
    }
  }

  lemma RememberNewest(l: Ledger, all: seq<TxId>, t: TxId, edit: OwnDataEdit)
    requires l.Valid() && l.order == LastN(all, OWN_TRANSACTION_LIMIT) && t !in all
    ensures Remember(l, t, edit).Valid() && Remember(l, t, edit).order == LastN(all + [t], OWN_TRANSACTION_LIMIT)
  {
    assert forall u :: u in l.order ==> u in all;
    assert t !in l.edits;
  }

  /** An edit is remembered, as it was made, for as long as fewer than 64 newer ones follow. */
  lemma RememberedUntil(l: Ledger, t: TxId, edit: OwnDataEdit, ids: seq<TxId>, edits: seq<OwnDataEdit>)
    requires l.Valid() && |l.order| <= OWN_TRANSACTION_LIMIT && |ids| == |edits| && Distinct(l.order + [t] + ids)
    ensures var after := RememberAll(Remember(l, t, edit), ids, edits);
            (t in after.edits <==> |ids| < OWN_TRANSACTION_LIMIT) && (t in after.edits ==> after.edits[t] == edit)
  {
    AsRemembered(l, t, edit, ids, edits);
    NotAmongOthers(l.order, t, ids);
    InLedger(l, t, ids, [edit] + edits);
    JustRemembered(l, t, edit);
    StillAsMade(Remember(l, t, edit), t, ids, edits);
  }

  lemma InLedger(l: Ledger, t: TxId, ids: seq<TxId>, edits: seq<OwnDataEdit>)
    requires l.Valid() && |l.order| <= OWN_TRANSACTION_LIMIT && |ids| + 1 == |edits| && Distinct(l.order + [t] + ids)
    ensures t in RememberAll(l, [t] + ids, edits).edits <==> |ids| < OWN_TRANSACTION_LIMIT
  {
    assert l.order + ([t] + ids) == l.order + [t] + ids;
    KeepsNewest(l, [t] + ids, edits);
    InLastN(l.order, t, ids, OWN_TRANSACTION_LIMIT);
  }

  lemma JustRemembered(l: Ledger, t: TxId, edit: OwnDataEdit)
    requires l.Valid() && t !in l.order
    ensures t in Remember(l, t, edit).edits && Remember(l, t, edit).edits[t] == edit
  {
  }

  lemma NotAmongOthers<T>(a: seq<T>, x: T, b: seq<T>)
    requires Distinct(a + [x] + b)
    ensures x !in a && x !in b
  {
    var all := a + [x] + b;
    assert all[|a|] == x;
    forall i | 0 <= i < |a| ensures a[i] != x {
      assert all[i] == a[i];
    }
    forall i | 0 <= i < |b| ensures b[i] != x {
      assert all[|a| + 1 + i] == b[i];
    }
  }

  lemma {:induction false} AsRemembered(l: Ledger, t: TxId, edit: OwnDataEdit, ids: seq<TxId>, edits: seq<OwnDataEdit>)
    requires |ids| == |edits|
    ensures RememberAll(l, [t] + ids, [edit] + edits) == RememberAll(Remember(l, t, edit), ids, edits)
    decreases |ids|
  {
    if ids == [] {
      assert ([t] + ids)[..0] == [] && ([edit] + edits)[..0] == [];
    } else {
      var n := |ids| - 1;
      AsRemembered(l, t, edit, ids[..n], edits[..n]);
      assert ([t] + ids)[..n + 1] == [t] + ids[..n] && ([edit] + edits)[..n + 1] == [edit] + edits[..n];
    }
  }

  lemma {:induction false} StillAsMade(l: Ledger, t: TxId, ids: seq<TxId>, edits: seq<OwnDataEdit>)
    requires |ids| == |edits| && t in l.edits && t !in ids
    ensures var after := RememberAll(l, ids, edits); t in after.edits ==> after.edits[t] == l.edits[t]
    decreases |ids|
  {
    if ids != [] {
      var n := |ids| - 1;
      assert t != ids[n];
      StillAsMade(l, t, ids[..n], edits[..n]);
    }
  }

  // ── Runs of edits ───────────────────────────────────────────────────

  predicate AllEdits(steps: seq<Step>) {
    forall i :: 0 <= i < |steps| ==> steps[i].EditView?
  }

  /** A table of `s` with those of the edits that are made to it. */
  function Edited(table: Table, steps: seq<Step>, s: SourceId): Table
    requires AllEdits(steps)
  {
    if steps == [] then table
    else
      var before, last := Edited(table, steps[..|steps| - 1], s), steps[|steps| - 1];
      if last.source == s then ApplyOp(last.op, before) else before
  }

  function IdsOf(steps: seq<Step>): (ids: seq<TxId>)
    requires AllEdits(steps)
    ensures |ids| == |steps|
  {
    if steps == [] then [] else IdsOf(steps[..|steps| - 1]) + [steps[|steps| - 1].tx]
  }

  function OwnEdits(steps: seq<Step>, r: Replica): (edits: seq<OwnDataEdit>)
    requires AllEdits(steps)
    ensures |edits| == |steps|
  {
    if steps == [] then []
    else
      var s := steps[|steps| - 1].source;
      OwnEdits(steps[..|steps| - 1], r) + [OwnDataEdit(s, 0, VersionOf(r, s))]
  }

  /** The edits are on the table of `s` and in the ledger; versions, epoch and queues are as
      before. */
  ghost predicate AfterEdits(w: World, z: World, edits: seq<Step>, s: SourceId)
    requires AllEdits(edits)
  {
    && z.rep.versions == w.rep.versions && z.rep.epoch == w.rep.epoch && z.rep.dirty == w.rep.dirty
    && s in w.rep.document && s in z.rep.document
    && z.rep.document[s] == Edited(w.rep.document[s], edits, s)
    && z.queue == w.queue && z.rejected == w.rejected
    && z.rep.own == RememberAll(w.rep.own, IdsOf(edits), OwnEdits(edits, w.rep))
  }

  lemma EditsFurther(w: World, z: World, edits: seq<Step>, s: SourceId)
    requires edits != [] && AllEdits(edits) && AfterEdits(w, z, edits[..|edits| - 1], s)
    ensures AfterEdits(w, Next(z, edits[|edits| - 1]), edits, s)
  {
    var n := |edits| - 1;
    assert IdsOf(edits)[..n] == IdsOf(edits[..n]) && OwnEdits(edits, w.rep)[..n] == OwnEdits(edits[..n], w.rep);
  }

  lemma {:induction false} EditsOnward(w: World, first: Step, edits: seq<Step>, s: SourceId)
    requires AllEdits(edits) && s in Next(w, first).rep.document
    ensures AfterEdits(Next(w, first), Run(w, [first] + edits), edits, s)
    decreases |edits|
  {
    if edits == [] {
      RunFirst(w, first, edits);
      assert AfterEdits(Next(w, first), Next(w, first), [], s);
    } else {
      var n := |edits| - 1;
      EditsOnward(w, first, edits[..n], s);
      EditsFurther(Next(w, first), Run(w, [first] + edits[..n]), edits, s);
      RunOther(w, first, edits);
    }
  }

  lemma RunFirst(w: World, first: Step, others: seq<Step>)
    requires others == []
    ensures Run(w, [first] + others) == Next(w, first)
  {
    assert [first] + others == [] + [first];
    RunSnoc(w, [], first);
  }

  lemma RunOther(w: World, first: Step, others: seq<Step>)
    requires others != []
    ensures var n := |others| - 1; Run(w, [first] + others) == Next(Run(w, [first] + others[..n]), others[n])
  {
    var n := |others| - 1;
    assert [first] + others == ([first] + others[..n]) + [others[n]];
    RunSnoc(w, [first] + others[..n], others[n]);
  }

  // ── The echo, remembered or forgotten ───────────────────────────────

  /** The echo of an edit, arriving at the edit's base while the view has the edit and maybe
      later ones, leaves the view as it is exactly when the edit is still remembered or
      would change nothing. */
  lemma EchoNeedsMemory(r: Replica, t: TxId, e: DataEvent)
    requires e.Edit? && e.echoOf == Some(0) && e.base < e.next
    requires r.epoch.Some? && !r.dirty && e.source in r.document && e.source in r.versions
    requires r.versions[e.source] == e.base
    requires t in r.own.edits ==> r.own.edits[t] == OwnDataEdit(e.source, 0, Some(e.base))
    ensures var (r', gaps) := ApplyBatch(r, Batch(t, [e]));
            && gaps == [] && r'.versions == r.versions[e.source := e.next] && e.source in r'.document
            && (r'.document[e.source] == r.document[e.source] <==> t in r.own.edits || Idle(e.op, r.document[e.source]))
  {
    if t in r.own.edits {
      EchoAdopted(r, t, e);
    } else {
      OneApplied(r, t, e);
      AppliedForNothing(e.op, r.document[e.source]);
    }
  }

  /** A frame that shows the kernel's tables edits a source, then makes any number of other
      edits, and then the echo of the first edit arrives. */
  ghost predicate EditsThenEcho(K: Kernel, w: World, t: TxId, e: DataEvent, others: seq<Step>)
    requires e.Edit?
  {
    EchoDue(K, w, t, e) && AllEdits(others) && Distinct([t] + IdsOf(others))
  }

  function EditsAndEcho(t: TxId, e: DataEvent, others: seq<Step>): seq<Step>
    requires e.Edit?
  {
    [EditView(t, e.source, e.op)] + others + [Events(Batch(t, [e]))]
  }

  lemma LedgerAfterEdits(K: Kernel, w: World, t: TxId, e: DataEvent, others: seq<Step>)
    requires e.Edit? && EditsThenEcho(K, w, t, e, others)
    ensures var r := Run(w, [EditView(t, e.source, e.op)] + others).rep;
            && (t in r.own.edits <==> |others| < OWN_TRANSACTION_LIMIT)
            && (t in r.own.edits ==> r.own.edits[t] == OwnDataEdit(e.source, 0, Some(e.base)))
            && r.epoch.Some? && !r.dirty && e.source in r.document && r.versions == w.rep.versions
            && r.document[e.source] == Edited(K.tables[e.source][e.next], others, e.source)
            && Run(w, [EditView(t, e.source, e.op)] + others).queue == []
  {
    var first := EditView(t, e.source, e.op);
    EditLeads(K, e);
    FirstEdit(K, w, t, e);
    EditsOnward(w, first, others, e.source);
    RememberedThrough(Next(w, first), Run(w, [first] + others), t, OwnDataEdit(e.source, 0, Some(e.base)), others);
  }

  lemma RememberedThrough(w: World, z: World, t: TxId, own: OwnDataEdit, others: seq<Step>)
    requires AllEdits(others) && Distinct([t] + IdsOf(others))
    requires AfterEdits(w, z, others, own.source) && w.rep.own == Remember(Ledger(map[], []), t, own)
    ensures t in z.rep.own.edits <==> |others| < OWN_TRANSACTION_LIMIT
    ensures t in z.rep.own.edits ==> z.rep.own.edits[t] == own
  {
    RememberedFromEmpty(t, own, IdsOf(others), OwnEdits(others, w.rep));
  }

  lemma RememberedFromEmpty(t: TxId, own: OwnDataEdit, ids: seq<TxId>, edits: seq<OwnDataEdit>)
    requires |ids| == |edits| && Distinct([t] + ids)
    ensures var after := RememberAll(Remember(Ledger(map[], []), t, own), ids, edits);
            (t in after.edits <==> |ids| < OWN_TRANSACTION_LIMIT) && (t in after.edits ==> after.edits[t] == own)
  {
    assert [] + [t] + ids == [t] + ids;
    RememberedUntil(Ledger(map[], []), t, own, ids, edits);
  }

  lemma FirstEdit(K: Kernel, w: World, t: TxId, e: DataEvent)
    requires e.Edit? && EchoDue(K, w, t, e)
    ensures var z := Next(w, EditView(t, e.source, e.op));
            && z.rep.own == Remember(Ledger(map[], []), t, OwnDataEdit(e.source, 0, Some(e.base)))
            && z.rep.versions == w.rep.versions && z.rep.epoch.Some? && !z.rep.dirty && z.queue == []
            && e.source in z.rep.document && z.rep.document[e.source] == ApplyOp(e.op, K.tables[e.source][e.base])
  {
  }

  /** In every such run the view ends on the kernel's next state with the later edits of the
      source on it, if and only if fewer than 64 edits came between, or applying the first
      edit once more to that changes nothing. */
  lemma EchoAmongEdits(K: Kernel, w: World, t: TxId, e: DataEvent, others: seq<Step>)
    requires e.Edit? && EditsThenEcho(K, w, t, e, others)
    ensures var z := Run(w, EditsAndEcho(t, e, others));
            var shown := Edited(K.tables[e.source][e.next], others, e.source);
            && z.queue == [] && e.source in z.rep.versions && z.rep.versions[e.source] == e.next
            && e.source in z.rep.document
            && (z.rep.document[e.source] == shown <==> |others| < OWN_TRANSACTION_LIMIT || Idle(e.op, shown))
  {
    var edits := [EditView(t, e.source, e.op)] + others;
    EditLeads(K, e);
    LedgerAfterEdits(K, w, t, e, others);
    RunSnoc(w, edits, Events(Batch(t, [e])));
    EchoNeedsMemory(Run(w, edits).rep, t, e);
  }

  lemma {:induction false} EditedElsewhere(table: Table, steps: seq<Step>, s: SourceId)
    requires AllEdits(steps) && forall i :: 0 <= i < |steps| ==> steps[i].source != s
    ensures Edited(table, steps, s) == table
    decreases |steps|
  {
    if steps != [] {
      EditedElsewhere(table, steps[..|steps| - 1], s);
    }
  }

  /** When the other edits are of other sources, the view ends on the kernel's state if and
      only if fewer than 64 came between, or the edit is harmless when applied twice. */
  lemma EchoWithinLimit(K: Kernel, w: World, t: TxId, e: DataEvent, others: seq<Step>)
    requires e.Edit? && EditsThenEcho(K, w, t, e, others)
    requires forall i :: 0 <= i < |others| ==> others[i].source != e.source
    ensures ShowsKernel(K, Run(w, EditsAndEcho(t, e, others)).rep, e.source)
        <==> |others| < OWN_TRANSACTION_LIMIT || Harmless(e.op, K.tables[e.source][e.base])
  {
    EditLeads(K, e);
    EchoAmongEdits(K, w, t, e, others);
    EditedElsewhere(K.tables[e.source][e.next], others, e.source);
    AppliedForNothing(e.op, K.tables[e.source][e.next]);
    TwiceIsOnce(e.op, K.tables[e.source][e.base]);
  }

  // ── A run past the limit ────────────────────────────────────────────

  function Name(n: nat): TxId {
    seq(n, _ => 'u')
  }

  /** `n` edits of another source, each in a transaction of its own. */
  function Others(n: nat): seq<Step> {
    if n == 0 then [] else Others(n - 1) + [EditView(Name(n), "o", APPEND)]
  }

  lemma {:induction false} OthersAreElsewhere(n: nat)
    ensures |Others(n)| == n && AllEdits(Others(n)) && forall i :: 0 <= i < n ==> Others(n)[i].source != "s"
    ensures forall i :: 0 <= i < n ==> |IdsOf(Others(n))[i]| == i + 1 && IdsOf(Others(n))[i] != "t"
  {
    if n > 0 {
      OthersAreElsewhere(n - 1);
      assert Others(n)[..n - 1] == Others(n - 1);
      assert Name(n)[0] != "t"[0];
    }
  }

  /** One append, 64 edits of another source, and the echo: the row is there twice. */
  lemma SixtyFourLaterEdits()
    ensures var z := Run(FRAME, EditsAndEcho("t", APPEND_EVENT, Others(OWN_TRANSACTION_LIMIT)));
            z.queue == [] && "s" in z.rep.versions && !ShowsKernel(APPENDING, z.rep, "s")
  {
    var others := Others(OWN_TRANSACTION_LIMIT);
    OthersAreElsewhere(OWN_TRANSACTION_LIMIT);
    FrameAwaitsEcho();
    assert "a" in Touched(APPEND) && !HarmlessTo(APPEND, APPENDING.tables["s"][0], "a");
    EchoAmongEdits(APPENDING, FRAME, "t", APPEND_EVENT, others);
    EchoWithinLimit(APPENDING, FRAME, "t", APPEND_EVENT, others);
  }
}
