/** What becomes of every event of a batch, said by position in the batch: which events are
    applied, which sources are to be reloaded, which versions are reached and whether this
    frame's edit is answered. */
module BatchOutcome {
  import opened Options
  import opened Ordering
  import opened ColumnData
  import opened DataReplica
  import opened EchoProtocol

  /** The newest version of `s` among the tracked one and the first `n` events. */
  function Reach(v: int, es: seq<DataEvent>, n: nat, s: SourceId): int
    requires n <= |es|
    decreases n
  {
    if n == 0 then v
    else
      var before := Reach(v, es, n - 1, s);
      if es[n - 1].source == s && before < es[n - 1].next then es[n - 1].next else before
  }

  predicate Tracked(r: Replica, s: SourceId) {
    s in r.versions && s in r.document
  }

  /** The event takes its source on from where the events before it have brought it. */
  predicate Joins(r: Replica, batch: Batch, i: nat)
    requires i < |batch.events|
  {
    var e := batch.events[i];
    e.source in r.versions && Reach(r.versions[e.source], batch.events, i, e.source) == e.base < e.next
  }

  predicate EchoJoins(r: Replica, batch: Batch, i: nat)
    requires i < |batch.events|
  {
    batch.tx in r.own.edits && IsEcho(batch.events[i], r.own.edits[batch.tx]) && Joins(r, batch, i)
  }

  /** The echo of this frame's edit: the first that continues the source. */
  predicate OwnEcho(r: Replica, batch: Batch, i: nat)
    requires i < |batch.events|
  {
    EchoJoins(r, batch, i) && forall j :: 0 <= j < i ==> !EchoJoins(r, batch, j)
  }

  /** A new event that does not continue its source, or an echo on another version than its
      edit was made at. */
  predicate Breaks(r: Replica, batch: Batch, i: nat)
    requires i < |batch.events|
  {
    var e := batch.events[i];
    && e.source in r.versions && Reach(r.versions[e.source], batch.events, i, e.source) < e.next
    && (!Joins(r, batch, i) || (OwnEcho(r, batch, i) && r.own.edits[batch.tx].base != Some(e.base)))
  }

  predicate Broken(r: Replica, batch: Batch, n: nat, s: SourceId)
    requires n <= |batch.events|
  {
    exists i :: 0 <= i < n && batch.events[i].source == s && Breaks(r, batch, i)
  }

  predicate Applies(r: Replica, batch: Batch, i: nat)
    requires i < |batch.events|
  {
    var s := batch.events[i].source;
    Tracked(r, s) && !Broken(r, batch, i, s) && Joins(r, batch, i) && !OwnEcho(r, batch, i)
  }

  function Applied(r: Replica, batch: Batch, n: nat): seq<DataEvent>
    requires n <= |batch.events|
    decreases n
  {
    if n == 0 then []
    else Applied(r, batch, n - 1) + if Applies(r, batch, n - 1) then [batch.events[n - 1]] else []
  }

  /** The event answers this frame's edit: its echo, or a replacement with no echo after it. */
  predicate AnswersOwn(r: Replica, batch: Batch, i: nat)
    requires i < |batch.events|
  {
    var e := batch.events[i];
    && batch.tx in r.own.edits
    && ((e.Replace? && e.source == r.own.edits[batch.tx].source
         && !HasEchoAfter(batch.events, i, r.own.edits[batch.tx]))
        || (OwnEcho(r, batch, i) && Tracked(r, e.source) && !Broken(r, batch, i, e.source)))
  }

  predicate AnsweredOwn(r: Replica, batch: Batch, n: nat)
    requires n <= |batch.events|
  {
    exists i :: 0 <= i < n && AnswersOwn(r, batch, i)
  }

  // ── The scan, one event at a time ───────────────────────────────────

  ghost predicate SourceScanned(r: Replica, batch: Batch, n: nat, k: Scan, s: SourceId)
    requires n <= |batch.events|
  {
    && (s in k.gaps <==> Tracked(r, s) && Broken(r, batch, n, s))
    && (Tracked(r, s) ==> s in k.versions)
    && (Tracked(r, s) && !Broken(r, batch, n, s) ==> k.versions[s] == Reach(r.versions[s], batch.events, n, s))
    && (s !in r.versions ==> s !in k.versions)
    && (s in r.versions && s !in r.document ==>
          (s in k.versions <==> forall i :: 0 <= i < n ==> batch.events[i].source != s))
  }

  ghost predicate OwnScannedTo(r: Replica, batch: Batch, n: nat, k: Scan)
    requires n <= |batch.events|
  {
    if AnsweredOwn(r, batch, n) then k.own == Forget(r.own, batch.tx) && k.ownEdit == None
    else k.own == r.own && k.ownEdit == Find(r.own, batch.tx)
  }

  lemma BrokenNext(r: Replica, batch: Batch, n: nat, s: SourceId)
    requires n < |batch.events|
    ensures Broken(r, batch, n + 1, s)
        <==> Broken(r, batch, n, s) || (batch.events[n].source == s && Breaks(r, batch, n))
  {
  }

  lemma AnsweredNext(r: Replica, batch: Batch, n: nat)
    requires n < |batch.events|
    ensures AnsweredOwn(r, batch, n + 1) <==> AnsweredOwn(r, batch, n) || AnswersOwn(r, batch, n)
  {
  }

  lemma {:induction false} FirstEcho(r: Replica, batch: Batch, i: nat) returns (j: nat)
    requires i < |batch.events| && EchoJoins(r, batch, i)
    ensures j <= i && OwnEcho(r, batch, j)
    decreases i
  {
    if h :| 0 <= h < i && EchoJoins(r, batch, h) {
      j := FirstEcho(r, batch, h);
    } else {
      j := i;
    }
  }

  /** While the edit is unanswered and its source unbroken, the echo that joins is its own. */
  lemma UnansweredEcho(r: Replica, batch: Batch, i: nat)
    requires i < |batch.events| && EchoJoins(r, batch, i) && Tracked(r, batch.events[i].source)
    requires !Broken(r, batch, i, batch.events[i].source) && !AnsweredOwn(r, batch, i)
    ensures OwnEcho(r, batch, i)
  {
    var j := FirstEcho(r, batch, i);
    assert j < i ==> AnswersOwn(r, batch, j);
  }

  lemma OwnEchoUnanswered(r: Replica, batch: Batch, i: nat)
    requires i < |batch.events| && OwnEcho(r, batch, i)
    ensures !AnsweredOwn(r, batch, i)
  {
    forall j | 0 <= j < i ensures !AnswersOwn(r, batch, j) {
      assert HasEchoAfter(batch.events, j, r.own.edits[batch.tx]);
    }
  }

  /** What the step does with an event of a tracked source, in the words above. */
  lemma StepTaken(r: Replica, batch: Batch, n: nat, k: Scan)
    requires n < |batch.events| && OwnScannedTo(r, batch, n, k)
    requires SourceScanned(r, batch, n, k, batch.events[n].source)
    ensures var e := batch.events[n];
            var k' := ScanOne(k, r.document.Keys, batch, n);
            var free := Tracked(r, e.source) && !Broken(r, batch, n, e.source);
            && (k'.gaps == if free && Breaks(r, batch, n) then k.gaps + [e.source] else k.gaps)
            && (k'.accepted == if Applies(r, batch, n) then k.accepted + [e] else k.accepted)
            && (free && !Breaks(r, batch, n) ==>
                  && e.source in k'.versions
                  && k'.versions[e.source] == Reach(r.versions[e.source], batch.events, n + 1, e.source))
            && (Tracked(r, e.source) ==> e.source in k'.versions)
            && (!Tracked(r, e.source) ==> e.source !in k'.versions)
  {
    var e := batch.events[n];
    if EchoJoins(r, batch, n) && Tracked(r, e.source) && !Broken(r, batch, n, e.source) && !AnsweredOwn(r, batch, n) {
      UnansweredEcho(r, batch, n);
    }
    if OwnEcho(r, batch, n) {
      OwnEchoUnanswered(r, batch, n);
    }
  }

  lemma OwnTaken(r: Replica, batch: Batch, n: nat, k: Scan)
    requires n < |batch.events| && OwnScannedTo(r, batch, n, k)
    requires SourceScanned(r, batch, n, k, batch.events[n].source)
    ensures OwnScannedTo(r, batch, n + 1, ScanOne(k, r.document.Keys, batch, n))
  {
    var e := batch.events[n];
    AnsweredNext(r, batch, n);
    if EchoJoins(r, batch, n) && Tracked(r, e.source) && !Broken(r, batch, n, e.source) && !AnsweredOwn(r, batch, n) {
      UnansweredEcho(r, batch, n);
    }
    if OwnEcho(r, batch, n) {
      OwnEchoUnanswered(r, batch, n);
    }
  }

  lemma SourceStep(r: Replica, batch: Batch, n: nat, k: Scan, s: SourceId)
    requires n < |batch.events| && OwnScannedTo(r, batch, n, k)
    requires SourceScanned(r, batch, n, k, s)
    ensures SourceScanned(r, batch, n + 1, ScanOne(k, r.document.Keys, batch, n), s)
  {
    BrokenNext(r, batch, n, s);
    if batch.events[n].source == s {
      StepTaken(r, batch, n, k);
    }
  }

  // ── The whole batch ─────────────────────────────────────────────────

  ghost predicate ScanDone(r: Replica, batch: Batch, n: nat, k: Scan)
    requires n <= |batch.events|
  {
    && OwnScannedTo(r, batch, n, k) && k.accepted == Applied(r, batch, n) && Distinct(k.gaps)
    && (forall s :: SourceScanned(r, batch, n, k, s))
  }

  lemma {:induction false} Scanned(r: Replica, batch: Batch, n: nat)
    requires n <= |batch.events|
    ensures ScanDone(r, batch, n, ScannedTo(r, batch, n))
    decreases n
  {
    if n > 0 {
      Scanned(r, batch, n - 1);
      ScannedFurther(r, batch, n - 1, ScannedTo(r, batch, n - 1));
    } else {
      assert forall s :: SourceScanned(r, batch, 0, ScannedTo(r, batch, 0), s);
    }
  }

  lemma ScannedFurther(r: Replica, batch: Batch, n: nat, k: Scan)
    requires n < |batch.events|
    requires ScanDone(r, batch, n, k)
    ensures ScanDone(r, batch, n + 1, ScanOne(k, r.document.Keys, batch, n))
  {
    var s, m, k' := batch.events[n].source, n + 1, ScanOne(k, r.document.Keys, batch, n);
    assert SourceScanned(r, batch, n, k, s);
    OwnTaken(r, batch, n, k);
    StepTaken(r, batch, n, k);
    forall u ensures SourceScanned(r, batch, m, k', u) {
      SourceStep(r, batch, n, k, u);
    }
    if s !in k.gaps {
      DistinctSnoc(k.gaps, s);
    }
  }

  /** Every batch, whatever it holds. Nothing is done while the frame waits for a full update.
      Otherwise exactly the sources with an event that breaks their order are reloaded, every
      other one ends on the newest version any of its events has, exactly the events that
      continue their source are applied, but for the echo, and the edit is forgotten exactly
      when it is answered. */
  lemma BatchDoes(r: Replica, batch: Batch)
    ensures r.epoch.None? || r.dirty ==> ApplyBatch(r, batch) == (r, [])
    ensures var n := |batch.events|;
            var (r', gaps) := ApplyBatch(r, batch);
            r.epoch.Some? && !r.dirty ==>
            && Distinct(gaps) && (forall s :: s in gaps <==> Tracked(r, s) && Broken(r, batch, n, s))
            && (forall s :: Tracked(r, s) && s !in gaps ==>
                  s in r'.versions && r'.versions[s] == Reach(r.versions[s], batch.events, n, s))
            && (forall s :: s in r'.versions ==> s in r.versions)
            && r'.document == Deferred(Applied(r, batch, n), r.document)
            && r'.own == (if AnsweredOwn(r, batch, n) then Forget(r.own, batch.tx) else r.own)
  {
    var n := |batch.events|;
    Scanned(r, batch, n);
    var k := ScannedTo(r, batch, n);
    forall s ensures s in k.gaps <==> Tracked(r, s) && Broken(r, batch, n, s) {
      assert SourceScanned(r, batch, n, k, s);
    }
    forall s | Tracked(r, s) && s !in k.gaps
      ensures s in k.versions && k.versions[s] == Reach(r.versions[s], batch.events, n, s)
    {
      assert SourceScanned(r, batch, n, k, s);
    }
    forall s | s in k.versions ensures s in r.versions {
      assert SourceScanned(r, batch, n, k, s);
    }
  }

  lemma {:induction false} ReachIsNewest(v: int, es: seq<DataEvent>, n: nat, s: SourceId)
    requires n <= |es|
    ensures v <= Reach(v, es, n, s)
    ensures forall i :: 0 <= i < n && es[i].source == s ==> es[i].next <= Reach(v, es, n, s)
    ensures Reach(v, es, n, s) == v || exists i :: 0 <= i < n && es[i].source == s && es[i].next == Reach(v, es, n, s)
    decreases n
  {
    if n > 0 {
      ReachIsNewest(v, es, n - 1, s);
    }
  }

  /** No event is passed over: a source that is not to be reloaded ends on a version not below
      its old one nor below any of its events' in the batch. */
  lemma NothingPassedOver(r: Replica, batch: Batch, s: SourceId)
    requires r.epoch.Some? && !r.dirty
    ensures var (r', gaps) := ApplyBatch(r, batch);
            Tracked(r, s) && s !in gaps ==>
              && s in r'.versions && r.versions[s] <= r'.versions[s]
              && (forall i :: 0 <= i < |batch.events| && batch.events[i].source == s ==>
                    batch.events[i].next <= r'.versions[s])
  {
    BatchDoes(r, batch);
    if s in r.versions {
      ReachIsNewest(r.versions[s], batch.events, |batch.events|, s);
    }
  }

  /** The events of each source form a chain from its tracked version. */
  predicate Chains(r: Replica, batch: Batch) {
    forall i :: 0 <= i < |batch.events| ==> batch.events[i].source in r.document && Joins(r, batch, i)
  }

  lemma ChainUnbroken(r: Replica, batch: Batch)
    requires Chains(r, batch) && batch.tx !in r.own.edits
    ensures forall i :: 0 <= i < |batch.events| ==> !Breaks(r, batch, i)
    ensures forall i :: 0 <= i < |batch.events| ==> Applies(r, batch, i)
  {
    forall i | 0 <= i < |batch.events| ensures !Breaks(r, batch, i) {
      assert Joins(r, batch, i);
    }
    forall i | 0 <= i < |batch.events| ensures Applies(r, batch, i) {
      assert Joins(r, batch, i);
    }
  }

  lemma {:induction false} AllApplied(r: Replica, batch: Batch, n: nat)
    requires n <= |batch.events| && forall i :: 0 <= i < n ==> Applies(r, batch, i)
    ensures Applied(r, batch, n) == batch.events[..n]
    decreases n
  {
    if n > 0 {
      var m := n - 1;
      AllApplied(r, batch, m);
      assert Applied(r, batch, n) == Applied(r, batch, m) + [batch.events[m]];
      assert batch.events[..n] == batch.events[..m] + [batch.events[m]];
    }
  }

  lemma NoElements(s: seq<SourceId>)
    ensures (forall x :: x !in s) ==> s == []
  {
    assert s != [] ==> s[0] in s;
  }

  /** A batch that continues every source is applied whole, as the kernel applied it. */
  lemma ContinuingBatch(r: Replica, batch: Batch)
    requires r.epoch.Some? && !r.dirty && Chains(r, batch) && batch.tx !in r.own.edits
    requires KeepsRemovals(batch.events, r.document)
    ensures var (r', gaps) := ApplyBatch(r, batch);
            && gaps == [] && r'.document == Sequential(batch.events, r.document) && r'.own == r.own
            && (forall s :: Tracked(r, s) ==>
                  s in r'.versions && r'.versions[s] == Reach(r.versions[s], batch.events, |batch.events|, s))
  {
    var n := |batch.events|;
    BatchDoes(r, batch);
    assert ApplyBatch(r, batch).1 == [] && !AnsweredOwn(r, batch, n) by {
      ChainUnbroken(r, batch);
      NoElements(ApplyBatch(r, batch).1);
    }
    assert Applied(r, batch, n) == batch.events by {
      ChainUnbroken(r, batch);
      AllApplied(r, batch, n);
      assert batch.events[..n] == batch.events;
    }
    DeferredRemovals(batch.events, r.document);
  }
}
