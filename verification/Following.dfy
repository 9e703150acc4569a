/** Frames that only follow: runs of event batches and reloads, without edits of their own. */
module Following {
  import opened ColumnData
  import opened DataReplica
  import opened EchoProtocol

  ghost predicate AllShow(K: Kernel, r: Replica) {
    forall s :: s in r.versions && s in r.document ==> ShowsKernel(K, r, s)
  }

  /** A batch has events of one transaction, any of them, in any order and number; a reload
      throws, comes back without a result, or delivers the kernel's state. */
  ghost predicate Follows(K: Kernel, w: World, step: Step) {
    match step
    case Events(batch) =>
      && AllGenuine(K, batch)
      && KeepsRemovals(ScannedTo(w.rep, batch, |batch.events|).accepted, w.rep.document)
    case ReloadGap(reply, v) =>
      w.queue != [] && reply.Delivered? ==> GenuineReload(K, w.rep, w.queue[0], reply.loaded, v)
    case _ => false
  }

  ghost predicate ScanShows(K: Kernel, doc: Document, k: Scan, s: SourceId)
    requires s in doc
  {
    s in k.versions ==> HasVersion(K, s, k.versions[s]) && Sequential(k.accepted, doc)[s] == K.tables[s][k.versions[s]]
  }

  /** What an event does to a source when no edit of this frame is at stake. */
  lemma ScanForeign(k: Scan, models: set<SourceId>, batch: Batch, i: nat, s: SourceId)
    requires i < |batch.events| && k.ownEdit.None?
    ensures var e, k' := batch.events[i], ScanOne(k, models, batch, i);
            && k'.ownEdit.None? && k'.own == k.own
            && (k'.accepted == k.accepted || k'.accepted == k.accepted + [e])
            && (s in k'.versions ==> s in k.versions)
            && (s in k'.versions ==> if e.source == s && k'.accepted != k.accepted
                                     then k.versions[s] == e.base && k'.versions[s] == e.next
                                     else k'.versions[s] == k.versions[s])
  {
  }

  lemma ScanOneShows(K: Kernel, doc: Document, batch: Batch, i: nat, k: Scan, k': Scan, s: SourceId)
    requires Consistent(K) && i < |batch.events| && Genuine(K, batch.events[i]) && k.ownEdit.None?
    requires s in doc && ScanShows(K, doc, k, s) && k' == ScanOne(k, doc.Keys, batch, i)
    ensures k'.ownEdit.None? && k'.own == k.own && ScanShows(K, doc, k', s)
  {
    var e := batch.events[i];
    ScanForeign(k, doc.Keys, batch, i, s);
    if s in k'.versions && k'.accepted != k.accepted {
      if e.source == s {
        ShowsNext(K, doc, k.accepted, e);
      } else {
        SequentialElsewhere(k.accepted, e, doc, s);
      }
    }
  }

  lemma ShowsNext(K: Kernel, doc: Document, accepted: seq<DataEvent>, e: DataEvent)
    requires Consistent(K) && Genuine(K, e) && e.source in doc && HasVersion(K, e.source, e.base)
    requires Sequential(accepted, doc)[e.source] == K.tables[e.source][e.base]
    ensures HasVersion(K, e.source, e.next) && Sequential(accepted + [e], doc)[e.source] == K.tables[e.source][e.next]
  {
    assert Leads(K, K.events[(e.source, e.base)]);
    assert (accepted + [e])[..|accepted|] == accepted;
  }

  lemma {:induction false} ScanFollows(K: Kernel, r: Replica, batch: Batch, n: nat, s: SourceId)
    requires Consistent(K) && AllGenuine(K, batch) && AllShow(K, r) && r.own.edits == map[]
    requires n <= |batch.events| && s in r.document
    ensures var k := ScannedTo(r, batch, n); k.ownEdit.None? && k.own == r.own && ScanShows(K, r.document, k, s)
    decreases n
  {
    if n == 0 {
      assert Sequential([], r.document) == r.document;
    } else {
      var m := n - 1;
      ScanFollows(K, r, batch, m, s);
      assert AllGenuine(K, batch) && m < |batch.events| ==> Genuine(K, batch.events[m]);
      ScanOneShows(K, r.document, batch, m, ScannedTo(r, batch, m), ScannedTo(r, batch, n), s);
    }
  }

  lemma BatchFollows(K: Kernel, w: World, batch: Batch)
    requires Consistent(K) && AllShow(K, w.rep) && w.rep.own.edits == map[] && Follows(K, w, Events(batch))
    ensures var r := AfterEvents(w, batch).rep; AllShow(K, r) && r.own.edits == map[]
  {
    var n := |batch.events|;
    var k := ScannedTo(w.rep, batch, n);
    if w.rep.epoch.Some? && !w.rep.dirty {
      DeferredRemovals(k.accepted, w.rep.document);
      ScanOwn(w.rep, batch, n);
      forall s | s in w.rep.document ensures ScanShows(K, w.rep.document, k, s) {
        ScanFollows(K, w.rep, batch, n, s);
      }
    }
  }

  lemma ReloadFollows(K: Kernel, w: World, reply: Reply, v: int)
    requires Consistent(K) && AllShow(K, w.rep) && w.rep.own.edits == map[] && Follows(K, w, ReloadGap(reply, v))
    ensures var r := Next(w, ReloadGap(reply, v)).rep; AllShow(K, r) && r.own.edits == map[]
  {
    if w.queue != [] && reply.Delivered? {
      ReloadReaches(K, w.rep, w.queue[0], reply.loaded, v);
    }
  }

  /** In every run of event batches and reloads, whatever is lost, repeated, reordered or
      refused on the way, every tracked source shows the kernel's state at its tracked
      version after every step, also while reloads are outstanding. */
  lemma {:induction false} FollowingConverges(K: Kernel, w: World, steps: seq<Step>)
    requires Fresh(K, w)
    requires forall i :: 0 <= i < |steps| ==> Follows(K, Run(w, steps[..i]), steps[i])
    ensures AllShow(K, Run(w, steps).rep) && Run(w, steps).rep.own.edits == map[]
    decreases |steps|
  {
    if steps != [] {
      var n := |steps| - 1;
      forall i | 0 <= i < n ensures Follows(K, Run(w, steps[..n][..i]), steps[..n][i]) {
        assert steps[..n][..i] == steps[..i];
      }
      FollowingConverges(K, w, steps[..n]);
      var z := Run(w, steps[..n]);
      match steps[n] {
        case Events(batch) => if z.queue == [] { BatchFollows(K, z, batch); }
        case ReloadGap(reply, v) => ReloadFollows(K, z, reply, v);
        case _ =>
      }
    }
  }
}
