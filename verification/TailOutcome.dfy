/** How far a reload gets, said of the blobs and the retained tail alone. */
module TailOutcome {
  import opened ColumnData
  import opened DataReplica
  import opened EchoProtocol

  /** The events of one source, in order. */
  function OfSource(es: seq<DataEvent>, s: SourceId): seq<DataEvent>
    decreases |es|
  {
    if es == [] then []
    else OfSource(es[..|es| - 1], s) + if es[|es| - 1].source == s then [es[|es| - 1]] else []
  }

  /** Each event leaves the version the one before it led to, the first one `v`. */
  predicate Chain(es: seq<DataEvent>, v: int)
    decreases |es|
  {
    es == [] || (Chain(es[..|es| - 1], v) && es[|es| - 1].base == EndOf(es[..|es| - 1], v))
  }

  function EndOf(es: seq<DataEvent>, v: int): int {
    if es == [] then v else es[|es| - 1].next
  }

  /** Events that lead no further than `v`. */
  predicate Stale(es: seq<DataEvent>, v: int) {
    forall i :: 0 <= i < |es| ==> es[i].base < es[i].next <= v
  }

  // ── What a replay accepts ───────────────────────────────────────────

  lemma {:induction false} ReplayOfSource(r: Replay, s: SourceId, es: seq<DataEvent>)
    ensures ReplayEvents(r, {s}, es) == ReplayEvents(r, {s}, OfSource(es, s))
    decreases |es|
  {
    if es != [] {
      var n := |es| - 1;
      ReplayOfSource(r, s, es[..n]);
      if es[n].source == s {
        assert OfSource(es, s)[..|OfSource(es, s)| - 1] == OfSource(es[..n], s);
      } else {
        assert OfSource(es, s) == OfSource(es[..n], s);
      }
    }
  }

  lemma {:induction false} StaleIgnored(r: Replay, s: SourceId, es: seq<DataEvent>)
    requires s in r.versions && Stale(es, r.versions[s])
    ensures ReplayEvents(r, {s}, es) == r
    decreases |es|
  {
    if es != [] {
      StaleIgnored(r, s, es[..|es| - 1]);
    }
  }

  lemma {:induction false} ChainAccepted(r: Replay, s: SourceId, es: seq<DataEvent>)
    requires s in r.versions && Chain(es, r.versions[s]) && forall i :: 0 <= i < |es| ==> es[i].source == s
    ensures ReplayEvents(r, {s}, es) == Replay(r.versions[s := EndOf(es, r.versions[s])], r.accepted + es)
    decreases |es|
  {
    if es == [] {
      assert r.versions[s := r.versions[s]] == r.versions && r.accepted + [] == r.accepted;
    } else {
      var n := |es| - 1;
      ChainAccepted(r, s, es[..n]);
      assert es == es[..n] + [es[n]];
      assert r.accepted + es == (r.accepted + es[..n]) + [es[n]];
    }
  }

  lemma {:induction false} OfSourceOnly(es: seq<DataEvent>, s: SourceId)
    ensures forall i :: 0 <= i < |OfSource(es, s)| ==> OfSource(es, s)[i].source == s && OfSource(es, s)[i] in es
    decreases |es|
  {
    if es != [] {
      OfSourceOnly(es[..|es| - 1], s);
    }
  }

  /** The tail of the source is what the blobs already have, and then a chain from them. */
  lemma TailAccepted(r: Replay, s: SourceId, es: seq<DataEvent>, stale: seq<DataEvent>, chain: seq<DataEvent>)
    requires s in r.versions && OfSource(es, s) == stale + chain
    requires Stale(stale, r.versions[s]) && Chain(chain, r.versions[s])
    ensures ReplayEvents(r, {s}, es) == Replay(r.versions[s := EndOf(chain, r.versions[s])], r.accepted + chain)
  {
    ReplayOfSource(r, s, es);
    ReplayAppend(r, {s}, stale, chain);
    StaleIgnored(r, s, stale);
    OfSourceOnly(es, s);
    forall i | 0 <= i < |chain| ensures chain[i].source == s {
      assert OfSource(es, s)[|stale| + i] == chain[i];
    }
    ChainAccepted(r, s, chain);
  }

  // ── Reloads ─────────────────────────────────────────────────────────

  /** The host's answer: blobs with the kernel's state at `v`, and a tail whose events of the
      source are first old ones and then a chain from there. */
  ghost predicate Continues(K: Kernel, r: Replica, s: SourceId, loaded: Loaded, v: int,
                            stale: seq<DataEvent>, chain: seq<DataEvent>)
  {
    && s in r.document && HasVersion(K, s, v) && TableOf(ColumnsOf(loaded, s)) == K.tables[s][v]
    && OfSource(Flatten(loaded.tail), s) == stale + chain && Stale(stale, v) && Chain(chain, v)
    && AllGenuineOf(K, s, chain)
    && LeavesNothingBehind(chain, r.document[s := TableOf(ColumnsOf(loaded, s))])
  }

  ghost predicate AllGenuineOf(K: Kernel, s: SourceId, es: seq<DataEvent>) {
    forall i :: 0 <= i < |es| ==> Genuine(K, es[i]) && es[i].source == s
  }

  lemma FrontGenuine(K: Kernel, s: SourceId, front: seq<DataEvent>, last: DataEvent)
    requires AllGenuineOf(K, s, front + [last])
    ensures AllGenuineOf(K, s, front) && Genuine(K, last) && last.source == s
  {
    assert (front + [last])[|front|] == last;
    forall i | 0 <= i < |front| ensures Genuine(K, front[i]) && front[i].source == s {
      assert (front + [last])[i] == front[i];
    }
  }

  lemma {:induction false} ChainReaches(K: Kernel, doc: Document, s: SourceId, chain: seq<DataEvent>, v: int)
    requires Consistent(K) && Reaches(K, doc, s, [], v) && Chain(chain, v)
    requires AllGenuineOf(K, s, chain)
    ensures Reaches(K, doc, s, chain, EndOf(chain, v))
    decreases |chain|
  {
    if chain != [] {
      var n := |chain| - 1;
      var front, last := chain[..n], chain[n];
      assert front + [last] == chain;
      FrontGenuine(K, s, front, last);
      ChainReaches(K, doc, s, front, v);
      ReachesFurther(K, doc, s, front, last);
    }
  }

  lemma ReloadMerges(r: Replica, s: SourceId, loaded: Loaded, v: int, stale: seq<DataEvent>, chain: seq<DataEvent>)
    requires s in r.document && OfSource(Flatten(loaded.tail), s) == stale + chain && Stale(stale, v) && Chain(chain, v)
    ensures Reload(r, s, loaded, v)
         == r.(document := Merged(chain, r.document[s := TableOf(ColumnsOf(loaded, s))]),
               versions := r.versions[s := v][s := EndOf(chain, v)])
  {
    TailAccepted(Replay(r.versions[s := v], []), s, Flatten(loaded.tail), stale, chain);
    assert [] + chain == chain;
  }

  lemma MergedApart(es: seq<DataEvent>, doc: Document, s: SourceId)
    requires forall i :: 0 <= i < |es| ==> es[i].source == s
    ensures forall u :: u in doc && u != s ==> Merged(es, doc)[u] == doc[u]
  {
    forall u | u in doc && u != s ensures Merged(es, doc)[u] == doc[u] {
      MergedElsewhere(es, doc, s, u);
    }
  }

  lemma MergesChain(K: Kernel, doc: Document, s: SourceId, chain: seq<DataEvent>, v: int)
    requires Consistent(K) && Reaches(K, doc, s, [], v)
    requires Chain(chain, v) && LeavesNothingBehind(chain, doc) && AllGenuineOf(K, s, chain)
    ensures s in doc && HasVersion(K, s, EndOf(chain, v)) && Merged(chain, doc)[s] == K.tables[s][EndOf(chain, v)]
  {
    ChainReaches(K, doc, s, chain, v);
    RemovalsDropped(chain, doc);
  }

  lemma MergesBlobs(K: Kernel, doc: Document, s: SourceId, blobs: Table, chain: seq<DataEvent>, v: int)
    requires Consistent(K) && HasVersion(K, s, v) && blobs == K.tables[s][v]
    requires Chain(chain, v) && LeavesNothingBehind(chain, doc[s := blobs]) && AllGenuineOf(K, s, chain)
    ensures HasVersion(K, s, EndOf(chain, v))
    ensures Merged(chain, doc[s := blobs]) == doc[s := K.tables[s][EndOf(chain, v)]]
  {
    assert Reaches(K, doc[s := blobs], s, [], v);
    MergesChain(K, doc[s := blobs], s, chain, v);
    MergedApart(chain, doc[s := blobs], s);
    OnlyDiffers(doc, s, blobs, K.tables[s][EndOf(chain, v)], Merged(chain, doc[s := blobs]));
  }

  lemma OnlyDiffers(doc: Document, s: SourceId, before: Table, after: Table, doc': Document)
    requires doc'.Keys == doc.Keys + {s} && doc'[s] == after
    requires forall u :: u in doc[s := before] && u != s ==> doc'[u] == doc[s := before][u]
    ensures doc' == doc[s := after]
  {
  }

  /** The reload ends on the last event of the chain, and shows the kernel's state there. */
  lemma ReloadFollowsTail(K: Kernel, r: Replica, s: SourceId, loaded: Loaded, v: int,
                          stale: seq<DataEvent>, chain: seq<DataEvent>)
    requires Consistent(K) && Continues(K, r, s, loaded, v, stale, chain)
    ensures var r' := Reload(r, s, loaded, v);
            && r'.versions == r.versions[s := EndOf(chain, v)]
            && HasVersion(K, s, EndOf(chain, v))
            && r'.document == r.document[s := K.tables[s][EndOf(chain, v)]]
  {
    ReloadMerges(r, s, loaded, v, stale, chain);
    MergesBlobs(K, r.document, s, TableOf(ColumnsOf(loaded, s)), chain, v);
  }

  /** Where a replay stops: at its start or right after an event it took, with no event after
      that which leaves the version it ends on. */
  ghost predicate StopsAt(es: seq<DataEvent>, s: SourceId, v: int, end: int, m: nat) {
    && m <= |es| && (if m == 0 then end == v else es[m - 1].source == s && es[m - 1].next == end)
    && (forall i :: m <= i < |es| && es[i].source == s ==> es[i].base != end)
  }

  lemma {:induction false} ReplayStops(r: Replay, s: SourceId, es: seq<DataEvent>) returns (m: nat)
    requires s in r.versions
    ensures StopsAt(es, s, r.versions[s], ReplayEvents(r, {s}, es).versions[s], m)
    decreases |es|
  {
    if es == [] {
      m := 0;
    } else {
      var n := |es| - 1;
      m := ReplayStops(r, s, es[..n]);
      if es[n].source == s && ReplayEvents(r, {s}, es[..n]).versions[s] == es[n].base {
        m := |es|;
      }
    }
  }

  /** The events of `s` are in the order of its versions. */
  predicate InOrder(es: seq<DataEvent>, s: SourceId) {
    && (forall i :: 0 <= i < |es| ==> es[i].base < es[i].next)
    && (forall i, j :: 0 <= i < j < |es| && es[i].source == s && es[j].source == s ==> es[i].next <= es[j].base)
  }

  /** No reload stops short: of a tail in order, no event leaves the version it ends on. */
  lemma NoReloadStopsShort(r: Replica, s: SourceId, loaded: Loaded, v: int)
    requires InOrder(Flatten(loaded.tail), s)
    ensures var r' := Reload(r, s, loaded, v);
            && s in r'.versions && v <= r'.versions[s]
            && (forall i :: 0 <= i < |Flatten(loaded.tail)| && Flatten(loaded.tail)[i].source == s ==>
                  Flatten(loaded.tail)[i].base != r'.versions[s])
  {
    var es, start := Flatten(loaded.tail), Replay(r.versions[s := v], []);
    var m := ReplayStops(start, s, es);
    ReplayGrows(start, s, es);
    NothingLeaves(es, s, v, ReplayEvents(start, {s}, es).versions[s], m);
  }

  lemma NothingLeaves(es: seq<DataEvent>, s: SourceId, v: int, end: int, m: nat)
    requires InOrder(es, s) && StopsAt(es, s, v, end, m)
    ensures forall i :: 0 <= i < |es| && es[i].source == s ==> es[i].base != end
  {
    forall i | 0 <= i < |es| && es[i].source == s ensures es[i].base != end {
      if i < m {
        assert es[i].base < es[i].next && es[m - 1].base < es[m - 1].next;
        assert i == m - 1 || es[i].next <= es[m - 1].base;
      }
    }
  }

  lemma {:induction false} ReplayGrows(r: Replay, s: SourceId, es: seq<DataEvent>)
    requires s in r.versions && forall i :: 0 <= i < |es| ==> es[i].base < es[i].next
    ensures r.versions[s] <= ReplayEvents(r, {s}, es).versions[s]
    decreases |es|
  {
    if es != [] {
      ReplayGrows(r, s, es[..|es| - 1]);
    }
  }
}
