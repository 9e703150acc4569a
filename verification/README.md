# Proofs about nteract's live-output protocols

nteract keeps a live Bokeh view in a sandboxed frame in step with a document that the
kernel owns, relays a daemon's byte stream to a browser during development, projects
Markdown sources to rendered runs, and checks the links of its own documentation. This
project states what those four pieces of code promise and proves it, for every input and
every run.

## What is modelled

**The Bokeh session controller** (`src/isolated-renderer/bokeh-session-controller.ts`) is
split along its concerns.

- `ColumnData` has the column tables, the kernel's data events, and three ways to apply a
  list of them: one by one as the kernel does, as one patch with all removals afterwards
  as `applyEvents` does, and as a patch without removals as `replayTail` does.
- `DataReplica` has the versions, the gap detection, the ledger of own edits and the
  reload, as functions and as the class `DataController` whose methods are proved equal to
  them. `BatchOutcome` says by position in a batch what becomes of every event, and
  `TailOutcome` where a reload ends.
- `EchoProtocol` puts a replica next to a kernel history and proves what every run keeps.
  Batches may lose, repeat and reorder events; reloads may fail; edits may be refused.
  `EchoLimits` has a run from a fresh frame that ends wrong for each of the hypotheses on
  where a reload lands, on a reload without a result and on a replacement that folds an edit
  in, with the exact condition beside it, and shows that an edit and its echo meet every
  hypothesis. `MixedTransactions` shows the same of a transaction that has the echo and also
  replaces columns, in either order. `RepeatedEdits` and `EditLimit` treat the limit on
  remembered edits, and `Following` frames that make no edits.
- `ModelExpander` is the inlining of a possibly cyclic model graph; `Deserializer` is the
  all-or-nothing patch with deferred updates, `Decodability` says which patches decode, and
  `Remounting` compares reconciling with mounting; `FullUpdates` and `UpdateOutcome` join
  them, from the kernel's graph to the models of the view; `PatchBuffers` takes binary
  buffers out of a patch and numbers them.
- `SessionControl` is the rest of the controller: the inbound queue, opening and
  reopening, epochs, the dirty flag, status and permissions, debounced property writes and
  the outbound queue. `SessionTraces` ties its flags and queues to the steps that were taken,
  and `SessionRuns` has two runs of it from the start.

**The development relay** (`apps/notebook/vite-plugin-browser-relay.ts`): `Framing` is the
length-prefix parser, `RelayConnection` the connection between daemon and browser;
`FrameOutcome` and `RelayOutcome` say who gets which frame and what each event sends.

**Markdown projection** (`src/lib/markdown-projection.ts`): `ProjectionCache` is the cache
around the projector, `SourceRanges` maps source ranges to rendered text, and
`NormalizedText` says what normalizing leaves of it.

**The documentation check** (`scripts/ci/check-docs-guidance.py`): `CodeMask` blanks code,
`CodeShapes` says what a fence and a code span are without the scanning loops,
`DocsLinks` scans inline links, `ReferenceLinks` is the regular expression for reference
definitions, `ReportedLines` says on which line they are reported, and `LinkTargets` puts
them together and counts lines.

`Options`, `Ordering`, `Whitespace` and `Lines` hold shared vocabulary.

Code that changes state is a class or a method with loops, proved equal to a function on
values. The theorems are about those functions and about runs of them, and each class keeps
as its invariant what the theorems say of every step. Timers, awaited
replies, the projector, the kernel and BokehJS are steps or parameters, free to do anything
the stated hypotheses allow.

## Where the code does less than its comments say

Each of these is proved as an if-and-only-if, so the condition is exact.

- `applyEvents` removes columns after the whole batch. A batch that writes a removed column
  again ends without it (`ColumnData.DeferredRemovals`).
- `replayTail` drops removals, so a reload can keep a column the kernel has removed
  (`ColumnData.RemovalsDropped`).
- A reload that lands on the version an unechoed edit was made at leaves the edit in the
  ledger; its echo is then absorbed although the view no longer shows the edit
  (`EchoLimits.EchoAfterReload`).
- The frame forgets an edit once 64 newer ones were made. Its echo is then applied a second
  time, which is right only for edits that change nothing when repeated
  (`EditLimit.EchoAmongEdits`).
- A replacement that folds an edit in corrects the view only if it carries or removes the
  edit's columns (`EchoLimits.FoldedEdit`).
- An echo that was overtaken moves the version before the reload it asks for. If the reload
  has no result, the view is left behind that version (`EchoLimits.ReloadWithoutResult`).
- Edits made before a session lost its live host can still be queued by the write timer
  (`SessionControl.QueuedWhenNotWritable`).
- A document can be mounted after disposal when an open request was in flight
  (`SessionControl.DisposedMayMount`).
- Buffer ids are only unique among themselves: a patch that already holds a record of that
  name is not restored (`PatchBuffers.ExtractionRoundTrips`).
- Two adjoining ranges do not give the text of the whole when a run whose text differs from
  its source lies across the cut (`SourceRanges.RangesJoin`).
- The link check reports a reference definition on a line above its own when blank lines
  precede it, because the leading whitespace of the expression crosses newlines
  (`ReportedLines.ReportedLineInText`). Under an empty line this always happens
  (`ReferenceLinks.EmptyLineAbove`).

## Model

| member | source | states |
|---|---|---|
| ColumnData.PatchesMerge | src/isolated-renderer/bokeh-session-controller.ts:792-794 | applying the patch events built for a batch merges exactly the columns each data event writes, in order |
| ColumnData.SequentialFate | src/isolated-renderer/bokeh-session-controller.ts:741-797 | in the kernel's order, the last event that mentions a column decides whether it is there; a column nobody removes ends as in the merged patch |
| ColumnData.DeferredRemovals | src/isolated-renderer/bokeh-session-controller.ts:741-797 | patching a whole batch and then doing all its removals equals applying each event with its own removals in turn, if and only if no removed column is written again later in the batch |
| ColumnData.RewrittenColumnIsLost | src/isolated-renderer/bokeh-session-controller.ts:795-797 | a batch that removes a column and writes it again ends without it |
| ColumnData.MergedFate | src/isolated-renderer/bokeh-session-controller.ts:825-836 | without removals, a column differs from the kernel's only when its last mention is a removal |
| ColumnData.RemovalsDropped | src/isolated-renderer/bokeh-session-controller.ts:822-845 | replaying events without their removals gives the kernel's tables if and only if no column the client had, or that was written, ends up removed |
| ColumnData.TailLeavesColumnBehind | src/isolated-renderer/bokeh-session-controller.ts:831-835 | a tail that removes a column the client has leaves it on the view |
| DataReplica.ReplayAppend | src/isolated-renderer/bokeh-session-controller.ts:825-836 | replaying a tail group by group equals replaying its flattened events |
| DataReplica.MergedAppend | src/isolated-renderer/bokeh-session-controller.ts:839-841 | patching group by group equals one patch with all groups |
| DataReplica.DataController.RememberOwnTransaction | src/isolated-renderer/bokeh-session-controller.ts:1099-1105 | a new edit is remembered as made and becomes the newest, the order is the last 64 of what was remembered and it, and every other edit that stays is unchanged |
| DataReplica.DataController.ApplyJsonPatch | src/isolated-renderer/bokeh-session-controller.ts:792-794 | the document becomes the patch events applied in order |
| DataReplica.DataController.ApplyEvents | src/isolated-renderer/bokeh-session-controller.ts:733-803 | the new replica and the sources to reload are those of the batch specification, removals last, whatever the batch holds; nothing changes while there is no epoch or the document is dirty; the ledger stays within its limit |
| DataReplica.DataController.CollectEvents | src/isolated-renderer/bokeh-session-controller.ts:737-782 | the loop's patch, removals, gaps, versions and ledger are those of the scan, and patch and removals come from the same accepted events |
| DataReplica.DataController.RemoveEach | src/isolated-renderer/bokeh-session-controller.ts:795-797 | each removal is done in order on the patched document |
| DataReplica.DataController.MaxVersion | src/isolated-renderer/bokeh-session-controller.ts:388-394 | the result is the largest version among the columns, or -1 when there is none |
| DataReplica.DataController.ReloadSource | src/isolated-renderer/bokeh-session-controller.ts:806-819 | the source becomes the loaded columns at their largest version, followed by the tail; a request that throws marks the document out of step, and one without a result changes nothing; own edits are untouched |
| DataReplica.DataController.ReplayTail | src/isolated-renderer/bokeh-session-controller.ts:822-845 | the tail's continuing events are merged and versions follow, with no removal and no own-edit shortcut |
| DataReplica.DataController.ReplayGroup | src/isolated-renderer/bokeh-session-controller.ts:826-836 | one group contributes exactly the events of the named sources that continue their tracked version |
| BatchOutcome.BatchDoes | src/isolated-renderer/bokeh-session-controller.ts:733-803 | for every batch and position: exactly the tracked sources with an event that breaks their order are listed for reload, once each; every other one ends on the newest version among its events; exactly the events that join where the earlier ones have brought their source are applied, but for this frame's echo; the edit is forgotten if and only if it is answered; nothing happens without an epoch or while dirty |
| BatchOutcome.NothingPassedOver | src/isolated-renderer/bokeh-session-controller.ts:741-782 | a source not listed for reload ends at or above every version its events in the batch lead to: no event is dropped silently |
| BatchOutcome.ContinuingBatch | src/isolated-renderer/bokeh-session-controller.ts:733-803 | a batch whose events continue their sources is applied whole, in the kernel's order, and nothing is reloaded |
| TailOutcome.ReloadFollowsTail | src/isolated-renderer/bokeh-session-controller.ts:806-845 | if the tail holds, after what the blobs already have, a chain of the kernel's events, the reload ends on the last of them and shows the kernel's state there |
| TailOutcome.NoReloadStopsShort | src/isolated-renderer/bokeh-session-controller.ts:822-845 | for every tail in the order of the versions, no event of the source leaves the version the reload ends on |
| EchoProtocol.EditKeeps | src/isolated-renderer/bokeh-session-controller.ts:1057-1078 | an optimistic edit keeps the invariant: in every settled source a column no shown edit touches is the kernel's, a column one edit made at the shown version touches is the kernel's with that edit, and every shown edit is remembered and unanswered |
| EchoProtocol.ApplyTracks | src/isolated-renderer/bokeh-session-controller.ts:764-767 | an ordinary event or a replacement moves view and kernel to the next version together |
| EchoProtocol.AbsorbTracks | src/isolated-renderer/bokeh-session-controller.ts:768-778 | an echo on the base the edit was made at advances the version without touching the view, and the view is then the kernel's |
| EchoProtocol.ScanStep | src/isolated-renderer/bokeh-session-controller.ts:741-782 | one event of a batch, in every branch, leaves each source tracked or listed for reload |
| EchoProtocol.EventsKeep | src/isolated-renderer/bokeh-session-controller.ts:733-803 | a batch with any selection of a transaction's events keeps the invariant |
| EchoProtocol.ReloadReaches | src/isolated-renderer/bokeh-session-controller.ts:806-845 | after a reload the source shows the kernel's state at the version the tail ends on, and no other source changes |
| EchoProtocol.ReloadKeeps | src/isolated-renderer/bokeh-session-controller.ts:806-845 | a reload keeps the invariant for every source |
| EchoProtocol.RefusedKeeps | src/isolated-renderer/bokeh-session-controller.ts:1088-1095 | a refused edit is forgotten and a reload of its source is queued, one per refusal, with the invariant kept |
| EchoProtocol.RunKeeps | src/isolated-renderer/bokeh-session-controller.ts:733-845 | every run of edits, refusals, batches and reloads keeps the invariant |
| EchoProtocol.AnsweredEditsConverge | src/isolated-renderer/bokeh-session-controller.ts:737-801 | in every run, once all edits of a source are answered, its view equals the kernel's state at the tracked version: no edit is lost or counted twice |
| Following.FollowingConverges | src/isolated-renderer/bokeh-session-controller.ts:733-845 | in every run without own edits, whatever is lost, repeated, reordered or left without a reply, after every step every tracked source shows the kernel's state at its tracked version, also while reloads are outstanding |
| EchoLimits.EchoAfterReload | src/isolated-renderer/bokeh-session-controller.ts:768-778 | after a reload that wiped an edit off the view, its echo is handled correctly if and only if the reload did not land on the edit's base or the edit changes nothing |
| EchoLimits.EchoAbsorbedForNothing | src/isolated-renderer/bokeh-session-controller.ts:772-778 | a run from a frame that shows the kernel: two appends, the second refused and reloaded at the base of the first; the first one's echo is absorbed, and the settled source lacks its row |
| EchoLimits.ReplacedEdit | src/isolated-renderer/bokeh-session-controller.ts:765-767 | a replacement over an optimistic edit gives the kernel's table if and only if every column it neither carries nor removes was left unchanged by the edit |
| EchoLimits.FoldedEdit | src/isolated-renderer/bokeh-session-controller.ts:743-752 | a replacement that folds this frame's edit in forgets the edit and shows the kernel's state under exactly that condition |
| EchoLimits.FoldLeavesEdit | src/isolated-renderer/bokeh-session-controller.ts:743-752 | a run from a frame that shows the kernel: an append, then the replacement of another column that folds it in; the append stays on the view |
| EchoLimits.EditAndEcho | src/isolated-renderer/bokeh-session-controller.ts:768-778 | from any frame that shows the kernel's tables, an edit followed by its echo is a run the convergence theorem allows, and it ends on the kernel's next version |
| EchoLimits.ReloadWithoutResult | src/isolated-renderer/bokeh-session-controller.ts:773-819 | when an overtaken echo's reload has no result, the view is right if and only if it already was the kernel's next state |
| EchoLimits.OvertakenEchoNotReloaded | src/isolated-renderer/bokeh-session-controller.ts:773-819 | a run from a frame that shows the kernel: an append, another frame's row, then the echo and a reload without a result leave the rows in the wrong order |
| MixedTransactions.EchoThenReplace | src/isolated-renderer/bokeh-session-controller.ts:768-781 | from any frame that shows the kernel's tables, an edit answered by a transaction with its echo and then a replacement of any columns is a run the convergence theorem allows, and it ends on the kernel's state after both |
| MixedTransactions.ReplaceThenEcho | src/isolated-renderer/bokeh-session-controller.ts:743-778 | with the replacement first the edit is kept until its echo, the source is queued for reload, and every reload that delivers the kernel's state ends on it |
| RepeatedEdits.PatchTwice | src/isolated-renderer/bokeh-session-controller.ts:1185-1195 | setting the cells of a patch again changes nothing |
| RepeatedEdits.StreamTwice | src/isolated-renderer/bokeh-session-controller.ts:1196-1202 | streaming the same rows again changes nothing if and only if there are none, or they fill the rollover and what it keeps repeats with their length |
| RepeatedEdits.TwiceIsOnce | src/isolated-renderer/bokeh-session-controller.ts:779-781 | applying an edit to a table that already has it changes nothing if and only if it is a patch, or a stream that settles every column it touches |
| RepeatedEdits.PlainStreamTwice | src/isolated-renderer/bokeh-session-controller.ts:1196-1202 | a stream without a rollover is harmless when repeated if and only if it carries no rows |
| RepeatedEdits.AppliedForNothing | src/isolated-renderer/bokeh-session-controller.ts:1185-1202 | an edit changes nothing if and only if every column it names is there and has the cells a patch sets last, or is a full rollover that runs on into the streamed rows |
| EditLimit.KeepsNewest | src/isolated-renderer/bokeh-session-controller.ts:1099-1105 | after any number of new edits the ledger holds exactly the 64 newest, in order |
| EditLimit.RememberedUntil | src/isolated-renderer/bokeh-session-controller.ts:1099-1105 | an edit is remembered, as it was made, if and only if fewer than 64 edits were made after it |
| EditLimit.EchoNeedsMemory | src/isolated-renderer/bokeh-session-controller.ts:768-781 | an echo at its edit's base leaves the view as it is, at the next version, if and only if the edit is still remembered or would change nothing there |
| EditLimit.EchoAmongEdits | src/isolated-renderer/bokeh-session-controller.ts:737-781 | in every run that makes an edit, then any number of other edits of any sources, then gets the first one's echo, the view ends on the kernel's next state with the later edits of the source on it, if and only if fewer than 64 edits came between or applying the first one to that changes nothing |
| EditLimit.EchoWithinLimit | src/isolated-renderer/bokeh-session-controller.ts:737-781 | with the edits in between all of other sources, the view ends on the kernel's state if and only if fewer than 64 came between or the edit is harmless when applied twice |
| EditLimit.SixtyFourLaterEdits | src/isolated-renderer/bokeh-session-controller.ts:1099-1105 | a run from a frame that shows the kernel: an append, 64 edits of another source and the echo leave the row on the view twice |
| ModelExpander.ModelKeepsMeaning | src/isolated-renderer/bokeh-session-controller.ts:261-271 | erasing a definition to its reference gives the reference back, and every definition inside states its own model |
| ModelExpander.ValueKeepsMeaning | src/isolated-renderer/bokeh-session-controller.ts:273-281 | erasing an expanded value gives the original value |
| ModelExpander.OpensOnce | src/isolated-renderer/bokeh-session-controller.ts:261-281 | reading left to right, a definition opens at most once and before any bare reference to the same model |
| ModelExpander.ModelExplores | src/isolated-renderer/bokeh-session-controller.ts:261-281 | expanding a model emits exactly what can be reached from it through models not emitted before |
| ModelExpander.DefinesReachableOnce | src/isolated-renderer/bokeh-session-controller.ts:252-311 | for every graph, cycles included, each model reachable from the roots is defined exactly once, no other model is, and every definition precedes every bare reference to it |
| ModelExpander.RootsKeepMeaning | src/isolated-renderer/bokeh-session-controller.ts:292-311 | erasing the definitions of the expanded roots gives back the known roots in order |
| ModelExpander.Expander.Model | src/isolated-renderer/bokeh-session-controller.ts:261-271 | the emitted set and the record are those of the expansion |
| ModelExpander.Expander.Value | src/isolated-renderer/bokeh-session-controller.ts:273-281 | the emitted set and the value are those of the expansion, for every shape of value |
| ModelExpander.Expander.Fields | src/isolated-renderer/bokeh-session-controller.ts:266-270 | the fields are expanded left to right, sharing one emitted set |
| ModelExpander.MaterializeRoots | src/isolated-renderer/bokeh-session-controller.ts:637-645 | the roots that are in the graph are expanded in order by one expander |
| Deserializer.FailedDecodeChangesNothing | src/isolated-renderer/bokeh-session-controller.ts:192-245 | a decode that fails anywhere leaves the registry and every model in it exactly as before |
| Deserializer.DecodeWalks | src/isolated-renderer/bokeh-session-controller.ts:205-219 | a decode registers, closes and defers models as a plain walk over the patch would list them |
| Deserializer.SuccessfulDecodeOrder | src/isolated-renderer/bokeh-session-controller.ts:220-238 | a successful decode finalizes exactly the models it registered and holds back one update per repeated definition, in the order definitions close |
| Decodability.DecodesExactly | src/isolated-renderer/bokeh-session-controller.ts:205-219 | a patch decodes if and only if no value in it is refused, every reference is to a model known or defined before it, every definition of a known model has its name, and every new one has a class |
| Deserializer.UpdateSets | src/isolated-renderer/bokeh-session-controller.ts:168-179 | a deferred update sets the properties it states; a full-state one also resets those it omits that are synced, writable, without references, with a default and not the data of a columnar model; everything else, in every model, stays |
| Deserializer.LastUpdateIsFresh | src/isolated-renderer/bokeh-session-controller.ts:168-179 | after full-state updates each model holds, on every property its last definition states or that may be reset, what a new model built from that definition would hold |
| Remounting.DecodesAsSaid | src/isolated-renderer/bokeh-session-controller.ts:209-219 | a value that decodes decodes to the same result over any registry |
| Remounting.KnownHeldBack | src/isolated-renderer/bokeh-session-controller.ts:216-218 | for a model that is known, exactly the definitions the patch has of it are held back, in closing order, under its own type name |
| Remounting.NewMounted | src/isolated-renderer/bokeh-session-controller.ts:211-215 | a model that is not known and defined once is made from that definition and its defaults, and nothing is held back for it |
| Remounting.ReconcilingIsRemounting | src/isolated-renderer/bokeh-session-controller.ts:578-655 | a full-state patch over a live registry leaves every model it defines once as mounting the same patch into an empty one makes it, on every syncable, writable, reference-free property with a default, whatever the model held before |
| FullUpdates.DefsAreOpens | src/isolated-renderer/bokeh-session-controller.ts:261-281 | what the deserializer meets as definitions of a model are exactly the places where the expanded value opens it |
| FullUpdates.ErasureKeepsValue | src/isolated-renderer/bokeh-session-controller.ts:209-219 | a value decodes to the same result whether a model in it is defined or only referred to |
| FullUpdates.PatchDefines | src/isolated-renderer/bokeh-session-controller.ts:637-655 | the patch of a full update defines every model reachable from its roots once, with the name and properties of the kernel's graph, and no other model |
| UpdateOutcome.MarksAreTokens | src/isolated-renderer/bokeh-session-controller.ts:261-281 | the definitions and references a decode meets are those the expanded value states, in order |
| UpdateOutcome.FullUpdateDecodes | src/isolated-renderer/bokeh-session-controller.ts:578-655 | a full update decodes over a live registry if and only if every model reachable from its roots has values and references BokehJS can take, keeps its name if it is known and has a class if it is new, and every model to be dropped is known or reachable |
| UpdateOutcome.FullUpdateShowsGraph | src/isolated-renderer/bokeh-session-controller.ts:578-655 | under that condition the update decodes, and every model reachable from the roots is there, known before or new, and holds what the kernel's graph states, with defaults for every property it omits that may be reset |
| UpdateOutcome.UpdatingIsRemounting | src/isolated-renderer/bokeh-session-controller.ts:578-655 | reconciling a live document with an update that decodes there and over nothing agrees with mounting it anew on every model reachable from the roots, for every property stated or resettable |
| Deserializer.OthersUntouched | src/isolated-renderer/bokeh-session-controller.ts:205-238 | a model the patch does not define again is unchanged, and none is lost |
| Deserializer.PatchedDeserializer.DecodeNode | src/isolated-renderer/bokeh-session-controller.ts:209-224 | decoding advances the registry, the created list, the deferred updates and the finalizers as specified, failing where it should |
| Deserializer.PatchedDeserializer.DeferExistingModelUpdates | src/isolated-renderer/bokeh-session-controller.ts:192-245 | both hooks are restored on every exit; on failure nothing is logged or changed; on success all finalizations come before all updates, in decode order |
| Deserializer.PatchedDeserializer.Unregister | src/isolated-renderer/bokeh-session-controller.ts:225-231 | exactly the models registered by the failed decode disappear |
| Deserializer.PatchedDeserializer.UpdateAll | src/isolated-renderer/bokeh-session-controller.ts:233-236 | the deferred updates are done in order, each with the defaults it omits |
| Deserializer.PatchedDeserializer.AddOmittedDefaults | src/isolated-renderer/bokeh-session-controller.ts:168-179 | exactly the omitted properties that may be reset get their defaults |
| PatchBuffers.DecimalRoundTrip | src/isolated-renderer/bokeh-session-controller.ts:340-341 | the decimal number in a buffer id determines the number |
| PatchBuffers.BufferIdsDiffer | src/isolated-renderer/bokeh-session-controller.ts:340-341 | different buffers of one transaction get different ids |
| PatchBuffers.Collects | src/isolated-renderer/bokeh-session-controller.ts:338-363 | the buffers collected are those of the value in traversal order, numbered on from those already there |
| PatchBuffers.Restores | src/isolated-renderer/bokeh-session-controller.ts:338-363 | substituting the buffers for their ids restores the value if and only if it held no record with one of those ids |
| PatchBuffers.NothingToExtract | src/isolated-renderer/bokeh-session-controller.ts:338-363 | a value without buffers is left as it is, and no buffer is added |
| PatchBuffers.ExtractionRoundTrips | src/isolated-renderer/bokeh-session-controller.ts:330-367 | ids are distinct and numbered from 0 in traversal order, one per buffer, and putting the buffers back restores the patch if and only if no record used one of the ids before |
| PatchBuffers.NameIsTaken | src/isolated-renderer/bokeh-session-controller.ts:340-342 | a record that already has the first buffer's id comes back as that buffer |
| PatchBuffers.Extractor.Replace | src/isolated-renderer/bokeh-session-controller.ts:338-363 | the rewritten node and the growing buffer list are those of the extraction |
| PatchBuffers.Extractor.ReplaceEntries | src/isolated-renderer/bokeh-session-controller.ts:353-361 | the entries of a record are rewritten in order, keys kept |
| PatchBuffers.ExtractBokehPatchBuffers | src/isolated-renderer/bokeh-session-controller.ts:330-367 | the whole extraction, starting from an empty list |
| SessionControl.NextGuards | src/isolated-renderer/bokeh-session-controller.ts:503-519 | every step keeps the guards of dirty state, running work and epoch, and never lowers the epoch |
| SessionTraces.FailureIsMarked | src/isolated-renderer/bokeh-session-controller.ts:503-519 | a task that throws marks the document out of step; if one is mounted and it was no full update a reopen is queued, and otherwise the error is shown |
| SessionTraces.UpdateRecovers | src/isolated-renderer/bokeh-session-controller.ts:578-625 | a full update that is applied ends mounted, at its own epoch and in step |
| SessionTraces.FlagIsTrace | src/isolated-renderer/bokeh-session-controller.ts:503-625 | in every run the session counts as failed if and only if some step threw and no full update was applied since |
| SessionTraces.FailuresAreFenced | src/isolated-renderer/bokeh-session-controller.ts:503-625 | in every run the mounted epoch never decreases, and from a step that throws until a full update is applied the document stays dirty, its epoch stays as it is and no delta, data event or epoch switch runs |
| SessionTraces.DirtyMoves | src/isolated-renderer/bokeh-session-controller.ts:503-625 | the document becomes dirty exactly by a step that throws or a rejected write, and stays so exactly until a full update is applied |
| SessionTraces.OldestIsTaken | src/isolated-renderer/bokeh-session-controller.ts:503-582 | work is taken in the order it arrived; a stale full update, a delta of another epoch, and a delta or data events while the document is missing or out of step end at once, a bare switch moves only the epoch, and anything else runs |
| SessionTraces.QueueKeepsOrder | src/isolated-renderer/bokeh-session-controller.ts:503-519 | work that arrives goes to the end of the queue, and only a beginning takes from it |
| SessionTraces.NoteAsks | src/isolated-renderer/bokeh-session-controller.ts:457-474 | a session told it is connected asks the host again if and only if it has been opened and the host says it is not live, or it was not live and no open is in flight |
| SessionTraces.NoteDrops | src/isolated-renderer/bokeh-session-controller.ts:1124-1143 | a notification keeps the pending edits if and only if the session is then connected and not view-only |
| SessionTraces.OpenDecides | src/isolated-renderer/bokeh-session-controller.ts:521-549 | an open that returns decides live, writable and status, mounts a saved document if none is there, and keeps the pending edits only where they may be written |
| SessionTraces.RefPropsAreStated | src/isolated-renderer/bokeh-session-controller.ts:570-576 | in every run the properties a model is known to hold references in are those the last update naming it stated, unless a later one removed it |
| SessionControl.RecoveryNeedsFullUpdate | src/isolated-renderer/bokeh-session-controller.ts:578-625 | the only step that ends a failure is the completion of a full update at the current or a later epoch |
| SessionControl.NextTidy | src/isolated-renderer/bokeh-session-controller.ts:1124-1143 | every step keeps: timer running exactly while edits are pending, and no pending edit while disconnected or view-only |
| SessionControl.NextQueues | src/isolated-renderer/bokeh-session-controller.ts:945-990 | what a step adds to the queue is one write of the pending edits, or an event it sent itself while writable; what it adds to the pending edits it changed itself while writable |
| SessionTraces.MadeIsPending | src/isolated-renderer/bokeh-session-controller.ts:967-990 | every change of a property that is there, holds no references, is not column data and can be encoded, made while the session may send, is pending right after, with the timer running |
| SessionTraces.SentIsQueued | src/isolated-renderer/bokeh-session-controller.ts:945-962 | every one-off event made while the session may send is queued at once, after one write of what was pending |
| SessionTraces.OtherChangesDoNothing | src/isolated-renderer/bokeh-session-controller.ts:945-990 | every other change leaves the whole session as it was |
| SessionTraces.TimerWrites | src/isolated-renderer/bokeh-session-controller.ts:1026-1033 | when the timer fires everything pending is queued as one write |
| SessionControl.QueuedWhenNotWritable | src/isolated-renderer/bokeh-session-controller.ts:963-1046 | a request is queued while the session is not writable if and only if the write timer fires for pending edits and the session is no longer live |
| SessionControl.ReopenKeepsEdits | src/isolated-renderer/bokeh-session-controller.ts:535-549 | a reopen answered connected but not live keeps the pending edits, and the timer then queues them |
| SessionRuns.WriteAfterLosingLive | src/isolated-renderer/bokeh-session-controller.ts:457-549 | a run from the start: opened live, updated, edited, told it is not live and reopened without being live, the session still queues the edit when the timer fires |
| SessionControl.OnlyLocalChangesAreSent | src/isolated-renderer/bokeh-session-controller.ts:945-1046 | in every run, everything queued or pending came from a local change made while live, writable, connected and past the first full update |
| SessionControl.DebouncingRefinesWriting | src/isolated-renderer/bokeh-session-controller.ts:967-1046 | while the connection stays writable, replaying the requests shows every one-off event the properties it had when made, and leaves the host behind by exactly the pending edits |
| SessionControl.StepAdvances | src/isolated-renderer/bokeh-session-controller.ts:503-625 | every step keeps the guards and the pending-edit rule, lowers no epoch, takes nothing off the outbound queue, and ends a failure only by an applied full update |
| SessionControl.DisposedMayMount | src/isolated-renderer/bokeh-session-controller.ts:489-549 | a disposed session can show a document again if and only if an open request was in flight at disposal |
| SessionRuns.DisposedOpenMounts | src/isolated-renderer/bokeh-session-controller.ts:489-549 | a run from the start: disposed while its first open is in flight, the session is mounted when the answer arrives |
| SessionControl.SessionController.constructor | src/isolated-renderer/bokeh-session-controller.ts:448-487 | a new session has only its first open queued and satisfies the class invariant |
| SessionControl.SessionController.ShowStatus | src/isolated-renderer/bokeh-session-controller.ts:1124-1143 | status, read-only display and dropped edits follow the status rule |
| SessionControl.SessionController.OnState | src/isolated-renderer/bokeh-session-controller.ts:457-474 | a state notification keeps the class invariant, lowers no epoch, takes nothing off the queue and ends no failure |
| SessionControl.SessionController.BeginNext | src/isolated-renderer/bokeh-session-controller.ts:503-507 | starting or dropping the oldest task keeps the class invariant and lowers no epoch, so no delta or data event starts after a failure |
| SessionControl.SessionController.FinishRunning | src/isolated-renderer/bokeh-session-controller.ts:504-518 | ending the running task keeps the class invariant, and a failure is over only if this applied a full update not older than the mounted state |
| SessionControl.SessionController.OnDocumentChange | src/isolated-renderer/bokeh-session-controller.ts:945-990 | a change made while the session is not writable does nothing; one that queues a request leaves no edit pending; the class invariant is kept |
| SessionControl.SessionController.OnWriteTimer | src/isolated-renderer/bokeh-session-controller.ts:988-989 | after the timer nothing is pending and the timer is off, with the class invariant kept |
| SessionControl.SessionController.DisposeSession | src/isolated-renderer/bokeh-session-controller.ts:489-495 | a disposed session has no pending edit and no timer, its queue is unchanged, and the class invariant is kept |
| Framing.HeaderRoundTrip | apps/notebook/vite-plugin-browser-relay.ts:141-147 | a written length is read back |
| Framing.HeaderParses | apps/notebook/vite-plugin-browser-relay.ts:101-104 | a header is the encoding of the length it is read as |
| Framing.FrontIsEncoded | apps/notebook/vite-plugin-browser-relay.ts:101-111 | a complete front is the encoding of the frame handed out, followed by the rest |
| Framing.EncodedIsFront | apps/notebook/vite-plugin-browser-relay.ts:101-111 | an encoded frame is read back whatever follows it |
| FrameOutcome.OversizedIsRefused | apps/notebook/vite-plugin-browser-relay.ts:101-106 | a header that announces more than the limit is refused as soon as it is there |
| FrameOutcome.PartialWaits | apps/notebook/vite-plugin-browser-relay.ts:101-107 | a frame within the limit is not handed out before its last byte |
| FrameOutcome.ReadDoes | apps/notebook/vite-plugin-browser-relay.ts:70-77 | a read takes the front frame, throws for an oversized one, is refused after a failure, and otherwise waits behind the readers already there |
| FrameOutcome.FailDoes | apps/notebook/vite-plugin-browser-relay.ts:84-88 | a failure tells every waiting reader, oldest first, and drops no byte |
| FrameOutcome.DrainServes | apps/notebook/vite-plugin-browser-relay.ts:90-99 | the frames at hand go to the waiting readers, oldest first, and after them to the handler; what nobody takes stays, and an oversized header throws exactly when somebody could have taken it |
| Framing.StreamConserved | apps/notebook/vite-plugin-browser-relay.ts:65-111 | for every interleaving of push, read, pipe and fail: the frames handed out, encoded again, and the buffer are the bytes pushed; queued readers are answered first in, first out; nobody waits while a complete frame within the limit is at the front |
| Framing.ChunkingIrrelevant | apps/notebook/vite-plugin-browser-relay.ts:65-68 | two pushes do what one push of both chunks does, whatever they cut apart |
| Framing.BufferedFramesOutliveFailure | apps/notebook/vite-plugin-browser-relay.ts:70-88 | frames buffered at a failure stay readable in order, and only the read after the last is refused |
| Framing.LengthPrefixedFrames.PushChunk | apps/notebook/vite-plugin-browser-relay.ts:65-68 | the class invariant is kept for the bytes pushed so far: frames handed out and buffer are those bytes, queued readers are served in turn, and nobody waits while a complete frame is at the front |
| Framing.LengthPrefixedFrames.Read | apps/notebook/vite-plugin-browser-relay.ts:70-77 | a read keeps the class invariant, and a reader that has to wait finds no failure and no complete frame at the front |
| Framing.LengthPrefixedFrames.Pipe | apps/notebook/vite-plugin-browser-relay.ts:79-82 | piping keeps the class invariant and leaves no complete frame within the limit in the buffer |
| Framing.LengthPrefixedFrames.FailWith | apps/notebook/vite-plugin-browser-relay.ts:84-88 | a failure rejects all queued readers in order, keeps the buffer and the class invariant |
| Framing.LengthPrefixedFrames.DrainBuffer | apps/notebook/vite-plugin-browser-relay.ts:90-99 | waiting readers come before the handler until no complete frame is left |
| Framing.WriteFrame | apps/notebook/vite-plugin-browser-relay.ts:141-147 | the socket gains the payload's encoding, which reads back as that payload |
| RelayConnection.InOrderIsOrderly | apps/notebook/vite-plugin-browser-relay.ts:353-471 | a conversation the stages accept has one ready message before any frame and nothing after its end |
| RelayConnection.NextKeeps | apps/notebook/vite-plugin-browser-relay.ts:376-471 | every event keeps parser, phase and messages in agreement |
| RelayConnection.RelayInOrder | apps/notebook/vite-plugin-browser-relay.ts:353-471 | over every ordering of events: nothing binary before the single ready message, nothing after a terminal one, and while forwarding the browser has been sent exactly the frames after the handshake frame, none held back |
| RelayConnection.CleanDisconnect | apps/notebook/vite-plugin-browser-relay.ts:357-396 | whenever the disconnected message is sent, every complete frame received before it has been sent ahead of it, in order, and it is the last message |
| RelayOutcome.DataSends | apps/notebook/vite-plugin-browser-relay.ts:376-385 | while forwarding, every frame is sent the moment its last byte arrives, and an oversized header closes both sockets after the frames before it |
| RelayOutcome.AnswerIsThere | apps/notebook/vite-plugin-browser-relay.ts:70-88 | in every run still in the handshake, its answer is there if and only if the bytes received hold a whole frame or the daemon failed, and it is that first frame |
| RelayOutcome.AnswerDecides | apps/notebook/vite-plugin-browser-relay.ts:401-449 | a usable answer leads on to the daemon query; any other is reported once and ends the relay |
| RelayOutcome.DescribedSends | apps/notebook/vite-plugin-browser-relay.ts:411-471 | the browser is told it is ready, then gets every frame already there, then the farewell if the daemon has closed, or the failure if what follows is oversized |
| RelayOutcome.CloseSends | apps/notebook/vite-plugin-browser-relay.ts:357-396 | a close while forwarding sends the daemon's error, if there was one, and the disconnected message; earlier it only is remembered |
| RelayConnection.EventRelays | apps/notebook/vite-plugin-browser-relay.ts:376-471 | every event keeps parser, phase and messages in step, only adds messages, keeps them orderly, and sends the disconnected message only after every complete frame received |
| RelayConnection.Connection.constructor | apps/notebook/vite-plugin-browser-relay.ts:353-401 | connected, with the handshake answer awaited and the class invariant established |
| RelayConnection.Connection.SendFrames | apps/notebook/vite-plugin-browser-relay.ts:452-454 | the handler sends each frame in order while the browser's socket is open |
| RelayConnection.Connection.OnDaemonData | apps/notebook/vite-plugin-browser-relay.ts:376-385 | bytes keep the class invariant: messages stay orderly, earlier ones stay, and all complete frames are sent while forwarding |
| RelayConnection.Connection.OnBrowserGone | apps/notebook/vite-plugin-browser-relay.ts:371-371 | after the browser has left nothing more is sent, with the class invariant kept |
| RelayConnection.Connection.OnDaemonError | apps/notebook/vite-plugin-browser-relay.ts:386-389 | a daemon error keeps the class invariant and disturbs no message |
| RelayConnection.Connection.OnDaemonClosed | apps/notebook/vite-plugin-browser-relay.ts:390-396 | a close keeps the class invariant; if it sends the disconnected message, every complete frame received is ahead of it |
| RelayConnection.Connection.Resume | apps/notebook/vite-plugin-browser-relay.ts:401-449 | the handshake answer keeps the class invariant; nothing follows a terminal message |
| RelayConnection.Connection.BeginPiping | apps/notebook/vite-plugin-browser-relay.ts:412-454 | ready, and then every frame already buffered |
| RelayConnection.Connection.Describe | apps/notebook/vite-plugin-browser-relay.ts:411-471 | readiness keeps the class invariant; if the daemon has already closed, every complete frame received precedes the disconnected message |
| ProjectionCache.RecentDistinct | src/lib/markdown-projection.ts:184-197 | the recency list has each used source once |
| ProjectionCache.RecentByLastUse | src/lib/markdown-projection.ts:184-197 | its order is the order of last uses |
| ProjectionCache.RunKeeps | src/lib/markdown-projection.ts:98-134 | after every run each cached plan is the projector's own answer |
| ProjectionCache.ProjectorIsInForce | src/lib/markdown-projection.ts:98-108 | in every run the projector is the one the last change set, or the one in force before the change that the last disposal undid |
| ProjectionCache.CacheIsTransparent | src/lib/markdown-projection.ts:98-134 | after every run of projections, projector changes and disposals a projection returns what the projector in force, said by the trace of changes and disposals, would without a cache, and the cache holds exactly the at most 128 most recently used sources since the projector changed, in that order |
| ProjectionCache.MarkdownProjection.SetMarkdownProjectionProjector | src/lib/markdown-projection.ts:98-108 | the cache is emptied, and the returned handle names the projector that was current before |
| ProjectionCache.MarkdownProjection.DisposeProjector | src/lib/markdown-projection.ts:104-107 | the projector its call replaced comes back, whichever is current, and the cache is emptied; the cache invariant is kept |
| ProjectionCache.MarkdownProjection.ProjectMarkdownPlan | src/lib/markdown-projection.ts:110-134 | the answer is what the uncached projector gives, and the cache goes on holding exactly the sources used last |
| SourceRanges.PartIsOverlap | src/lib/markdown-projection.ts:293-305 | a run whose text stands for its source character by character contributes exactly its overlap with the range |
| SourceRanges.PartIsWhole | src/lib/markdown-projection.ts:307-307 | any other run contributes all of its text if it overlaps the range, and nothing otherwise |
| SourceRanges.OverlappingSplits | src/lib/markdown-projection.ts:262-275 | each run is kept or left out by itself, in order, and kept if and only if it shares a position with the range |
| SourceRanges.RangesJoin | src/lib/markdown-projection.ts:281-308 | the text of [a, b] followed by that of [b, c] is the text of [a, c] if and only if no run that cannot be cut lies across b |
| SourceRanges.CutRunIsTwice | src/lib/markdown-projection.ts:307-307 | a run rendered as one character from two appears in both halves when cut between them |
| SourceRanges.NormalizeKeepsText | src/lib/markdown-projection.ts:310-310 | normalizing loses and reorders nothing but whitespace |
| NormalizedText.NormalizeTidies | src/lib/markdown-projection.ts:310-310 | words stay as they are, in order, apart exactly where they were apart, with one space between two of them and none elsewhere |
| SourceRanges.MarkdownRunsForSourceRange | src/lib/markdown-projection.ts:262-275 | the runs that overlap the range, in order, for either order of its ends |
| SourceRanges.RenderedTextForSourceRange | src/lib/markdown-projection.ts:281-312 | the normalized text of the range, or nothing when it is empty or there is no plan |
| CodeMask.MaskingKeepsPositions | scripts/ci/check-docs-guidance.py:86-129 | masking keeps the length and every newline and turns other characters only into spaces |
| CodeShapes.FenceMatchIs | scripts/ci/check-docs-guidance.py:78-78 | a line opens a fence of n marks if and only if it starts with at most three spaces and then exactly n backticks or n tildes, at least three |
| CodeShapes.ClosesIs | scripts/ci/check-docs-guidance.py:102-109 | a line closes a fence if and only if it is such a line of the same mark, at least as long, with nothing else on it but whitespace |
| CodeShapes.SpanIs | scripts/ci/check-docs-guidance.py:119-124 | a code span goes from a run of backticks to the first later run of the same length, if no empty line lies between |
| CodeShapes.SpansExactly | scripts/ci/check-docs-guidance.py:114-129 | a character is blanked by the span pass if and only if it is no newline and lies in a span whose first run no earlier span covers |
| CodeMask.FencedBlock | scripts/ci/check-docs-guidance.py:93-112 | a line is blanked as fenced if and only if an opening fence outside any block stands above it with no closing fence strictly between |
| CodeMask.FencedLinesAreBlank | scripts/ci/check-docs-guidance.py:93-112 | every character of a fenced line is blank after masking, and the fence pass leaves every other line alone |
| CodeMask.FindRunFirst | scripts/ci/check-docs-guidance.py:122-122 | the closing run is never later than any run of the same length |
| CodeMask.SpansAreBlank | scripts/ci/check-docs-guidance.py:114-129 | every position belongs to one step over the text and is blanked if and only if that step is a code span |
| CodeMask.MaskCodeInPlace | scripts/ci/check-docs-guidance.py:86-129 | the two passes, lines rewritten in place and spans with a moving cursor, compute the mask and keep positions |
| CodeMask.MaskSpansInPlace | scripts/ci/check-docs-guidance.py:116-129 | the cursor loop blanks exactly the spans |
| DocsLinks.CloseIsBalanced | scripts/ci/check-docs-guidance.py:148-167 | the inner loop stops at a parenthesis if and only if it is unescaped, closes nothing opened inside, and no unescaped newline comes before it |
| DocsLinks.LinkAtIsLink | scripts/ci/check-docs-guidance.py:137-163 | a visited bracket reports a link if and only if a well-formed link starts there |
| DocsLinks.LinksFound | scripts/ci/check-docs-guidance.py:136-167 | a link is reported if and only if it is well formed and no earlier visited bracket read past it |
| DocsLinks.GoesOnAfter | scripts/ci/check-docs-guidance.py:136-167 | after a bracket the scan goes on past the link's closing parenthesis, past the place where an unclosed target stopped, or right after the bracket |
| DocsLinks.LinksInOrder | scripts/ci/check-docs-guidance.py:136-167 | links are reported from left to right and never overlap |
| ReferenceLinks.TargetIsTrimmed | scripts/ci/check-docs-guidance.py:23-23 | the captured target is the rest of its line without outer whitespace; where only whitespace follows the colon it is one whitespace character, or there is no match |
| ReferenceLinks.LabelIs | scripts/ci/check-docs-guidance.py:23-23 | a label is a bracket, at least one character, the first no caret, none a newline or closing bracket, and then a closing bracket and a colon |
| ReferenceLinks.RefIsDefinition | scripts/ci/check-docs-guidance.py:169-171 | every match is a definition that stands first on its line |
| ReferenceLinks.DefinitionsFound | scripts/ci/check-docs-guidance.py:169-171 | a definition is reported if and only if no earlier one took it as its target |
| ReferenceLinks.ReportedLine | scripts/ci/check-docs-guidance.py:169-171 | the reported line is the definition's own if and only if no whitespace-only line from which the search could start lies right above it |
| ReportedLines.StandingIsReported | scripts/ci/check-docs-guidance.py:169-171 | read from the top, the definitions that no standing definition before them has taken are exactly those reported |
| ReportedLines.ReportedLineInText | scripts/ci/check-docs-guidance.py:169-171 | said of the text: the reported line is the definition's own if and only if the line above is not blank, or is blank but not empty with a standing definition's target right over the blank lines |
| ReferenceLinks.EmptyLineAbove | scripts/ci/check-docs-guidance.py:169-171 | under an empty line the reported line is always an earlier one |
| ReferenceLinks.FirstDefinitionUnderEmptyLine | scripts/ci/check-docs-guidance.py:169-171 | the text of an empty line and a definition reports line 1 for the definition on line 2 |
| LinkTargets.MaskKeepsLines | scripts/ci/check-docs-guidance.py:162-162 | line numbers counted after masking are those of the text before it |
| LinkTargets.LinkStandsInText | scripts/ci/check-docs-guidance.py:132-167 | the brackets and parentheses of a reported link stand in the text itself, its target differs only by blanked code, and its line is its line in the text |
| LinkTargets.LinkOutsideCode | scripts/ci/check-docs-guidance.py:86-167 | no inline link opens in code: the line it is reported on is not fenced, and its bracket lies in no code span of what the fences leave |
| LinkTargets.LineHolds | scripts/ci/check-docs-guidance.py:162-162 | the line counted by newlines is the line of the split text that holds the position |
| LinkTargets.ReadTarget | scripts/ci/check-docs-guidance.py:148-166 | the inner loop finds the parenthesis that closes the target, or there is none |
| LinkTargets.VisitBracket | scripts/ci/check-docs-guidance.py:140-167 | one bracket is skipped, rejected or read, and the scan goes on where it should |
| LinkTargets.ScanLinks | scripts/ci/check-docs-guidance.py:134-167 | the outer loop ends and returns exactly the visited well-formed links |
| LinkTargets.IterLinkTargets | scripts/ci/check-docs-guidance.py:132-172 | every inline link with the line of its bracket in the text, then every reference definition with the line of its match |

## Left out

- React components, DOM, styles, script loading and layout callbacks: no invariant of their own.
- BokehJS, Automerge, WebSocket and Node sockets: an abstract store, a history and event sources. A patch for a model or column that is not there changes nothing, and a stream or patch event is a function on columns.
- Messages that travel in an event batch: they touch no column.
- Column catch-up in `applyDelta` and `applyFull`: it rests on the host's snapshot contract, which this repository does not show. In `SessionControl` these updates succeed or fail as a whole.
- Convergence of property echoes (`keepsLocalValue`, the grace trail, `reapplyPendingLocalChanges`): the trail is cleared by a timer and the host's write order is not visible.
- Recovery of columns after a patch throws: versions are ahead of the data by then; only the fencing by the dirty flag is claimed.
- Disposal while a mount itself is awaited, and the order of view construction.
- Relay authorization, HTTP endpoints, preamble and handshake contents, and frames from browser to daemon.
- `findMarkdownProjectionAtSourcePosition`, plan freezing, MIME parsing and preview heights.
- The rest of the documentation check: path resolution, tracked files and configuration rules.
- Real time: timers and replies are steps that may come in any order.
- EchoProtocol.AnsweredEditsConverge: excludes runs in which a reload ends at or below the base version of a remembered edit of that source or is answered with no result at all, a replacement of the edit's transaction does not carry or remove the edit's columns and arrives without the edit's echo in its batch or before it in the kernel's history, an unanswered edit is pushed out of the ledger, or a removed column is written again in the same batch or left behind by the tail, because the claim is false there; `EchoLimits`, `EditLimit` and `ColumnData` give the exact conditions and an input for each.
- Following.FollowingConverges: has the same hypotheses on removals, and reloads that, when they deliver, deliver the kernel's state at the version of their newest column.
- EchoProtocol.EditKeeps: says nothing of a column that two shown edits touch, or that an edit made before the shown version touches, until those edits are answered.
- ModelExpander.DefinesReachableOnce: assumes, as the code does, that model properties hold bare references and no inlined definitions.
- ModelExpander.RootsKeepMeaning: makes the same assumption.
- ModelExpander.Expander.Model: has no `omit` callback, which only delta updates pass, for the outermost record.
- ModelExpander.MaterializeRoots: starts from models whose column data is already in place, and leaves title, version and extras of the document aside.
- Deserializer.PatchedDeserializer.DeferExistingModelUpdates: the fallback for a BokehJS without the two hooks, and a decode started inside a decode, are not modelled.
- Remounting.ReconcilingIsRemounting: is about models the patch defines once; `FullUpdates.PatchDefines` proves that of every full update, and for repeated definitions `Deserializer.LastUpdateIsFresh` says which one decides. Column data is excluded, as the code excludes it.
- UpdateOutcome.FullUpdateShowsGraph: assumes bare references in model properties as the expander does, and that BokehJS knows the class of every live model. A record that is neither a reference nor a definition is decoded field by field, and what BokehJS makes of atoms and strings is a parameter.
- PatchBuffers.ExtractionRoundTrips: patches are trees; the visited set for shared or cyclic nodes, and that the source rewrites nodes in place, are not modelled.
- PatchBuffers.Extractor.Replace: returns the rewritten node where the source writes it into its parent.
- SessionControl.DebouncingRefinesWriting: is about property values and event numbers; the contents of one-off patches are opaque.
- SessionControl.DisposedMayMount: does not cover disposal while a mount itself is awaited.
