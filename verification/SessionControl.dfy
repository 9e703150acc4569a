/** The control half of the session controller: the queue of inbound work, epochs and the
    out-of-step flag, the connection status, and the debounced writing of local changes.
    Timers, host replies and the user's changes are steps that may come in any order. */
module SessionControl {
  import opened Options

  type Id = string
  type Encoded = string
  type Key = (Id, string)

  datatype Status = Connected | Disconnected | Closed | Error

  datatype Update = Update(epoch: int, canSwitch: bool, models: map<Id, set<string>>, removed: set<Id>)

  /** Inbound work, in arrival order. */
  datatype Task = Open | Reopen | Full(update: Update) | Delta(update: Update) | DataEvents | ReloadSource

  /** What is queued for the host: property writes, and one-off events. */
  datatype Request = SetProps(props: map<Key, Encoded>) | ApplyPatch(event: nat)

  /** What has been done to the mounted document, and whether an inbound step had failed
      since the last completed full update. */
  datatype Deed = Applied(kind: Kind, afterFailure: bool)

  datatype Kind = Switched | Reconciled(epoch: int) | DeltaApplied | EventsApplied | SourceReloaded | Mounted

  /** What the mounted document shows. */
  datatype Shown = Shown(mounted: bool, epoch: Option<int>, dirty: bool, failed: bool, deeds: seq<Deed>)

  datatype Link = Link(status: Status, live: bool, hostWritable: bool, readOnlyShown: Option<bool>)

  datatype Edits = Edits(pending: map<Key, Encoded>, timer: bool, outbound: seq<Request>)

  /** `running` is the inbound task that is waiting for the host. */
  datatype Work = Work(inbound: seq<Task>, running: Option<Task>, reopening: bool, opening: bool, wasOpened: bool)

  datatype Session = Session(shown: Shown, link: Link, edits: Edits, work: Work,
                             refProps: map<Id, set<string>>, disposed: bool)

  const STARTED := Session(Shown(false, None, false, false, []), Link(Disconnected, false, true, None),
                           Edits(map[], false, []), Work([Open], None, false, false, false), map[], false)

  // ── State changes shared by several steps ───────────────────────────

  function ClearLocalState(e: Edits): Edits {
    e.(timer := false, pending := map[])
  }

  predicate ReadOnly(l: Link) {
    l.live && l.status.Connected? && !l.hostWritable
  }

  function StatusLink(l: Link, status: Status): Link {
    var l := l.(status := status);
    l.(readOnlyShown := Some(ReadOnly(l)))
  }

  /** Edits are dropped when the session is not connected, and when it turns view-only. */
  function StatusEdits(l: Link, status: Status, e: Edits): Edits {
    var now := l.(status := status);
    if !status.Connected? || (ReadOnly(now) && l.readOnlyShown != Some(true)) then ClearLocalState(e) else e
  }

  function SetStatus(c: Session, status: Status): Session {
    c.(link := StatusLink(c.link, status), edits := StatusEdits(c.link, status, c.edits))
  }

  function Enqueue(w: Work, task: Task): Work {
    w.(inbound := w.inbound + [task])
  }

  function AskAgain(w: Work, disposed: bool): Work {
    if w.reopening || disposed then w else Enqueue(w.(reopening := true), Reopen)
  }

  predicate Writable(c: Session) {
    c.link.live && c.link.hostWritable && c.link.status.Connected? && c.shown.epoch.Some?
  }

  function TrackRefProps(known: map<Id, set<string>>, update: Update, full: bool): map<Id, set<string>> {
    ((if full then map[] else known) - update.removed) + update.models
  }

  function Log(s: Shown, kind: Kind): Shown {
    s.(deeds := s.deeds + [Applied(kind, s.failed)])
  }

  predicate IsFull(task: Task) {
    task.Open? || task.Reopen? || task.Full?
  }

  function Fails(c: Session, task: Task): Session {
    var failed := c.(shown := c.shown.(dirty := true, failed := true));
    if IsFull(task) || !c.shown.mounted then SetStatus(failed, Error)
    else failed.(work := AskAgain(c.work, c.disposed))
  }

  // ── Inbound work ────────────────────────────────────────────────────

  predicate MayBegin(s: Shown, task: Task) {
    match task
    case Open => true
    case Reopen => true
    case Full(update) => s.epoch.Some? ==> s.epoch.value <= update.epoch
    case Delta(update) => s.mounted && s.epoch == Some(update.epoch) && !s.dirty
    case DataEvents => s.mounted && s.epoch.Some? && !s.dirty
    case ReloadSource => true
  }

  predicate MaySwitch(s: Shown, update: Update) {
    s.mounted && update.canSwitch && !s.dirty && s.epoch.Some?
  }

  /** The next task up to its first await; a task with nothing to wait for is done. */
  function Begin(c: Session): Session {
    if c.work.running.Some? || c.work.inbound == [] then c
    else
      var task := c.work.inbound[0];
      var c := c.(work := c.work.(inbound := c.work.inbound[1..]));
      if c.disposed || !MayBegin(c.shown, task) then c else BeginTask(c, task)
  }

  function BeginTask(c: Session, task: Task): Session {
    var running := c.work.(running := Some(task));
    match task
    case Open => c.(work := running.(opening := true))
    case Reopen => c.(work := running.(opening := true, reopening := false))
    case Full(update) =>
      var c := c.(refProps := TrackRefProps(c.refProps, update, true));
      if MaySwitch(c.shown, update) then c.(shown := Log(c.shown, Switched).(epoch := Some(update.epoch)))
      else c.(work := running)
    case Delta(update) => c.(work := running, refProps := TrackRefProps(c.refProps, update, false))
    case DataEvents => c.(work := running, shown := Log(c.shown, EventsApplied))
    case ReloadSource => c.(work := running)
  }

  /** The host's answer to an open request. */
  datatype Opening = Opening(live: bool, writable: bool, status: Status)

  /** The running task ends. `ok`: its remaining work did not throw. `mounts`: an open
      found a saved or displayed document to mount. */
  function Finish(c: Session, ok: bool, reply: Option<Opening>, mounts: bool): Session {
    if c.work.running.None? then c
    else
      var task := c.work.running.value;
      var c := c.(work := c.work.(running := None));
      if task.Open? || task.Reopen? then FinishOpen(c, task, ok, reply, mounts)
      else if c.disposed then c
      else FinishTask(c, task, ok)
  }

  function FinishTask(c: Session, task: Task, ok: bool): Session
    requires !task.Open? && !task.Reopen?
  {
    match task
    case Full(update) =>
      if ok then c.(shown := Log(c.shown, Reconciled(update.epoch)).(mounted := true, epoch := Some(update.epoch),
                                                                      dirty := false, failed := false))
      else Fails(c.(shown := Log(c.shown, Reconciled(update.epoch))), task)
    case Delta(_) =>
      var c := c.(shown := Log(c.shown, DeltaApplied));
      if ok then c else Fails(c, task)
    case DataEvents =>
      var c := c.(shown := Log(c.shown, EventsApplied));
      if ok then c else Fails(c, task)
    case ReloadSource =>
      if !ok then Fails(c, task)
      else if c.shown.mounted then c.(shown := Log(c.shown, SourceReloaded)) else c
  }

  function Answered(c: Session, reply: Option<Opening>): Session {
    var link := c.link.(live := reply.Some? && reply.value.live, hostWritable := reply.None? || reply.value.writable);
    SetStatus(c.(work := c.work.(opening := false, wasOpened := true), link := link),
              if reply.Some? then reply.value.status else Disconnected)
  }

  function FinishOpen(c: Session, task: Task, ok: bool, reply: Option<Opening>, mounts: bool): Session {
    var c := Answered(c, reply);
    if c.shown.mounted || (ok && !mounts) then c
    else if ok then c.(shown := Log(c.shown, Mounted).(mounted := true))
    else if c.disposed then c
    else Fails(c, task)
  }

  // ── Notifications and local changes ─────────────────────────────────

  function StateNote(c: Session, status: Status, writable: Option<bool>, live: Option<bool>): Session {
    if c.disposed then c
    else
      var c := if writable.Some? then c.(link := c.link.(hostWritable := writable.value)) else c;
      var c := SetStatus(c, status);
      if status.Connected? && c.work.wasOpened && (live == Some(false) || (!c.link.live && !c.work.opening))
      then c.(work := AskAgain(c.work, c.disposed)) else c
  }

  /** A change BokehJS reports. `value` is its encoding, if it can be encoded. */
  datatype Change =
    | ModelChanged(model: Id, attr: string, value: Option<Encoded>, declared: bool, syncable: bool, columnar: bool)
    | OneOff(event: nat, documentReady: bool, serializable: bool)
    | Structural

  predicate ShouldSync(e: Change, sync: bool) {
    sync && !(e.OneOff? && e.documentReady) && !(e.ModelChanged? && e.attr != "" && e.declared && !e.syncable)
  }

  predicate Recordable(refProps: map<Id, set<string>>, e: Change) {
    && e.ModelChanged? && e.model != "" && e.attr != "" && e.declared
    && e.model in refProps && e.attr !in refProps[e.model]
    && !(e.attr == "data" && e.columnar)
    && e.value.Some?
  }

  /** The change reaches the writing code at all. */
  predicate Accepts(c: Session, e: Change, sync: bool) {
    !c.disposed && c.shown.mounted && ShouldSync(e, sync) && Writable(c)
  }

  function FlushProps(e: Edits): Edits {
    var e := e.(timer := false);
    if e.pending == map[] then e
    else e.(pending := map[], outbound := e.outbound + [SetProps(e.pending)])
  }

  function SendOneOff(e: Edits, event: nat): Edits {
    var e := FlushProps(e);
    e.(outbound := e.outbound + [ApplyPatch(event)])
  }

  function LocalChange(c: Session, e: Change, sync: bool): Session {
    if !Accepts(c, e, sync) then c
    else if Recordable(c.refProps, e)
    then c.(edits := c.edits.(pending := c.edits.pending[(e.model, e.attr) := e.value.value], timer := true))
    else if e.OneOff? && e.serializable then c.(edits := SendOneOff(c.edits, e.event))
    else c
  }

  function Dispose(c: Session): Session {
    if c.disposed then c
    else c.(disposed := true, edits := ClearLocalState(c.edits), shown := c.shown.(mounted := false))
  }

  datatype Step =
    | Note(status: Status, writable: Option<bool>, live: Option<bool>)
    | Arrives(task: Task)
    | Begins
    | Finishes(ok: bool, reply: Option<Opening>, mounts: bool)
    | Changes(change: Change, sync: bool)
    | TimerFires
    | WriteRejected
    | EventRefused
    | Disposes

  predicate FromHost(task: Task) {
    task.Full? || task.Delta? || task.DataEvents?
  }

  function Next(c: Session, step: Step): Session {
    match step
    case Note(status, writable, live) => StateNote(c, status, writable, live)
    case Arrives(task) => if !c.disposed && FromHost(task) then c.(work := Enqueue(c.work, task)) else c
    case Begins => Begin(c)
    case Finishes(ok, reply, mounts) => Finish(c, ok, reply, mounts)
    case Changes(change, sync) => LocalChange(c, change, sync)
    case TimerFires => if c.edits.timer then c.(edits := FlushProps(c.edits)) else c
    case WriteRejected => c.(shown := c.shown.(dirty := true), work := AskAgain(c.work, c.disposed))
    case EventRefused => c.(work := Enqueue(c.work, ReloadSource))
    case Disposes => Dispose(c)
  }

  function Run(c: Session, steps: seq<Step>): Session
    decreases |steps|
  {
    if steps == [] then c else Next(Run(c, steps[..|steps| - 1]), steps[|steps| - 1])
  }

  // ── Epochs and failed steps ─────────────────────────────────────────

  predicate EpochAtLeast(s: Shown, e: Option<int>) {
    e.Some? ==> s.epoch.Some? && e.value <= s.epoch.value
  }

  /** A failure since the last completed full update keeps the document marked out of
      step; a full update in flight is not older than the mounted state; and no delta or
      data event is in flight after a failure. */
  ghost predicate Guarded(s: Shown, running: Option<Task>) {
    && (s.failed ==> s.dirty)
    && (running.Some? && running.value.Full? ==> MayBegin(s, running.value))
    && (running.Some? && (running.value.Delta? || running.value.DataEvents?) ==> !s.failed)
    && (forall i :: 0 <= i < |s.deeds| ==> Clean(s.deeds[i]))
  }

  /** After a failure nothing but a full update, a fresh mount or a source reload touches
      the document: no delta, no data events, no epoch switch. */
  predicate Clean(d: Deed) {
    d.kind.Switched? || d.kind.DeltaApplied? || d.kind.EventsApplied? ==> !d.afterFailure
  }

  lemma BeginTaskGuards(c: Session, task: Task)
    requires Guarded(c.shown, None) && c.work.running.None? && MayBegin(c.shown, task)
    ensures var c' := BeginTask(c, task); Guarded(c'.shown, c'.work.running) && EpochAtLeast(c'.shown, c.shown.epoch)
  {
  }

  lemma BeginGuards(c: Session)
    requires Guarded(c.shown, c.work.running)
    ensures Guarded(Begin(c).shown, Begin(c).work.running) && EpochAtLeast(Begin(c).shown, c.shown.epoch)
  {
    if c.work.running.None? && c.work.inbound != [] && MayBegin(c.shown, c.work.inbound[0]) {
      BeginTaskGuards(c.(work := c.work.(inbound := c.work.inbound[1..])), c.work.inbound[0]);
    }
  }

  lemma LogStaysClean(s: Shown, kind: Kind)
    requires forall i :: 0 <= i < |s.deeds| ==> Clean(s.deeds[i])
    requires Clean(Applied(kind, s.failed))
    ensures forall i :: 0 <= i < |Log(s, kind).deeds| ==> Clean(Log(s, kind).deeds[i])
  {
  }

  lemma FailGuards(c: Session, task: Task)
    requires Guarded(c.shown, None) && c.work.running == None
    ensures Guarded(Fails(c, task).shown, Fails(c, task).work.running) && Fails(c, task).shown.epoch == c.shown.epoch
  {
  }

  lemma TaskGuards(c: Session, task: Task, ok: bool)
    requires Guarded(c.shown, Some(task)) && c.work.running == None && !task.Open? && !task.Reopen?
    ensures var c' := FinishTask(c, task, ok);
            Guarded(c'.shown, c'.work.running) && EpochAtLeast(c'.shown, c.shown.epoch)
  {
    var kind := match task
      case Full(update) => Reconciled(update.epoch)
      case Delta(_) => DeltaApplied
      case DataEvents => EventsApplied
      case _ => SourceReloaded;
    LogStaysClean(c.shown, kind);
    if !ok {
      FailGuards(if task.ReloadSource? then c else c.(shown := Log(c.shown, kind)), task);
    }
  }

  lemma OpenGuards(c: Session, task: Task, ok: bool, reply: Option<Opening>, mounts: bool)
    requires Guarded(c.shown, None) && c.work.running == None
    ensures var c' := FinishOpen(c, task, ok, reply, mounts);
            Guarded(c'.shown, c'.work.running) && c'.shown.epoch == c.shown.epoch
  {
    LogStaysClean(c.shown, Mounted);
    var answered := Answered(c, reply);
    assert answered.shown == c.shown && answered.work.running == None;
    FailGuards(answered, task);
  }

  lemma FinishGuards(c: Session, ok: bool, reply: Option<Opening>, mounts: bool)
    requires Guarded(c.shown, c.work.running)
    ensures var c' := Finish(c, ok, reply, mounts);
            Guarded(c'.shown, c'.work.running) && EpochAtLeast(c'.shown, c.shown.epoch)
  {
    if c.work.running.Some? {
      var idle := c.(work := c.work.(running := None));
      if Opens(c.work.running) {
        OpenGuards(idle, c.work.running.value, ok, reply, mounts);
      } else {
        TaskGuards(idle, c.work.running.value, ok);
      }
    }
  }

  lemma NextGuards(c: Session, step: Step)
    requires Guarded(c.shown, c.work.running)
    ensures Guarded(Next(c, step).shown, Next(c, step).work.running) && EpochAtLeast(Next(c, step).shown, c.shown.epoch)
  {
    match step
    case Begins => BeginGuards(c);
    case Finishes(ok, reply, mounts) => FinishGuards(c, ok, reply, mounts);
    case _ =>
  }

  lemma {:induction false} RunGuards(c: Session, steps: seq<Step>)
    requires Guarded(c.shown, c.work.running)
    ensures Guarded(Run(c, steps).shown, Run(c, steps).work.running)
    ensures EpochAtLeast(Run(c, steps).shown, c.shown.epoch)
    decreases |steps|
  {
    if steps != [] {
      RunGuards(c, steps[..|steps| - 1]);
      NextGuards(Run(c, steps[..|steps| - 1]), steps[|steps| - 1]);
    }
  }

  lemma {:induction false} RunInTwo(c: Session, steps: seq<Step>, more: seq<Step>)
    ensures Run(c, steps + more) == Run(Run(c, steps), more)
    decreases |more|
  {
    if more == [] {
      assert steps + more == steps;
    } else {
      var n := |more| - 1;
      assert (steps + more)[..|steps| + n] == steps + more[..n];
      RunInTwo(c, steps, more[..n]);
    }
  }

  /** The flag falls only when a full update that is not older than the mounted state has
      been applied. */
  lemma RecoveryNeedsFullUpdate(c: Session, step: Step)
    requires Guarded(c.shown, c.work.running) && c.shown.failed && !Next(c, step).shown.failed
    ensures var s := Next(c, step).shown;
            && s.epoch.Some? && EpochAtLeast(s, c.shown.epoch) && !s.dirty && s.mounted
            && s.deeds == c.shown.deeds + [Applied(Reconciled(s.epoch.value), true)]
  {
    NextGuards(c, step);
    match step
    case Begins => BeginKeepsFlag(c);
    case Finishes(ok, reply, mounts) => assert c.work.running.Some? && c.work.running.value.Full?;
    case _ =>
  }

  lemma BeginKeepsFlag(c: Session)
    ensures Begin(c).shown.failed == c.shown.failed
  {
  }

  // ── Local changes ───────────────────────────────────────────────────

  /** The write timer runs exactly while edits are pending, and a view-only or
      disconnected session holds none. */
  ghost predicate Tidy(c: Session) {
    && (c.edits.timer <==> c.edits.pending != map[])
    && (c.edits.pending != map[] ==>
          c.link.status.Connected? && !ReadOnly(c.link) && c.shown.epoch.Some? && !c.disposed)
    && (c.link.readOnlyShown.Some? ==> c.link.readOnlyShown.value == ReadOnly(c.link))
  }

  /** `SetStatus` restores what a change of `live` or `hostWritable` may have upset. */
  lemma StatusTidies(c: Session, status: Status)
    requires c.edits.timer <==> c.edits.pending != map[]
    requires c.edits.pending != map[] ==> c.shown.epoch.Some? && !c.disposed
    requires c.link.readOnlyShown == Some(true) ==> c.edits.pending == map[]
    ensures Tidy(SetStatus(c, status))
  {
  }

  lemma BeginTidy(c: Session)
    requires Tidy(c)
    ensures Tidy(Begin(c))
  {
  }

  lemma FinishTidy(c: Session, ok: bool, reply: Option<Opening>, mounts: bool)
    requires Tidy(c)
    ensures Tidy(Finish(c, ok, reply, mounts))
  {
    if c.work.running.Some? {
      var task := c.work.running.value;
      var c := c.(work := c.work.(running := None));
      if task.Open? || task.Reopen? {
        OpenTidy(c, task, ok, reply, mounts);
      } else if !c.disposed {
        TaskTidy(c, task, ok);
      }
    }
  }

  lemma OpenTidy(c: Session, task: Task, ok: bool, reply: Option<Opening>, mounts: bool)
    requires Tidy(c)
    ensures Tidy(FinishOpen(c, task, ok, reply, mounts))
  {
    var link := c.link.(live := reply.Some? && reply.value.live, hostWritable := reply.None? || reply.value.writable);
    StatusTidies(c.(work := c.work.(opening := false, wasOpened := true), link := link),
                 if reply.Some? then reply.value.status else Disconnected);
    assert Tidy(Answered(c, reply));
  }

  lemma TaskTidy(c: Session, task: Task, ok: bool)
    requires Tidy(c) && !task.Open? && !task.Reopen?
    ensures Tidy(FinishTask(c, task, ok))
  {
  }

  lemma NextTidy(c: Session, step: Step)
    requires Tidy(c)
    ensures Tidy(Next(c, step))
  {
    match step
    case Note(status, writable, _) =>
      StatusTidies(if writable.Some? then c.(link := c.link.(hostWritable := writable.value)) else c, status);
    case Begins => BeginTidy(c);
    case Finishes(ok, reply, mounts) => FinishTidy(c, ok, reply, mounts);
    case Changes(change, sync) =>
      if Accepts(c, change, sync) && Recordable(c.refProps, change) {
        assert (change.model, change.attr) in Next(c, step).edits.pending;
      }
    case _ =>
  }

  /** The session may send what the user does. */
  ghost predicate MaySend(c: Session) {
    && !c.disposed && c.shown.mounted && c.shown.epoch.Some?
    && c.link.live && c.link.hostWritable && c.link.status.Connected?
  }

  /** The step made this property change: of a property the model declares and syncs, which
      the updates track and do not list among the model's references, which is not the data
      of a columnar model, and whose value can be encoded. */
  ghost predicate Made(c: Session, step: Step, key: Key, value: Encoded) {
    && MaySend(c) && step.Changes? && step.sync && step.change.ModelChanged?
    && key == (step.change.model, step.change.attr) && step.change.value == Some(value)
    && key.0 != "" && key.1 != "" && step.change.declared && step.change.syncable
    && key.0 in c.refProps && key.1 !in c.refProps[key.0]
    && (step.change.columnar ==> key.1 != "data")
  }

  /** The step sent this one-off event: one that can be serialized and is not BokehJS's own
      announcement that the document is ready. */
  ghost predicate Sent(c: Session, step: Step, event: nat) {
    && MaySend(c) && step.Changes? && step.sync
    && step.change.OneOff? && step.change.event == event && !step.change.documentReady && step.change.serializable
  }

  ghost predicate MadeIn(steps: seq<Step>, key: Key, value: Encoded) {
    exists i :: 0 <= i < |steps| && Made(Run(STARTED, steps[..i]), steps[i], key, value)
  }

  ghost predicate SentIn(steps: seq<Step>, event: nat) {
    exists i :: 0 <= i < |steps| && Sent(Run(STARTED, steps[..i]), steps[i], event)
  }

  ghost predicate PropsMade(steps: seq<Step>, props: map<Key, Encoded>) {
    forall key :: key in props ==> MadeIn(steps, key, props[key])
  }

  ghost predicate RequestMade(steps: seq<Step>, r: Request) {
    match r
    case SetProps(props) => PropsMade(steps, props)
    case ApplyPatch(event) => SentIn(steps, event)
  }

  lemma MadeStays(steps: seq<Step>, step: Step, key: Key, value: Encoded)
    requires MadeIn(steps, key, value)
    ensures MadeIn(steps + [step], key, value)
  {
    var i :| 0 <= i < |steps| && Made(Run(STARTED, steps[..i]), steps[i], key, value);
    assert (steps + [step])[..i] == steps[..i] && (steps + [step])[i] == steps[i];
  }

  lemma SentStays(steps: seq<Step>, step: Step, event: nat)
    requires SentIn(steps, event)
    ensures SentIn(steps + [step], event)
  {
    var i :| 0 <= i < |steps| && Sent(Run(STARTED, steps[..i]), steps[i], event);
    assert (steps + [step])[..i] == steps[..i] && (steps + [step])[i] == steps[i];
  }

  lemma RequestStays(steps: seq<Step>, step: Step, r: Request)
    requires RequestMade(steps, r)
    ensures RequestMade(steps + [step], r)
  {
    match r
    case SetProps(props) => PropsStay(steps, step, props);
    case ApplyPatch(event) => SentStays(steps, step, event);
  }

  lemma PropsStay(steps: seq<Step>, step: Step, props: map<Key, Encoded>)
    requires PropsMade(steps, props)
    ensures PropsMade(steps + [step], props)
  {
    forall key | key in props ensures MadeIn(steps + [step], key, props[key]) {
      MadeStays(steps, step, key, props[key]);
    }
  }

  /** Work that is not a change or a timer queues nothing and makes no edit pending. */
  lemma OthersQueueNothing(c: Session, step: Step)
    requires !step.Changes? && !step.TimerFires?
    ensures var e := Next(c, step).edits;
            e.outbound == c.edits.outbound && (e.pending == c.edits.pending || e.pending == map[])
  {
    match step
    case Begins => BeginKeepsEdits(c);
    case Finishes(ok, reply, mounts) => FinishDropsEdits(c, ok, reply, mounts);
    case _ =>
  }

  lemma BeginKeepsEdits(c: Session)
    ensures Begin(c).edits == c.edits && Begin(c).link == c.link
  {
  }

  lemma FinishDropsEdits(c: Session, ok: bool, reply: Option<Opening>, mounts: bool)
    ensures var e := Finish(c, ok, reply, mounts).edits;
            e.outbound == c.edits.outbound && (e.pending == c.edits.pending || e.pending == map[])
  {
  }

  /** What a step adds to the queue or to the pending edits. */
  lemma NextQueues(c: Session, step: Step)
    ensures var e := Next(c, step).edits;
            && c.edits.outbound <= e.outbound
            && (forall i :: |c.edits.outbound| <= i < |e.outbound| ==>
                  e.outbound[i] == SetProps(c.edits.pending)
                  || (e.outbound[i].ApplyPatch? && Sent(c, step, e.outbound[i].event)))
            && (forall key :: key in e.pending ==>
                  || (key in c.edits.pending && e.pending[key] == c.edits.pending[key])
                  || Made(c, step, key, e.pending[key]))
  {
    if !step.Changes? && !step.TimerFires? {
      OthersQueueNothing(c, step);
    }
  }

  /** A request is queued while the session is not writable exactly when the write timer
      fires for edits made before a reopen found the session no longer live. */
  lemma QueuedWhenNotWritable(c: Session, step: Step)
    requires Tidy(c)
    ensures !Writable(c) && |Next(c, step).edits.outbound| > |c.edits.outbound|
        <==> step.TimerFires? && c.edits.pending != map[] && !c.link.live
  {
    if !step.Changes? && !step.TimerFires? {
      OthersQueueNothing(c, step);
    }
  }

  /** That happens: a reopen that finds the session connected but not live keeps the pending
      edits, and the timer then queues them. */
  lemma ReopenKeepsEdits(c: Session)
    requires Tidy(c) && c.work.running == Some(Reopen) && c.edits.pending != map[] && c.shown.mounted
    ensures var lost := Next(c, Finishes(true, Some(Opening(false, true, Connected)), false));
            && !Writable(lost) && lost.edits == c.edits
            && Next(lost, TimerFires).edits.outbound == c.edits.outbound + [SetProps(c.edits.pending)]
  {
  }

  /** Everything queued for the host, and everything pending, came from a local change
      made while the session was live, writable, connected and past its first full update;
      the write timer runs exactly while edits are pending; and a view-only or
      disconnected session holds none. */
  lemma {:induction false} OnlyLocalChangesAreSent(steps: seq<Step>)
    ensures Tidy(Run(STARTED, steps)) && PropsMade(steps, Run(STARTED, steps).edits.pending)
    ensures forall i :: 0 <= i < |Run(STARTED, steps).edits.outbound|
              ==> RequestMade(steps, Run(STARTED, steps).edits.outbound[i])
    decreases |steps|
  {
    if steps != [] {
      var n := |steps| - 1;
      OnlyLocalChangesAreSent(steps[..n]);
      NextTidy(Run(STARTED, steps[..n]), steps[n]);
      NextQueues(Run(STARTED, steps[..n]), steps[n]);
      PropsFurther(steps, Run(STARTED, steps[..n]).edits, Run(STARTED, steps).edits);
    }
  }

  lemma PropsFurther(steps: seq<Step>, e: Edits, e': Edits)
    requires steps != [] && PropsMade(steps[..|steps| - 1], e.pending) && e.outbound <= e'.outbound
    requires forall i :: 0 <= i < |e.outbound| ==> RequestMade(steps[..|steps| - 1], e.outbound[i])
    requires var c, step := Run(STARTED, steps[..|steps| - 1]), steps[|steps| - 1];
             && (forall i :: |e.outbound| <= i < |e'.outbound| ==>
                   e'.outbound[i] == SetProps(e.pending)
                   || (e'.outbound[i].ApplyPatch? && Sent(c, step, e'.outbound[i].event)))
             && (forall key :: key in e'.pending ==>
                   (key in e.pending && e'.pending[key] == e.pending[key]) || Made(c, step, key, e'.pending[key]))
    ensures PropsMade(steps, e'.pending) && forall i :: 0 <= i < |e'.outbound| ==> RequestMade(steps, e'.outbound[i])
  {
    var n := |steps| - 1;
    var before, step := steps[..n], steps[n];
    var c := Run(STARTED, before);
    assert steps == before + [step];
    PropsStay(before, step, e.pending);
    forall key | key in e'.pending ensures MadeIn(steps, key, e'.pending[key]) {
      if !Made(c, step, key, e'.pending[key]) {
        assert MadeIn(before + [step], key, e.pending[key]);
      }
    }
    forall i | 0 <= i < |e'.outbound| ensures RequestMade(steps, e'.outbound[i]) {
      if i < |e.outbound| {
        assert e'.outbound[i] == e.outbound[i];
        RequestStays(before, step, e.outbound[i]);
      }
    }
  }

  // ── Debounced writing refines writing at once ───────────────────────

  /** The host's view: the properties, and what each one-off event found them to be. */
  datatype Replayed = Replayed(props: map<Key, Encoded>, seen: seq<(nat, map<Key, Encoded>)>)

  function ReplayRequest(h: Replayed, r: Request): Replayed {
    match r
    case SetProps(props) => h.(props := h.props + props)
    case ApplyPatch(event) => h.(seen := h.seen + [(event, h.props)])
  }

  function ReplayRequests(h: Replayed, rs: seq<Request>): Replayed
    decreases |rs|
  {
    if rs == [] then h else ReplayRequest(ReplayRequests(h, rs[..|rs| - 1]), rs[|rs| - 1])
  }

  /** Writing each edit the moment it is made. */
  ghost function ReplayStep(h: Replayed, c: Session, step: Step): Replayed {
    if !step.Changes? then h
    else match step.change
      case ModelChanged(model, attr, value, _, _, _) =>
        if value.Some? && Made(c, step, (model, attr), value.value)
        then h.(props := h.props[(model, attr) := value.value]) else h
      case OneOff(event, _, _) =>
        if Sent(c, step, event) then h.(seen := h.seen + [(event, h.props)]) else h
      case Structural => h
  }

  ghost function ReplaySteps(h: Replayed, c: Session, steps: seq<Step>): Replayed
    decreases |steps|
  {
    if steps == [] then h
    else ReplayStep(ReplaySteps(h, c, steps[..|steps| - 1]), Run(c, steps[..|steps| - 1]), steps[|steps| - 1])
  }

  ghost predicate StaysWritable(c: Session, steps: seq<Step>) {
    forall i :: 0 <= i <= |steps| ==> Writable(Run(c, steps[..i])) && !Run(c, steps[..i]).disposed
  }

  lemma {:induction false} ReplayAppend(h: Replayed, rs: seq<Request>, more: seq<Request>)
    ensures ReplayRequests(h, rs + more) == ReplayRequests(ReplayRequests(h, rs), more)
    decreases |more|
  {
    if more == [] {
      assert rs + more == rs;
    } else {
      var n := |more| - 1;
      assert (rs + more)[..|rs| + n] == rs + more[..n];
      ReplayAppend(h, rs, more[..n]);
    }
  }

  /** The host lags by the pending edits, and has shown every event the same properties. */
  predicate Lags(now: Replayed, host: Replayed, pending: map<Key, Encoded>) {
    now.seen == host.seen && now.props == host.props + pending
  }

  lemma ReplayOne(h: Replayed, rs: seq<Request>, r: Request)
    ensures ReplayRequests(h, rs + [r]) == ReplayRequest(ReplayRequests(h, rs), r)
  {
    assert (rs + [r])[..|rs|] == rs;
  }

  lemma FlushLags(now: Replayed, host: Replayed, e: Edits, start: nat)
    requires start <= |e.outbound| && Lags(now, ReplayRequests(host, e.outbound[start..]), e.pending)
    ensures var e' := FlushProps(e);
            start <= |e'.outbound| && e'.pending == map[]
            && Lags(now, ReplayRequests(host, e'.outbound[start..]), map[])
  {
    if e.pending != map[] {
      assert FlushProps(e).outbound[start..] == e.outbound[start..] + [SetProps(e.pending)];
      ReplayOne(host, e.outbound[start..], SetProps(e.pending));
    }
  }

  lemma OneOffLags(now: Replayed, host: Replayed, e: Edits, event: nat, start: nat)
    requires start <= |e.outbound| && Lags(now, ReplayRequests(host, e.outbound[start..]), e.pending)
    ensures var e' := SendOneOff(e, event);
            start <= |e'.outbound| && e'.pending == map[]
            && Lags(now.(seen := now.seen + [(event, now.props)]), ReplayRequests(host, e'.outbound[start..]), map[])
  {
    FlushLags(now, host, e, start);
    var flushed := FlushProps(e);
    assert SendOneOff(e, event).outbound[start..] == flushed.outbound[start..] + [ApplyPatch(event)];
    var h := ReplayRequests(host, flushed.outbound[start..]);
    assert h.props + map[] == h.props;
    ReplayOne(host, flushed.outbound[start..], ApplyPatch(event));
  }

  lemma StepLags(now: Replayed, host: Replayed, c: Session, step: Step, start: nat)
    requires start <= |c.edits.outbound| && Lags(now, ReplayRequests(host, c.edits.outbound[start..]), c.edits.pending)
    requires Tidy(c) && Writable(Next(c, step)) && !Next(c, step).disposed
    ensures var e := Next(c, step).edits;
            && start <= |e.outbound|
            && Lags(ReplayStep(now, c, step), ReplayRequests(host, e.outbound[start..]), e.pending)
  {
    if step.Changes? {
      if Accepts(c, step.change, step.sync) && step.change.OneOff? && step.change.serializable {
        OneOffLags(now, host, c.edits, step.change.event, start);
      }
    } else if step.TimerFires? {
      FlushLags(now, host, c.edits, start);
    } else {
      KeepsPending(c, step);
    }
  }

  /** Nothing but a flush takes pending edits from a session that stays writable. */
  lemma KeepsPending(c: Session, step: Step)
    requires !step.Changes? && !step.TimerFires?
    requires Tidy(c) && Writable(Next(c, step)) && !Next(c, step).disposed
    ensures Next(c, step).edits == c.edits
  {
    match step
    case Begins => BeginKeepsEdits(c);
    case Finishes(ok, reply, mounts) => FinishKeepsEdits(c, ok, reply, mounts);
    case _ =>
  }

  lemma FinishKeepsEdits(c: Session, ok: bool, reply: Option<Opening>, mounts: bool)
    requires Tidy(c) && Writable(Finish(c, ok, reply, mounts))
    ensures Finish(c, ok, reply, mounts).edits == c.edits
  {
  }

  /** On a connection that stays writable, for every sequence of edits, one-off events,
      timer firings and inbound work: replaying the requests shows each one-off event the
      properties it had when made, and leaves the host behind by exactly the pending
      edits; after the last flush, not at all. */
  lemma {:induction false} DebouncingRefinesWriting(c: Session, steps: seq<Step>, host: Replayed)
    requires Tidy(c) && c.edits.pending == map[] && StaysWritable(c, steps)
    ensures var e := Run(c, steps).edits;
            && Tidy(Run(c, steps)) && |c.edits.outbound| <= |e.outbound|
            && Lags(ReplaySteps(host, c, steps), ReplayRequests(host, e.outbound[|c.edits.outbound|..]), e.pending)
    decreases |steps|
  {
    if steps == [] {
      assert c.edits.outbound[|c.edits.outbound|..] == [];
      assert host.props + map[] == host.props;
    } else {
      var n := |steps| - 1;
      forall i | 0 <= i <= n ensures Writable(Run(c, steps[..n][..i])) && !Run(c, steps[..n][..i]).disposed {
        assert steps[..n][..i] == steps[..i];
      }
      DebouncingRefinesWriting(c, steps[..n], host);
      assert steps[..|steps|] == steps;
      NextTidy(Run(c, steps[..n]), steps[n]);
      StepLags(ReplaySteps(host, c, steps[..n]), host, Run(c, steps[..n]), steps[n], |c.edits.outbound|);
    }
  }

  // ── What every step promises ────────────────────────────────────────

  ghost predicate Steady(c: Session) {
    Guarded(c.shown, c.work.running) && Tidy(c)
  }

  /** The epoch does not fall, what is queued stays queued, and a failure is over only once
      a full update has been applied. */
  ghost predicate Advances(c: Session, c': Session) {
    && EpochAtLeast(c'.shown, c.shown.epoch)
    && c.edits.outbound <= c'.edits.outbound
    && (c.shown.failed && !c'.shown.failed ==>
          c'.shown.mounted && !c'.shown.dirty && c'.shown.epoch.Some?
          && c'.shown.deeds == c.shown.deeds + [Applied(Reconciled(c'.shown.epoch.value), true)])
  }

  lemma StepAdvances(c: Session, step: Step)
    requires Steady(c)
    ensures Steady(Next(c, step)) && Advances(c, Next(c, step))
  {
    NextGuards(c, step);
    NextTidy(c, step);
    NextQueues(c, step);
    if c.shown.failed && !Next(c, step).shown.failed {
      RecoveryNeedsFullUpdate(c, step);
    }
  }

  // ── A document after disposal ───────────────────────────────────────

  predicate Opens(running: Option<Task>) {
    running.Some? && (running.value.Open? || running.value.Reopen?)
  }

  lemma AnswerMounts(c: Session)
    requires !c.disposed && Opens(c.work.running)
    ensures Run(Dispose(c), [Finishes(true, None, true)]).shown.mounted
  {
    var steps := [Finishes(true, None, true)];
    assert steps[..0] == [] && Run(Dispose(c), []) == Dispose(c);
    assert Run(Dispose(c), steps) == Next(Dispose(c), steps[0]);
  }

  /** Disposal is not final while an open request is in flight: its answer may still mount
      a document. Otherwise the session never has one again. */
  lemma DisposedMayMount(c: Session)
    requires !c.disposed
    ensures (exists steps :: Run(Dispose(c), steps).shown.mounted) <==> Opens(c.work.running)
  {
    var gone := Dispose(c);
    if Opens(c.work.running) {
      AnswerMounts(c);
    } else {
      forall steps ensures !Run(gone, steps).shown.mounted {
        StaysUnmounted(gone, steps);
      }
    }
  }

  lemma UnmountedStep(c: Session, step: Step)
    requires c.disposed && !c.shown.mounted && !Opens(c.work.running)
    ensures var c' := Next(c, step);
            c'.disposed && !c'.shown.mounted && !Opens(c'.work.running)
  {
  }

  lemma {:induction false} StaysUnmounted(c: Session, steps: seq<Step>)
    requires c.disposed && !c.shown.mounted && !Opens(c.work.running)
    ensures var c' := Run(c, steps);
            c'.disposed && !c'.shown.mounted && !Opens(c'.work.running)
    decreases |steps|
  {
    if steps != [] {
      StaysUnmounted(c, steps[..|steps| - 1]);
      UnmountedStep(Run(c, steps[..|steps| - 1]), steps[|steps| - 1]);
    }
  }

  // ── The controller object ───────────────────────────────────────────

  /** The control half of `BokehSessionController`; each method is one of its steps. */
  class SessionController {
    var mounted: bool
    var status: Status
    var live: bool
    var hostWritable: bool
    var readOnlyShown: Option<bool>
    var epoch: Option<int>
    var dirty: bool
    var disposed: bool
    var refProps: map<Id, set<string>>
    var pendingProps: map<Key, Encoded>
    var writeTimer: bool
    var inbound: seq<Task>
    var running: Option<Task>
    var outbound: seq<Request>
    var reopening: bool
    var opening: bool
    var wasOpened: bool
    ghost var failed: bool
    ghost var deeds: seq<Deed>

    ghost function State(): Session
      reads this
    {
      Session(Shown(mounted, epoch, dirty, failed, deeds), Link(status, live, hostWritable, readOnlyShown),
              Edits(pendingProps, writeTimer, outbound), Work(inbound, running, reopening, opening, wasOpened),
              refProps, disposed)
    }

    ghost predicate Valid()
      reads this
    {
      Steady(State())
    }

    constructor ()
      ensures Valid() && State() == STARTED
    {
      mounted, status, live, hostWritable, readOnlyShown := false, Disconnected, false, true, None;
      epoch, dirty, disposed, refProps := None, false, false, map[];
      pendingProps, writeTimer, outbound := map[], false, [];
      inbound, running, reopening, opening, wasOpened := [Open], None, false, false, false;
      failed, deeds := false, [];
    }

    method ClearLocal()
      modifies this`pendingProps, this`writeTimer
      ensures pendingProps == map[] && !writeTimer
    {
      writeTimer := false;
      pendingProps := map[];
    }

    method ShowStatus(s: Status)
      modifies this`status, this`readOnlyShown, this`pendingProps, this`writeTimer
      ensures State() == SetStatus(old(State()), s)
    {
      status := s;
      if !s.Connected? {
        ClearLocal();
      }
      var readOnly := live && s.Connected? && !hostWritable;
      if readOnlyShown == Some(readOnly) {
        return;
      }
      readOnlyShown := Some(readOnly);
      if readOnly {
        ClearLocal();
      }
    }

    method ReopenSession()
      modifies this`reopening, this`inbound
      ensures State() == old(State()).(work := AskAgain(old(State()).work, disposed))
    {
      if reopening || disposed {
        return;
      }
      reopening := true;
      inbound := inbound + [Reopen];
    }

    /** The `catch` of the inbound queue. */
    method Failed(task: Task)
      modifies this`dirty, this`failed, this`reopening, this`inbound
      modifies this`status, this`readOnlyShown, this`pendingProps, this`writeTimer
      ensures State() == Fails(old(State()), task)
    {
      dirty := true;
      failed := true;
      if IsFull(task) || !mounted {
        ShowStatus(Error);
      } else {
        ReopenSession();
      }
    }

    method OnState(s: Status, writable: Option<bool>, isLive: Option<bool>)
      requires Valid()
      modifies this
      ensures State() == Next(old(State()), Note(s, writable, isLive))
      ensures Valid() && Advances(old(State()), State())
    {
      StepAdvances(State(), Note(s, writable, isLive));
      if disposed {
        return;
      }
      if writable.Some? {
        hostWritable := writable.value;
      }
      ShowStatus(s);
      if !s.Connected? || !wasOpened {
        return;
      }
      if isLive == Some(false) {
        ReopenSession();
      } else if !live && !opening {
        ReopenSession();
      }
    }

    method Arrive(task: Task)
      requires Valid()
      modifies this`inbound
      ensures State() == Next(old(State()), Arrives(task))
      ensures Valid() && Advances(old(State()), State())
      ensures old(inbound) <= inbound
    {
      StepAdvances(State(), Arrives(task));
      if !disposed && FromHost(task) {
        inbound := inbound + [task];
      }
    }

    method BeginNext()
      requires Valid()
      modifies this
      ensures State() == Next(old(State()), Begins)
      ensures Valid() && Advances(old(State()), State())
    {
      StepAdvances(State(), Begins);
      if running.Some? || inbound == [] {
        return;
      }
      var task := inbound[0];
      inbound := inbound[1..];
      if disposed {
        return;
      }
      StartTask(task);
    }

    /** A task up to its first await, unless its guard drops it. */
    method StartTask(task: Task)
      modifies this
      ensures State() == if MayBegin(old(State()).shown, task) then BeginTask(old(State()), task) else old(State())
    {
      match task
      case Open => BeginOpen(task);
      case Reopen => BeginOpen(task);
      case Full(update) => BeginFull(update);
      case Delta(update) =>
        if mounted && epoch == Some(update.epoch) && !dirty {
          refProps := (refProps - update.removed) + update.models;
          running := Some(task);
        }
      case DataEvents =>
        if mounted && epoch.Some? && !dirty {
          deeds := deeds + [Applied(EventsApplied, failed)];
          running := Some(task);
        }
      case ReloadSource => running := Some(task);
    }

    method BeginOpen(task: Task)
      requires task.Open? || task.Reopen?
      modifies this`opening, this`reopening, this`running
      ensures State() == BeginTask(old(State()), task)
    {
      if task.Reopen? {
        reopening := false;
      }
      opening := true;
      running := Some(task);
    }

    /** `applyFull` up to its data request. */
    method BeginFull(update: Update)
      modifies this`refProps, this`epoch, this`running, this`deeds
      ensures State() == if MayBegin(old(State()).shown, Full(update)) then BeginTask(old(State()), Full(update))
                         else old(State())
    {
      if epoch.Some? && update.epoch < epoch.value {
        return;
      }
      refProps := (map[] - update.removed) + update.models;
      if mounted && update.canSwitch && !dirty && epoch.Some? {
        epoch := Some(update.epoch);
        deeds := deeds + [Applied(Switched, failed)];
        return;
      }
      running := Some(Full(update));
    }

    method FinishRunning(ok: bool, reply: Option<Opening>, mounts: bool)
      requires Valid()
      modifies this
      ensures State() == Next(old(State()), Finishes(ok, reply, mounts))
      ensures Valid() && Advances(old(State()), State())
    {
      EndRunning(ok, reply, mounts);
      StepAdvances(old(State()), Finishes(ok, reply, mounts));
    }

    method EndRunning(ok: bool, reply: Option<Opening>, mounts: bool)
      modifies this
      ensures State() == Finish(old(State()), ok, reply, mounts)
    {
      if running.None? {
        return;
      }
      var task := running.value;
      running := None;
      EndTask(task, ok, reply, mounts);
    }

    method EndTask(task: Task, ok: bool, reply: Option<Opening>, mounts: bool)
      modifies this
      ensures State() == if task.Open? || task.Reopen? then FinishOpen(old(State()), task, ok, reply, mounts)
                         else if old(disposed) then old(State())
                         else FinishTask(old(State()), task, ok)
    {
      if task.Open? || task.Reopen? {
        FinishOpening(task, ok, reply, mounts);
      } else if !disposed {
        FinishOther(task, ok);
      }
    }

    method TakeReply(reply: Option<Opening>)
      modifies this`opening, this`wasOpened, this`live, this`hostWritable
      modifies this`status, this`readOnlyShown, this`pendingProps, this`writeTimer
      ensures State() == Answered(old(State()), reply)
    {
      opening := false;
      wasOpened := true;
      live := reply.Some? && reply.value.live;
      hostWritable := reply.None? || reply.value.writable;
      ghost var link := old(State()).link.(live := live, hostWritable := hostWritable);
      assert State() == old(State()).(work := old(State()).work.(opening := false, wasOpened := true), link := link);
      ShowStatus(if reply.Some? then reply.value.status else Disconnected);
    }

    /** `open` from the host's reply on. */
    method FinishOpening(task: Task, ok: bool, reply: Option<Opening>, mounts: bool)
      modifies this
      ensures State() == FinishOpen(old(State()), task, ok, reply, mounts)
    {
      TakeReply(reply);
      if mounted || (ok && !mounts) {
        return;
      }
      if ok {
        deeds := deeds + [Applied(Mounted, failed)];
        mounted := true;
      } else if !disposed {
        Failed(task);
      }
    }

    /** The end of `applyFull`. */
    method Complete(updated: int)
      modifies this`mounted, this`epoch, this`dirty, this`failed
      ensures State() == old(State()).(shown := old(State()).shown.(mounted := true, epoch := Some(updated),
                                                                    dirty := false, failed := false))
    {
      mounted := true;
      epoch := Some(updated);
      dirty := false;
      failed := false;
    }

    method FinishFull(update: Update, ok: bool)
      modifies this`mounted, this`epoch, this`dirty, this`failed, this`deeds, this`reopening, this`inbound
      modifies this`status, this`readOnlyShown, this`pendingProps, this`writeTimer
      ensures State() == FinishTask(old(State()), Full(update), ok)
    {
      deeds := deeds + [Applied(Reconciled(update.epoch), failed)];
      if ok {
        Complete(update.epoch);
      } else {
        Failed(Full(update));
      }
    }

    /** `applyFull`, `applyDelta`, `applyEvents` or `reloadSource` from the loaded data on. */
    method FinishOther(task: Task, ok: bool)
      requires !task.Open? && !task.Reopen?
      modifies this
      ensures State() == FinishTask(old(State()), task, ok)
    {
      match task
      case Full(update) => FinishFull(update, ok);
      case Delta(_) =>
        deeds := deeds + [Applied(DeltaApplied, failed)];
        if !ok {
          Failed(task);
        }
      case DataEvents =>
        deeds := deeds + [Applied(EventsApplied, failed)];
        if !ok {
          Failed(task);
        }
      case ReloadSource =>
        if !ok {
          Failed(task);
        } else if mounted {
          deeds := deeds + [Applied(SourceReloaded, failed)];
        }
    }

    method Flush()
      modifies this`writeTimer, this`pendingProps, this`outbound
      ensures State() == old(State()).(edits := FlushProps(old(State()).edits))
    {
      writeTimer := false;
      if pendingProps == map[] {
        return;
      }
      outbound := outbound + [SetProps(pendingProps)];
      pendingProps := map[];
    }

    method OnDocumentChange(e: Change, sync: bool)
      requires Valid()
      modifies this
      ensures State() == Next(old(State()), Changes(e, sync))
      ensures Valid() && Advances(old(State()), State())
      ensures !old(Writable(State())) ==> State() == old(State())
      ensures outbound != old(outbound) ==> pendingProps == map[] && !writeTimer
    {
      StepAdvances(State(), Changes(e, sync));
      if disposed || !mounted || !ShouldSync(e, sync) {
        return;
      }
      if !(live && hostWritable && status.Connected? && epoch.Some?) {
        return;
      }
      match e
      case ModelChanged(model, attr, value, _, _, _) =>
        if Recordable(refProps, e) {
          pendingProps := pendingProps[(model, attr) := value.value];
          writeTimer := true;
        }
      case OneOff(event, _, serializable) =>
        if serializable {
          Flush();
          outbound := outbound + [ApplyPatch(event)];
        }
      case Structural =>
    }

    method OnWriteTimer()
      requires Valid()
      modifies this
      ensures State() == Next(old(State()), TimerFires)
      ensures Valid() && Advances(old(State()), State())
      ensures pendingProps == map[] && !writeTimer
    {
      StepAdvances(State(), TimerFires);
      if writeTimer {
        Flush();
      }
    }

    method OnWriteRejected()
      requires Valid()
      modifies this
      ensures State() == Next(old(State()), WriteRejected)
      ensures Valid() && Advances(old(State()), State())
    {
      StepAdvances(State(), WriteRejected);
      dirty := true;
      ReopenSession();
    }

    method OnEventRefused()
      requires Valid()
      modifies this
      ensures State() == Next(old(State()), EventRefused)
      ensures Valid() && Advances(old(State()), State())
    {
      StepAdvances(State(), EventRefused);
      inbound := inbound + [ReloadSource];
    }

    method DisposeSession()
      requires Valid()
      modifies this
      ensures State() == Next(old(State()), Disposes)
      ensures Valid() && Advances(old(State()), State())
      ensures disposed && !writeTimer && pendingProps == map[] && outbound == old(outbound)
    {
      StepAdvances(State(), Disposes);
      if disposed {
        return;
      }
      disposed := true;
      ClearLocal();
      mounted := false;
    }
  }
}
