/** What a session does, said of the steps of its run: what follows a failed step, which
    updates are tracked, which changes are written, and what is taken from the queue. */
module SessionTraces {
  import opened Options
  import opened SessionControl

  function At(steps: seq<Step>, i: nat): Session
    requires i <= |steps|
  {
    Run(STARTED, steps[..i])
  }

  lemma AtSnoc(steps: seq<Step>, step: Step)
    ensures forall i :: 0 <= i <= |steps| ==> At(steps + [step], i) == At(steps, i)
    ensures Run(STARTED, steps + [step]) == Next(Run(STARTED, steps), step)
    ensures At(steps, |steps|) == Run(STARTED, steps)
  {
    forall i | 0 <= i <= |steps| ensures At(steps + [step], i) == At(steps, i) {
      assert (steps + [step])[..i] == steps[..i];
    }
    assert (steps + [step])[..|steps|] == steps && steps[..|steps|] == steps;
  }

  // ── A failed step ───────────────────────────────────────────────────

  /** The running task throws. An open has nothing to throw for once a document is mounted. */
  ghost predicate Throws(c: Session, step: Step) {
    && step.Finishes? && !step.ok && c.work.running.Some? && !c.disposed
    && (Opens(c.work.running) ==> !c.shown.mounted)
  }

  /** A full update is applied. */
  ghost predicate Updates(c: Session, step: Step) {
    step.Finishes? && step.ok && c.work.running.Some? && c.work.running.value.Full? && !c.disposed
  }

  /** A reopen that was asked for is in the queue. */
  ghost predicate Asked(c: Session) {
    c.work.reopening && !c.disposed ==> Reopen in c.work.inbound
  }

  lemma BeginAsked(c: Session)
    requires Asked(c)
    ensures Asked(Begin(c))
  {
    if c.work.running.None? && c.work.inbound != [] {
      var task := c.work.inbound[0];
      assert c.work.inbound == [task] + c.work.inbound[1..];
    }
  }

  lemma NextAsked(c: Session, step: Step)
    requires Asked(c)
    ensures Asked(Next(c, step))
  {
    match step
    case Begins => BeginAsked(c);
    case _ =>
  }

  lemma {:induction false} RunAsked(steps: seq<Step>)
    ensures Asked(Run(STARTED, steps))
    decreases |steps|
  {
    if steps != [] {
      RunAsked(steps[..|steps| - 1]);
      NextAsked(Run(STARTED, steps[..|steps| - 1]), steps[|steps| - 1]);
    }
  }

  /** What the failure of a task comes to. */
  ghost predicate Marked(c: Session, task: Task, c': Session) {
    && c'.shown.dirty && c'.shown.failed && c'.work.running.None? && !c'.disposed
    && (if c.shown.mounted && !IsFull(task) then Reopen in c'.work.inbound
        else c'.link.status.Error? && c'.edits.pending == map[])
  }

  lemma FailMarks(c: Session, task: Task)
    requires Asked(c) && !c.disposed && c.work.running.None?
    ensures Marked(c, task, Fails(c, task))
  {
    if !c.work.reopening {
      assert Reopen in c.work.inbound + [Reopen];
    }
  }

  /** A step that throws marks the document out of step. If a document is mounted and
      it was no full update that threw, the host is asked again; otherwise the error is shown. */
  lemma FailureIsMarked(c: Session, step: Step)
    requires Throws(c, step) && Asked(c)
    ensures Marked(c, c.work.running.value, Next(c, step))
  {
    var task, idle := c.work.running.value, c.(work := c.work.(running := None));
    match task
    case Full(update) => FailMarks(idle.(shown := Log(c.shown, Reconciled(update.epoch))), task);
    case Delta(_) => FailMarks(idle.(shown := Log(c.shown, DeltaApplied)), task);
    case DataEvents => FailMarks(idle.(shown := Log(c.shown, EventsApplied)), task);
    case ReloadSource => FailMarks(idle, task);
    case _ => FailMarks(Answered(idle, step.reply), task);
  }

  /** A full update that is applied ends with its document mounted, at its epoch, in step. */
  lemma UpdateRecovers(c: Session, step: Step)
    requires Updates(c, step)
    ensures var s := Next(c, step).shown;
            s.mounted && s.epoch == Some(c.work.running.value.update.epoch) && !s.dirty && !s.failed
  {
  }

  lemma BeginKeepsFailed(c: Session)
    ensures Begin(c).shown.failed == c.shown.failed && (c.shown.dirty ==> Begin(c).shown.dirty)
    ensures c.shown.dirty ==> Begin(c).shown.epoch == c.shown.epoch
  {
  }

  /** The flag rises with a step that throws and falls with a full update that is applied. */
  lemma FlagMoves(c: Session, step: Step)
    requires Asked(c)
    ensures Next(c, step).shown.failed <==> Throws(c, step) || (c.shown.failed && !Updates(c, step))
  {
    if Throws(c, step) {
      FailureIsMarked(c, step);
    } else if step.Begins? {
      BeginKeepsFailed(c);
    }
  }

  ghost predicate FailedSince(steps: seq<Step>, i: nat)
    requires i < |steps|
  {
    Throws(At(steps, i), steps[i]) && forall j :: i < j < |steps| ==> !Updates(At(steps, j), steps[j])
  }

  /** Some step has thrown and no full update was applied since. */
  ghost predicate OutOfStep(steps: seq<Step>) {
    exists i :: 0 <= i < |steps| && FailedSince(steps, i)
  }

  lemma FailedSinceSnoc(steps: seq<Step>, step: Step, i: nat)
    requires i < |steps|
    ensures FailedSince(steps + [step], i) <==> FailedSince(steps, i) && !Updates(Run(STARTED, steps), step)
  {
    var all, n := steps + [step], |steps|;
    AtSnoc(steps, step);
    assert all[n] == step && At(all, n) == Run(STARTED, steps);
    if FailedSince(all, i) {
      assert !Updates(At(all, n), all[n]);
      forall j | i < j < n ensures !Updates(At(steps, j), steps[j]) {
        assert !Updates(At(all, j), all[j]);
      }
    }
  }

  lemma OutOfStepSnoc(steps: seq<Step>, step: Step)
    ensures var c := Run(STARTED, steps);
            OutOfStep(steps + [step]) <==> Throws(c, step) || (OutOfStep(steps) && !Updates(c, step))
  {
    var all, n := steps + [step], |steps|;
    AtSnoc(steps, step);
    assert FailedSince(all, n) <==> Throws(Run(STARTED, steps), step);
    forall i | 0 <= i < n
      ensures FailedSince(all, i) <==> FailedSince(steps, i) && !Updates(Run(STARTED, steps), step)
    {
      FailedSinceSnoc(steps, step, i);
    }
  }

  lemma {:induction false} FlagIsTrace(steps: seq<Step>)
    ensures Run(STARTED, steps).shown.failed <==> OutOfStep(steps)
    decreases |steps|
  {
    if steps != [] {
      var n := |steps| - 1;
      assert steps == steps[..n] + [steps[n]];
      FlagIsTrace(steps[..n]);
      RunAsked(steps[..n]);
      FlagMoves(Run(STARTED, steps[..n]), steps[n]);
      OutOfStepSnoc(steps[..n], steps[n]);
    }
  }

  ghost predicate Incremental(running: Option<Task>) {
    running.Some? && (running.value.Delta? || running.value.DataEvents?)
  }

  /** In every run, from a step that throws until a full update is applied: the document is
      marked out of step, no delta and no data events are being applied or begin, and the
      epoch does not change. The epoch never falls. */
  lemma FailuresAreFenced(steps: seq<Step>, step: Step)
    ensures var c, c' := Run(STARTED, steps), Run(STARTED, steps + [step]);
            && EpochAtLeast(c'.shown, c.shown.epoch)
            && (OutOfStep(steps) ==> c.shown.dirty && !Incremental(c.work.running))
            && (OutOfStep(steps) && OutOfStep(steps + [step]) ==>
                  c'.shown.epoch == c.shown.epoch && c'.shown.dirty && !Incremental(c'.work.running))
  {
    var c := Run(STARTED, steps);
    AtSnoc(steps, step);
    RunGuards(STARTED, steps);
    NextGuards(c, step);
    FlagIsTrace(steps);
    FlagIsTrace(steps + [step]);
    if OutOfStep(steps) && OutOfStep(steps + [step]) {
      EpochStays(c, step);
    }
  }

  lemma EpochStays(c: Session, step: Step)
    requires c.shown.failed && c.shown.dirty && Next(c, step).shown.failed && Guarded(c.shown, c.work.running)
    ensures Next(c, step).shown.epoch == c.shown.epoch
  {
    match step
    case Begins => BeginKeepsFailed(c);
    case Finishes(ok, reply, mounts) => FinishKeepsEpoch(c, ok, reply, mounts);
    case _ =>
  }

  lemma FinishKeepsEpoch(c: Session, ok: bool, reply: Option<Opening>, mounts: bool)
    ensures var s := Finish(c, ok, reply, mounts).shown; s.epoch == c.shown.epoch || !s.failed
  {
  }

  /** The document is marked out of step by a step that throws or a write the host rejects,
      and stays so until a full update is applied. */
  lemma DirtyMoves(c: Session, step: Step)
    requires Asked(c)
    ensures Next(c, step).shown.dirty
        <==> Throws(c, step) || step.WriteRejected? || (c.shown.dirty && !Updates(c, step))
  {
    if Throws(c, step) {
      FailureIsMarked(c, step);
    } else if step.Begins? {
      BeginKeepsDirty(c);
    }
  }

  lemma BeginKeepsDirty(c: Session)
    ensures Begin(c).shown.dirty == c.shown.dirty
  {
  }

  // ── Taking work from the queue ──────────────────────────────────────

  ghost predicate Ready(c: Session, step: Step) {
    step.Begins? && c.work.running.None? && c.work.inbound != [] && !c.disposed
  }

  /** An update that only moves the epoch: the document is the same. */
  ghost predicate Switches(c: Session, update: Update) {
    c.shown.mounted && c.shown.epoch.Some? && c.shown.epoch.value <= update.epoch && update.canSwitch && !c.shown.dirty
  }

  /** The work goes on past its first request to the host. */
  ghost predicate GoesOn(c: Session, task: Task) {
    match task
    case Full(update) => !(c.shown.epoch.Some? && update.epoch < c.shown.epoch.value) && !Switches(c, update)
    case Delta(update) => c.shown.mounted && c.shown.epoch == Some(update.epoch) && !c.shown.dirty
    case DataEvents => c.shown.mounted && c.shown.epoch.Some? && !c.shown.dirty
    case _ => true
  }

  /** Work is taken in the order it arrived. Stale full updates, deltas of another epoch, and
      increments while the document is missing or out of step are dropped, all else is begun. */
  lemma OldestIsTaken(c: Session, step: Step)
    requires Ready(c, step)
    ensures var task, c' := c.work.inbound[0], Next(c, step);
            && c'.work.inbound == c.work.inbound[1..]
            && c'.work.running == (if GoesOn(c, task) then Some(task) else None)
            && c'.shown.epoch
               == (if task.Full? && Switches(c, task.update) then Some(task.update.epoch) else c.shown.epoch)
            && c'.work.opening == (Opens(Some(task)) || c.work.opening)
            && c'.work.reopening == (c.work.reopening && !task.Reopen?)
            && c'.shown.mounted == c.shown.mounted && c'.link == c.link && c'.edits == c.edits
  {
  }

  /** What a step adds goes to the end of the queue; only a beginning takes from it. */
  lemma QueueKeepsOrder(c: Session, step: Step)
    requires !step.Begins?
    ensures var added := Next(c, step).work.inbound;
            && c.work.inbound <= added
            && (step.Arrives? && !c.disposed && (step.task.Full? || step.task.Delta? || step.task.DataEvents?)
                ==> added == c.work.inbound + [step.task])
            && (step.EventRefused? ==> added == c.work.inbound + [ReloadSource])
            && (!step.Arrives? && !step.EventRefused? ==> added == c.work.inbound || added == c.work.inbound + [Reopen])
  {
  }

  /** A session told it is connected asks the host again when the host no longer follows it,
      or when it is not live and no open is under way; otherwise it does not. */
  lemma NoteAsks(c: Session, step: Step)
    requires step.Note? && !c.disposed && Asked(c)
    ensures var asks := step.status.Connected? && c.work.wasOpened
                        && (step.live == Some(false) || (!c.link.live && !c.work.opening));
            var c' := Next(c, step);
            && (asks ==> Reopen in c'.work.inbound) && (!asks ==> c'.work == c.work)
            && c'.link.status == step.status && c'.link.live == c.link.live && c'.shown == c.shown
            && c'.link.hostWritable == (if step.writable.Some? then step.writable.value else c.link.hostWritable)
  {
  }

  /** An open that comes back decides whether the session is live and writable; what is pending
      stays exactly if it is connected and not view-only. */
  lemma OpenDecides(c: Session, step: Step)
    requires step.Finishes? && Opens(c.work.running) && !Throws(c, step) && Tidy(c) && !c.disposed
    ensures var c' := Next(c, step);
            && c'.link.live == (step.reply.Some? && step.reply.value.live)
            && c'.link.hostWritable == (step.reply.None? || step.reply.value.writable)
            && c'.link.status == (if step.reply.Some? then step.reply.value.status else Disconnected)
            && !c'.work.opening && c'.work.wasOpened && c'.work.running.None?
            && c'.shown.mounted == (c.shown.mounted || step.mounts)
            && c'.edits.pending == if c'.link.status.Connected? && (c'.link.live ==> c'.link.hostWritable)
                                   then c.edits.pending else map[]
  {
  }

  lemma NoteDrops(c: Session, step: Step)
    requires step.Note? && Tidy(c) && !c.disposed
    ensures var c' := Next(c, step);
            c'.edits.pending == if c'.link.status.Connected? && (c'.link.live ==> c'.link.hostWritable)
                                then c.edits.pending else map[]
  {
  }

  // ── Which properties are references ─────────────────────────────────

  /** The update whose models the step begins to track. */
  ghost function Tracks(c: Session, step: Step): Option<Task> {
    if !Ready(c, step) then None
    else match c.work.inbound[0]
      case Full(update) =>
        if c.shown.epoch.Some? && update.epoch < c.shown.epoch.value then None else Some(c.work.inbound[0])
      case Delta(update) => if GoesOn(c, c.work.inbound[0]) then Some(c.work.inbound[0]) else None
      case _ => None
  }

  ghost predicate KeepsModel(task: Task, m: Id)
    requires task.Full? || task.Delta?
  {
    task.Delta? && m !in task.update.models && m !in task.update.removed
  }

  lemma RefPropsMove(c: Session, step: Step, m: Id)
    ensures var c', task := Next(c, step), Tracks(c, step);
            Look(c'.refProps, m)
            == if task.None? then Look(c.refProps, m)
               else if m in task.value.update.models then Some(task.value.update.models[m])
               else if KeepsModel(task.value, m) then Look(c.refProps, m) else None
  {
    if step.Finishes? {
      FinishKeepsRefProps(c, step.ok, step.reply, step.mounts);
    }
  }

  lemma FinishKeepsRefProps(c: Session, ok: bool, reply: Option<Opening>, mounts: bool)
    ensures Finish(c, ok, reply, mounts).refProps == c.refProps
  {
  }

  function Look(refProps: map<Id, set<string>>, m: Id): Option<set<string>> {
    if m in refProps then Some(refProps[m]) else None
  }

  ghost predicate StatedSince(steps: seq<Step>, i: nat, m: Id, props: set<string>)
    requires i < |steps|
  {
    && Tracks(At(steps, i), steps[i]).Some?
    && (var u := Tracks(At(steps, i), steps[i]).value.update; m in u.models && u.models[m] == props)
    && forall j :: i < j < |steps| ==> Kept(At(steps, j), steps[j], m)
  }

  ghost predicate Kept(c: Session, step: Step, m: Id) {
    Tracks(c, step).Some? ==> KeepsModel(Tracks(c, step).value, m)
  }

  lemma StatedSnoc(steps: seq<Step>, step: Step, i: nat, m: Id, props: set<string>)
    requires i < |steps|
    ensures StatedSince(steps + [step], i, m, props)
        <==> StatedSince(steps, i, m, props) && Kept(Run(STARTED, steps), step, m)
  {
    var all, n := steps + [step], |steps|;
    AtSnoc(steps, step);
    assert all[n] == step && At(all, n) == Run(STARTED, steps);
    if StatedSince(all, i, m, props) {
      assert Kept(At(all, n), all[n], m);
      forall j | i < j < n ensures Kept(At(steps, j), steps[j], m) {
        assert Kept(At(all, j), all[j], m);
      }
    }
  }

  ghost predicate Stated(steps: seq<Step>, m: Id, props: set<string>) {
    exists i :: 0 <= i < |steps| && StatedSince(steps, i, m, props)
  }

  /** In every run the properties a model is known to hold references in are those of the last
      update that named the model, if no full update without it and no removal came since. */
  lemma {:induction false} RefPropsAreStated(steps: seq<Step>, m: Id, props: set<string>)
    ensures Look(Run(STARTED, steps).refProps, m) == Some(props) <==> Stated(steps, m, props)
    decreases |steps|
  {
    if steps != [] {
      var n := |steps| - 1;
      var front, step, c := steps[..n], steps[n], Run(STARTED, steps[..n]);
      assert steps == front + [step];
      RefPropsAreStated(front, m, props);
      RefPropsMove(c, step, m);
      AtSnoc(front, step);
      StatedFurther(front, step, m, props);
    }
  }

  lemma StatedFurther(steps: seq<Step>, step: Step, m: Id, props: set<string>)
    ensures var c := Run(STARTED, steps);
            Stated(steps + [step], m, props)
            <==> (Stated(steps, m, props) && Kept(c, step, m))
                 || (Tracks(c, step).Some? && m in Tracks(c, step).value.update.models
                     && Tracks(c, step).value.update.models[m] == props)
  {
    var all, n := steps + [step], |steps|;
    AtSnoc(steps, step);
    assert all[n] == step && At(all, n) == Run(STARTED, steps);
    forall i | 0 <= i < n
      ensures StatedSince(all, i, m, props) <==> StatedSince(steps, i, m, props) && Kept(Run(STARTED, steps), step, m)
    {
      StatedSnoc(steps, step, i, m, props);
    }
    if Tracks(Run(STARTED, steps), step).Some? && m in Tracks(Run(STARTED, steps), step).value.update.models
       && Tracks(Run(STARTED, steps), step).value.update.models[m] == props {
      assert StatedSince(all, n, m, props);
    }
  }

  // ── Local changes ───────────────────────────────────────────────────

  /** Every change that may be written is pending right after it, and the timer runs. */
  lemma MadeIsPending(c: Session, step: Step, key: Key, value: Encoded)
    requires Made(c, step, key, value)
    ensures Next(c, step) == c.(edits := c.edits.(pending := c.edits.pending[key := value], timer := true))
  {
  }

  /** Every event that may be sent is queued at once, after what was pending. */
  lemma SentIsQueued(c: Session, step: Step, event: nat)
    requires Sent(c, step, event)
    ensures var e := Next(c, step).edits;
            && e.pending == map[] && !e.timer
            && e.outbound == c.edits.outbound + (if c.edits.pending == map[] then [] else [SetProps(c.edits.pending)])
                             + [ApplyPatch(event)]
  {
  }

  /** No other change does anything. */
  lemma OtherChangesDoNothing(c: Session, step: Step)
    requires step.Changes?
    requires forall key, value :: !Made(c, step, key, value)
    requires forall event :: !Sent(c, step, event)
    ensures Next(c, step) == c
  {
    match step.change
    case ModelChanged(model, attr, value, _, _, _) =>
      if value.Some? {
        assert !Made(c, step, (model, attr), value.value);
      }
    case OneOff(event, _, _) => assert !Sent(c, step, event);
    case Structural =>
  }

  /** When the timer fires, everything pending is queued in one write. */
  lemma TimerWrites(c: Session)
    requires Tidy(c)
    ensures var e := Next(c, TimerFires).edits;
            && e.pending == map[] && !e.timer
            && e.outbound == c.edits.outbound + if c.edits.pending == map[] then [] else [SetProps(c.edits.pending)]
  {
  }
}
