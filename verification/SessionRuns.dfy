/** Runs of a session from its start in which the code does less than its comments say. */
module SessionRuns {
  import opened Options
  import opened SessionControl

  lemma RunNext(c: Session, steps: seq<Step>, step: Step)
    ensures Run(c, steps + [step]) == Next(Run(c, steps), step)
  {
    assert (steps + [step])[..|steps|] == steps;
  }

  lemma RunTwo(c: Session, a: Step, b: Step)
    ensures Run(c, [a, b]) == Next(Next(c, a), b)
  {
    RunNext(c, [], a);
    RunNext(c, [a], b);
    assert [] + [a] == [a] && [a] + [b] == [a, b];
  }

  lemma RunThree(c: Session, a: Step, b: Step, d: Step)
    ensures Run(c, [a, b, d]) == Next(Next(Next(c, a), b), d)
  {
    RunTwo(c, a, b);
    RunNext(c, [a, b], d);
    assert [a, b] + [d] == [a, b, d];
  }

  /** A session disposed while its first open is in flight mounts all the same. */
  lemma DisposedOpenMounts()
    ensures var c := Run(STARTED, [Begins, Disposes, Finishes(true, None, true)]);
            c.disposed && c.shown.mounted
  {
    RunThree(STARTED, Begins, Disposes, Finishes(true, None, true));
    assert Next(STARTED, Begins).work.running == Some(Open);
  }

  // ── An edit written after the session is no longer live ─────────────

  const OPENS := [Begins, Finishes(true, Some(Opening(true, true, Connected)), false)]
  const FIRST_UPDATE := Update(0, false, map["m" := {}], {})
  const MOUNTS := [Arrives(Full(FIRST_UPDATE)), Begins, Finishes(true, None, false)]
  const EDIT := Changes(ModelChanged("m", "x", Some("1"), true, true, false), true)
  /** An edit, then the host says it is not live any more, and the session asks it again. */
  const EDITS_AND_ASKS := [EDIT, Note(Connected, None, Some(false)), Begins]
  const LOSES_LIVE := [Finishes(true, Some(Opening(false, true, Connected)), false), TimerFires]

  ghost predicate Idle(c: Session) {
    && c.link == Link(Connected, true, true, Some(false)) && c.work == Work([], None, false, false, true)
    && c.edits == STARTED.edits && !c.disposed
  }

  lemma AfterOpening()
    ensures Idle(Run(STARTED, OPENS)) && Run(STARTED, OPENS).shown == STARTED.shown
  {
    RunTwo(STARTED, OPENS[0], OPENS[1]);
  }

  lemma AfterMounting(c: Session)
    requires Idle(c) && c.shown == STARTED.shown
    ensures var d := Run(c, MOUNTS);
            Idle(d) && d.shown.mounted && d.shown.epoch == Some(0) && d.refProps == map["m" := {}]
  {
    RunThree(c, MOUNTS[0], MOUNTS[1], MOUNTS[2]);
    assert [] + [Full(FIRST_UPDATE)] == [Full(FIRST_UPDATE)];
    assert [Full(FIRST_UPDATE)][1..] == [];
  }

  lemma EditPends(c: Session)
    requires Idle(c) && c.shown.mounted && c.shown.epoch == Some(0) && c.refProps == map["m" := {}]
    ensures Next(c, EDIT) == c.(edits := Edits(map[("m", "x") := "1"], true, []))
  {
  }

  lemma AsksAgain(c: Session)
    requires c.link == Link(Connected, true, true, Some(false)) && !c.disposed
    requires c.work == Work([], None, false, false, true)
    ensures var d := Next(Next(c, Note(Connected, None, Some(false))), Begins);
            && d.shown == c.shown && d.link == c.link && d.edits == c.edits
            && d.work.running == Some(Reopen) && !d.disposed
  {
    assert [] + [Reopen] == [Reopen];
    assert [Reopen][1..] == [];
  }

  lemma AfterAsking(c: Session)
    requires Idle(c) && c.shown.mounted && c.shown.epoch == Some(0) && c.refProps == map["m" := {}]
    ensures var d := Run(c, EDITS_AND_ASKS);
            && d.shown.mounted && d.work.running == Some(Reopen)
            && d.edits == Edits(map[("m", "x") := "1"], true, []) && Tidy(d)
  {
    RunThree(c, EDITS_AND_ASKS[0], EDITS_AND_ASKS[1], EDITS_AND_ASKS[2]);
    EditPends(c);
    AsksAgain(Next(c, EDIT));
    assert ("m", "x") in Run(c, EDITS_AND_ASKS).edits.pending;
  }

  lemma AfterLosingLive(c: Session)
    requires Tidy(c) && c.work.running == Some(Reopen) && c.shown.mounted
    requires c.edits == Edits(map[("m", "x") := "1"], true, [])
    ensures var d := Run(c, LOSES_LIVE); !Writable(d) && d.edits.outbound == [SetProps(map[("m", "x") := "1"])]
  {
    RunTwo(c, LOSES_LIVE[0], LOSES_LIVE[1]);
    assert ("m", "x") in c.edits.pending;
    ReopenKeepsEdits(c);
    assert [] + [SetProps(c.edits.pending)] == [SetProps(c.edits.pending)];
  }

  lemma RunInFour(c: Session, first: seq<Step>, second: seq<Step>, third: seq<Step>, fourth: seq<Step>)
    ensures Run(c, first + second + third + fourth) == Run(Run(Run(Run(c, first), second), third), fourth)
  {
    RunInTwo(c, first + second + third, fourth);
    RunInTwo(c, first + second, third);
    RunInTwo(c, first, second);
  }

  /** A run from the start: an edit made while the session was live is queued for the host
      when the session no longer is. */
  lemma WriteAfterLosingLive()
    ensures var c := Run(STARTED, OPENS + MOUNTS + EDITS_AND_ASKS + LOSES_LIVE);
            !Writable(c) && c.edits.outbound == [SetProps(map[("m", "x") := "1"])]
  {
    RunInFour(STARTED, OPENS, MOUNTS, EDITS_AND_ASKS, LOSES_LIVE);
    AfterOpening();
    AfterMounting(Run(STARTED, OPENS));
    AfterAsking(Run(Run(STARTED, OPENS), MOUNTS));
    AfterLosingLive(Run(Run(Run(STARTED, OPENS), MOUNTS), EDITS_AND_ASKS));
  }
}
