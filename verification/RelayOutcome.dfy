/** What the browser is sent at each event, said of the frames the daemon's bytes hold. */
module RelayOutcome {
  import opened Options
  import opened Framing
  import opened FrameOutcome
  import opened RelayConnection

  function Messages(frames: seq<seq<byte>>): seq<Message> {
    seq(|frames|, i requires 0 <= i < |frames| => Binary(frames[i]))
  }

  /** What ends a conversation: the daemon's error, if there was one, and the farewell. */
  function Farewell(daemonError: Option<string>): seq<Message> {
    (if daemonError.Some? then [Unavailable(daemonError.value)] else []) + [Disconnected]
  }

  /** The bytes at hand are some frames and a part that starts with no complete one. */
  ghost predicate Holds(buffer: seq<byte>, frames: seq<seq<byte>>, part: seq<byte>) {
    AllInLimit(frames) && buffer == EncodeEach(frames) + part && !ShiftFrame(part).Complete?
  }

  // ── The handler's calls ─────────────────────────────────────────────

  lemma {:induction false} HandlerMessages(frames: seq<seq<byte>>)
    ensures Binaries(Served([], frames)) == Messages(frames)
    decreases |frames|
  {
    if frames != [] {
      var n := |frames| - 1;
      HandlerMessages(frames[..n]);
      assert Served([], frames)[..n] == Served([], frames[..n]);
    }
  }

  /** Forwarding what a drain hands to the handler. */
  lemma DrainForwards(r: Relay, s: Frames, frames: seq<seq<byte>>, part: seq<byte>)
    requires s.handler && s.waiters == [] && Holds(s.buffer, frames, part) && s.out == r.frames.out
    ensures var (s', threw) := Drain(s);
            && |r.frames.out| <= |s'.out|
            && Forward(r, s').sent == (if r.wsOpen then r.sent + Messages(frames) else r.sent)
            && (threw <==> ShiftFrame(part).TooLarge?) && s'.buffer == part
  {
    HandlerServed(s, frames, part);
    HandlerMessages(frames);
    assert (s.out + Served([], frames))[|s.out|..] == Served([], frames);
  }

  lemma HandlerServed(s: Frames, frames: seq<seq<byte>>, part: seq<byte>)
    requires s.handler && s.waiters == [] && Holds(s.buffer, frames, part)
    ensures var (s', threw) := Drain(s);
            && s'.out == s.out + Served([], frames) && s'.buffer == part
            && (threw <==> ShiftFrame(part).TooLarge?)
  {
    DrainServes(s, frames, part);
    assert frames[..|frames|] == frames && frames[|frames|..] == [];
    assert EncodeEach([]) + part == part;
  }

  // ── One event at a time ─────────────────────────────────────────────

  /** While forwarding, every complete frame is sent the moment its last byte arrives; an
      oversized one ends the connection. */
  lemma DataSends(r: Relay, chunk: seq<byte>, received: seq<byte>, frames: seq<seq<byte>>, part: seq<byte>)
    requires InStep(r, received) && r.phase.Forwarding? && !r.destroyed && r.wsOpen
    requires Holds(r.frames.buffer + chunk, frames, part)
    ensures var r', big := Next(r, Data(chunk)), ShiftFrame(part).TooLarge?;
            && r'.sent == r.sent + Messages(frames)
            && r'.wsOpen == !big && r'.destroyed == big && r'.phase.Forwarding?
  {
    DrainForwards(r, r.frames.(buffer := r.frames.buffer + chunk), frames, part);
  }

  /** Before that nothing is sent, and bytes are kept. */
  lemma DataWaits(r: Relay, chunk: seq<byte>, received: seq<byte>)
    requires InStep(r, received) && !r.phase.Forwarding? && !r.destroyed
    ensures Next(r, Data(chunk)).sent == r.sent && Next(r, Data(chunk)).phase == r.phase
  {
    DataBeforeForwarding(r, chunk, received);
  }

  /** A usable answer to the handshake moves on; any other is reported and ends it. */
  lemma AnswerDecides(r: Relay, usable: bool)
    requires Answer(r)
    ensures var r' := Next(r, Resumed(usable));
            if r.frames.out[0].Delivered? && usable then r' == r.(phase := Querying)
            else && r'.phase.Ended? && !r'.wsOpen && r'.destroyed
                 && r'.sent == r.sent + if r.wsOpen then [Unavailable("notebook_handshake_failed")] else []
  {
  }

  /** With the daemon described the browser is told it is ready, and gets every frame already
      there; then an oversized frame is reported, or a daemon that has left. */
  lemma DescribedSends(r: Relay, received: seq<byte>, frames: seq<seq<byte>>, part: seq<byte>)
    requires InStep(r, received) && r.phase.Querying? && Holds(r.frames.buffer, frames, part)
    ensures var r', big := Next(r, Described), ShiftFrame(part).TooLarge?;
            && r'.sent == (if r.wsOpen then ([Ready] + Messages(frames)) + Ending(r, big) else [])
            && (if big then r'.phase.Ended? && !r'.wsOpen else r'.phase.Forwarding?)
            && (r.wsOpen && !big && !r.daemonClosed ==> r'.wsOpen)
  {
    PipingSends(r, frames, part);
    DescribedEnds(r, StartPiping(r).0, StartPiping(r).1);
  }

  /** What follows the frames already there. */
  function Ending(r: Relay, big: bool): seq<Message> {
    if big then [Unavailable("daemon_frame_error")] else if r.daemonClosed then Farewell(r.daemonError) else []
  }

  lemma DescribedEnds(r: Relay, piped: Relay, threw: bool)
    requires r.phase.Querying? && (piped, threw) == StartPiping(r)
    requires piped == r.(frames := piped.frames, sent := piped.sent)
    ensures var r' := Next(r, Described);
            && r'.sent == (if r.wsOpen then piped.sent + Ending(r, threw) else piped.sent)
            && (if threw then r'.phase.Ended? && !r'.wsOpen else r'.phase.Forwarding?)
            && (r.wsOpen && !threw && !r.daemonClosed ==> r'.wsOpen)
  {
    FarewellSent(piped.(phase := Forwarding));
    assert piped.sent + [] == piped.sent;
  }

  lemma PipingSends(r: Relay, frames: seq<seq<byte>>, part: seq<byte>)
    requires r.sent == [] && r.frames.waiters == [] && Holds(r.frames.buffer, frames, part)
    ensures var (piped, threw) := StartPiping(r);
            && piped.sent == (if r.wsOpen then [Ready] + Messages(frames) else [])
            && (threw <==> ShiftFrame(part).TooLarge?)
            && piped == r.(frames := piped.frames, sent := piped.sent)
  {
    var ready := Control(r, Ready);
    DrainForwards(ready, r.frames.(handler := true), frames, part);
    assert [] + [Ready] == [Ready];
  }

  lemma FarewellSent(r: Relay)
    ensures var r' := FinishDisconnect(r);
            && r'.sent == (if r.wsOpen then r.sent + Farewell(r.daemonError) else r.sent)
            && !r'.wsOpen && r'.phase == r.phase
  {
    if r.wsOpen && r.daemonError.Some? {
      assert r.sent + Farewell(r.daemonError) == r.sent + [Unavailable(r.daemonError.value)] + [Disconnected];
    } else {
      assert Farewell(None) == [Disconnected];
    }
  }

  /** A daemon that leaves while forwarding is announced, with its error; earlier it is only
      noted, and announced once the browser is ready. */
  lemma CloseSends(r: Relay, received: seq<byte>)
    requires InStep(r, received)
    ensures var r' := Next(r, DaemonClosed);
            && r'.daemonClosed && r'.phase == r.phase
            && r'.sent == r.sent + (if r.phase.Forwarding? && r.wsOpen then Farewell(r.daemonError) else [])
            && r'.wsOpen == (r.wsOpen && !r.phase.Forwarding?)
  {
  }

  /** An error is kept for the farewell; nothing is sent for it, nor for a browser that left. */
  lemma NotedOnly(r: Relay, error: string)
    ensures var r' := Next(r, DaemonError(error));
            r'.daemonError == Some(error) && r'.sent == r.sent && r'.wsOpen == r.wsOpen && r'.phase == r.phase
    ensures var r' := Next(r, BrowserGone);
            r'.sent == r.sent && !r'.wsOpen && r'.destroyed && r'.phase == r.phase && r'.frames == r.frames
  {
  }

  // ── When the handshake is answered ──────────────────────────────────

  predicate Fails(e: Event) {
    e.DaemonError? || e.DaemonClosed?
  }

  ghost predicate HasFailed(es: seq<Event>) {
    exists i :: 0 <= i < |es| && Fails(es[i])
  }

  /** A reader is rejected only by a failure. */
  predicate Told(s: Frames) {
    forall i :: 0 <= i < |s.out| && s.out[i].Rejected? ==> s.failure.Some?
  }

  lemma {:induction false} DrainKeepsFailure(s: Frames)
    ensures Drain(s).0.failure == s.failure && (Told(s) ==> Told(Drain(s).0))
    decreases |s.buffer|
  {
    if (s.waiters != [] || s.handler) && ShiftFrame(s.buffer).Complete? {
      var s' := HandedOn(s, ShiftFrame(s.buffer).frame, ShiftFrame(s.buffer).rest);
      DrainKeepsFailure(s');
    }
  }

  lemma NextFailure(r: Relay, e: Event)
    requires Told(r.frames)
    ensures var s := Next(r, e).frames;
            Told(s) && (s.failure.Some? <==> r.frames.failure.Some? || Fails(e))
  {
    match e
    case Data(chunk) => DrainKeepsFailure(r.frames.(buffer := r.frames.buffer + chunk));
    case Described => DrainKeepsFailure(r.frames.(handler := true));
    case _ =>
  }

  lemma {:induction false} FailureIsTrace(es: seq<Event>)
    ensures var s := RelayConnection.Run(es).frames; Told(s) && (s.failure.Some? <==> HasFailed(es))
    decreases |es|
  {
    if es != [] {
      var n := |es| - 1;
      FailureIsTrace(es[..n]);
      NextFailure(RelayConnection.Run(es[..n]), es[n]);
      FailedSnoc(es[..n], es[n]);
      assert es == es[..n] + [es[n]];
    }
  }

  lemma FailedSnoc(es: seq<Event>, e: Event)
    ensures HasFailed(es + [e]) <==> HasFailed(es) || Fails(e)
  {
    var all := es + [e];
    assert all[|es|] == e && forall i :: 0 <= i < |es| ==> all[i] == es[i];
  }

  /** In every run that is still in the handshake: its answer is there exactly when the bytes
      received begin with a complete frame or the daemon has failed; and an answer that is a
      frame is the first one received. */
  lemma AnswerIsThere(es: seq<Event>)
    requires RelayConnection.Run(es).phase.Handshaking?
    ensures var r, first := RelayConnection.Run(es), ShiftFrame(Received(es));
            && (Answer(r) <==> first.Complete? || HasFailed(es))
            && (Answer(r) && r.frames.out[0].Delivered? ==> first.Complete? && r.frames.out[0].frame == first.frame)
            && (first.Complete? && !HasFailed(es) ==> Answer(r) && r.frames.out[0].Delivered?)
  {
    RunKeeps(es);
    FailureIsTrace(es);
    AnswerInStep(RelayConnection.Run(es).frames, Received(es));
  }

  lemma AnswerInStep(s: Frames, received: seq<byte>)
    requires Framing.Inv(s, received) && NobodyWaits(s) && HandshakeOnly(s) && Told(s)
    ensures var first := ShiftFrame(received);
            && (s.waiters == [] <==> first.Complete? || s.failure.Some?)
            && (s.waiters == [] && s.out[0].Delivered? ==> first.Complete? && s.out[0].frame == first.frame)
            && (first.Complete? && s.failure.None? ==> s.waiters == [] && s.out[0].Delivered?)
  {
    if s.waiters == [] {
      assert s.out == [s.out[0]] && s.out[..0] == [];
      if s.out[0].Delivered? {
        assert FramesOf(s.out) == [s.out[0].frame];
        FirstOfOne(s.out[0].frame, s.buffer, received);
      }
    } else {
      assert EncodeAll([]) + s.buffer == s.buffer;
    }
  }

  lemma FirstOfOne(frame: seq<byte>, buffer: seq<byte>, received: seq<byte>)
    requires Conserved([frame], buffer, received)
    ensures ShiftFrame(received) == Complete(frame, buffer)
  {
    assert InLimit([frame][0]) && [frame][..0] == [];
    assert EncodeAll([frame]) == EncodeAll([]) + Encode(frame);
    assert received == Encode(frame) + buffer;
    EncodedIsFront(frame, buffer);
  }
}
