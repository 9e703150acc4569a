/** One browser connection of the dev relay: the events of the daemon socket in any order
    against the handshake that runs beside them, and what the browser is sent. */
module RelayConnection {
  import opened Options
  import opened Framing

  datatype Message = Ready | Binary(frame: seq<byte>) | Unavailable(reason: string) | Disconnected

  /** Where `handleRelayConnection` stands: awaiting the handshake frame, awaiting the
      daemon's description, forwarding, or returned early. */
  datatype Phase = Handshaking | Querying | Forwarding | Ended

  datatype Relay = Relay(frames: Frames, phase: Phase, daemonClosed: bool, daemonError: Option<string>,
                         wsOpen: bool, destroyed: bool, sent: seq<Message>)

  /** `Resumed`: the awaited handshake frame is there, and whether it parses to a usable
      answer. `Described`: the daemon's description is there. */
  datatype Event =
    | Data(chunk: seq<byte>)
    | DaemonError(error: string)
    | DaemonClosed
    | BrowserGone
    | Resumed(usable: bool)
    | Described

  const CLOSED := "daemon socket closed"

  /** A message goes out only while the browser's socket is open. */
  function Control(r: Relay, m: Message): Relay {
    if r.wsOpen then r.(sent := r.sent + [m]) else r
  }

  function Binaries(out: seq<Outcome>): seq<Message>
    decreases |out|
  {
    if out == [] then []
    else
      var last := out[|out| - 1];
      if last.Delivered? && last.to.Handler? then Binaries(out[..|out| - 1]) + [Binary(last.frame)]
      else Binaries(out[..|out| - 1])
  }

  /** The handler's calls while the frames went from `r.frames` to `frames`. */
  function Forward(r: Relay, frames: Frames): Relay
    requires |r.frames.out| <= |frames.out|
  {
    r.(frames := frames,
       sent := if r.wsOpen then r.sent + Binaries(frames.out[|r.frames.out|..]) else r.sent)
  }

  function FinishDisconnect(r: Relay): Relay {
    var warned := if r.daemonError.Some? then Control(r, Unavailable(r.daemonError.value)) else r;
    Control(warned, Disconnected).(wsOpen := false)
  }

  function Abort(r: Relay, reason: string): Relay {
    Control(r, Unavailable(reason)).(wsOpen := false, destroyed := true, phase := Ended)
  }

  lemma {:induction false} DrainGrows(s: Frames)
    ensures s.out <= Drain(s).0.out
    decreases |s.buffer|
  {
    if (s.waiters != [] || s.handler) && ShiftFrame(s.buffer).Complete? {
      var Complete(frame, rest) := ShiftFrame(s.buffer);
      DrainGrows(HandedOn(s, frame, rest));
    }
  }

  function OnData(r: Relay, chunk: seq<byte>): Relay {
    if r.destroyed then r
    else
      var (frames, threw) := Apply(r.frames, Push(chunk));
      DrainGrows(r.frames.(buffer := r.frames.buffer + chunk));
      var r' := Forward(r, frames);
      if threw then r'.(wsOpen := false, destroyed := true) else r'
  }

  function OnClosed(r: Relay): Relay {
    var r' := r.(frames := Apply(r.frames, Fail(CLOSED)).0, daemonClosed := true);
    if r.phase.Forwarding? then FinishDisconnect(r') else r'
  }

  /** The handshake answer has been read or refused. */
  predicate Answer(r: Relay) {
    r.phase.Handshaking? && r.frames.waiters == [] && r.frames.out != []
  }

  function OnResumed(r: Relay, usable: bool): Relay {
    if !Answer(r) then r
    else if r.frames.out[0].Delivered? && usable then r.(phase := Querying)
    else Abort(r, "notebook_handshake_failed")
  }

  /** The readiness message, then every frame that is already buffered. */
  function StartPiping(r: Relay): (Relay, bool) {
    var (frames, threw) := Apply(r.frames, PipeTo);
    DrainGrows(r.frames.(handler := true));
    (Forward(Control(r, Ready), frames), threw)
  }

  function OnDescribed(r: Relay): Relay {
    if !r.phase.Querying? then r
    else
      var (piped, threw) := StartPiping(r);
      if threw then Abort(piped, "daemon_frame_error")
      else if r.daemonClosed then FinishDisconnect(piped.(phase := Forwarding))
      else piped.(phase := Forwarding)
  }

  function Next(r: Relay, e: Event): Relay {
    match e
    case Data(chunk) => OnData(r, chunk)
    case DaemonError(error) => r.(frames := Apply(r.frames, Fail(error)).0, daemonError := Some(error))
    case DaemonClosed => OnClosed(r)
    case BrowserGone => r.(wsOpen := false, destroyed := true)
    case Resumed(usable) => OnResumed(r, usable)
    case Described => OnDescribed(r)
  }

  /** Connected to the daemon, handshake sent, its answer awaited by reader 0. */
  const CONNECTED := Relay(Apply(Framing.START, ReadFrame(0)).0, Handshaking, false, None, true, false, [])

  function Run(es: seq<Event>): Relay
    decreases |es|
  {
    if es == [] then CONNECTED else Next(Run(es[..|es| - 1]), es[|es| - 1])
  }

  /** The daemon's bytes that reached the relay before it let go of the socket. */
  function Received(es: seq<Event>): seq<byte>
    decreases |es|
  {
    if es == [] then []
    else
      var before, e := es[..|es| - 1], es[|es| - 1];
      if e.Data? && !Run(before).destroyed then Received(before) + e.chunk else Received(before)
  }

  // ── The order of messages ───────────────────────────────────────────

  /** How far a conversation has come; `Broken` is out of order. */
  datatype Stage = Silent | Open | Warned | Over | Broken

  function After(stage: Stage, m: Message): Stage {
    match stage
    case Silent => (match m case Ready => Open case Unavailable(_) => Over case _ => Broken)
    case Open =>
      (match m case Binary(_) => Open case Unavailable(_) => Warned case Disconnected => Over case Ready => Broken)
    case Warned => if m.Disconnected? then Over else Broken
    case Over => Broken
    case Broken => Broken
  }

  function StageOf(sent: seq<Message>): Stage
    decreases |sent|
  {
    if sent == [] then Silent else After(StageOf(sent[..|sent| - 1]), sent[|sent| - 1])
  }

  function BinariesIn(sent: seq<Message>): seq<Message>
    decreases |sent|
  {
    if sent == [] then []
    else if sent[|sent| - 1].Binary? then BinariesIn(sent[..|sent| - 1]) + [sent[|sent| - 1]]
    else BinariesIn(sent[..|sent| - 1])
  }

  lemma SentAppend(sent: seq<Message>, m: Message)
    ensures StageOf(sent + [m]) == After(StageOf(sent), m)
    ensures BinariesIn(sent + [m]) == if m.Binary? then BinariesIn(sent) + [m] else BinariesIn(sent)
  {
    assert (sent + [m])[..|sent|] == sent;
  }

  lemma {:induction false} SendBinaries(sent: seq<Message>, out: seq<Outcome>)
    requires StageOf(sent) == Open
    ensures StageOf(sent + Binaries(out)) == Open
    ensures BinariesIn(sent + Binaries(out)) == BinariesIn(sent) + Binaries(out)
    decreases |out|
  {
    if out == [] {
      assert sent + Binaries(out) == sent;
    } else {
      var front, last := out[..|out| - 1], out[|out| - 1];
      SendBinaries(sent, front);
      if last.Delivered? && last.to.Handler? {
        assert sent + Binaries(out) == (sent + Binaries(front)) + [Binary(last.frame)];
        SentAppend(sent + Binaries(front), Binary(last.frame));
      }
    }
  }

  lemma {:induction false} BinariesAppend(out: seq<Outcome>, more: seq<Outcome>)
    ensures Binaries(out + more) == Binaries(out) + Binaries(more)
    decreases |more|
  {
    if more == [] {
      assert out + more == out;
    } else {
      assert (out + more)[..|out| + |more| - 1] == out + more[..|more| - 1];
      BinariesAppend(out, more[..|more| - 1]);
    }
  }

  // ── The invariant ───────────────────────────────────────────────────

  predicate HandshakeOnly(s: Frames) {
    && !s.handler
    && (if s.waiters == []
        then |s.out| == 1 && (s.out[0].Rejected? || (s.out[0].Delivered? && s.out[0].to == Waiter(0)))
        else s.waiters == [0] && s.out == [])
  }

  /** The first outcome is the handshake frame; all later ones went to the handler. */
  predicate Piped(s: Frames) {
    && s.handler && s.waiters == [] && s.out != []
    && s.out[0].Delivered? && s.out[0].to == Waiter(0)
    && forall i :: 0 < i < |s.out| ==> s.out[i].Delivered? && s.out[i].to.Handler?
  }

  ghost predicate InStep(r: Relay, received: seq<byte>) {
    && Framing.Inv(r.frames, received) && NobodyWaits(r.frames)
    && (r.phase.Handshaking? ==> HandshakeOnly(r.frames) && r.sent == [])
    && (r.phase.Querying? ==>
          HandshakeOnly(r.frames) && r.frames.waiters == [] && r.frames.out[0].Delivered? && r.sent == [])
    && (r.phase.Forwarding? ==> Piped(r.frames))
    && (r.phase.Ended? ==> !r.wsOpen && r.destroyed && (HandshakeOnly(r.frames) || Piped(r.frames)))
    && StageOf(r.sent) != Broken
    && (r.wsOpen ==> StageOf(r.sent) == if r.phase.Forwarding? then Open else Silent)
    && BinariesIn(r.sent) <= Binaries(r.frames.out)
    && (r.wsOpen ==> BinariesIn(r.sent) == Binaries(r.frames.out))
  }

  lemma {:induction false} DrainPiped(s: Frames)
    requires Piped(s)
    ensures Piped(Drain(s).0)
    decreases |s.buffer|
  {
    if ShiftFrame(s.buffer).Complete? {
      var Complete(frame, rest) := ShiftFrame(s.buffer);
      DrainPiped(HandedOn(s, frame, rest));
    }
  }

  lemma DrainHandshake(s: Frames)
    requires HandshakeOnly(s)
    ensures HandshakeOnly(Drain(s).0) && Binaries(Drain(s).0.out) == []
    ensures |s.out| <= |Drain(s).0.out| && Binaries(Drain(s).0.out[|s.out|..]) == []
    ensures s.waiters == [] ==> Drain(s).0 == s
  {
    assert Drain(s).0.out[0..] == Drain(s).0.out;
    if s.waiters != [] && ShiftFrame(s.buffer).Complete? {
      var Complete(frame, rest) := ShiftFrame(s.buffer);
      var s' := s.(buffer := rest, waiters := [], out := [Delivered(Waiter(0), frame)]);
      assert s.waiters[1..] == [] && s.out + [Delivered(Waiter(0), frame)] == s'.out;
      assert Drain(s) == Drain(s') == (s', false);
      assert s'.out[..0] == [];
    } else if s.waiters == [] {
      assert s.out[..0] == [];
    }
  }

  /** Forwarding what a drain hands to the handler. */
  lemma ForwardKeeps(r: Relay, frames: Frames)
    requires r.frames.out <= frames.out
    requires StageOf(r.sent) != Broken && (r.wsOpen ==> StageOf(r.sent) == Open)
    requires BinariesIn(r.sent) <= Binaries(r.frames.out) && (r.wsOpen ==> BinariesIn(r.sent) == Binaries(r.frames.out))
    ensures var r' := Forward(r, frames);
            && StageOf(r'.sent) != Broken && (r.wsOpen ==> StageOf(r'.sent) == Open)
            && BinariesIn(r'.sent) <= Binaries(frames.out) && (r.wsOpen ==> BinariesIn(r'.sent) == Binaries(frames.out))
  {
    var more := frames.out[|r.frames.out|..];
    assert frames.out == r.frames.out + more;
    BinariesAppend(r.frames.out, more);
    if r.wsOpen {
      SendBinaries(r.sent, more);
    }
  }

  lemma DataWhileForwarding(r: Relay, chunk: seq<byte>, received: seq<byte>)
    requires InStep(r, received) && !r.destroyed && r.phase.Forwarding?
    ensures InStep(OnData(r, chunk), received + chunk)
    ensures r.wsOpen ==> StageOf(OnData(r, chunk).sent) == Open
  {
    PushKeeps(r.frames, chunk, received);
    var s := r.frames.(buffer := r.frames.buffer + chunk);
    DrainGrows(s);
    DrainPiped(s);
    ForwardKeeps(r, Drain(s).0);
  }

  lemma DataBeforeForwarding(r: Relay, chunk: seq<byte>, received: seq<byte>)
    requires InStep(r, received) && !r.destroyed && !r.phase.Forwarding?
    ensures InStep(OnData(r, chunk), received + chunk) && OnData(r, chunk).sent == []
  {
    PushKeeps(r.frames, chunk, received);
    var s := r.frames.(buffer := r.frames.buffer + chunk);
    DrainGrows(s);
    DrainHandshake(s);
    ForwardsNothing(r, Drain(s).0);
  }

  lemma ForwardsNothing(r: Relay, frames: Frames)
    requires r.frames.out <= frames.out && Binaries(frames.out[|r.frames.out|..]) == []
    ensures Forward(r, frames) == r.(frames := frames)
  {
    assert r.sent + [] == r.sent;
  }

  lemma FinishKeeps(r: Relay)
    requires StageOf(r.sent) != Broken && (r.wsOpen ==> StageOf(r.sent) == Open)
    ensures var r' := FinishDisconnect(r);
            && StageOf(r'.sent) != Broken && BinariesIn(r'.sent) == BinariesIn(r.sent) && !r'.wsOpen
            && r'.frames == r.frames
            && (r.wsOpen ==> r'.sent != [] && r'.sent[|r'.sent| - 1] == Disconnected)
  {
    if r.wsOpen {
      if r.daemonError.Some? {
        SentAppend(r.sent, Unavailable(r.daemonError.value));
        SentAppend(r.sent + [Unavailable(r.daemonError.value)], Disconnected);
      } else {
        SentAppend(r.sent, Disconnected);
      }
    }
  }

  /** A failure hands no frame out. */
  lemma FailOnly(s: Frames, error: string)
    requires HandshakeOnly(s) || Piped(s)
    ensures var s' := Apply(s, Fail(error)).0;
            && (HandshakeOnly(s) ==> HandshakeOnly(s')) && (Piped(s) ==> Piped(s'))
            && Binaries(s'.out) == Binaries(s.out)
            && (s.waiters == [] ==> s'.out == s.out)
  {
    if s.waiters == [] {
      assert s.out + RejectAll([], error) == s.out;
    } else {
      assert RejectAll([0], error) == [Rejected(0, error)] by {
        assert [0][..0] == [];
      }
      assert s.out + [Rejected(0, error)] == [Rejected(0, error)];
      assert [Rejected(0, error)][..0] == [];
    }
  }

  lemma ClosedKeeps(r: Relay, received: seq<byte>)
    requires InStep(r, received)
    ensures InStep(OnClosed(r), received)
  {
    FailKeeps(r.frames, CLOSED, received);
    FailOnly(r.frames, CLOSED);
    if r.phase.Forwarding? {
      FinishKeeps(r.(frames := Apply(r.frames, Fail(CLOSED)).0, daemonClosed := true));
    }
  }

  lemma AbortKeeps(r: Relay, reason: string)
    requires StageOf(r.sent) != Broken && (r.wsOpen ==> StageOf(r.sent).Silent? || StageOf(r.sent).Open?)
    ensures var r' := Abort(r, reason);
            && StageOf(r'.sent) != Broken && BinariesIn(r'.sent) == BinariesIn(r.sent)
            && !r'.wsOpen && r'.destroyed && r'.phase.Ended? && r'.frames == r.frames
  {
    SentAppend(r.sent, Unavailable(reason));
  }

  /** The readiness message opens the conversation, and all frames so far follow it. */
  lemma PipingKeeps(r: Relay, received: seq<byte>)
    requires InStep(r, received) && r.phase.Querying?
    ensures var (piped, _) := StartPiping(r);
            && Framing.Inv(piped.frames, received) && NobodyWaits(piped.frames) && Piped(piped.frames)
            && StageOf(piped.sent) != Broken && (r.wsOpen ==> StageOf(piped.sent) == Open)
            && BinariesIn(piped.sent) <= Binaries(piped.frames.out)
            && (r.wsOpen ==> BinariesIn(piped.sent) == Binaries(piped.frames.out))
  {
    var s := r.frames.(handler := true);
    DrainKeeps(s, received);
    DrainGrows(s);
    DrainPiped(s);
    ReadyOpens(r);
    ForwardKeeps(Control(r, Ready), Drain(s).0);
  }

  lemma ReadyOpens(r: Relay)
    requires r.sent == [] && |r.frames.out| == 1 && r.frames.out[0].Delivered? && r.frames.out[0].to == Waiter(0)
    ensures var ready := Control(r, Ready);
            && ready.frames == r.frames && ready.wsOpen == r.wsOpen
            && StageOf(ready.sent) == (if r.wsOpen then Open else Silent)
            && BinariesIn(ready.sent) == [] == Binaries(r.frames.out)
  {
    SentAppend([], Ready);
    assert [] + [Ready] == [Ready];
    assert r.frames.out[..0] == [];
  }

  lemma DescribedKeeps(r: Relay, received: seq<byte>)
    requires InStep(r, received) && r.phase.Querying?
    ensures InStep(OnDescribed(r), received)
  {
    PipingKeeps(r, received);
    var (piped, threw) := StartPiping(r);
    if threw {
      AbortKeeps(piped, "daemon_frame_error");
    } else if r.daemonClosed {
      FinishKeeps(piped.(phase := Forwarding));
    }
  }

  lemma NextKeeps(r: Relay, e: Event, received: seq<byte>)
    requires InStep(r, received)
    ensures InStep(Next(r, e), if e.Data? && !r.destroyed then received + e.chunk else received)
  {
    match e
    case Data(chunk) =>
      if !r.destroyed {
        if r.phase.Forwarding? {
          DataWhileForwarding(r, chunk, received);
        } else {
          DataBeforeForwarding(r, chunk, received);
        }
      }
    case DaemonError(error) =>
      FailKeeps(r.frames, error, received);
      FailOnly(r.frames, error);
    case DaemonClosed => ClosedKeeps(r, received);
    case BrowserGone =>
    case Resumed(usable) => if Answer(r) { AbortKeeps(r, "notebook_handshake_failed"); }
    case Described => if r.phase.Querying? { DescribedKeeps(r, received); }
  }

  lemma {:induction false} RunKeeps(es: seq<Event>)
    ensures InStep(Run(es), Received(es))
    decreases |es|
  {
    if es == [] {
      assert ShiftFrame([]).Incomplete?;
      assert CONNECTED.frames == Frames([], [0], false, None, [], [0]);
    } else {
      RunKeeps(es[..|es| - 1]);
      NextKeeps(Run(es[..|es| - 1]), es[|es| - 1], Received(es[..|es| - 1]));
    }
  }

  // ── What every run sends ────────────────────────────────────────────

  /** What staying in order means: one `Ready` at most, and first; frames only after it;
      nothing after `Disconnected`, and nothing but `Disconnected` after `Unavailable`. */
  predicate Orderly(sent: seq<Message>) {
    && (forall i :: 0 <= i < |sent| && sent[i].Ready? ==> i == 0)
    && (forall i :: 0 <= i < |sent| && sent[i].Binary? ==> sent[0].Ready?)
    && (forall i :: 0 <= i < |sent| && sent[i].Disconnected? ==> i == |sent| - 1 && sent[0].Ready?)
    && (forall i, j :: 0 <= i < j < |sent| && sent[i].Unavailable? ==> sent[j].Disconnected?)
  }

  lemma {:induction false} InOrderIsOrderly(sent: seq<Message>)
    requires StageOf(sent) != Broken
    ensures Orderly(sent)
    ensures StageOf(sent) == Silent <==> sent == []
    ensures StageOf(sent) == Open ==> sent[0].Ready? && (forall i :: 0 < i < |sent| ==> sent[i].Binary?)
    ensures StageOf(sent) == Warned
        ==> sent[0].Ready? && sent[|sent| - 1].Unavailable? && (forall i :: 0 < i < |sent| - 1 ==> sent[i].Binary?)
    decreases |sent|
  {
    if sent != [] {
      InOrderIsOrderly(sent[..|sent| - 1]);
    }
  }

  function FrameSeq(ms: seq<Message>): seq<seq<byte>>
    requires forall i :: 0 <= i < |ms| ==> ms[i].Binary?
  {
    seq(|ms|, i requires 0 <= i < |ms| => ms[i].frame)
  }

  lemma {:induction false} BinariesAreFrames(out: seq<Outcome>)
    requires out != [] && out[0].Delivered? && out[0].to == Waiter(0)
    requires forall i :: 0 < i < |out| ==> out[i].Delivered? && out[i].to.Handler?
    ensures forall i :: 0 <= i < |Binaries(out)| ==> Binaries(out)[i].Binary?
    ensures FramesOf(out) == [out[0].frame] + FrameSeq(Binaries(out))
    decreases |out|
  {
    var n := |out| - 1;
    if n == 0 {
      assert out[..0] == [];
    } else {
      BinariesAreFrames(out[..n]);
    }
  }

  lemma {:induction false} OnlyBinaries(sent: seq<Message>)
    ensures forall i :: 0 <= i < |BinariesIn(sent)| ==> BinariesIn(sent)[i].Binary?
    decreases |sent|
  {
    if sent != [] {
      OnlyBinaries(sent[..|sent| - 1]);
    }
  }

  /** Over every ordering of daemon and browser events, what the browser is sent is in
      order; and while its socket is open, once forwarding, the frames it was sent are
      exactly those after the handshake frame, with no complete frame held back. */
  lemma RelayInOrder(es: seq<Event>)
    ensures Orderly(Run(es).sent)
    ensures var r := Run(es);
            r.wsOpen && r.phase.Forwarding? ==>
              Forwarded(r, Received(es)) && !ShiftFrame(r.frames.buffer).Complete?
  {
    RunKeeps(es);
    var r := Run(es);
    InOrderIsOrderly(r.sent);
    if r.wsOpen && r.phase.Forwarding? {
      ForwardedAll(r, Received(es));
    }
  }

  /** The bytes received are the handshake frame, the frames sent, and the unread rest. */
  ghost predicate Forwarded(r: Relay, received: seq<byte>) {
    && (forall i :: 0 <= i < |BinariesIn(r.sent)| ==> BinariesIn(r.sent)[i].Binary?)
    && exists handshake :: Conserved([handshake] + FrameSeq(BinariesIn(r.sent)), r.frames.buffer, received)
  }

  lemma ForwardedAll(r: Relay, received: seq<byte>)
    requires Framing.Inv(r.frames, received) && Piped(r.frames) && BinariesIn(r.sent) == Binaries(r.frames.out)
    ensures Forwarded(r, received)
  {
    BinariesAreFrames(r.frames.out);
    OnlyBinaries(r.sent);
    assert Conserved([r.frames.out[0].frame] + FrameSeq(BinariesIn(r.sent)), r.frames.buffer, received);
  }

  lemma NotGoneYet(sent: seq<Message>)
    requires StageOf(sent).Silent? || StageOf(sent).Open? || StageOf(sent).Warned?
    ensures Disconnected !in sent
  {
    InOrderIsOrderly(sent);
  }

  /** A message that the daemon is gone follows every frame handed to the handler. */
  lemma DisconnectComplete(r: Relay, e: Event, received: seq<byte>)
    requires InStep(r, received) && |r.sent| < |Next(r, e).sent|
    ensures var r' := Next(r, e);
            Disconnected in r'.sent ==> Piped(r'.frames) && BinariesIn(r'.sent) == Binaries(r'.frames.out)
  {
    match e
    case Data(chunk) =>
      if r.phase.Forwarding? {
        DataWhileForwarding(r, chunk, received);
        NotGoneYet(OnData(r, chunk).sent);
      } else {
        DataBeforeForwarding(r, chunk, received);
      }
    case DaemonError(_) =>
    case DaemonClosed => ClosedDisconnect(r, received);
    case BrowserGone =>
    case Resumed(_) =>
      assert Next(r, e).sent == [Unavailable("notebook_handshake_failed")];
    case Described => DescribedDisconnect(r, received);
  }

  lemma ClosedDisconnect(r: Relay, received: seq<byte>)
    requires InStep(r, received) && r.phase.Forwarding? && r.wsOpen
    ensures Piped(OnClosed(r).frames) && BinariesIn(OnClosed(r).sent) == Binaries(OnClosed(r).frames.out)
  {
    FailOnly(r.frames, CLOSED);
    FinishKeeps(r.(frames := Apply(r.frames, Fail(CLOSED)).0, daemonClosed := true));
  }

  lemma DescribedDisconnect(r: Relay, received: seq<byte>)
    requires InStep(r, received) && r.phase.Querying? && r.wsOpen
    ensures var r' := OnDescribed(r);
            Disconnected in r'.sent ==> Piped(r'.frames) && BinariesIn(r'.sent) == Binaries(r'.frames.out)
  {
    PipingKeeps(r, received);
    var (piped, threw) := StartPiping(r);
    if threw {
      SentAppend(piped.sent, Unavailable("daemon_frame_error"));
      NotGoneYet(OnDescribed(r).sent);
    } else if r.daemonClosed {
      FinishKeeps(piped.(phase := Forwarding));
    } else {
      NotGoneYet(piped.sent);
    }
  }

  /** When the relay says the daemon is gone, every complete frame received before has
      been sent ahead of it, and nothing follows. */
  ghost predicate DisconnectsCleanly(r: Relay, received: seq<byte>) {
    && r.sent != [] && r.sent[|r.sent| - 1] == Disconnected
    && Forwarded(r, received) && !ShiftFrame(r.frames.buffer).Complete?
  }

  lemma DisconnectStep(r: Relay, e: Event, received: seq<byte>, after: seq<byte>)
    requires InStep(r, received) && |r.sent| < |Next(r, e).sent| && Disconnected in Next(r, e).sent
    requires InStep(Next(r, e), after)
    ensures DisconnectsCleanly(Next(r, e), after)
  {
    DisconnectComplete(r, e, received);
    GoneIsLast(Next(r, e).sent);
    ForwardedAll(Next(r, e), after);
  }

  lemma GoneIsLast(sent: seq<Message>)
    requires StageOf(sent) != Broken && Disconnected in sent
    ensures sent[|sent| - 1] == Disconnected
  {
    InOrderIsOrderly(sent);
    var i :| 0 <= i < |sent| && sent[i] == Disconnected;
  }

  lemma CleanDisconnect(es: seq<Event>, e: Event)
    requires |Run(es).sent| < |Run(es + [e]).sent| && Disconnected in Run(es + [e]).sent
    ensures DisconnectsCleanly(Run(es + [e]), Received(es + [e]))
  {
    assert (es + [e])[..|es|] == es;
    RunKeeps(es);
    RunKeeps(es + [e]);
    DisconnectStep(Run(es), e, Received(es), Received(es + [e]));
  }

  // ── What every event promises ───────────────────────────────────────

  /** Messages are only added, in order; and a message that the daemon is gone follows every
      complete frame received. */
  ghost predicate Relays(r: Relay, r': Relay, received: seq<byte>) {
    && Orderly(r'.sent) && r.sent <= r'.sent
    && (|r.sent| < |r'.sent| && Disconnected in r'.sent ==> DisconnectsCleanly(r', received))
  }

  lemma EventRelays(r: Relay, e: Event, received: seq<byte>, after: seq<byte>)
    requires InStep(r, received) && after == if e.Data? && !r.destroyed then received + e.chunk else received
    ensures InStep(Next(r, e), after) && Relays(r, Next(r, e), after)
  {
    NextKeeps(r, e, received);
    InOrderIsOrderly(Next(r, e).sent);
    OnlyAppends(r, e);
    if |r.sent| < |Next(r, e).sent| && Disconnected in Next(r, e).sent {
      DisconnectStep(r, e, received, after);
    }
  }

  lemma ConnectedInStep()
    ensures InStep(CONNECTED, [])
  {
    RunKeeps([]);
  }

  lemma OnlyAppends(r: Relay, e: Event)
    ensures r.sent <= Next(r, e).sent
  {
  }

  // ── The connection object ───────────────────────────────────────────

  /** The closures of `handleRelayConnection` over one socket pair. */
  class Connection {
    const frames: LengthPrefixedFrames
    var phase: Phase
    var daemonClosed: bool
    var daemonError: Option<string>
    var wsOpen: bool
    var destroyed: bool
    var sent: seq<Message>

    ghost function State(): Relay
      reads this, frames
    {
      Relay(frames.State(), phase, daemonClosed, daemonError, wsOpen, destroyed, sent)
    }

    /** Parser, phase and messages agree, for the bytes received so far. */
    ghost predicate Valid()
      reads this, frames
    {
      InStep(State(), frames.pushed)
    }

    constructor ()
      ensures Valid() && State() == CONNECTED && fresh(frames)
    {
      var parser := new LengthPrefixedFrames();
      frames := parser;
      phase, daemonClosed, daemonError, wsOpen, destroyed, sent := Handshaking, false, None, true, false, [];
      new;
      var threw := frames.Read(0);
      ConnectedInStep();
    }

    method Send(m: Message)
      modifies this`sent
      ensures sent == if wsOpen then old(sent) + [m] else old(sent)
    {
      if wsOpen {
        sent := sent + [m];
      }
    }

    /** The handler's calls since the parser had handed out `from` outcomes. */
    method SendFrames(from: nat)
      requires from <= |frames.out|
      modifies this`sent
      ensures sent == if wsOpen then old(sent) + Binaries(frames.out[from..]) else old(sent)
    {
      var handed := frames.out[from..];
      var i := 0;
      while i < |handed|
        invariant 0 <= i <= |handed|
        invariant sent == if wsOpen then old(sent) + Binaries(handed[..i]) else old(sent)
      {
        assert handed[..i + 1][..i] == handed[..i];
        if handed[i].Delivered? && handed[i].to.Handler? {
          Send(Binary(handed[i].frame));
        }
        i := i + 1;
      }
      assert handed[..i] == handed;
    }

    method FinishDisconnecting()
      modifies this`sent, this`wsOpen
      ensures State() == FinishDisconnect(old(State()))
    {
      if daemonError.Some? {
        Send(Unavailable(daemonError.value));
      }
      Send(Disconnected);
      wsOpen := false;
    }

    method OnDaemonData(chunk: seq<byte>)
      requires Valid()
      modifies this, frames
      ensures State() == Next(old(State()), Data(chunk))
      ensures Valid() && Relays(old(State()), State(), frames.pushed)
    {
      EventRelays(State(), Data(chunk), frames.pushed, if destroyed then frames.pushed else frames.pushed + chunk);
      if !destroyed {
        ForwardData(chunk);
      }
    }

    method ForwardData(chunk: seq<byte>)
      requires frames.Valid() && !destroyed
      modifies this, frames
      ensures State() == OnData(old(State()), chunk) && frames.pushed == old(frames.pushed) + chunk
    {
      var from := |frames.out|;
      DrainGrows(frames.State().(buffer := frames.buffer + chunk));
      var threw := frames.PushChunk(chunk);
      SendFrames(from);
      if threw {
        wsOpen := false;
        destroyed := true;
      }
    }

    method OnBrowserGone()
      requires Valid()
      modifies this
      ensures State() == Next(old(State()), BrowserGone)
      ensures Valid() && Relays(old(State()), State(), frames.pushed) && sent == old(sent)
    {
      EventRelays(State(), BrowserGone, frames.pushed, frames.pushed);
      wsOpen := false;
      destroyed := true;
    }

    method OnDaemonError(error: string)
      requires Valid()
      modifies this, frames
      ensures State() == Next(old(State()), DaemonError(error))
      ensures Valid() && Relays(old(State()), State(), frames.pushed)
    {
      EventRelays(State(), DaemonError(error), frames.pushed, frames.pushed);
      frames.FailWith(error);
      daemonError := Some(error);
    }

    method OnDaemonClosed()
      requires Valid()
      modifies this, frames
      ensures State() == Next(old(State()), DaemonClosed)
      ensures Valid() && Relays(old(State()), State(), frames.pushed)
    {
      EventRelays(State(), DaemonClosed, frames.pushed, frames.pushed);
      frames.FailWith(CLOSED);
      daemonClosed := true;
      if phase.Forwarding? {
        FinishDisconnecting();
      }
    }

    method GiveUp(reason: string)
      modifies this
      ensures State() == Abort(old(State()), reason)
    {
      Send(Unavailable(reason));
      wsOpen := false;
      destroyed := true;
      phase := Ended;
    }

    /** The continuation after the handshake frame was awaited. */
    method Resume(usable: bool)
      requires Valid()
      modifies this
      ensures State() == Next(old(State()), Resumed(usable))
      ensures Valid() && Relays(old(State()), State(), frames.pushed)
    {
      EventRelays(State(), Resumed(usable), frames.pushed, frames.pushed);
      if !phase.Handshaking? || |frames.waiters| > 0 || |frames.out| == 0 {
        return;
      }
      if frames.out[0].Delivered? && usable {
        phase := Querying;
      } else {
        GiveUp("notebook_handshake_failed");
      }
    }

    method BeginPiping() returns (threw: bool)
      requires frames.Valid()
      modifies this`sent, frames
      ensures (State(), threw) == StartPiping(old(State())) && frames.pushed == old(frames.pushed)
    {
      Send(Ready);
      var from := |frames.out|;
      DrainGrows(frames.State().(handler := true));
      threw := frames.Pipe();
      SendFrames(from);
    }

    /** The continuation after the daemon's description was awaited. */
    method Describe()
      requires Valid()
      modifies this, frames
      ensures State() == Next(old(State()), Described)
      ensures Valid() && Relays(old(State()), State(), frames.pushed)
    {
      EventRelays(State(), Described, frames.pushed, frames.pushed);
      if !phase.Querying? {
        return;
      }
      var threw := BeginPiping();
      if threw {
        GiveUp("daemon_frame_error");
        return;
      }
      phase := Forwarding;
      if daemonClosed {
        FinishDisconnecting();
      }
    }
  }
}
