/** Length-prefixed frames over a byte stream that arrives in arbitrary chunks, with a
    queue of waiting readers and a live handler. */
module Framing {
  import opened Options
  import opened Ordering

  type byte = b: int | 0 <= b < 256

  const MAX_FRAME_SIZE: nat := 100 * 1024 * 1024
  const UINT32_LIMIT: nat := 0x1_0000_0000

  // ── Encoding ────────────────────────────────────────────────────────

  function WriteUInt32BE(n: nat): (h: seq<byte>)
    requires n < UINT32_LIMIT
    ensures |h| == 4
  {
    [n / 0x100_0000, n / 0x1_0000 % 0x100, n / 0x100 % 0x100, n % 0x100]
  }

  function ReadUInt32BE(h: seq<byte>): (n: nat)
    requires |h| >= 4
  {
    h[0] as int * 0x100_0000 + h[1] as int * 0x1_0000 + h[2] as int * 0x100 + h[3] as int
  }

  lemma HeaderRoundTrip(n: nat)
    requires n < UINT32_LIMIT
    ensures ReadUInt32BE(WriteUInt32BE(n)) == n
  {
    var a, b, c := n / 0x100, n / 0x1_0000, n / 0x100_0000;
    assert n == 0x100 * a + n % 0x100;
    assert a / 0x100 == b && a == 0x100 * b + a % 0x100;
    assert b / 0x100 == c && b == 0x100 * c + b % 0x100;
  }

  lemma HeaderParses(h: seq<byte>)
    requires |h| >= 4
    ensures ReadUInt32BE(h) < UINT32_LIMIT && WriteUInt32BE(ReadUInt32BE(h)) == h[..4]
  {
    var n := ReadUInt32BE(h);
    var h0: int, h1: int, h2: int, h3: int := h[0], h[1], h[2], h[3];
    var a := h0 * 0x1_0000 + h1 * 0x100 + h2;
    var b := h0 * 0x100 + h1;
    assert n == 0x100 * a + h3 && a == 0x100 * b + h2;
    assert n / 0x100 == a && n % 0x100 == h3;
    assert n / 0x1_0000 == b && a % 0x100 == h2;
    assert n / 0x100_0000 == h0 && b % 0x100 == h1;
  }

  /** What `writeFrame` puts on the socket. */
  function Encode(frame: seq<byte>): seq<byte>
    requires |frame| < UINT32_LIMIT
  {
    WriteUInt32BE(|frame|) + frame
  }

  predicate InLimit(frame: seq<byte>) {
    |frame| <= MAX_FRAME_SIZE
  }

  predicate AllInLimit(frames: seq<seq<byte>>) {
    forall i :: 0 <= i < |frames| ==> InLimit(frames[i])
  }

  function EncodeAll(frames: seq<seq<byte>>): seq<byte>
    requires AllInLimit(frames)
    decreases |frames|
  {
    if frames == [] then []
    else
      assert InLimit(frames[|frames| - 1]);
      EncodeAll(frames[..|frames| - 1]) + Encode(frames[|frames| - 1])
  }

  // ── The front of the buffer ─────────────────────────────────────────

  datatype Front = Incomplete | TooLarge(length: nat) | Complete(frame: seq<byte>, rest: seq<byte>)

  function ShiftFrame(buffer: seq<byte>): (r: Front)
    ensures r.Complete? ==> |r.rest| < |buffer|
  {
    if |buffer| < 4 then Incomplete
    else
      var length := ReadUInt32BE(buffer);
      if length > MAX_FRAME_SIZE then TooLarge(length)
      else if |buffer| < 4 + length then Incomplete
      else Complete(buffer[4..4 + length], buffer[4 + length..])
  }

  /** A complete front is an encoded frame, and nothing of the buffer is lost. */
  lemma FrontIsEncoded(buffer: seq<byte>)
    requires ShiftFrame(buffer).Complete?
    ensures var Complete(frame, rest) := ShiftFrame(buffer);
            InLimit(frame) && buffer == Encode(frame) + rest
  {
    HeaderParses(buffer);
  }

  /** Reading back what was written, whatever follows it. */
  lemma EncodedIsFront(frame: seq<byte>, rest: seq<byte>)
    requires InLimit(frame)
    ensures ShiftFrame(Encode(frame) + rest) == Complete(frame, rest)
  {
    var buffer := Encode(frame) + rest;
    HeaderRoundTrip(|frame|);
    assert buffer[..4] == WriteUInt32BE(|frame|);
    assert ReadUInt32BE(buffer) == ReadUInt32BE(buffer[..4]);
  }

  /** More bytes behind a decided front change nothing in front. */
  lemma FrontStays(buffer: seq<byte>, more: seq<byte>)
    ensures var front := ShiftFrame(buffer);
            && (front.Complete? ==> ShiftFrame(buffer + more) == Complete(front.frame, front.rest + more))
            && (front.TooLarge? ==> ShiftFrame(buffer + more) == front)
  {
    if |buffer| >= 4 {
      assert (buffer + more)[..4] == buffer[..4];
      assert ReadUInt32BE(buffer + more) == ReadUInt32BE(buffer);
      var length := ReadUInt32BE(buffer);
      if |buffer| >= 4 + length {
        assert (buffer + more)[4..4 + length] == buffer[4..4 + length];
        assert (buffer + more)[4 + length..] == buffer[4 + length..] + more;
      }
    }
  }

  // ── Readers and the handler ─────────────────────────────────────────

  /** `Reader` asked when a frame was there; `Waiter` had to queue. */
  datatype Consumer = Reader(reader: nat) | Waiter(waiter: nat) | Handler

  /** `Rejected` is a queued reader, `Refused` one that asked after the failure. */
  datatype Outcome =
    | Delivered(to: Consumer, frame: seq<byte>)
    | Rejected(waiting: nat, error: string)
    | Refused(asking: nat, error: string)

  /** `out` is everything handed out so far; `queued` is every reader that had to wait. */
  datatype Frames = Frames(buffer: seq<byte>, waiters: seq<nat>, handler: bool, failure: Option<string>,
                           out: seq<Outcome>, queued: seq<nat>)

  function Drain(s: Frames): (r: (Frames, bool))
    decreases |s.buffer|
  {
    if s.waiters == [] && !s.handler then (s, false)
    else match ShiftFrame(s.buffer)
      case Incomplete => (s, false)
      case TooLarge(_) => (s, true)
      case Complete(frame, rest) => Drain(HandedOn(s, frame, rest))
  }

  /** The front frame goes to the first waiting reader, or else to the handler. */
  function HandedOn(s: Frames, frame: seq<byte>, rest: seq<byte>): Frames {
    if s.waiters != []
    then s.(buffer := rest, waiters := s.waiters[1..], out := s.out + [Delivered(Waiter(s.waiters[0]), frame)])
    else s.(buffer := rest, out := s.out + [Delivered(Handler, frame)])
  }

  function RejectAll(waiters: seq<nat>, error: string): (r: seq<Outcome>)
    ensures |r| == |waiters|
    decreases |waiters|
  {
    if waiters == [] then []
    else RejectAll(waiters[..|waiters| - 1], error) + [Rejected(waiters[|waiters| - 1], error)]
  }

  datatype Op = Push(chunk: seq<byte>) | ReadFrame(reader: nat) | PipeTo | Fail(error: string)

  /** The next state, and whether the call throws (an oversized frame at the front). */
  function Apply(s: Frames, op: Op): (Frames, bool) {
    match op
    case Push(chunk) => Drain(s.(buffer := s.buffer + chunk))
    case ReadFrame(reader) =>
      (match ShiftFrame(s.buffer)
       case Complete(frame, rest) => (s.(buffer := rest, out := s.out + [Delivered(Reader(reader), frame)]), false)
       case TooLarge(_) => (s, true)
       case Incomplete =>
         if s.failure.Some? then (s.(out := s.out + [Refused(reader, s.failure.value)]), false)
         else (s.(waiters := s.waiters + [reader], queued := s.queued + [reader]), false))
    case PipeTo => Drain(s.(handler := true))
    case Fail(error) =>
      (s.(failure := Some(error), waiters := [], out := s.out + RejectAll(s.waiters, error)), false)
  }

  const START := Frames([], [], false, None, [], [])

  function Run(ops: seq<Op>): Frames
    decreases |ops|
  {
    if ops == [] then START else Apply(Run(ops[..|ops| - 1]), ops[|ops| - 1]).0
  }

  function Pushed(ops: seq<Op>): seq<byte>
    decreases |ops|
  {
    if ops == [] then []
    else Pushed(ops[..|ops| - 1]) + Chunk(ops[|ops| - 1])
  }

  function FramesOf(out: seq<Outcome>): (fs: seq<seq<byte>>)
    decreases |out|
  {
    if out == [] then []
    else if out[|out| - 1].Delivered? then FramesOf(out[..|out| - 1]) + [out[|out| - 1].frame]
    else FramesOf(out[..|out| - 1])
  }

  predicate AnswersQueue(o: Outcome) {
    (o.Delivered? && o.to.Waiter?) || o.Rejected?
  }

  function QueueReader(o: Outcome): nat
    requires AnswersQueue(o)
  {
    if o.Delivered? then o.to.waiter else o.waiting
  }

  /** Queued readers that have had their answer, in order. */
  function Answered(out: seq<Outcome>): seq<nat>
    decreases |out|
  {
    if out == [] then []
    else if AnswersQueue(out[|out| - 1]) then Answered(out[..|out| - 1]) + [QueueReader(out[|out| - 1])]
    else Answered(out[..|out| - 1])
  }

  // ── Every run ───────────────────────────────────────────────────────

  /** The bytes handed out, encoded again, and the buffer are the bytes pushed; queued
      readers are answered in order; nobody waits while a frame is at the front. */
  ghost predicate Inv(s: Frames, pushed: seq<byte>) {
    Conserved(FramesOf(s.out), s.buffer, pushed) && InOrder(s)
  }

  ghost predicate Conserved(fs: seq<seq<byte>>, buffer: seq<byte>, pushed: seq<byte>) {
    AllInLimit(fs) && EncodeAll(fs) + buffer == pushed
  }

  ghost predicate InOrder(s: Frames) {
    Answered(s.out) + s.waiters == s.queued && (s.failure.Some? ==> s.waiters == [])
  }

  predicate NobodyWaits(s: Frames) {
    s.waiters != [] || s.handler ==> !ShiftFrame(s.buffer).Complete?
  }

  lemma OutAppend(out: seq<Outcome>, o: Outcome)
    ensures FramesOf(out + [o]) == if o.Delivered? then FramesOf(out) + [o.frame] else FramesOf(out)
    ensures Answered(out + [o]) == if AnswersQueue(o) then Answered(out) + [QueueReader(o)] else Answered(out)
  {
    assert (out + [o])[..|out|] == out;
  }

  lemma ConservedFurther(fs: seq<seq<byte>>, buffer: seq<byte>, pushed: seq<byte>)
    requires Conserved(fs, buffer, pushed) && ShiftFrame(buffer).Complete?
    ensures Conserved(fs + [ShiftFrame(buffer).frame], ShiftFrame(buffer).rest, pushed)
  {
    var Complete(frame, rest) := ShiftFrame(buffer);
    FrontIsEncoded(buffer);
    EncodeSnoc(fs, frame);
    Regroup(EncodeAll(fs), Encode(frame), rest);
  }

  lemma EncodeSnoc(fs: seq<seq<byte>>, frame: seq<byte>)
    requires AllInLimit(fs) && |frame| <= MAX_FRAME_SIZE
    ensures AllInLimit(fs + [frame]) && EncodeAll(fs + [frame]) == EncodeAll(fs) + Encode(frame)
  {
    assert (fs + [frame])[..|fs|] == fs;
  }

  /** Handing the front frame to someone. */
  lemma HandOut(s: Frames, s': Frames, to: Consumer, frame: seq<byte>, pushed: seq<byte>)
    requires InOrder(s) && Conserved(FramesOf(s.out) + [frame], s'.buffer, pushed)
    requires s' == s.(buffer := s'.buffer, waiters := s'.waiters, out := s.out + [Delivered(to, frame)])
    requires if to.Waiter? then s.waiters == [to.waiter] + s'.waiters else s'.waiters == s.waiters
    ensures Inv(s', pushed)
  {
    OutAppend(s.out, Delivered(to, frame));
    if to.Waiter? {
      Regroup(Answered(s.out), [to.waiter], s'.waiters);
    }
  }

  lemma {:induction false} DrainKeeps(s: Frames, pushed: seq<byte>)
    requires Inv(s, pushed)
    ensures Inv(Drain(s).0, pushed) && NobodyWaits(Drain(s).0)
    ensures Drain(s).1 <==> (Drain(s).0.waiters != [] || Drain(s).0.handler) && ShiftFrame(Drain(s).0.buffer).TooLarge?
    decreases |s.buffer|
  {
    if s.waiters != [] || s.handler {
      match ShiftFrame(s.buffer)
      case Complete(frame, rest) =>
        ConservedFurther(FramesOf(s.out), s.buffer, pushed);
        HandOut(s, HandedOn(s, frame, rest), if s.waiters != [] then Waiter(s.waiters[0]) else Handler, frame, pushed);
        DrainKeeps(HandedOn(s, frame, rest), pushed);
      case _ =>
    }
  }

  lemma {:induction false} DrainPipes(s: Frames)
    requires s.handler
    ensures Drain(s).0.handler
    decreases |s.buffer|
  {
    if ShiftFrame(s.buffer).Complete? {
      DrainPipes(HandedOn(s, ShiftFrame(s.buffer).frame, ShiftFrame(s.buffer).rest));
    }
  }

  lemma {:induction false} RejectsCarryNoFrame(out: seq<Outcome>, waiters: seq<nat>, error: string)
    ensures FramesOf(out + RejectAll(waiters, error)) == FramesOf(out)
    decreases |waiters|
  {
    if waiters == [] {
      assert out + RejectAll(waiters, error) == out;
    } else {
      var n := |waiters| - 1;
      var before := out + RejectAll(waiters[..n], error);
      RejectsCarryNoFrame(out, waiters[..n], error);
      RejectsSnoc(out, waiters, error);
      OutAppend(before, Rejected(waiters[n], error));
    }
  }

  lemma {:induction false} RejectsInOrder(out: seq<Outcome>, waiters: seq<nat>, error: string)
    ensures Answered(out + RejectAll(waiters, error)) == Answered(out) + waiters
    decreases |waiters|
  {
    if waiters == [] {
      assert out + RejectAll(waiters, error) == out;
    } else {
      var n := |waiters| - 1;
      var before := out + RejectAll(waiters[..n], error);
      RejectsInOrder(out, waiters[..n], error);
      RejectsSnoc(out, waiters, error);
      OutAppend(before, Rejected(waiters[n], error));
      LastOf(Answered(out), waiters);
    }
  }

  lemma RejectsSnoc(out: seq<Outcome>, waiters: seq<nat>, error: string)
    requires waiters != []
    ensures var n := |waiters| - 1;
            out + RejectAll(waiters, error) == (out + RejectAll(waiters[..n], error)) + [Rejected(waiters[n], error)]
  {
  }

  lemma LastOf(a: seq<nat>, b: seq<nat>)
    requires b != []
    ensures (a + b[..|b| - 1]) + [b[|b| - 1]] == a + b
  {
  }

  function Chunk(op: Op): seq<byte> {
    if op.Push? then op.chunk else []
  }

  lemma PushKeeps(s: Frames, chunk: seq<byte>, pushed: seq<byte>)
    requires Inv(s, pushed)
    ensures Inv(Apply(s, Push(chunk)).0, pushed + chunk) && NobodyWaits(Apply(s, Push(chunk)).0)
  {
    var fs := FramesOf(s.out);
    assert EncodeAll(fs) + (s.buffer + chunk) == (EncodeAll(fs) + s.buffer) + chunk;
    DrainKeeps(s.(buffer := s.buffer + chunk), pushed + chunk);
  }

  lemma ReadKeeps(s: Frames, reader: nat, pushed: seq<byte>)
    requires Inv(s, pushed) && NobodyWaits(s)
    ensures Inv(Apply(s, ReadFrame(reader)).0, pushed) && NobodyWaits(Apply(s, ReadFrame(reader)).0)
  {
    match ShiftFrame(s.buffer)
    case Complete(frame, rest) =>
      ConservedFurther(FramesOf(s.out), s.buffer, pushed);
      HandOut(s, Apply(s, ReadFrame(reader)).0, Reader(reader), frame, pushed);
    case Incomplete =>
      if s.failure.Some? {
        OutAppend(s.out, Refused(reader, s.failure.value));
      }
    case TooLarge(_) =>
  }

  lemma FailKeeps(s: Frames, error: string, pushed: seq<byte>)
    requires Inv(s, pushed) && NobodyWaits(s)
    ensures Inv(Apply(s, Fail(error)).0, pushed) && NobodyWaits(Apply(s, Fail(error)).0)
  {
    RejectsCarryNoFrame(s.out, s.waiters, error);
    RejectsInOrder(s.out, s.waiters, error);
  }

  lemma ApplyKeeps(s: Frames, op: Op, pushed: seq<byte>)
    requires Inv(s, pushed) && NobodyWaits(s)
    ensures Inv(Apply(s, op).0, pushed + Chunk(op)) && NobodyWaits(Apply(s, op).0)
  {
    assert op.Push? || pushed + Chunk(op) == pushed;
    match op
    case Push(chunk) => PushKeeps(s, chunk, pushed);
    case ReadFrame(reader) => ReadKeeps(s, reader, pushed);
    case PipeTo => DrainKeeps(s.(handler := true), pushed);
    case Fail(error) => FailKeeps(s, error, pushed);
  }

  /** For every interleaving of pushes, reads, piping and failures: encoding the frames
      handed out and appending the buffer gives exactly the bytes pushed, queued readers
      are answered first in first out, and no reader or handler waits while a complete
      frame within the limit is at the front. */
  lemma {:induction false} StreamConserved(ops: seq<Op>)
    ensures Inv(Run(ops), Pushed(ops)) && NobodyWaits(Run(ops))
    decreases |ops|
  {
    if ops != [] {
      StreamConserved(ops[..|ops| - 1]);
      ApplyKeeps(Run(ops[..|ops| - 1]), ops[|ops| - 1], Pushed(ops[..|ops| - 1]));
    }
  }

  // ── Chunks do not matter ────────────────────────────────────────────

  lemma {:induction false} DrainInTwo(s: Frames, more: seq<byte>)
    ensures Drain(s.(buffer := s.buffer + more))
         == Drain(Drain(s).0.(buffer := Drain(s).0.buffer + more))
    decreases |s.buffer|
  {
    FrontStays(s.buffer, more);
    if (s.waiters != [] || s.handler) && ShiftFrame(s.buffer).Complete? {
      var Complete(frame, rest) := ShiftFrame(s.buffer);
      var to := if s.waiters != [] then Waiter(s.waiters[0]) else Handler;
      DrainInTwo(s.(buffer := rest, waiters := if s.waiters != [] then s.waiters[1..] else s.waiters,
                    out := s.out + [Delivered(to, frame)]), more);
    }
  }

  /** Two chunks do what one chunk does, whatever they cut apart. */
  lemma ChunkingIrrelevant(s: Frames, a: seq<byte>, b: seq<byte>)
    ensures Apply(Apply(s, Push(a)).0, Push(b)) == Apply(s, Push(a + b))
  {
    assert s.buffer + (a + b) == (s.buffer + a) + b;
    DrainInTwo(s.(buffer := s.buffer + a), b);
  }

  // ── After a failure ─────────────────────────────────────────────────

  function Reads(readers: seq<nat>): seq<Op> {
    seq(|readers|, i requires 0 <= i < |readers| => ReadFrame(readers[i]))
  }

  function Deliveries(readers: seq<nat>, frames: seq<seq<byte>>): seq<Outcome>
    requires |readers| == |frames|
  {
    seq(|readers|, i requires 0 <= i < |readers| => Delivered(Reader(readers[i]), frames[i]))
  }

  function ApplyAll(s: Frames, ops: seq<Op>): Frames
    decreases |ops|
  {
    if ops == [] then s else ApplyAll(Apply(s, ops[0]).0, ops[1..])
  }

  function EncodeEach(frames: seq<seq<byte>>): seq<byte>
    requires AllInLimit(frames)
  {
    if frames == [] then []
    else
      assert InLimit(frames[0]);
      Encode(frames[0]) + EncodeEach(frames[1..])
  }

  lemma ReadsFirst(s: Frames, frames: seq<seq<byte>>, part: seq<byte>, reader: nat)
    requires frames != [] && AllInLimit(frames) && s.buffer == EncodeEach(frames) + part
    ensures Apply(s, ReadFrame(reader)).0
         == s.(buffer := EncodeEach(frames[1..]) + part, out := s.out + [Delivered(Reader(reader), frames[0])])
  {
    var rest := EncodeEach(frames[1..]) + part;
    assert InLimit(frames[0]);
    assert s.buffer == Encode(frames[0]) + rest;
    EncodedIsFront(frames[0], rest);
  }

  lemma {:induction false} ReadsEach(s: Frames, frames: seq<seq<byte>>, part: seq<byte>, readers: seq<nat>)
    requires AllInLimit(frames) && s.buffer == EncodeEach(frames) + part && |readers| == |frames|
    ensures ApplyAll(s, Reads(readers)) == s.(buffer := part, out := s.out + Deliveries(readers, frames))
    decreases |frames|
  {
    if frames == [] {
      assert s.out + Deliveries(readers, frames) == s.out && s.buffer == part;
    } else {
      var next := Apply(s, ReadFrame(readers[0])).0;
      ReadsFirst(s, frames, part, readers[0]);
      ReadsEach(next, frames[1..], part, readers[1..]);
      ReadsCons(s, readers);
      DeliversCons(s.out, readers, frames);
    }
  }

  lemma ReadsCons(s: Frames, readers: seq<nat>)
    requires readers != []
    ensures ApplyAll(s, Reads(readers)) == ApplyAll(Apply(s, ReadFrame(readers[0])).0, Reads(readers[1..]))
  {
    assert Reads(readers)[0] == ReadFrame(readers[0]) && Reads(readers)[1..] == Reads(readers[1..]);
  }

  lemma DeliversCons(out: seq<Outcome>, readers: seq<nat>, frames: seq<seq<byte>>)
    requires readers != [] && |readers| == |frames|
    ensures (out + [Delivered(Reader(readers[0]), frames[0])]) + Deliveries(readers[1..], frames[1..])
         == out + Deliveries(readers, frames)
  {
  }

  /** Frames still buffered when the connection fails remain readable, in order; only the
      read after the last of them is refused. */
  lemma BufferedFramesOutliveFailure(s: Frames, frames: seq<seq<byte>>, part: seq<byte>, readers: seq<nat>, late: nat)
    requires s.failure.Some? && AllInLimit(frames) && ShiftFrame(part).Incomplete?
    requires s.buffer == EncodeEach(frames) + part && |readers| == |frames|
    ensures var r := ApplyAll(s, Reads(readers));
            && r == s.(buffer := part, out := s.out + Deliveries(readers, frames))
            && Apply(r, ReadFrame(late)).0.out == r.out + [Refused(late, s.failure.value)]
  {
    ReadsEach(s, frames, part, readers);
  }

  // ── The parser object ───────────────────────────────────────────────

  class LengthPrefixedFrames {
    var buffer: seq<byte>
    var waiters: seq<nat>
    var liveHandler: bool
    var failure: Option<string>
    /** The calls made so far on waiting promises and on the handler. */
    var out: seq<Outcome>
    ghost var queued: seq<nat>
    ghost var pushed: seq<byte>

    /** No byte is lost or reordered, queued readers are served in turn, and nobody waits
        while a complete frame within the limit is at the front. */
    ghost predicate Valid()
      reads this
    {
      Inv(State(), pushed) && NobodyWaits(State())
    }

    ghost function State(): Frames
      reads this
    {
      Frames(buffer, waiters, liveHandler, failure, out, queued)
    }

    constructor ()
      ensures Valid() && State() == START && pushed == []
    {
      buffer, waiters, liveHandler, failure, out, queued, pushed := [], [], false, None, [], [], [];
    }

    method PushChunk(chunk: seq<byte>) returns (threw: bool)
      requires Valid()
      modifies this
      ensures (State(), threw) == Apply(old(State()), Push(chunk))
      ensures Valid() && pushed == old(pushed) + chunk
    {
      PushKeeps(State(), chunk, pushed);
      pushed := pushed + chunk;
      buffer := if |buffer| > 0 then buffer + chunk else chunk;
      assert |old(buffer)| == 0 ==> old(buffer) + chunk == chunk;
      threw := DrainBuffer();
    }

    method Read(reader: nat) returns (threw: bool)
      requires Valid()
      modifies this
      ensures (State(), threw) == Apply(old(State()), ReadFrame(reader))
      ensures Valid() && pushed == old(pushed)
      ensures reader in waiters[|old(waiters)|..] ==> failure.None? && !ShiftFrame(buffer).Complete?
    {
      ReadKeeps(State(), reader, pushed);
      var front := Shift();
      if front.TooLarge? {
        return true;
      }
      threw := false;
      if front.Complete? {
        out := out + [Delivered(Reader(reader), front.frame)];
      } else if failure.Some? {
        out := out + [Refused(reader, failure.value)];
      } else {
        waiters := waiters + [reader];
        queued := queued + [reader];
      }
    }

    method Pipe() returns (threw: bool)
      requires Valid()
      modifies this
      ensures (State(), threw) == Apply(old(State()), PipeTo)
      ensures Valid() && pushed == old(pushed) && !ShiftFrame(buffer).Complete?
    {
      DrainKeeps(State().(handler := true), pushed);
      DrainPipes(State().(handler := true));
      liveHandler := true;
      threw := DrainBuffer();
    }

    method FailWith(error: string)
      requires Valid()
      modifies this
      ensures State() == Apply(old(State()), Fail(error)).0
      ensures Valid() && pushed == old(pushed) && buffer == old(buffer) && waiters == []
    {
      FailKeeps(State(), error, pushed);
      failure := Some(error);
      RejectWaiters(error);
      waiters := [];
    }

    method RejectWaiters(error: string)
      modifies this`out
      ensures out == old(out) + RejectAll(waiters, error)
    {
      var i := 0;
      while i < |waiters|
        invariant 0 <= i <= |waiters|
        invariant out == old(out) + RejectAll(waiters[..i], error)
      {
        assert waiters[..i + 1][..i] == waiters[..i];
        out := out + [Rejected(waiters[i], error)];
        i := i + 1;
      }
      assert waiters[..i] == waiters;
    }

    method DrainBuffer() returns (threw: bool)
      modifies this`buffer, this`waiters, this`out
      ensures (State(), threw) == Drain(old(State()))
    {
      while |waiters| > 0 || liveHandler
        invariant Drain(State()) == Drain(old(State()))
        decreases |buffer|
      {
        var front := Shift();
        if front.TooLarge? {
          return true;
        }
        if front.Incomplete? {
          return false;
        }
        if |waiters| > 0 {
          out := out + [Delivered(Waiter(waiters[0]), front.frame)];
          waiters := waiters[1..];
        } else {
          out := out + [Delivered(Handler, front.frame)];
        }
      }
      threw := false;
    }

    method Shift() returns (front: Front)
      modifies this`buffer
      ensures front == ShiftFrame(old(buffer))
      ensures buffer == if front.Complete? then front.rest else old(buffer)
    {
      if |buffer| < 4 {
        return Incomplete;
      }
      var length := ReadUInt32BE(buffer);
      if length > MAX_FRAME_SIZE {
        return TooLarge(length);
      }
      if |buffer| < 4 + length {
        return Incomplete;
      }
      var frame := buffer[4..4 + length];
      buffer := buffer[4 + length..];
      front := Complete(frame, buffer);
    }
  }

  /** `writeFrame` as bytes on the socket; a payload of 4 GiB or more does not fit the header. */
  method WriteFrame(socket: seq<byte>, payload: seq<byte>) returns (written: Option<seq<byte>>)
    ensures written.Some? <==> |payload| < UINT32_LIMIT
    ensures written.Some? ==> written.value == socket + Encode(payload)
    ensures written.Some? && InLimit(payload) ==> ShiftFrame(written.value[|socket|..]) == Complete(payload, [])
  {
    if |payload| >= UINT32_LIMIT {
      return None;
    }
    var header := WriteUInt32BE(|payload|);
    var sent := socket + header;
    sent := sent + payload;
    if InLimit(payload) {
      EncodedIsFront(payload, []);
      assert Encode(payload) + [] == Encode(payload);
    }
    assert sent == socket + Encode(payload);
    written := Some(sent);
  }
}
