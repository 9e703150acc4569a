/** Who gets what from the parser, said of the frames in the buffer. */
module FrameOutcome {
  import opened Options
  import Ordering
  import opened Framing

  // ── The front of the buffer ─────────────────────────────────────────

  lemma HeaderRead(n: nat, rest: seq<byte>)
    requires n < UINT32_LIMIT
    ensures ReadUInt32BE(WriteUInt32BE(n) + rest) == n
  {
    HeaderRoundTrip(n);
    assert (WriteUInt32BE(n) + rest)[..4] == WriteUInt32BE(n);
    assert ReadUInt32BE(WriteUInt32BE(n) + rest) == ReadUInt32BE((WriteUInt32BE(n) + rest)[..4]);
  }

  /** A header that announces more than the limit is refused as soon as it is there. */
  lemma OversizedIsRefused(n: nat, rest: seq<byte>)
    requires 100 * 1024 * 1024 < n < UINT32_LIMIT
    ensures ShiftFrame(WriteUInt32BE(n) + rest) == TooLarge(n)
  {
    HeaderRead(n, rest);
  }

  /** A header alone, or with too few bytes behind it, waits for more. */
  lemma PartialWaits(n: nat, part: seq<byte>)
    requires |part| < n <= 100 * 1024 * 1024
    ensures ShiftFrame(WriteUInt32BE(n) + part) == Incomplete
  {
    HeaderRead(n, part);
  }

  lemma ShortWaits(buffer: seq<byte>)
    requires |buffer| < 4
    ensures ShiftFrame(buffer) == Incomplete
  {
  }

  /** Every buffer is some frames and a part that starts with no complete one. */
  lemma {:induction false} Cut(buffer: seq<byte>) returns (frames: seq<seq<byte>>, part: seq<byte>)
    ensures AllInLimit(frames) && buffer == EncodeEach(frames) + part && !ShiftFrame(part).Complete?
    decreases |buffer|
  {
    if ShiftFrame(buffer).Complete? {
      var Complete(frame, rest) := ShiftFrame(buffer);
      FrontIsEncoded(buffer);
      frames, part := Cut(rest);
      EncodeCons(frame, frames, part);
      frames := [frame] + frames;
    } else {
      frames, part := [], buffer;
    }
  }

  lemma EncodeCons(frame: seq<byte>, frames: seq<seq<byte>>, part: seq<byte>)
    requires InLimit(frame) && AllInLimit(frames)
    ensures AllInLimit([frame] + frames)
    ensures EncodeEach([frame] + frames) + part == Encode(frame) + (EncodeEach(frames) + part)
  {
    assert ([frame] + frames)[1..] == frames;
    Ordering.Regroup(Encode(frame), EncodeEach(frames), part);
  }

  // ── Reading and failing ─────────────────────────────────────────────

  /** A read takes the front frame, throws on an oversized one, and otherwise is refused after
      a failure and queued without one. */
  lemma ReadDoes(s: Frames, reader: nat)
    ensures var (s', threw) := Apply(s, ReadFrame(reader));
            match ShiftFrame(s.buffer)
            case Complete(frame, rest) =>
              !threw && s' == s.(buffer := rest, out := s.out + [Delivered(Reader(reader), frame)])
            case TooLarge(_) => threw && s' == s
            case Incomplete =>
              !threw && s' == if s.failure.Some? then s.(out := s.out + [Refused(reader, s.failure.value)])
                              else s.(waiters := s.waiters + [reader], queued := s.queued + [reader])
  {
  }

  lemma {:induction false} RejectsEach(waiters: seq<nat>, error: string)
    ensures RejectAll(waiters, error) == seq(|waiters|, i requires 0 <= i < |waiters| => Rejected(waiters[i], error))
    decreases |waiters|
  {
    if waiters != [] {
      RejectsEach(waiters[..|waiters| - 1], error);
    }
  }

  /** A failure tells every waiting reader, in order, and is remembered; no byte is dropped. */
  lemma FailDoes(s: Frames, error: string)
    ensures var s' := Apply(s, Fail(error)).0;
            && s'.failure == Some(error) && s'.waiters == [] && s'.buffer == s.buffer && s'.handler == s.handler
            && s'.out == s.out + seq(|s.waiters|, i requires 0 <= i < |s.waiters| => Rejected(s.waiters[i], error))
  {
    RejectsEach(s.waiters, error);
  }

  // ── Draining ────────────────────────────────────────────────────────

  /** The frames go to the waiting readers, oldest first, and after them to the handler. */
  function Served(waiters: seq<nat>, frames: seq<seq<byte>>): seq<Outcome> {
    seq(|frames|, i requires 0 <= i < |frames| =>
          Delivered(if i < |waiters| then Waiter(waiters[i]) else Handler, frames[i]))
  }

  function Takers(s: Frames, frames: seq<seq<byte>>): (n: nat)
    ensures n <= |frames|
  {
    if s.handler || |frames| <= |s.waiters| then |frames| else |s.waiters|
  }

  /** The buffer is handed out frame by frame for as long as somebody takes them. */
  lemma {:induction false} DrainServes(s: Frames, frames: seq<seq<byte>>, part: seq<byte>)
    requires AllInLimit(frames) && s.buffer == EncodeEach(frames) + part && !ShiftFrame(part).Complete?
    ensures var n := Takers(s, frames);
            var (s', threw) := Drain(s);
            && AllInLimit(frames[n..])
            && s' == s.(buffer := EncodeEach(frames[n..]) + part, out := s.out + Served(s.waiters, frames[..n]),
                        waiters := if n <= |s.waiters| then s.waiters[n..] else [])
            && (threw <==> n == |frames| && (s'.waiters != [] || s.handler) && ShiftFrame(part).TooLarge?)
    decreases |frames|
  {
    if frames == [] {
      assert s.buffer == part && s.out + Served(s.waiters, []) == s.out && s.waiters[0..] == s.waiters;
      assert EncodeEach(frames[0..]) + part == part;
    } else if s.waiters == [] && !s.handler {
      assert s.out + Served(s.waiters, frames[..0]) == s.out && frames[0..] == frames;
    } else {
      ServesFirst(s, frames, part);
      var s1 := HandedOn(s, frames[0], EncodeEach(frames[1..]) + part);
      DrainServes(s1, frames[1..], part);
      ServedCons(s, frames);
    }
  }

  lemma ServesFirst(s: Frames, frames: seq<seq<byte>>, part: seq<byte>)
    requires frames != [] && AllInLimit(frames) && s.buffer == EncodeEach(frames) + part
    requires s.waiters != [] || s.handler
    ensures AllInLimit(frames[1..]) && Drain(s) == Drain(HandedOn(s, frames[0], EncodeEach(frames[1..]) + part))
  {
    var rest := EncodeEach(frames[1..]) + part;
    assert InLimit(frames[0]);
    assert s.buffer == Encode(frames[0]) + rest;
    EncodedIsFront(frames[0], rest);
  }

  lemma ServedCons(s: Frames, frames: seq<seq<byte>>)
    requires frames != [] && (s.waiters != [] || s.handler)
    ensures var s1 := HandedOn(s, frames[0], []);
            var n, m := Takers(s, frames), Takers(s1, frames[1..]);
            && n == m + 1 && frames[1..][m..] == frames[n..]
            && s1.out + Served(s1.waiters, frames[1..][..m]) == s.out + Served(s.waiters, frames[..n])
            && (if m <= |s1.waiters| then s1.waiters[m..] else []) == if n <= |s.waiters| then s.waiters[n..] else []
  {
    var s1 := HandedOn(s, frames[0], []);
    var n, m := Takers(s, frames), Takers(s1, frames[1..]);
    assert frames[..n] == [frames[0]] + frames[1..][..m];
    var all, rest := Served(s.waiters, frames[..n]), Served(s1.waiters, frames[1..][..m]);
    assert all == [all[0]] + rest;
  }
}
