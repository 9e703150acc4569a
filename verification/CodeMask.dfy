/** Blanking the code of a Markdown text before its links are read: fenced blocks, then
    inline code spans, with every position kept. */
module CodeMask {
  import opened Options
  import opened Ordering
  import opened Whitespace

  // ── Blanking keeps every position ───────────────────────────────────

  function Blank(text: string): (r: string)
    ensures |r| == |text|
  {
    seq(|text|, i requires 0 <= i < |text| => if text[i] == '\n' then '\n' else ' ')
  }

  /** `b` is `a` with some characters, never newlines, turned into spaces. */
  predicate Masks(a: string, b: string) {
    && |a| == |b|
    && forall i :: 0 <= i < |a| ==> b[i] == a[i] || (a[i] != '\n' && b[i] == ' ')
  }

  lemma MasksAppend(a: string, b: string, c: string, d: string)
    requires Masks(a, b) && Masks(c, d)
    ensures Masks(a + c, b + d)
  {
  }

  lemma MasksOn(a: string, b: string, c: string)
    requires Masks(a, b) && Masks(b, c)
    ensures Masks(a, c)
  {
  }

  // ── Lines ───────────────────────────────────────────────────────────

  function Split(text: string): (lines: seq<string>)
    ensures lines != []
    decreases |text|
  {
    if text == "" then [""]
    else
      var rest := Split(text[1..]);
      if text[0] == '\n' then [""] + rest else [[text[0]] + rest[0]] + rest[1..]
  }

  function Join(lines: seq<string>): string
    requires lines != []
  {
    if |lines| == 1 then lines[0] else lines[0] + "\n" + Join(lines[1..])
  }

  lemma {:induction false} JoinSplit(text: string)
    ensures Join(Split(text)) == text
    decreases |text|
  {
    if text != "" {
      var rest := Split(text[1..]);
      JoinSplit(text[1..]);
      if text[0] == '\n' {
        assert ([""] + rest)[1..] == rest;
        assert Join([""] + rest) == "" + "\n" + Join(rest);
      } else {
        JoinsLonger([text[0]], rest);
      }
    }
  }

  lemma JoinsLonger(start: string, lines: seq<string>)
    requires lines != []
    ensures Join([start + lines[0]] + lines[1..]) == start + Join(lines)
  {
    var longer := [start + lines[0]] + lines[1..];
    assert longer[1..] == lines[1..];
    if |lines| > 1 {
      Regroup(start, lines[0], "\n");
      Regroup(start, lines[0] + "\n", Join(lines[1..]));
    }
  }

  lemma {:induction false} JoinMasks(ls: seq<string>, ms: seq<string>)
    requires ls != [] && |ls| == |ms| && forall i :: 0 <= i < |ls| ==> Masks(ls[i], ms[i])
    ensures Masks(Join(ls), Join(ms))
  {
    assert Masks(ls[0], ms[0]);
    if |ls| > 1 {
      JoinMasks(ls[1..], ms[1..]);
      MasksAppend(ls[0], ms[0], "\n", "\n");
      MasksAppend(ls[0] + "\n", ms[0] + "\n", Join(ls[1..]), Join(ms[1..]));
    }
  }

  // ── Fenced blocks ───────────────────────────────────────────────────

  datatype Fence = Fence(mark: char, length: nat)

  function RunLength(line: string, i: nat, c: char): (n: nat)
    requires i <= |line|
    ensures i + n <= |line|
    ensures forall k :: i <= k < i + n ==> line[k] == c
    ensures i + n < |line| ==> line[i + n] != c
    decreases |line| - i
  {
    if i < |line| && line[i] == c then 1 + RunLength(line, i + 1, c) else 0
  }

  /** Up to three spaces, then at least three backticks or tildes. */
  function FenceMatch(line: string): Option<Fence> {
    var indent := RunLength(line, 0, ' ');
    if indent > 3 || indent == |line| || (line[indent] != '`' && line[indent] != '~') then None
    else
      var n := RunLength(line, indent, line[indent]);
      if n >= 3 then Some(Fence(line[indent], n)) else None
  }

  function StripStart(s: string): string
    decreases |s|
  {
    if s != "" && IsPythonSpace(s[0]) then StripStart(s[1..]) else s
  }

  function StripEnd(s: string): string
    decreases |s|
  {
    if s != "" && IsPythonSpace(s[|s| - 1]) then StripEnd(s[..|s| - 1]) else s
  }

  /** `not line.strip().strip(mark)`: nothing but the mark between outer whitespace. */
  predicate OnlyMark(line: string, mark: char) {
    var s := StripEnd(StripStart(line));
    forall i :: 0 <= i < |s| ==> s[i] == mark
  }

  predicate Closes(line: string, fence: Fence) {
    var m := FenceMatch(line);
    m.Some? && m.value.mark == fence.mark && m.value.length >= fence.length && OnlyMark(line, fence.mark)
  }

  /** The fence in force after a line. */
  function FenceAfter(fence: Option<Fence>, line: string): Option<Fence> {
    if fence.None? then FenceMatch(line) else if Closes(line, fence.value) then None else fence
  }

  function FenceBefore(lines: seq<string>, i: nat): Option<Fence>
    requires i <= |lines|
    decreases i
  {
    if i == 0 then None else FenceAfter(FenceBefore(lines, i - 1), lines[i - 1])
  }

  /** A line belongs to a fenced block from its opening to its closing fence. */
  predicate Fenced(lines: seq<string>, i: nat)
    requires i < |lines|
  {
    FenceBefore(lines, i).Some? || FenceMatch(lines[i]).Some?
  }

  function MaskLine(lines: seq<string>, i: nat): (r: string)
    requires i < |lines|
    ensures Masks(lines[i], r)
  {
    if Fenced(lines, i) then Blank(lines[i]) else lines[i]
  }

  function MaskLines(lines: seq<string>): (r: seq<string>)
    ensures |r| == |lines| && forall i :: 0 <= i < |r| ==> r[i] == MaskLine(lines, i) && |r[i]| == |lines[i]|
  {
    seq(|lines|, i requires 0 <= i < |lines| => MaskLine(lines, i))
  }

  function MaskFences(text: string): string {
    Join(MaskLines(Split(text)))
  }

  // ── Code spans ──────────────────────────────────────────────────────

  /** The next run of exactly `n` backticks from `i` on. */
  function FindRun(text: string, i: nat, n: nat): (r: Option<nat>)
    requires i <= |text|
    ensures r.Some? ==> i <= r.value && r.value + n <= |text| && RunLength(text, r.value, '`') == n
    decreases |text| - i
  {
    if i == |text| then None
    else if text[i] != '`' then FindRun(text, i + 1, n)
    else
      var m := RunLength(text, i, '`');
      if m == n then Some(i) else FindRun(text, i + m, n)
  }

  predicate HasBlankLine(text: string) {
    exists i :: 0 <= i < |text| - 1 && text[i] == '\n' && text[i + 1] == '\n'
  }

  /** The end of the code span that the run at `i` opens, if it opens one. */
  function SpanEnd(text: string, i: nat): (r: Option<nat>)
    requires i < |text| && text[i] == '`'
    ensures r.Some? ==> i < r.value <= |text|
  {
    var n := RunLength(text, i, '`');
    var close := FindRun(text, i + n, n);
    if close.None? || HasBlankLine(text[i + n..close.value]) then None else Some(close.value + n)
  }

  /** One step through the text: a character, a code span, or an unclosed run. */
  function PieceEnd(text: string, i: nat): (e: nat)
    requires i < |text|
    ensures i < e <= |text|
  {
    if text[i] != '`' then i + 1
    else if SpanEnd(text, i).Some? then SpanEnd(text, i).value
    else i + RunLength(text, i, '`')
  }

  function Piece(text: string, i: nat): (r: string)
    requires i < |text|
    ensures Masks(text[i..PieceEnd(text, i)], r)
  {
    var piece := text[i..PieceEnd(text, i)];
    if text[i] == '`' && SpanEnd(text, i).Some? then Blank(piece) else piece
  }

  /** The text from `i` on, which is not inside a run of backticks, with its spans blanked. */
  function MaskSpans(text: string, i: nat): string
    requires i <= |text|
    decreases |text| - i
  {
    if i == |text| then "" else Piece(text, i) + MaskSpans(text, PieceEnd(text, i))
  }

  function MaskCode(text: string): string {
    MaskSpans(MaskFences(text), 0)
  }

  lemma {:induction false} SpansMask(text: string, i: nat)
    requires i <= |text|
    ensures Masks(text[i..], MaskSpans(text, i))
    decreases |text| - i
  {
    if i < |text| {
      var e := PieceEnd(text, i);
      SpansMask(text, e);
      MasksAppend(text[i..e], Piece(text, i), text[e..], MaskSpans(text, e));
      assert text[i..] == text[i..e] + text[e..];
    }
  }

  lemma FencesMask(text: string)
    ensures Masks(text, MaskFences(text))
  {
    var lines := Split(text);
    JoinMasks(lines, MaskLines(lines));
    JoinSplit(text);
  }

  /** Masking keeps the length and every newline, and changes other characters only to
      spaces. */
  lemma MaskingKeepsPositions(text: string)
    ensures Masks(text, MaskCode(text))
  {
    FencesMask(text);
    var fenced := MaskFences(text);
    SpansMask(fenced, 0);
    assert fenced[0..] == fenced;
    MasksOn(text, fenced, MaskCode(text));
  }

  /** A fenced block runs from its opening fence to the first fence that closes it, or to
      the end of the text. */
  lemma {:induction false} FencedBlock(lines: seq<string>, i: nat)
    requires i < |lines|
    ensures Fenced(lines, i) <==> exists o :: 0 <= o <= i && InBlock(lines, o, i)
    decreases i
  {
    if Fenced(lines, i) {
      var o := OpeningOf(lines, i);
      assert InBlock(lines, o, i);
    }
    if o :| 0 <= o <= i && InBlock(lines, o, i) {
      BlockIsFenced(lines, o, i);
    }
  }

  predicate InBlock(lines: seq<string>, o: nat, i: nat)
    requires o <= i < |lines|
  {
    && FenceBefore(lines, o).None? && FenceMatch(lines[o]).Some?
    && forall k :: o < k < i ==> !Closes(lines[k], FenceMatch(lines[o]).value)
  }

  lemma {:induction false} BlockIsFenced(lines: seq<string>, o: nat, i: nat)
    requires o <= i < |lines| && InBlock(lines, o, i)
    ensures o < i ==> FenceBefore(lines, i) == FenceMatch(lines[o])
    ensures Fenced(lines, i)
    decreases i
  {
    if o < i - 1 {
      BlockIsFenced(lines, o, i - 1);
    }
  }

  lemma {:induction false} OpeningOf(lines: seq<string>, i: nat) returns (o: nat)
    requires i < |lines| && Fenced(lines, i)
    ensures o <= i && InBlock(lines, o, i)
    ensures if FenceBefore(lines, i).None? then o == i else o < i && FenceBefore(lines, i) == FenceMatch(lines[o])
    decreases i
  {
    if FenceBefore(lines, i).None? {
      o := i;
    } else {
      o := OpeningOf(lines, i - 1);
    }
  }

  /** The closing run is the first of its length after the opening run. */
  lemma {:induction false} FindRunFirst(text: string, i: nat, n: nat, k: nat)
    requires i <= k < |text| && text[k] == '`' && (k == 0 || text[k - 1] != '`') && RunLength(text, k, '`') == n
    requires i == 0 || text[i - 1] != '`' || (i < |text| && text[i] != '`')
    ensures FindRun(text, i, n).Some? && FindRun(text, i, n).value <= k
    decreases |text| - i
  {
    if i < k {
      if text[i] != '`' {
        FindRunFirst(text, i + 1, n, k);
      } else {
        var m := RunLength(text, i, '`');
        if m != n {
          assert i + m <= k;
          FindRunFirst(text, i + m, n, k);
        }
      }
    }
  }

  // ── What is blanked ─────────────────────────────────────────────────

  /** Where line `i` starts in the joined text. */
  function Offset(lines: seq<string>, i: nat): nat
    requires i <= |lines|
    decreases i
  {
    if i == 0 then 0 else Offset(lines, i - 1) + |lines[i - 1]| + 1
  }

  lemma {:induction false} OffsetRest(lines: seq<string>, i: nat)
    requires 0 < i <= |lines|
    ensures Offset(lines, i) == |lines[0]| + 1 + Offset(lines[1..], i - 1)
    decreases i
  {
    if i > 1 {
      OffsetRest(lines, i - 1);
    }
  }

  lemma {:induction false} JoinAt(lines: seq<string>, i: nat, c: nat)
    requires i < |lines| && c < |lines[i]|
    ensures Offset(lines, i) + c < |Join(lines)| && Join(lines)[Offset(lines, i) + c] == lines[i][c]
    decreases |lines|
  {
    if i > 0 {
      OffsetRest(lines, i);
      JoinAt(lines[1..], i - 1, c);
      AfterFirst(lines[0], Join(lines[1..]), Offset(lines[1..], i - 1) + c);
    }
  }

  lemma AfterFirst(first: string, rest: string, k: nat)
    requires k < |rest|
    ensures (first + "\n" + rest)[|first| + 1 + k] == rest[k]
  {
  }

  lemma {:induction false} SameOffsets(ls: seq<string>, ms: seq<string>, i: nat)
    requires |ls| == |ms| && i <= |ls| && forall k :: 0 <= k < |ls| ==> |ls[k]| == |ms[k]|
    ensures Offset(ls, i) == Offset(ms, i)
    decreases i
  {
    if i > 0 {
      SameOffsets(ls, ms, i - 1);
    }
  }

  /** Every character of a fenced line is blank once masking is done, and nothing of any
      other line is touched by the fences. */
  lemma FencedLinesAreBlank(text: string, i: nat, c: nat)
    requires i < |Split(text)| && c < |Split(text)[i]|
    ensures var k := Offset(Split(text), i) + c;
            && k < |text| == |MaskFences(text)| == |MaskCode(text)| && text[k] == Split(text)[i][c]
            && (Fenced(Split(text), i) ==> MaskCode(text)[k] == Blank(Split(text)[i])[c])
            && (!Fenced(Split(text), i) ==> MaskFences(text)[k] == text[k])
  {
    JoinSplit(text);
    FencesThenSpans(text);
    FencedAt(Split(text), text, MaskFences(text), MaskCode(text), i, c);
  }

  lemma FencedAt(lines: seq<string>, text: string, fences: string, code: string, i: nat, c: nat)
    requires i < |lines| && c < |lines[i]| && Join(lines) == text && Join(MaskLines(lines)) == fences
    requires Masks(text, fences) && Masks(fences, code)
    ensures var k := Offset(lines, i) + c;
            && k < |text| == |fences| == |code| && text[k] == lines[i][c]
            && (Fenced(lines, i) ==> code[k] == Blank(lines[i])[c])
            && (!Fenced(lines, i) ==> fences[k] == text[k])
  {
    MaskedAt(lines, i, c);
  }

  lemma FencesThenSpans(text: string)
    ensures Masks(text, MaskFences(text)) && Masks(MaskFences(text), MaskCode(text))
  {
    FencesMask(text);
    SpansMask(MaskFences(text), 0);
    assert MaskFences(text)[0..] == MaskFences(text);
  }

  lemma MaskedAt(lines: seq<string>, i: nat, c: nat)
    requires i < |lines| && c < |lines[i]|
    ensures var k := Offset(lines, i) + c;
            && k < |Join(lines)| && k < |Join(MaskLines(lines))|
            && Join(lines)[k] == lines[i][c] && Join(MaskLines(lines))[k] == MaskLine(lines, i)[c]
  {
    JoinAt(lines, i, c);
    JoinAt(MaskLines(lines), i, c);
    SameOffsets(lines, MaskLines(lines), i);
  }

  /** The walk over characters, spans and unclosed runs steps on `p`. */
  predicate StepsOn(text: string, i: nat, p: nat)
    requires i <= |text|
    decreases |text| - i
  {
    i == p || (i < |text| && i < p && StepsOn(text, PieceEnd(text, i), p))
  }

  predicate IsSpan(text: string, p: nat) {
    p < |text| && text[p] == '`' && SpanEnd(text, p).Some?
  }

  /** Every position lies in one step of the walk, and is blanked exactly when that step is
      a code span. */
  lemma {:induction false} SpansAreBlank(text: string, i: nat, k: nat) returns (p: nat)
    requires i <= k < |text|
    ensures |MaskSpans(text, i)| == |text| - i
    ensures i <= p <= k < PieceEnd(text, p) && StepsOn(text, i, p)
    ensures MaskSpans(text, i)[k - i] == if IsSpan(text, p) && text[k] != '\n' then ' ' else text[k]
    decreases |text| - i
  {
    MaskAt(text, i, k);
    var e := PieceEnd(text, i);
    if k < e {
      p := i;
      PieceAt(text, i, k);
    } else {
      p := SpansAreBlank(text, e, k);
      assert StepsOn(text, i, p);
    }
  }

  lemma MaskAt(text: string, i: nat, k: nat)
    requires i <= k < |text|
    ensures var e := PieceEnd(text, i);
            && |MaskSpans(text, i)| == |text| - i && |MaskSpans(text, e)| == |text| - e && |Piece(text, i)| == e - i
            && MaskSpans(text, i)[k - i] == if k < e then Piece(text, i)[k - i] else MaskSpans(text, e)[k - e]
  {
    SpansMask(text, i);
    SpansMask(text, PieceEnd(text, i));
  }

  lemma PieceAt(text: string, i: nat, k: nat)
    requires i <= k < |text| && k < PieceEnd(text, i)
    ensures |Piece(text, i)| == PieceEnd(text, i) - i
    ensures Piece(text, i)[k - i] == if IsSpan(text, i) && text[k] != '\n' then ' ' else text[k]
  {
  }

  /** `mask_code`: first the lines in place, then the spans with a moving cursor. */
  method MaskCodeInPlace(text: string) returns (masked: string)
    ensures masked == MaskCode(text) && Masks(text, masked)
  {
    MaskingKeepsPositions(text);
    var lines := MaskFencedLines(Split(text));
    masked := MaskSpansInPlace(Join(lines));
  }

  method MaskFencedLines(original: seq<string>) returns (lines: seq<string>)
    ensures lines == MaskLines(original)
  {
    lines := original;
    var fence: Option<Fence> := None;
    var index := 0;
    while index < |lines|
      invariant 0 <= index <= |lines| == |original|
      invariant fence == FenceBefore(original, index)
      invariant forall k :: 0 <= k < index ==> lines[k] == MaskLine(original, k)
      invariant forall k :: index <= k < |lines| ==> lines[k] == original[k]
    {
      var line := lines[index];
      var found := FenceMatch(line);
      if fence.None? {
        if found.Some? {
          fence := found;
          lines := lines[index := Blank(line)];
        }
      } else {
        if found.Some? && found.value.mark == fence.value.mark && found.value.length >= fence.value.length
           && OnlyMark(line, fence.value.mark) {
          fence := None;
        }
        lines := lines[index := Blank(line)];
      }
      index := index + 1;
    }
  }

  method MaskSpansInPlace(text: string) returns (masked: string)
    ensures masked == MaskSpans(text, 0)
  {
    var out := "";
    var cursor := 0;
    var i := 0;
    while i < |text|
      invariant 0 <= cursor <= i <= |text|
      invariant MaskSpans(text, 0) == (out + text[cursor..i]) + MaskSpans(text, i)
    {
      var e := PieceEnd(text, i);
      PieceMoves(text, out, cursor, i);
      if text[i] == '`' && SpanEnd(text, i).Some? {
        out := out + text[cursor..i];
        out := out + Blank(text[i..e]);
        cursor := e;
      }
      i := e;
    }
    assert text[cursor..] == text[cursor..i];
    masked := out + text[cursor..];
  }

  /** One step of the cursor and the output. */
  lemma PieceMoves(text: string, out: string, cursor: nat, i: nat)
    requires cursor <= i < |text|
    ensures var e := PieceEnd(text, i);
            var spans := text[i] == '`' && SpanEnd(text, i).Some?;
            var out' := if spans then out + text[cursor..i] + Blank(text[i..e]) else out;
            var cursor' := if spans then e else cursor;
            (out + text[cursor..i]) + MaskSpans(text, i) == (out' + text[cursor'..e]) + MaskSpans(text, e)
  {
    var head, e := out + text[cursor..i], PieceEnd(text, i);
    assert head + MaskSpans(text, i) == (head + Piece(text, i)) + MaskSpans(text, e) by {
      Regroup(head, Piece(text, i), MaskSpans(text, e));
    }
    if IsSpan(text, i) {
      assert (head + Piece(text, i)) + text[e..e] == head + Piece(text, i);
    } else {
      Copied(out, text, cursor, i, e);
    }
  }

  lemma Copied(out: string, text: string, a: nat, b: nat, c: nat)
    requires a <= b <= c <= |text|
    ensures (out + text[a..b]) + text[b..c] == out + text[a..c]
  {
    assert text[a..b] + text[b..c] == text[a..c];
    Regroup(out, text[a..b], text[b..c]);
  }
}
