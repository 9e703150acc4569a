/** Fences and code spans as Markdown describes them, and that blanking finds exactly those. */
module CodeShapes {
  import opened Options
  import opened Whitespace
  import opened CodeMask

  // ── Fences ──────────────────────────────────────────────────────────

  predicate AllAre(s: string, i: nat, j: nat, c: char)
    requires i <= j <= |s|
  {
    forall k :: i <= k < j ==> s[k] == c
  }

  predicate AllBlank(s: string, i: nat, j: nat)
    requires i <= j <= |s|
  {
    forall k :: i <= k < j ==> IsPythonSpace(s[k])
  }

  /** Up to three spaces, then exactly `n` marks, at least three, all backticks or tildes. */
  predicate FenceAfterIndent(line: string, indent: nat, mark: char, n: nat) {
    && indent <= 3 <= n && indent + n <= |line| && (mark == '`' || mark == '~')
    && AllAre(line, 0, indent, ' ') && AllAre(line, indent, indent + n, mark)
    && (indent + n < |line| ==> line[indent + n] != mark)
  }

  ghost predicate OpensFence(line: string, mark: char, n: nat) {
    exists indent :: FenceAfterIndent(line, indent, mark, n)
  }

  lemma SameRun(line: string, i: nat, c: char, n: nat)
    requires i + n <= |line| && AllAre(line, i, i + n, c) && (i + n < |line| ==> line[i + n] != c)
    ensures RunLength(line, i, c) == n
  {
    var m := RunLength(line, i, c);
    assert !(i <= i + m < i + n) && !(i <= i + n < i + m);
  }

  lemma FenceMatchIs(line: string, mark: char, n: nat)
    ensures FenceMatch(line) == Some(Fence(mark, n)) <==> OpensFence(line, mark, n)
  {
    var indent := RunLength(line, 0, ' ');
    if FenceMatch(line) == Some(Fence(mark, n)) {
      assert FenceAfterIndent(line, indent, mark, n);
    }
    if i: nat :| FenceAfterIndent(line, i, mark, n) {
      assert line[i] == mark;
      SameRun(line, 0, ' ', i);
      SameRun(line, i, mark, n);
    }
  }

  /** Nothing but marks, apart from whitespace at either end. */
  ghost predicate MarksOnly(line: string, mark: char) {
    exists i, j :: 0 <= i <= j <= |line|
                   && AllBlank(line, 0, i) && AllAre(line, i, j, mark) && AllBlank(line, j, |line|)
  }

  lemma {:induction false} StripsStart(s: string) returns (i: nat)
    ensures i <= |s| && StripStart(s) == s[i..] && AllBlank(s, 0, i) && (i < |s| ==> !IsPythonSpace(s[i]))
    decreases |s|
  {
    if s != "" && IsPythonSpace(s[0]) {
      i := StripsStart(s[1..]);
      forall k | 0 <= k < i + 1 ensures IsPythonSpace(s[k]) {
        assert k > 0 ==> s[k] == s[1..][k - 1];
      }
      i := i + 1;
    } else {
      i := 0;
    }
  }

  lemma {:induction false} StripsEnd(s: string) returns (j: nat)
    ensures j <= |s| && StripEnd(s) == s[..j] && AllBlank(s, j, |s|) && (j > 0 ==> !IsPythonSpace(s[j - 1]))
    decreases |s|
  {
    if s != "" && IsPythonSpace(s[|s| - 1]) {
      j := StripsEnd(s[..|s| - 1]);
    } else {
      j := |s|;
    }
  }

  lemma OnlyMarkIs(line: string, mark: char)
    requires !IsPythonSpace(mark)
    ensures OnlyMark(line, mark) <==> MarksOnly(line, mark)
  {
    var a := StripsStart(line);
    var b := StripsEnd(line[a..]);
    var s := StripEnd(StripStart(line));
    assert s == line[a..a + b];
    if OnlyMark(line, mark) {
      forall k | a <= k < a + b ensures line[k] == mark {
        assert s[k - a] == line[k];
      }
      forall k | a + b <= k < |line| ensures IsPythonSpace(line[k]) {
        assert line[a..][k - a] == line[k];
      }
      assert AllAre(line, a, a + b, mark) && AllBlank(line, a + b, |line|);
    }
    if i, j :| 0 <= i <= j <= |line| && AllBlank(line, 0, i) && AllAre(line, i, j, mark) && AllBlank(line, j, |line|) {
      forall k | 0 <= k < |s| ensures s[k] == mark {
        MarkInside(line, mark, i, j, a, b, k);
      }
    }
  }

  lemma MarkInside(line: string, mark: char, i: nat, j: nat, a: nat, b: nat, k: nat)
    requires !IsPythonSpace(mark) && i <= j <= |line| && a + b <= |line| && k < b
    requires AllBlank(line, 0, i) && AllAre(line, i, j, mark) && AllBlank(line, j, |line|)
    requires AllBlank(line, 0, a) && !IsPythonSpace(line[a]) && !IsPythonSpace(line[a + b - 1])
    ensures line[a + k] == mark
  {
    assert !(0 <= a < i) && !(j <= a < |line|);
    assert !(j <= a + b - 1 < |line|);
  }

  /** A fence is closed by a line of the same marks, at least as many, and nothing else. */
  lemma ClosesIs(line: string, fence: Fence)
    requires fence.mark == '`' || fence.mark == '~'
    ensures Closes(line, fence)
        <==> (exists n :: fence.length <= n && OpensFence(line, fence.mark, n)) && MarksOnly(line, fence.mark)
  {
    OnlyMarkIs(line, fence.mark);
    var m := FenceMatch(line);
    if m.Some? {
      FenceMatchIs(line, m.value.mark, m.value.length);
    }
    if n :| fence.length <= n && OpensFence(line, fence.mark, n) {
      FenceMatchIs(line, fence.mark, n);
    }
  }

  // ── Code spans ──────────────────────────────────────────────────────

  /** A whole run of `n` backticks. */
  predicate RunAt(text: string, c: nat, n: nat) {
    && n > 0 && c + n <= |text| && AllAre(text, c, c + n, '`')
    && (c > 0 ==> text[c - 1] != '`') && (c + n < |text| ==> text[c + n] != '`')
  }

  predicate StartsRun(text: string, p: nat) {
    p < |text| && text[p] == '`' && (p > 0 ==> text[p - 1] != '`')
  }

  lemma StartIsRun(text: string, p: nat)
    requires StartsRun(text, p)
    ensures RunAt(text, p, RunLength(text, p, '`'))
    ensures forall n :: RunAt(text, p, n) ==> n == RunLength(text, p, '`')
  {
    var m := RunLength(text, p, '`');
    assert text[p] == '`' && m > 0;
    forall n | RunAt(text, p, n) ensures n == m {
      SameRun(text, p, '`', n);
    }
  }

  /** Not in the middle of a run. */
  predicate Aligned(text: string, i: nat) {
    i <= |text| && !(0 < i < |text| && text[i - 1] == '`' && text[i] == '`')
  }

  /** The first whole run of `n` backticks from `i` on. */
  ghost predicate FirstRun(text: string, i: nat, n: nat, c: nat) {
    i <= c && RunAt(text, c, n) && NoRun(text, i, c, n)
  }

  /** There is no run of `n` from `i` up to `j`. */
  ghost predicate NoRun(text: string, i: nat, j: nat, n: nat) {
    forall b :: i <= b < j ==> !RunAt(text, b, n)
  }

  lemma NoRunInRun(text: string, i: nat, n: nat)
    requires StartsRun(text, i) && n != RunLength(text, i, '`')
    ensures NoRun(text, i, i + RunLength(text, i, '`'), n)
  {
    StartIsRun(text, i);
    forall b | i <= b < i + RunLength(text, i, '`') ensures !RunAt(text, b, n) {
      assert b > i ==> text[b - 1] == '`';
    }
  }

  ghost predicate Finds(text: string, i: nat, n: nat, found: Option<nat>) {
    if found.Some? then i <= found.value && RunAt(text, found.value, n) && NoRun(text, i, found.value, n)
    else NoRun(text, i, |text|, n)
  }

  lemma FindsFrom(text: string, i: nat, j: nat, n: nat, found: Option<nat>)
    requires i <= j && NoRun(text, i, j, n) && Finds(text, j, n, found)
    ensures Finds(text, i, n, found)
  {
  }

  lemma NoRunHere(text: string, i: nat, n: nat)
    requires i < |text| && text[i] != '`'
    ensures NoRun(text, i, i + 1, n)
  {
  }

  lemma {:induction false} FindRunIs(text: string, i: nat, n: nat)
    requires Aligned(text, i) && n > 0
    ensures Finds(text, i, n, FindRun(text, i, n))
    decreases |text| - i
  {
    if i < |text| && text[i] != '`' {
      FindRunIs(text, i + 1, n);
      NoRunHere(text, i, n);
      FindsFrom(text, i, i + 1, n, FindRun(text, i, n));
    } else if i < |text| {
      var m := RunLength(text, i, '`');
      StartIsRun(text, i);
      if m != n {
        FindRunIs(text, i + m, n);
        NoRunInRun(text, i, n);
        FindsFrom(text, i, i + m, n, FindRun(text, i, n));
      }
    }
  }

  predicate BlankLineIn(text: string, i: nat, j: nat)
    requires i <= j <= |text|
  {
    exists k :: i <= k && k + 1 < j && text[k] == '\n' && text[k + 1] == '\n'
  }

  /** A run of `n` backticks at `p`, the first later run of the same length at `c`, and no
      blank line between them. */
  ghost predicate SpanOf(text: string, p: nat, n: nat, c: nat) {
    RunAt(text, p, n) && FirstRun(text, p + n, n, c) && !BlankLineIn(text, p + n, c)
  }

  /** A code span from `p` to `e`. */
  ghost predicate SpanFrom(text: string, p: nat, e: nat) {
    exists n: nat, c: nat :: SpanOf(text, p, n, c) && e == c + n
  }

  lemma BlankLineIs(text: string, i: nat, j: nat)
    requires i <= j <= |text|
    ensures HasBlankLine(text[i..j]) <==> BlankLineIn(text, i, j)
  {
    var s := text[i..j];
    if k :| 0 <= k < |s| - 1 && s[k] == '\n' && s[k + 1] == '\n' {
      assert text[i + k] == '\n' && text[i + k + 1] == '\n';
    }
    if k :| i <= k && k + 1 < j && text[k] == '\n' && text[k + 1] == '\n' {
      assert s[k - i] == '\n' && s[k - i + 1] == '\n';
    }
  }

  lemma FindRunFinds(text: string, i: nat, n: nat, c: nat)
    requires Aligned(text, i) && n > 0
    ensures FindRun(text, i, n) == Some(c) <==> FirstRun(text, i, n, c)
  {
    FindRunIs(text, i, n);
    if FirstRun(text, i, n, c) {
      assert FindRun(text, i, n).Some?;
      var d := FindRun(text, i, n).value;
      assert !(i <= d < c) && !(i <= c < d);
    }
  }

  lemma SpanWhen(text: string, p: nat, n: nat, c: nat)
    requires StartsRun(text, p) && n == RunLength(text, p, '`') && RunAt(text, p, n)
    ensures SpanOf(text, p, n, c)
        <==> FindRun(text, p + n, n) == Some(c) && !HasBlankLine(text[p + n..c])
  {
    FindRunFinds(text, p + n, n, c);
    if FirstRun(text, p + n, n, c) {
      BlankLineIs(text, p + n, c);
    }
  }

  lemma SpanEnds(text: string, p: nat, m: nat, c: nat)
    requires StartsRun(text, p) && SpanOf(text, p, m, c)
    ensures SpanEnd(text, p) == Some(c + m)
  {
    StartIsRun(text, p);
    RunsAgree(text, p, m, RunLength(text, p, '`'));
    SpanWhen(text, p, m, c);
  }

  lemma SpanThere(text: string, p: nat)
    requires StartsRun(text, p) && SpanEnd(text, p).Some?
    ensures var n := RunLength(text, p, '`');
            SpanEnd(text, p).value >= n && SpanOf(text, p, n, SpanEnd(text, p).value - n)
  {
    var n := RunLength(text, p, '`');
    StartIsRun(text, p);
    SpanWhen(text, p, n, FindRun(text, p + n, n).value);
  }

  lemma SpanIs(text: string, p: nat, e: nat)
    requires StartsRun(text, p)
    ensures SpanEnd(text, p) == Some(e) <==> SpanFrom(text, p, e)
  {
    if SpanEnd(text, p) == Some(e) {
      SpanThere(text, p);
    }
    if m: nat, c: nat :| SpanOf(text, p, m, c) && e == c + m {
      SpanEnds(text, p, m, c);
    }
  }

  lemma RunsAgree(text: string, p: nat, m: nat, n: nat)
    requires RunAt(text, p, m) && RunAt(text, p, n)
    ensures m == n
  {
    SameRun(text, p, '`', m);
    SameRun(text, p, '`', n);
  }

  // ── Which spans are there ───────────────────────────────────────────

  /** Reading from the left: a run that no span before it covers. */
  ghost predicate Free(text: string, p: nat)
    decreases p
  {
    StartsRun(text, p) && forall q, e: nat :: 0 <= q < p && Free(text, q) && SpanFrom(text, q, e) ==> e <= p
  }

  /** No span that starts before `i` goes past it. */
  ghost predicate Clear(text: string, i: nat) {
    forall q, e: nat :: 0 <= q < i && Free(text, q) && SpanFrom(text, q, e) ==> e <= i
  }

  lemma PieceAligned(text: string, i: nat)
    requires i < |text| && Aligned(text, i)
    ensures Aligned(text, PieceEnd(text, i)) && (text[i] == '`' ==> StartsRun(text, i))
  {
    if text[i] == '`' {
      StartIsRun(text, i);
      if SpanEnd(text, i).Some? {
        var n := RunLength(text, i, '`');
        FindRunIs(text, i + n, n);
      }
    }
  }

  lemma PieceClear(text: string, i: nat)
    requires i < |text| && Aligned(text, i) && Clear(text, i)
    ensures Clear(text, PieceEnd(text, i))
  {
    var end := PieceEnd(text, i);
    PieceAligned(text, i);
    forall q, e: nat | 0 <= q < end && Free(text, q) && SpanFrom(text, q, e) ensures e <= end {
      if q == i {
        SpanIs(text, i, e);
      } else if q > i {
        NoneInside(text, i, q);
      }
    }
  }

  /** Inside a step no other run is free. */
  lemma NoneInside(text: string, i: nat, q: nat)
    requires i < |text| && Aligned(text, i) && Clear(text, i) && i < q < PieceEnd(text, i)
    ensures !Free(text, q)
  {
    PieceAligned(text, i);
    if SpanEnd(text, i).Some? {
      SpanIs(text, i, SpanEnd(text, i).value);
      assert Free(text, i);
    } else {
      assert text[q - 1] == '`';
    }
  }

  lemma {:induction false} StepsAreFree(text: string, i: nat, p: nat)
    requires i <= p && Aligned(text, i) && Clear(text, i) && StartsRun(text, p)
    ensures StepsOn(text, i, p) <==> Free(text, p)
    decreases |text| - i
  {
    if i < p {
      var e := PieceEnd(text, i);
      if p < e {
        NoneInside(text, i, p);
      } else {
        PieceAligned(text, i);
        PieceClear(text, i);
        StepsAreFree(text, e, p);
      }
    }
  }

  lemma {:induction false} StepsAligned(text: string, i: nat, p: nat)
    requires Aligned(text, i) && StepsOn(text, i, p)
    ensures i <= p && Aligned(text, p)
    decreases |text| - i
  {
    if i < p {
      PieceAligned(text, i);
      StepsAligned(text, PieceEnd(text, i), p);
    }
  }

  lemma {:induction false} StepsApart(text: string, i: nat, a: nat, b: nat)
    requires Aligned(text, i) && StepsOn(text, i, a) && StepsOn(text, i, b) && a < b && a < |text|
    ensures PieceEnd(text, a) <= b
    decreases |text| - i
  {
    StepsAligned(text, i, a);
    PieceAligned(text, i);
    if i == a {
      StepsAligned(text, PieceEnd(text, i), b);
    } else {
      StepsApart(text, PieceEnd(text, i), a, b);
    }
  }

  /** In a code span that starts at a free run. */
  ghost predicate InSpan(text: string, k: nat) {
    exists p, e: nat :: 0 <= p <= k < e && Free(text, p) && SpanFrom(text, p, e)
  }

  /** The span pass blanks exactly the code spans: what lies in one becomes spaces, but for
      newlines, and nothing else changes. */
  lemma SpansExactly(text: string, k: nat)
    requires k < |text|
    ensures |MaskSpans(text, 0)| == |text|
    ensures MaskSpans(text, 0)[k] == if InSpan(text, k) && text[k] != '\n' then ' ' else text[k]
  {
    var p := SpansAreBlank(text, 0, k);
    StepsAligned(text, 0, p);
    if IsSpan(text, p) {
      StepsAreFree(text, 0, p);
      SpanIs(text, p, SpanEnd(text, p).value);
      assert InSpan(text, k);
    } else if q, e: nat :| 0 <= q <= k < e && Free(text, q) && SpanFrom(text, q, e) {
      StepIsSpan(text, p, q, e, k);
      assert false;
    }
  }

  lemma StepIsSpan(text: string, p: nat, q: nat, e: nat, k: nat)
    requires k < |text| && p <= k < PieceEnd(text, p) && StepsOn(text, 0, p)
    requires q <= k < e && Free(text, q) && SpanFrom(text, q, e)
    ensures IsSpan(text, p)
  {
    StepsAreFree(text, 0, q);
    SpanIs(text, q, e);
    if p < q {
      StepsApart(text, 0, p, q);
    } else if q < p {
      StepsApart(text, 0, q, p);
    }
  }
}
