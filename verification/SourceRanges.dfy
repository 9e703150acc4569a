/** The rendered text of a range of markdown source: which runs a range takes in, which
    part of each run, and when the texts of two adjoining ranges join up. */
module SourceRanges {
  import opened Options
  import opened Whitespace

  /** A run of rendered text and the source span it came from, in UTF-16 units. */
  datatype Run = Run(start: int, end: int, text: string)

  function Min(a: int, b: int): int {
    if a <= b then a else b
  }

  function Max(a: int, b: int): int {
    if a >= b then a else b
  }

  function Clamp(value: int, lo: int, hi: int): int {
    Min(hi, Max(lo, value))
  }

  /** The rendered text stands for the source character by character. */
  predicate Transparent(r: Run) {
    |r.text| == Max(0, r.end - r.start)
  }

  predicate Overlaps(r: Run, start: int, end: int) {
    r.start < end && r.end > start
  }

  /** What a run that overlaps the range contributes. */
  function Slice(r: Run, start: int, end: int): string {
    if Transparent(r) then
      var from := Clamp(start - r.start, 0, |r.text|);
      var to := Clamp(end - r.start, 0, |r.text|);
      if to > from then r.text[from..to] else ""
    else r.text
  }

  /** What any run contributes. */
  function Part(r: Run, start: int, end: int): string {
    if start < end && Overlaps(r, start, end) then Slice(r, start, end) else ""
  }

  function Text(runs: seq<Run>, start: int, end: int): string {
    if runs == [] then "" else Part(runs[0], start, end) + Text(runs[1..], start, end)
  }

  /** Runs in source order that do not overlap. */
  predicate InSourceOrder(runs: seq<Run>) {
    && (forall i :: 0 <= i < |runs| ==> runs[i].start <= runs[i].end)
    && (forall i, j :: 0 <= i < j < |runs| ==> runs[i].end <= runs[j].start)
  }

  // ── What one run contributes ────────────────────────────────────────

  /** The characters of a transparent run whose source positions lie in the range. */
  function Overlap(r: Run, start: int, end: int): string
    requires Transparent(r)
  {
    var lo, hi := Max(start, r.start), Min(end, r.end);
    if lo < hi then r.text[lo - r.start..hi - r.start] else ""
  }

  /** A transparent run contributes exactly the characters whose source positions lie in
      both the run and the range. */
  lemma PartIsOverlap(r: Run, start: int, end: int)
    requires Transparent(r)
    ensures Part(r, start, end) == Overlap(r, start, end)
  {
  }

  /** Any other run contributes all of its text when it overlaps the range, or nothing. */
  lemma PartIsWhole(r: Run, start: int, end: int)
    requires |r.text| != Max(0, r.end - r.start)
    ensures Part(r, start, end) == if start < end && start < r.end && r.start < end then r.text else ""
  {
  }

  /** A run that is not transparent cannot be cut at `b`. */
  predicate CutApart(r: Run, a: int, b: int, c: int) {
    a < b < c && !Transparent(r) && r.text != "" && r.start < b < r.end
  }

  /** Text that stands for no source is in neither part when the cut is at its position. */
  predicate CutAway(r: Run, a: int, b: int, c: int) {
    a < b < c && !Transparent(r) && r.text != "" && r.start == b == r.end
  }

  predicate Uncuttable(r: Run, a: int, b: int, c: int) {
    CutApart(r, a, b, c) || CutAway(r, a, b, c)
  }

  lemma PartSplits(r: Run, a: int, b: int, c: int)
    requires a <= b <= c && r.start <= r.end && !Uncuttable(r, a, b, c)
    ensures Part(r, a, b) + Part(r, b, c) == Part(r, a, c)
  {
    if Transparent(r) {
      TransparentSplits(r, a, b, c);
    }
  }

  lemma TransparentSplits(r: Run, a: int, b: int, c: int)
    requires a <= b <= c && r.start <= r.end && Transparent(r)
    ensures Part(r, a, b) + Part(r, b, c) == Part(r, a, c)
  {
    PartIsOverlap(r, a, b);
    PartIsOverlap(r, b, c);
    PartIsOverlap(r, a, c);
    OverlapSplits(r, a, b, c);
  }

  lemma OverlapSplits(r: Run, a: int, b: int, c: int)
    requires a <= b <= c && r.start <= r.end && Transparent(r)
    ensures Overlap(r, a, b) + Overlap(r, b, c) == Overlap(r, a, c)
  {
    if Max(a, r.start) < b < Min(c, r.end) {
      SliceSplits(r.text, Max(a, r.start) - r.start, b - r.start, Min(c, r.end) - r.start);
    }
  }

  lemma SliceSplits(t: string, i: nat, j: nat, k: nat)
    requires i <= j <= k <= |t|
    ensures t[i..j] + t[j..k] == t[i..k]
  {
  }

  /** How many characters a cut adds or loses. */
  function Excess(r: Run, a: int, b: int, c: int): int {
    |Part(r, a, b)| + |Part(r, b, c)| - |Part(r, a, c)|
  }

  lemma ExcessOfRun(r: Run, a: int, b: int, c: int)
    requires a <= b <= c && r.start <= r.end
    ensures CutApart(r, a, b, c) ==> Excess(r, a, b, c) > 0
    ensures CutAway(r, a, b, c) ==> Excess(r, a, b, c) < 0
    ensures !Uncuttable(r, a, b, c) ==> Excess(r, a, b, c) == 0
  {
    if !Uncuttable(r, a, b, c) {
      PartSplits(r, a, b, c);
    }
  }

  // ── Adjoining ranges ────────────────────────────────────────────────

  lemma {:induction false} NothingBefore(runs: seq<Run>, start: int, end: int)
    requires forall i :: 0 <= i < |runs| ==> end <= runs[i].start
    ensures Text(runs, start, end) == ""
  {
    if runs != [] {
      NothingBefore(runs[1..], start, end);
    }
  }

  lemma Later(runs: seq<Run>)
    requires runs != [] && InSourceOrder(runs)
    ensures InSourceOrder(runs[1..]) && forall i :: 0 <= i < |runs[1..]| ==> runs[0].end <= runs[1..][i].start
  {
  }

  lemma JoinsBefore(p: string, q: string, t: string)
    ensures (p + "") + (q + t) == (p + q) + t && "" + t == t
  {
  }

  lemma JoinsAfter(p: string, t: string, u: string)
    ensures (p + t) + ("" + u) == p + (t + u) && p + "" == p
  {
  }

  lemma {:induction false} TextSplits(runs: seq<Run>, a: int, b: int, c: int)
    requires a <= b <= c && InSourceOrder(runs)
    requires forall i :: 0 <= i < |runs| ==> !Uncuttable(runs[i], a, b, c)
    ensures Text(runs, a, b) + Text(runs, b, c) == Text(runs, a, c)
  {
    if runs != [] {
      var r, rest := runs[0], runs[1..];
      Later(runs);
      TextSplits(rest, a, b, c);
      PartSplits(r, a, b, c);
      if r.end > b {
        NothingBefore(rest, a, b);
        JoinsBefore(Part(r, a, b), Part(r, b, c), Text(rest, b, c));
      } else {
        JoinsAfter(Part(r, a, b), Text(rest, a, b), Text(rest, b, c));
      }
    }
  }

  function TotalExcess(runs: seq<Run>, a: int, b: int, c: int): int {
    if runs == [] then 0 else Excess(runs[0], a, b, c) + TotalExcess(runs[1..], a, b, c)
  }

  lemma {:induction false} ExcessIsLength(runs: seq<Run>, a: int, b: int, c: int)
    ensures |Text(runs, a, b)| + |Text(runs, b, c)| - |Text(runs, a, c)| == TotalExcess(runs, a, b, c)
  {
    if runs != [] {
      ExcessIsLength(runs[1..], a, b, c);
    }
  }

  /** Runs in order cannot both straddle a position and stand at it. */
  lemma {:induction false} ExcessSign(runs: seq<Run>, a: int, b: int, c: int)
    requires a <= b <= c && InSourceOrder(runs)
    ensures (forall i :: 0 <= i < |runs| ==> !CutApart(runs[i], a, b, c)) ==> TotalExcess(runs, a, b, c) <= 0
    ensures (forall i :: 0 <= i < |runs| ==> !CutAway(runs[i], a, b, c)) ==> TotalExcess(runs, a, b, c) >= 0
    ensures TotalExcess(runs, a, b, c) == 0 ==> forall i :: 0 <= i < |runs| ==> !Uncuttable(runs[i], a, b, c)
  {
    if runs != [] {
      var r, rest := runs[0], runs[1..];
      Later(runs);
      ExcessSign(rest, a, b, c);
      ExcessOfRun(r, a, b, c);
      if Uncuttable(r, a, b, c) {
        forall i | 0 <= i < |rest| ensures if CutApart(r, a, b, c) then !Uncuttable(rest[i], a, b, c)
                                                                  else !CutApart(rest[i], a, b, c) {
          assert r.end <= rest[i].start;
        }
      } else {
        assert forall i :: 0 < i < |runs| ==> runs[i] == rest[i - 1];
      }
    }
  }

  /** The text of [a, b] followed by the text of [b, c] is the text of [a, c] exactly when
      no run that cannot be cut lies across `b`. */
  lemma RangesJoin(runs: seq<Run>, a: int, b: int, c: int)
    requires a <= b <= c && InSourceOrder(runs)
    ensures Text(runs, a, b) + Text(runs, b, c) == Text(runs, a, c)
        <==> forall i :: 0 <= i < |runs| ==> !Uncuttable(runs[i], a, b, c)
  {
    if forall i :: 0 <= i < |runs| ==> !Uncuttable(runs[i], a, b, c) {
      TextSplits(runs, a, b, c);
    } else {
      ExcessIsLength(runs, a, b, c);
      ExcessSign(runs, a, b, c);
    }
  }

  // ── Whitespace ──────────────────────────────────────────────────────

  /** `replace(/\s+/g, " ")`: `after` says the character before was a space. */
  function Collapse(s: string, after: bool): string
    decreases |s|
  {
    if s == "" then ""
    else if IsScriptSpace(s[0]) then (if after then "" else " ") + Collapse(s[1..], true)
    else [s[0]] + Collapse(s[1..], false)
  }

  function TrimLeft(s: string): string
    decreases |s|
  {
    if s != "" && IsScriptSpace(s[0]) then TrimLeft(s[1..]) else s
  }

  function TrimRight(s: string): string
    decreases |s|
  {
    if s != "" && IsScriptSpace(s[|s| - 1]) then TrimRight(s[..|s| - 1]) else s
  }

  function Normalize(s: string): string {
    TrimRight(TrimLeft(Collapse(s, false)))
  }

  function Solid(s: string): string
    decreases |s|
  {
    if s == "" then ""
    else if IsScriptSpace(s[|s| - 1]) then Solid(s[..|s| - 1])
    else Solid(s[..|s| - 1]) + [s[|s| - 1]]
  }

  lemma {:induction false} SolidAppend(s: string, t: string)
    ensures Solid(s + t) == Solid(s) + Solid(t)
    decreases |t|
  {
    if t == "" {
      assert s + t == s;
    } else {
      assert (s + t)[..|s| + |t| - 1] == s + t[..|t| - 1];
      SolidAppend(s, t[..|t| - 1]);
    }
  }

  lemma SolidOne(c: char)
    ensures Solid([c]) == if IsScriptSpace(c) then "" else [c]
  {
    assert [c][..0] == "";
  }

  lemma {:induction false} CollapseKeeps(s: string, after: bool)
    ensures Solid(Collapse(s, after)) == Solid(s)
    decreases |s|
  {
    if s != "" {
      assert s == [s[0]] + s[1..];
      SolidAppend([s[0]], s[1..]);
      SolidOne(s[0]);
      CollapseKeeps(s[1..], IsScriptSpace(s[0]));
      if IsScriptSpace(s[0]) {
        SolidOne(' ');
        SolidAppend(" ", Collapse(s[1..], true));
        assert "" + Collapse(s[1..], true) == Collapse(s[1..], true);
        assert "" + Solid(s[1..]) == Solid(s[1..]);
      } else {
        SolidAppend([s[0]], Collapse(s[1..], false));
      }
    }
  }

  lemma {:induction false} TrimLeftKeeps(s: string)
    ensures Solid(TrimLeft(s)) == Solid(s)
    decreases |s|
  {
    if s != "" && IsScriptSpace(s[0]) {
      assert s == [s[0]] + s[1..];
      SolidAppend([s[0]], s[1..]);
      SolidOne(s[0]);
      TrimLeftKeeps(s[1..]);
    }
  }

  lemma {:induction false} TrimRightKeeps(s: string)
    ensures Solid(TrimRight(s)) == Solid(s)
    decreases |s|
  {
    if s != "" && IsScriptSpace(s[|s| - 1]) {
      TrimRightKeeps(s[..|s| - 1]);
    }
  }

  /** A run rendered from two characters as one is in both halves when cut between them. */
  lemma CutRunIsTwice()
    ensures var runs := [Run(0, 2, "x")];
            Text(runs, 0, 1) + Text(runs, 1, 2) == "xx" && Text(runs, 0, 2) == "x"
  {
    var runs := [Run(0, 2, "x")];
    assert runs[1..] == [];
    assert Text(runs, 0, 1) == "x" && Text(runs, 1, 2) == "x" && Text(runs, 0, 2) == "x";
  }

  /** Normalizing loses and reorders nothing but whitespace. */
  lemma NormalizeKeepsText(s: string)
    ensures Solid(Normalize(s)) == Solid(s)
  {
    CollapseKeeps(s, false);
    TrimLeftKeeps(Collapse(s, false));
    TrimRightKeeps(TrimLeft(Collapse(s, false)));
  }

  // ── The functions of the module ─────────────────────────────────────

  function Overlapping(runs: seq<Run>, start: int, end: int): seq<Run>
    decreases |runs|
  {
    if runs == [] then []
    else
      var last := runs[|runs| - 1];
      if Overlaps(last, start, end) then Overlapping(runs[..|runs| - 1], start, end) + [last]
      else Overlapping(runs[..|runs| - 1], start, end)
  }

  function NonEmpty(text: string): Option<string> {
    if |text| > 0 then Some(text) else None
  }

  /** The runs a range takes in, in order; an empty range takes in none. */
  method MarkdownRunsForSourceRange(plan: Option<seq<Run>>, from: int, to: int) returns (out: seq<Run>)
    ensures out == if plan.None? || from == to then [] else Overlapping(plan.value, Min(from, to), Max(from, to))
  {
    out := [];
    if plan.None? {
      return;
    }
    var start, end := Min(from, to), Max(from, to);
    if start == end {
      return;
    }
    var i := 0;
    while i < |plan.value|
      invariant 0 <= i <= |plan.value|
      invariant out == Overlapping(plan.value[..i], start, end)
    {
      assert plan.value[..i + 1][..i] == plan.value[..i];
      if plan.value[i].start < end && plan.value[i].end > start {
        out := out + [plan.value[i]];
      }
      i := i + 1;
    }
    assert plan.value[..i] == plan.value;
  }

  lemma {:induction false} TextSnoc(runs: seq<Run>, r: Run, start: int, end: int)
    ensures Text(runs + [r], start, end) == Text(runs, start, end) + Part(r, start, end)
  {
    if runs == [] {
      assert runs + [r] == [r] && [r][1..] == [];
    } else {
      assert (runs + [r])[1..] == runs[1..] + [r];
      TextSnoc(runs[1..], r, start, end);
    }
  }

  lemma {:induction false} OverlappingText(runs: seq<Run>, start: int, end: int)
    requires start < end
    ensures Text(Overlapping(runs, start, end), start, end) == Text(runs, start, end)
    decreases |runs|
  {
    if runs != [] {
      var n := |runs| - 1;
      OverlappingText(runs[..n], start, end);
      assert runs == runs[..n] + [runs[n]];
      TextSnoc(runs[..n], runs[n], start, end);
      TextSnoc(Overlapping(runs[..n], start, end), runs[n], start, end);
    }
  }

  lemma {:induction false} EmptyRange(runs: seq<Run>, at: int)
    ensures Text(runs, at, at) == ""
  {
    if runs != [] {
      EmptyRange(runs[1..], at);
    }
  }

  lemma {:induction false} AllOverlap(runs: seq<Run>, start: int, end: int)
    ensures forall i :: 0 <= i < |Overlapping(runs, start, end)| ==>
              Overlaps(Overlapping(runs, start, end)[i], start, end)
    decreases |runs|
  {
    if runs != [] {
      AllOverlap(runs[..|runs| - 1], start, end);
    }
  }

  /** Each run is kept or left out by itself: it is kept if it shares a position with the
      range. */
  lemma {:induction false} OverlappingSplits(before: seq<Run>, r: Run, after: seq<Run>, start: int, end: int)
    ensures Overlapping(before + [r] + after, start, end)
         == Overlapping(before, start, end) + (if r.start < end && start < r.end then [r] else [])
            + Overlapping(after, start, end)
    decreases |after|
  {
    var all := before + [r] + after;
    if after == [] {
      assert all[..|all| - 1] == before;
    } else {
      var n := |after| - 1;
      assert all[..|all| - 1] == before + [r] + after[..n];
      OverlappingSplits(before, r, after[..n], start, end);
    }
  }

  method RenderedTextForSourceRange(plan: Option<seq<Run>>, from: int, to: int) returns (rendered: Option<string>)
    ensures plan.None? ==> rendered == None
    ensures plan.Some? ==> rendered == NonEmpty(Normalize(Text(plan.value, Min(from, to), Max(from, to))))
  {
    if plan.None? {
      return None;
    }
    var start, end := Min(from, to), Max(from, to);
    var runs := MarkdownRunsForSourceRange(plan, start, end);
    if start == end {
      EmptyRange(plan.value, start);
    } else {
      OverlappingText(plan.value, start, end);
      AllOverlap(plan.value, start, end);
    }
    var joined := JoinParts(runs, start, end);
    rendered := NonEmpty(Normalize(joined));
  }

  /** The loop over the overlapping runs: a transparent run is cut, an opaque one is kept whole. */
  method JoinParts(runs: seq<Run>, start: int, end: int) returns (joined: string)
    requires runs != [] ==> start < end
    requires forall i :: 0 <= i < |runs| ==> Overlaps(runs[i], start, end)
    ensures joined == Text(runs, start, end)
  {
    joined := "";
    var i := 0;
    while i < |runs|
      invariant 0 <= i <= |runs|
      invariant joined == Text(runs[..i], start, end)
    {
      var run := runs[i];
      assert runs[..i + 1] == runs[..i] + [run];
      TextSnoc(runs[..i], run, start, end);
      i := i + 1;
      var renderedLength := |run.text|;
      if renderedLength == Max(0, run.end - run.start) {
        var sliceStart := Clamp(start - run.start, 0, renderedLength);
        var sliceEnd := Clamp(end - run.start, 0, renderedLength);
        if sliceEnd > sliceStart {
          joined := joined + run.text[sliceStart..sliceEnd];
        }
        continue;
      }
      joined := joined + run.text;
    }
    assert runs[..i] == runs;
  }
}
