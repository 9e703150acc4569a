/** Reference definitions, `[label]: target`, as the regular expression
    `^\s*\[(?!\^)[^\]\n]+\]:\s*(.+?)\s*$` finds them line by line. Its whitespace crosses
    newlines, which moves the reported position of some of them. */
module ReferenceLinks {
  import opened Lines
  import opened Options
  import opened Whitespace

  // ── The parts of the expression ─────────────────────────────────────

  predicate AllSpace(text: string, i: nat, j: nat)
    requires i <= j <= |text|
  {
    forall k :: i <= k < j ==> IsPythonSpace(text[k])
  }

  /** The end of the whitespace that starts at `i`. */
  function Spaces(text: string, i: nat): (e: nat)
    requires i <= |text|
    ensures i <= e <= |text| && AllSpace(text, i, e) && (e < |text| ==> !IsPythonSpace(text[e]))
    decreases |text| - i
  {
    if i < |text| && IsPythonSpace(text[i]) then Spaces(text, i + 1) else i
  }

  /** The next newline from `i` on, or the end of the text. */
  function LineEnd(text: string, i: nat): (e: nat)
    requires i <= |text|
    ensures i <= e <= |text| && '\n' !in text[i..e] && (e < |text| ==> text[e] == '\n')
    decreases |text| - i
  {
    if i < |text| && text[i] != '\n' then LineEnd(text, i + 1) else i
  }

  /** A label of at least one character, without a closing bracket or a newline, that does
      not start with `^`; the result is the position after `]:`. */
  function Label(text: string, w: nat): (r: Option<nat>)
    requires w <= |text|
    ensures r.Some? ==> w + 4 <= r.value <= |text|
  {
    if w == |text| || text[w] != '[' then None
    else
      var e := LabelEnd(text, w + 1);
      if e == w + 1 || e + 1 >= |text| || text[e] != ']' || text[e + 1] != ':' || text[w + 1] == '^' then None
      else Some(e + 2)
  }

  function LabelEnd(text: string, i: nat): (e: nat)
    requires i <= |text|
    ensures i <= e <= |text|
    ensures forall k :: i <= k < e ==> text[k] != ']' && text[k] != '\n'
    ensures e < |text| ==> text[e] == ']' || text[e] == '\n'
    decreases |text| - i
  {
    if i < |text| && text[i] != ']' && text[i] != '\n' then LabelEnd(text, i + 1) else i
  }

  /** An opening bracket, a label of other characters than closing brackets and newlines that
      does not begin with `^`, and `]:` right before `c`. */
  predicate Labelled(text: string, w: nat, c: nat) {
    && w + 4 <= c <= |text| && text[w] == '[' && text[w + 1] != '^' && text[c - 2] == ']' && text[c - 1] == ':'
    && forall k :: w < k < c - 2 ==> text[k] != ']' && text[k] != '\n'
  }

  lemma LabelIs(text: string, w: nat, c: nat)
    requires w <= |text|
    ensures Label(text, w) == Some(c) <==> Labelled(text, w, c)
  {
    if Labelled(text, w, c) {
      var e := LabelEnd(text, w + 1);
      assert !(w < e < c - 2) && !(w + 1 <= c - 2 < e);
    }
  }

  /** The target text and where the whole match ends. */
  datatype Target = Target(from: nat, to: nat, end: nat)

  /** The last position in `[i..j)` that is (`newline`) or is not a newline. */
  function LastIn(text: string, i: nat, j: nat, newline: bool): (r: Option<nat>)
    requires i <= j <= |text|
    ensures r.Some? ==> i <= r.value < j && (text[r.value] == '\n') == newline
    ensures r.Some? ==> forall k :: r.value < k < j ==> (text[k] == '\n') != newline
    ensures r.None? ==> forall k :: i <= k < j ==> (text[k] == '\n') != newline
    decreases j
  {
    if i == j then None
    else if (text[j - 1] == '\n') == newline then Some(j - 1)
    else LastIn(text, i, j - 1, newline)
  }

  /** The shortest target from `from` with nothing but whitespace after it on its line. */
  function TargetEnd(text: string, from: nat, to: nat): (r: nat)
    requires from < to <= |text| && to <= LineEnd(text, from)
    ensures to <= r <= LineEnd(text, from) <= Spaces(text, r)
    ensures r == to || !IsPythonSpace(text[r - 1])
    decreases |text| - to
  {
    if Spaces(text, to) >= LineEnd(text, from) then to else TargetEnd(text, from, to + 1)
  }

  /** The end of a match whose target ends at `to`: the end of the text, or the last newline
      of the whitespace that follows. */
  function MatchEnd(text: string, to: nat): (e: nat)
    requires to <= |text| && LineEnd(text, to) <= Spaces(text, to)
    ensures to <= e <= Spaces(text, to)
    ensures if Spaces(text, to) == |text| then e == |text| else EndsAt(text, e, Spaces(text, to))
  {
    var after := Spaces(text, to);
    if after == |text| then |text|
    else
      assert text[LineEnd(text, to)] == '\n';
      LastIn(text, to, after, true).value
  }

  predicate EndsAt(text: string, e: nat, after: nat) {
    e < after < |text| && text[e] == '\n' && forall k :: e < k < after ==> text[k] != '\n'
  }

  lemma {:induction false} LineEndAgain(text: string, i: nat, j: nat)
    requires i <= j <= |text| && j <= LineEnd(text, i)
    ensures LineEnd(text, j) == LineEnd(text, i)
    decreases j - i
  {
    if i < j {
      LineEndAgain(text, i + 1, j);
    }
  }

  /** After the colon: whitespace, the target, whitespace. Where only whitespace is left, the
      target is its last character that is not a newline. */
  function TargetAt(text: string, c: nat): (r: Option<Target>)
    requires c <= |text|
    ensures r.Some? ==> c <= r.value.from < r.value.to <= r.value.end <= |text|
    ensures r.Some? && r.value.end < |text| ==> text[r.value.end] == '\n'
  {
    var from := Spaces(text, c);
    if from < |text| then
      assert text[from] != '\n';
      var to := TargetEnd(text, from, from + 1);
      LineEndAgain(text, from, to);
      Some(Target(from, to, MatchEnd(text, to)))
    else
      var last := LastIn(text, c, from, false);
      if last.None? then None else Some(Target(last.value, last.value + 1, |text|))
  }

  /** One match: where it starts, its bracket, and its target. */
  datatype Ref = Ref(start: nat, bracket: nat, target: Target)

  function DefinitionAt(text: string, w: nat): (r: Option<Target>)
    requires w <= |text|
    ensures r.Some? ==> w < r.value.from < r.value.to <= r.value.end <= |text|
    ensures r.Some? && r.value.end < |text| ==> text[r.value.end] == '\n'
  {
    if Label(text, w).None? then None else TargetAt(text, Label(text, w).value)
  }

  function MatchAt(text: string, s: nat): (r: Option<Ref>)
    requires s <= |text|
    ensures r.Some? ==> s == r.value.start <= r.value.bracket < r.value.target.from < r.value.target.end <= |text|
  {
    var w := Spaces(text, s);
    if IsLineStart(text, s) && DefinitionAt(text, w).Some? then Some(Ref(s, w, DefinitionAt(text, w).value)) else None
  }

  /** What the expression matches at each position. */
  function Matches(text: string): (ms: seq<Option<Ref>>)
    ensures |ms| == |text| + 1 && Forward(ms)
    ensures forall s :: 0 <= s <= |text| ==> ms[s] == MatchAt(text, s)
  {
    seq(|text| + 1, s requires 0 <= s <= |text| => MatchAt(text, s))
  }

  // ── All matches, each search from the end of the last ───────────────

  predicate Forward(ms: seq<Option<Ref>>) {
    forall s :: 0 <= s < |ms| && ms[s].Some? ==>
      s == ms[s].value.start <= ms[s].value.bracket < ms[s].value.target.end < |ms|
  }

  /** The first match from `pos` on. */
  function First(ms: seq<Option<Ref>>, pos: nat): (r: Option<nat>)
    requires pos <= |ms|
    ensures r.Some? ==> pos <= r.value < |ms| && ms[r.value].Some?
    ensures r.Some? ==> forall s :: pos <= s < r.value ==> ms[s].None?
    ensures r.None? ==> forall s :: pos <= s < |ms| ==> ms[s].None?
    decreases |ms| - pos
  {
    if pos == |ms| then None else if ms[pos].Some? then Some(pos) else First(ms, pos + 1)
  }

  /** `finditer`. */
  function All(ms: seq<Option<Ref>>, pos: nat): (rs: seq<Ref>)
    requires Forward(ms) && pos < |ms|
    ensures forall i :: 0 <= i < |rs| ==> pos <= rs[i].start <= rs[i].bracket < rs[i].target.end < |ms|
    decreases |ms| - pos
  {
    var s := First(ms, pos);
    if s.None? then [] else [ms[s.value].value] + All(ms, ms[s.value].value.target.end)
  }

  /** Where the search for the `i`th match started. */
  function SearchedFrom(rs: seq<Ref>, i: nat): nat
    requires i < |rs|
  {
    if i == 0 then 0 else rs[i - 1].target.end
  }

  lemma {:induction false} AllSearched(ms: seq<Option<Ref>>, pos: nat, i: nat)
    requires Forward(ms) && pos < |ms| && i < |All(ms, pos)|
    ensures var rs := All(ms, pos);
            var p := if i == 0 then pos else rs[i - 1].target.end;
            First(ms, p) == Some(rs[i].start) && ms[rs[i].start] == Some(rs[i])
    decreases i
  {
    if i > 0 {
      var rs := All(ms, pos);
      assert rs[1..] == All(ms, rs[0].target.end);
      AllSearched(ms, rs[0].target.end, i - 1);
    }
  }

  /** Matches come from left to right and never overlap. */
  lemma {:induction false} AllInOrder(ms: seq<Option<Ref>>, pos: nat, i: nat, j: nat)
    requires Forward(ms) && pos < |ms| && i < j < |All(ms, pos)|
    ensures All(ms, pos)[i].target.end <= All(ms, pos)[j].start
    decreases i
  {
    var rs := All(ms, pos);
    assert rs[1..] == All(ms, rs[0].target.end);
    if i > 0 {
      AllInOrder(ms, rs[0].target.end, i - 1, j - 1);
    }
  }

  /** A position that matches is reported, or passed over by a match that started before it. */
  lemma {:induction false} AllReach(ms: seq<Option<Ref>>, pos: nat, s: nat) returns (i: nat)
    requires Forward(ms) && pos <= s < |ms| && ms[s].Some?
    ensures i < |All(ms, pos)| && All(ms, pos)[i].start <= s < All(ms, pos)[i].target.end
    decreases |ms| - pos
  {
    var rs := All(ms, pos);
    assert rs[1..] == All(ms, rs[0].target.end);
    if s < rs[0].target.end {
      i := 0;
    } else {
      i := AllReach(ms, rs[0].target.end, s);
      i := i + 1;
    }
  }

  function Refs(text: string): seq<Ref> {
    All(Matches(text), 0)
  }

  // ── What a match is ─────────────────────────────────────────────────

  /** The target is what is left of its line once outer whitespace is stripped, and the match
      runs on through blank lines to the last newline before other text. */
  predicate Trimmed(text: string, c: nat, t: Target)
    requires c <= t.from < t.to <= t.end <= |text|
  {
    && AllSpace(text, c, t.from) && !IsPythonSpace(text[t.from])
    && '\n' !in text[t.from..t.to] && !IsPythonSpace(text[t.to - 1])
    && AllSpace(text, t.to, t.end) && (t.end == |text| || EndsAt(text, t.end, Spaces(text, t.end)))
  }

  /** With nothing but whitespace after the colon, the target is one whitespace character, if
      there is one that is not a newline. */
  predicate Leftover(text: string, c: nat, t: Target)
    requires c <= t.from < t.to <= t.end <= |text|
  {
    && t.to == t.from + 1 && t.end == |text| && text[t.from] != '\n'
    && forall k :: t.to <= k < |text| ==> text[k] == '\n'
  }

  lemma TargetIsTrimmed(text: string, c: nat)
    requires c <= |text|
    ensures TargetAt(text, c).None? <==> forall k :: c <= k < |text| ==> text[k] == '\n'
    ensures TargetAt(text, c).Some? ==>
              if AllSpace(text, c, |text|) then Leftover(text, c, TargetAt(text, c).value)
              else Trimmed(text, c, TargetAt(text, c).value)
  {
    var from := Spaces(text, c);
    if from < |text| {
      TrimsTarget(text, c, from, TargetEnd(text, from, from + 1));
    }
  }

  lemma TrimsTarget(text: string, c: nat, from: nat, to: nat)
    requires c <= from < |text| && from == Spaces(text, c) && to == TargetEnd(text, from, from + 1)
    ensures TargetAt(text, c).Some? && TargetAt(text, c).value.from == from && TargetAt(text, c).value.to == to
    ensures Trimmed(text, c, TargetAt(text, c).value)
  {
    OnOneLine(text, from, to);
    LineEndAgain(text, from, to);
    EndsMatch(text, to);
  }

  lemma EndsMatch(text: string, to: nat)
    requires to <= |text| && LineEnd(text, to) <= Spaces(text, to)
    ensures var end := MatchEnd(text, to);
            AllSpace(text, to, end) && (end == |text| || EndsAt(text, end, Spaces(text, end)))
  {
    SpacesAgain(text, to, MatchEnd(text, to));
  }

  lemma OnOneLine(text: string, from: nat, to: nat)
    requires from <= to <= |text| && to <= LineEnd(text, from)
    ensures '\n' !in text[from..to]
  {
    assert text[from..LineEnd(text, from)][..to - from] == text[from..to];
  }

  lemma {:induction false} SpacesAgain(text: string, i: nat, j: nat)
    requires i <= j <= |text| && j <= Spaces(text, i)
    ensures Spaces(text, j) == Spaces(text, i)
    decreases j - i
  {
    if i < j {
      SpacesAgain(text, i + 1, j);
    }
  }

  // ── Every definition is found ───────────────────────────────────────

  /** A definition: first on its line but for whitespace. */
  predicate Defines(text: string, w: nat) {
    w < |text| && AllSpace(text, LineStart(text, w), w) && DefinitionAt(text, w).Some?
  }

  /** From the start of its own line, or of whitespace-only lines above it, a definition
      matches. */
  lemma MatchesFrom(text: string, s: nat, w: nat)
    requires Defines(text, w) && s <= w && IsLineStart(text, s) && AllSpace(text, s, w)
    ensures MatchAt(text, s) == Some(Ref(s, w, DefinitionAt(text, w).value))
  {
    SpacesAgain(text, s, w);
  }

  /** What is reported is a definition, whitespace above or before it included. */
  predicate Reports(text: string, r: Ref) {
    && r.start <= r.bracket < r.target.end <= |text| && IsLineStart(text, r.start) && AllSpace(text, r.start, r.bracket)
    && Defines(text, r.bracket) && DefinitionAt(text, r.bracket) == Some(r.target)
  }

  lemma RefIsDefinition(text: string, i: nat)
    requires i < |Refs(text)|
    ensures Reports(text, Refs(text)[i])
  {
    AllSearched(Matches(text), 0, i);
    var r := Refs(text)[i];
    assert MatchAt(text, r.start) == Some(r);
    assert r.start <= LineStart(text, r.bracket);
  }

  predicate Reported(text: string, w: nat) {
    exists i :: 0 <= i < |Refs(text)| && Refs(text)[i].bracket == w
  }

  /** Inside the text that an earlier reported definition took as its own. */
  predicate Taken(text: string, w: nat) {
    exists i :: 0 <= i < |Refs(text)| && Refs(text)[i].bracket < w < Refs(text)[i].target.end
  }

  /** Exactly the definitions that no earlier one took as its target are reported. */
  lemma DefinitionsFound(text: string, w: nat)
    ensures Reported(text, w) <==> Defines(text, w) && !Taken(text, w)
  {
    if Defines(text, w) {
      ReportedOrTaken(text, w);
    }
    if i :| 0 <= i < |Refs(text)| && Refs(text)[i].bracket == w {
      RefIsDefinition(text, i);
      forall j | 0 <= j < |Refs(text)|
        ensures !(Refs(text)[j].bracket < w < Refs(text)[j].target.end)
      {
        NotInside(Matches(text), i, j);
      }
    }
  }

  lemma ReportedOrTaken(text: string, w: nat)
    requires Defines(text, w)
    ensures Reported(text, w) || Taken(text, w)
  {
    var own := LineStart(text, w);
    MatchesFrom(text, own, w);
    var i := AllReach(Matches(text), 0, own);
    RefIsDefinition(text, i);
    ReachesDefinition(text, Refs(text)[i], w);
  }

  lemma ReachesDefinition(text: string, r: Ref, w: nat)
    requires Reports(text, r) && Defines(text, w) && r.start <= LineStart(text, w) < r.target.end
    ensures r.bracket == w || r.bracket < w < r.target.end
  {
    DefinesBracket(text, w);
    DefinesBracket(text, r.bracket);
    if r.target.end <= w {
      NewlineBefore(text, r.target.end, w);
    }
    ReachesBracket(text, r.start, r.bracket, r.target.end, LineStart(text, w), w);
  }

  lemma NotInside(ms: seq<Option<Ref>>, i: nat, j: nat)
    requires Forward(ms) && ms != [] && i < |All(ms, 0)| && j < |All(ms, 0)|
    ensures !(All(ms, 0)[j].bracket < All(ms, 0)[i].bracket < All(ms, 0)[j].target.end)
  {
    if i < j {
      AllInOrder(ms, 0, i, j);
    } else if j < i {
      AllInOrder(ms, 0, j, i);
    }
  }

  lemma DefinesBracket(text: string, w: nat)
    requires Defines(text, w)
    ensures text[w] == '[' && !IsPythonSpace(text[w])
    ensures var end := DefinitionAt(text, w).value.end; end == |text| || (w < end < |text| && text[end] == '\n')
  {
  }

  lemma ReachesBracket(text: string, start: nat, bracket: nat, end: nat, own: nat, w: nat)
    requires start <= bracket < end <= |text| && AllSpace(text, start, bracket) && !IsPythonSpace(text[bracket])
    requires own <= w < |text| && AllSpace(text, own, w) && !IsPythonSpace(text[w])
    requires start <= own && (end <= w ==> end < own)
    ensures own < end ==> bracket == w || bracket < w < end
  {
    assert !(own <= bracket < w);
    assert !(start <= w < bracket);
  }

  // ── The line a definition is reported on ────────────────────────────

  /** A whitespace-only line right above the definition, from `pos` on. */
  predicate BlankLineAbove(text: string, pos: nat, w: nat)
    requires w <= |text|
  {
    var own := LineStart(text, w);
    own > 0 && pos <= LineStart(text, own - 1) && AllSpace(text, LineStart(text, own - 1), own)
  }

  /** The reported line is the definition's line exactly when no whitespace-only line that
      the search could start on lies right above it. */
  lemma ReportedLine(text: string, i: nat)
    requires i < |Refs(text)|
    ensures var r := Refs(text)[i];
            Reports(text, r) &&
            (LineNumber(text, r.start) == LineNumber(text, r.bracket)
             <==> !BlankLineAbove(text, SearchedFrom(Refs(text), i), r.bracket))
  {
    RefIsDefinition(text, i);
    var r := Refs(text)[i];
    var pos := SearchedFrom(Refs(text), i);
    AllSearched(Matches(text), 0, i);
    SameLine(text, r.start, r.bracket);
    if BlankLineAbove(text, pos, r.bracket) {
      MatchesFrom(text, LineStart(text, LineStart(text, r.bracket) - 1), r.bracket);
    } else {
      StartsOnOwnLine(text, pos, r);
    }
  }

  lemma StartsOnOwnLine(text: string, pos: nat, r: Ref)
    requires Reports(text, r) && pos <= r.start && !BlankLineAbove(text, pos, r.bracket)
    ensures r.start == LineStart(text, r.bracket)
  {
    var own := LineStart(text, r.bracket);
    if own > 0 {
      var above := LineStart(text, own - 1);
      assert r.start <= own;
      assert r.start <= above || r.start == own;
      assert r.start <= above ==> AllSpace(text, above, own);
    }
  }

  /** A definition under an empty line, as Markdown files usually have them, is always
      reported on an earlier line than its own. */
  lemma EmptyLineAbove(text: string, i: nat)
    requires i < |Refs(text)|
    requires LineStart(text, Refs(text)[i].bracket) > 0
    requires IsLineStart(text, LineStart(text, Refs(text)[i].bracket) - 1)
    ensures LineNumber(text, Refs(text)[i].start) < LineNumber(text, Refs(text)[i].bracket)
  {
    ResumesAbove(text, i);
    BlankAbove(text, SearchedFrom(Refs(text), i), Refs(text)[i].bracket);
    ReportedLine(text, i);
    LinesGrow(text, Refs(text)[i].start, Refs(text)[i].bracket);
  }

  lemma BlankAbove(text: string, pos: nat, w: nat)
    requires w <= |text| && LineStart(text, w) > 0 && IsLineStart(text, LineStart(text, w) - 1)
    requires pos == 0 || pos < LineStart(text, w)
    ensures BlankLineAbove(text, pos, w)
  {
    var own := LineStart(text, w);
    assert LineStart(text, own - 1) == own - 1;
    assert text[own - 1] == '\n';
  }

  /** A search resumes at a newline, so above the line of the definition it finds. */
  lemma ResumesAbove(text: string, i: nat)
    requires i < |Refs(text)|
    ensures Refs(text)[i].bracket <= |text|
    ensures SearchedFrom(Refs(text), i) == 0 || SearchedFrom(Refs(text), i) < LineStart(text, Refs(text)[i].bracket)
  {
    RefOpens(text, i);
    if i > 0 {
      RefEnds(text, i - 1);
      AllInOrder(Matches(text), 0, i - 1, i);
      AboveNext(text, Refs(text), i);
    }
  }

  lemma AboveNext(text: string, rs: seq<Ref>, i: nat)
    requires 0 < i < |rs| && rs[i - 1].target.end <= rs[i].start <= rs[i].bracket < |text|
    requires ResumesAt(text, rs[i - 1].target.end) && text[rs[i].bracket] == '['
    ensures SearchedFrom(rs, i) < LineStart(text, rs[i].bracket)
  {
    NewlineBefore(text, rs[i - 1].target.end, rs[i].bracket);
  }

  lemma RefOpens(text: string, i: nat)
    requires i < |Refs(text)|
    ensures Refs(text)[i].bracket < |text| && text[Refs(text)[i].bracket] == '['
  {
    RefIsDefinition(text, i);
    DefinesBracket(text, Refs(text)[i].bracket);
  }

  lemma RefEnds(text: string, i: nat)
    requires i < |Refs(text)|
    ensures ResumesAt(text, Refs(text)[i].target.end)
  {
    RefIsDefinition(text, i);
    DefinesBracket(text, Refs(text)[i].bracket);
  }

  predicate ResumesAt(text: string, pos: nat) {
    pos == |text| || (pos < |text| && text[pos] == '\n')
  }

  lemma FirstDefinitionUnderEmptyLine()
    ensures var text := "\n[a]: b";
            |Refs(text)| > 0 && Refs(text)[0].bracket == 1 && LineNumber(text, 1) == 2
            && LineNumber(text, Refs(text)[0].start) == 1
  {
    var text := "\n[a]: b";
    assert LabelEnd(text, 2) == 3 by {
      assert LabelEnd(text, 3) == 3;
    }
    assert Label(text, 1) == Some(5);
    assert Spaces(text, 5) == 6 by {
      assert Spaces(text, 6) == 6;
    }
    assert MatchAt(text, 0).Some? by {
      assert Spaces(text, 1) == 1;
      assert Spaces(text, 0) == 1;
    }
    assert Matches(text)[0].Some?;
  }
}
