/** The line on which a reference definition is reported, said of the text alone: what
    stands above the definition decides. */
module ReportedLines {
  import opened Lines
  import opened Whitespace
  import opened ReferenceLinks

  /** The end of the last character before `k` that is not whitespace. */
  function SolidEnd(text: string, k: nat): (e: nat)
    requires k <= |text|
    ensures e <= k && AllSpace(text, e, k) && (e > 0 ==> !IsPythonSpace(text[e - 1]))
    decreases k
  {
    if k > 0 && IsPythonSpace(text[k - 1]) then SolidEnd(text, k - 1) else k
  }

  /** The line right above the definition has nothing but whitespace. */
  predicate UnderBlankLine(text: string, w: nat)
    requires w <= |text|
  {
    var own := LineStart(text, w);
    own > 0 && AllSpace(text, LineStart(text, own - 1), own)
  }

  predicate UnderEmptyLine(text: string, w: nat)
    requires w <= |text|
  {
    LineStart(text, w) > 0 && IsLineStart(text, LineStart(text, w) - 1)
  }

  /** Reading from the top: a definition that no standing definition before it has taken as
      part of its own match. */
  ghost predicate Stands(text: string, w: nat)
    decreases w
  {
    Defines(text, w) && forall v :: 0 <= v < w && Stands(text, v) ==> DefinitionAt(text, v).value.end <= w
  }

  /** Over the blank lines above the definition ends the target of a standing definition. */
  ghost predicate UnderDefinition(text: string, w: nat)
    requires w <= |text|
  {
    DefinitionEndsAt(text, SolidEnd(text, LineStart(text, w)))
  }

  ghost predicate DefinitionEndsAt(text: string, to: nat) {
    exists v :: Stands(text, v) && DefinitionAt(text, v).value.to == to
  }

  /** The standing definitions are those reported. */
  lemma {:induction false} StandingIsReported(text: string, w: nat)
    ensures Stands(text, w) <==> Reported(text, w)
    decreases w
  {
    forall v | 0 <= v < w ensures Stands(text, v) <==> Reported(text, v) {
      StandingIsReported(text, v);
    }
    DefinitionsFound(text, w);
    forall i | 0 <= i < |Refs(text)| ensures Reported(text, Refs(text)[i].bracket) && Reports(text, Refs(text)[i]) {
      RefIsDefinition(text, i);
    }
    TakenByStanding(text, w);
  }

  lemma TakenByStanding(text: string, w: nat)
    requires forall i :: 0 <= i < |Refs(text)| ==> Reports(text, Refs(text)[i])
    ensures Taken(text, w)
        <==> exists v :: 0 <= v < w && Reported(text, v) && Defines(text, v) && w < DefinitionAt(text, v).value.end
  {
    if i :| 0 <= i < |Refs(text)| && Refs(text)[i].bracket < w < Refs(text)[i].target.end {
      assert Reported(text, Refs(text)[i].bracket);
    }
  }

  lemma Widest(text: string, from: nat, w: nat)
    requires from <= w < |text| && AllSpace(text, from, w) && !IsPythonSpace(text[w])
    ensures Spaces(text, from) == w
  {
    var e := Spaces(text, from);
    assert !(from <= e < w);
    assert !(from <= w < e);
  }

  /** A search that resumes right under a target resumes at the newline before the definition. */
  lemma ResumesBelowTarget(text: string, to: nat, pos: nat, own: nat, w: nat)
    requires to <= pos < own <= w < |text| && own == LineStart(text, w)
    requires AllSpace(text, to, own) && AllSpace(text, own, w) && !IsPythonSpace(text[w])
    requires EndsAt(text, pos, Spaces(text, pos))
    ensures own == pos + 1
  {
    forall k | pos <= k < w ensures IsPythonSpace(text[k]) {
      assert k < own ==> IsPythonSpace(text[k]);
    }
    Widest(text, pos, w);
    assert text[own - 1] == '\n';
  }

  /** A search that resumes above other text resumes above the blank line. */
  lemma ResumesAboveText(text: string, to: nat, pos: nat, solid: nat, above: nat, own: nat)
    requires to <= pos < |text| && AllSpace(text, to, pos) && text[pos] == '\n'
    requires to < solid <= own <= |text| && !IsPythonSpace(text[solid - 1])
    requires above <= own && AllSpace(text, above, own)
    ensures pos < above
  {
    assert !(to <= solid - 1 < pos);
    assert solid - 1 != pos;
    assert !(above <= solid - 1 < own);
  }

  /** The target of a definition that does not reach the end of the text. */
  ghost predicate EndsBefore(text: string, w: nat, t: Target) {
    && w < t.to <= t.end < |text| && !IsPythonSpace(text[t.to - 1]) && AllSpace(text, t.to, t.end)
    && EndsAt(text, t.end, Spaces(text, t.end))
  }

  lemma DefinitionEnds(text: string, w: nat)
    requires Defines(text, w) && DefinitionAt(text, w).value.end < |text|
    ensures EndsBefore(text, w, DefinitionAt(text, w).value)
  {
    TargetIsTrimmed(text, Label(text, w).value);
  }

  lemma TargetEnds(text: string, j: nat)
    requires j < |Refs(text)| && Refs(text)[j].target.end < |text|
    ensures EndsBefore(text, Refs(text)[j].bracket, Refs(text)[j].target)
  {
    RefIsDefinition(text, j);
    DefinitionEnds(text, Refs(text)[j].bracket);
  }

  /** Where the match before the `i`th one stands. */
  lemma MatchBefore(text: string, i: nat)
    requires 0 < i < |Refs(text)|
    ensures var last, r := Refs(text)[i - 1], Refs(text)[i];
            && EndsBefore(text, last.bracket, last.target)
            && last.target.end < LineStart(text, r.bracket) <= r.bracket < |text|
            && SearchedFrom(Refs(text), i) == last.target.end
  {
    ResumesAbove(text, i);
    RefOpens(text, i);
    assert Refs(text)[i - 1].bracket < Refs(text)[i - 1].target.end by {
      RefIsDefinition(text, i - 1);
    }
    TargetEnds(text, i - 1);
  }

  /** A match whose target ends right above is the match before. */
  lemma OrderAbove(text: string, i: nat, j: nat)
    requires i < |Refs(text)| && j < |Refs(text)| && Refs(text)[i].bracket <= |text|
    requires Refs(text)[j].target.to == SolidEnd(text, LineStart(text, Refs(text)[i].bracket))
    ensures j == i - 1
  {
    RefsInOrder(text);
    RefOpens(text, i);
    if i > 0 {
      MatchBefore(text, i);
      BracketIsSolid(text, i - 1, LineStart(text, Refs(text)[i].bracket));
    }
    OrderForces(Refs(text), i, j, SolidEnd(text, LineStart(text, Refs(text)[i].bracket)));
  }

  ghost predicate LeftToRight(rs: seq<Ref>) {
    && (forall a :: 0 <= a < |rs| ==> rs[a].start <= rs[a].bracket < rs[a].target.to <= rs[a].target.end)
    && (forall a, b :: 0 <= a < b < |rs| ==> rs[a].target.end <= rs[b].start)
  }

  lemma RefsInOrder(text: string)
    ensures LeftToRight(Refs(text))
  {
    forall a | 0 <= a < |Refs(text)|
      ensures var r := Refs(text)[a]; r.start <= r.bracket < r.target.to <= r.target.end
    {
      TargetPastBracket(text, a);
    }
    forall a, b | 0 <= a < b < |Refs(text)| ensures Refs(text)[a].target.end <= Refs(text)[b].start {
      AllInOrder(Matches(text), 0, a, b);
    }
  }

  lemma OrderForces(rs: seq<Ref>, i: nat, j: nat, solid: nat)
    requires LeftToRight(rs) && i < |rs| && j < |rs| && rs[j].target.to == solid <= rs[i].bracket
    requires i > 0 ==> rs[i - 1].bracket < solid
    ensures j == i - 1
  {
  }

  lemma TargetPastBracket(text: string, j: nat)
    requires j < |Refs(text)|
    ensures Refs(text)[j].start <= Refs(text)[j].bracket < Refs(text)[j].target.to <= Refs(text)[j].target.end
  {
    RefIsDefinition(text, j);
  }

  lemma BracketIsSolid(text: string, j: nat, k: nat)
    requires j < |Refs(text)| && Refs(text)[j].bracket < k <= |text|
    ensures Refs(text)[j].bracket < SolidEnd(text, k)
  {
    RefIsDefinition(text, j);
    DefinesBracket(text, Refs(text)[j].bracket);
  }

  lemma OwnStart(text: string, k: nat)
    requires k <= |text|
    ensures LineStart(text, k) == k <==> IsLineStart(text, k)
  {
  }

  /** Under the target of another match, the search starts at the newline that ends the
      line above. */
  lemma SearchUnderTarget(text: string, i: nat, j: nat)
    requires i < |Refs(text)| && j < |Refs(text)| && Refs(text)[i].bracket < |text|
    requires Refs(text)[j].target.to == SolidEnd(text, LineStart(text, Refs(text)[i].bracket))
    ensures var own := LineStart(text, Refs(text)[i].bracket);
            own > 0 && SearchedFrom(Refs(text), i) == own - 1
  {
    var r, last := Refs(text)[i], Refs(text)[j];
    OrderAbove(text, i, j);
    assert EndsBefore(text, last.bracket, last.target) && last.target.end < LineStart(text, r.bracket)
           && SearchedFrom(Refs(text), i) == last.target.end by {
      MatchBefore(text, i);
    }
    assert Defines(text, r.bracket) by {
      RefIsDefinition(text, i);
    }
    EndsRightAbove(text, r.bracket, last.bracket, last.target);
  }

  lemma EndsRightAbove(text: string, w: nat, v: nat, t: Target)
    requires Defines(text, w) && EndsBefore(text, v, t) && t.end < LineStart(text, w)
    requires t.to == SolidEnd(text, LineStart(text, w))
    ensures t.end == LineStart(text, w) - 1
  {
    DefinesBracket(text, w);
    ResumesBelowTarget(text, t.to, t.end, LineStart(text, w), w);
  }

  /** Elsewhere the search starts above the blank line. */
  lemma SearchElsewhere(text: string, i: nat)
    requires i < |Refs(text)| && Refs(text)[i].bracket < |text|
    requires UnderBlankLine(text, Refs(text)[i].bracket)
    requires i > 0 ==> Refs(text)[i - 1].target.to != SolidEnd(text, LineStart(text, Refs(text)[i].bracket))
    ensures SearchedFrom(Refs(text), i) <= LineStart(text, LineStart(text, Refs(text)[i].bracket) - 1)
  {
    if i > 0 {
      var r, last := Refs(text)[i], Refs(text)[i - 1];
      MatchBefore(text, i);
      EndsAboveBlank(text, r.bracket, last.bracket, last.target);
    }
  }

  lemma EndsAboveBlank(text: string, w: nat, v: nat, t: Target)
    requires w <= |text| && UnderBlankLine(text, w) && EndsBefore(text, v, t) && t.end < LineStart(text, w)
    requires t.to != SolidEnd(text, LineStart(text, w))
    ensures t.end < LineStart(text, LineStart(text, w) - 1)
  {
    EndsAbove(text, v, t, LineStart(text, LineStart(text, w) - 1), LineStart(text, w));
  }

  lemma EndsAbove(text: string, v: nat, t: Target, above: nat, own: nat)
    requires EndsBefore(text, v, t) && t.end < own <= |text| && t.to != SolidEnd(text, own)
    requires above <= own && AllSpace(text, above, own)
    ensures t.end < above
  {
    SolidPast(text, t.to, own);
    ResumesAboveText(text, t.to, t.end, SolidEnd(text, own), above, own);
  }

  lemma SolidPast(text: string, to: nat, k: nat)
    requires 0 < to <= k <= |text| && !IsPythonSpace(text[to - 1])
    ensures to <= SolidEnd(text, k)
  {
  }

  predicate SomeTargetEndsAt(text: string, to: nat) {
    exists j :: 0 <= j < |Refs(text)| && Refs(text)[j].target.to == to
  }

  /** The targets of standing definitions are those of the matches. */
  lemma TargetsReported(text: string, to: nat)
    ensures DefinitionEndsAt(text, to) <==> SomeTargetEndsAt(text, to)
  {
    if v :| Stands(text, v) && DefinitionAt(text, v).value.to == to {
      StandingIsReported(text, v);
      var j :| 0 <= j < |Refs(text)| && Refs(text)[j].bracket == v;
      RefIsDefinition(text, j);
    }
    if j :| 0 <= j < |Refs(text)| && Refs(text)[j].target.to == to {
      RefIsDefinition(text, j);
      assert Reported(text, Refs(text)[j].bracket);
      StandingIsReported(text, Refs(text)[j].bracket);
    }
  }

  /** `under`: some match's target ends over the blank lines. */
  lemma SearchReachesAbove(text: string, i: nat, under: bool)
    requires i < |Refs(text)| && Refs(text)[i].bracket < |text| && UnderBlankLine(text, Refs(text)[i].bracket)
    requires under == SomeTargetEndsAt(text, SolidEnd(text, LineStart(text, Refs(text)[i].bracket)))
    ensures var w := Refs(text)[i].bracket;
            SearchedFrom(Refs(text), i) <= LineStart(text, LineStart(text, w) - 1)
            <==> UnderEmptyLine(text, w) || !under
  {
    var own := LineStart(text, Refs(text)[i].bracket);
    if j :| 0 <= j < |Refs(text)| && Refs(text)[j].target.to == SolidEnd(text, own) {
      SearchUnderTarget(text, i, j);
      OwnStart(text, own - 1);
    } else {
      SearchElsewhere(text, i);
    }
  }

  lemma BlankAsSearched(text: string, i: nat, under: bool)
    requires i < |Refs(text)| && Refs(text)[i].bracket < |text|
    requires under == SomeTargetEndsAt(text, SolidEnd(text, LineStart(text, Refs(text)[i].bracket)))
    ensures var w := Refs(text)[i].bracket;
            BlankLineAbove(text, SearchedFrom(Refs(text), i), w)
            <==> UnderBlankLine(text, w) && (UnderEmptyLine(text, w) || !under)
  {
    if UnderBlankLine(text, Refs(text)[i].bracket) {
      SearchReachesAbove(text, i, under);
    }
  }

  lemma OwnLineReported(text: string, i: nat, under: bool)
    requires i < |Refs(text)| && Refs(text)[i].bracket < |text|
    requires under == SomeTargetEndsAt(text, SolidEnd(text, LineStart(text, Refs(text)[i].bracket)))
    ensures var r := Refs(text)[i];
            && r.start <= r.bracket
            && (LineNumber(text, r.start) == LineNumber(text, r.bracket)
                <==> !UnderBlankLine(text, r.bracket) || (!UnderEmptyLine(text, r.bracket) && under))
  {
    ReportedLine(text, i);
    BlankAsSearched(text, i, under);
  }

  /** The reported line is the definition's own, if and only if the line above it is not
      blank, or is blank but not empty with the target of a standing definition right over
      the blank lines. */
  lemma ReportedLineInText(text: string, i: nat)
    requires i < |Refs(text)|
    ensures var r := Refs(text)[i];
            && r.start <= r.bracket < |text|
            && (LineNumber(text, r.start) == LineNumber(text, r.bracket)
                <==> !UnderBlankLine(text, r.bracket)
                     || (!UnderEmptyLine(text, r.bracket) && UnderDefinition(text, r.bracket)))
  {
    RefOpens(text, i);
    TargetsReported(text, SolidEnd(text, LineStart(text, Refs(text)[i].bracket)));
    OwnLineReported(text, i, UnderDefinition(text, Refs(text)[i].bracket));
  }
}
