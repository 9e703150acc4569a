/** `iter_link_targets`: blank the code, scan for inline links, then for reference
    definitions, and give each target the number of its line. */
module LinkTargets {
  import opened CodeMask
  import opened CodeShapes
  import opened DocsLinks
  import opened Lines
  import opened Ordering
  import opened ReferenceLinks

  datatype Found = Found(line: nat, target: string)

  lemma {:induction false} MaskKeepsLines(text: string, masked: string, i: nat)
    requires Masks(text, masked) && i <= |text|
    ensures LineNumber(masked, i) == LineNumber(text, i)
    decreases i
  {
    if i > 0 {
      MaskKeepsLines(text, masked, i - 1);
    }
  }

  /** An inline target carries the line its bracket has in the text before masking. */
  predicate FromLink(text: string, masked: string, l: Link, f: Found)
    requires |text| == |masked|
  {
    l.start < |text| && l.from <= l.to <= |text| && f == Found(LineNumber(text, l.start), masked[l.from..l.to])
  }

  predicate FromRef(text: string, masked: string, r: Ref, f: Found)
    requires |text| == |masked|
  {
    && r.start < |text| && r.target.from <= r.target.to <= |text|
    && f == Found(LineNumber(text, r.start), masked[r.target.from..r.target.to])
  }

  predicate FromLinks(text: string, masked: string, ls: seq<Link>, fs: seq<Found>)
    requires |text| == |masked|
  {
    |ls| == |fs| && forall i :: 0 <= i < |ls| ==> FromLink(text, masked, ls[i], fs[i])
  }

  predicate FromRefs(text: string, masked: string, rs: seq<Ref>, fs: seq<Found>)
    requires |text| == |masked|
  {
    |rs| == |fs| && forall i :: 0 <= i < |rs| ==> FromRef(text, masked, rs[i], fs[i])
  }

  /** A link found after masking stands in the text itself: nothing that masking wrote can
      open, separate or close one. */
  lemma LinkStandsInText(text: string, l: Link)
    requires l in Links(MaskCode(text), 0)
    ensures l.start + 3 <= l.from <= l.to < |text| == |MaskCode(text)|
    ensures text[l.start] == '[' && text[l.from - 2] == ']' && text[l.from - 1] == '(' && text[l.to] == ')'
    ensures Masks(text[l.from..l.to], MaskCode(text)[l.from..l.to])
    ensures LineNumber(MaskCode(text), l.start) == LineNumber(text, l.start)
  {
    MaskingKeepsPositions(text);
    LinksFound(MaskCode(text), l);
    Unmasked(text, MaskCode(text), l);
    MaskKeepsLines(text, MaskCode(text), l.start);
  }

  lemma Unmasked(text: string, masked: string, l: Link)
    requires Masks(text, masked) && IsLink(masked, l)
    ensures l.start + 3 <= l.from <= l.to < |text|
    ensures text[l.start] == '[' && text[l.from - 2] == ']' && text[l.from - 1] == '(' && text[l.to] == ')'
    ensures Masks(text[l.from..l.to], masked[l.from..l.to])
  {
  }

  lemma {:induction false} NewlinesCons(text: string, k: nat)
    requires 0 < k <= |text|
    ensures Newlines(text, k) == Newlines(text[1..], k - 1) + if text[0] == '\n' then 1 else 0
    decreases k
  {
    if k > 1 {
      NewlinesCons(text, k - 1);
    }
  }

  /** The line of a position, counted by newlines, is the line of the split text that holds
      it. */
  lemma {:induction false} LineHolds(text: string, k: nat)
    requires k < |text| && text[k] != '\n'
    ensures var lines, i := Split(text), Newlines(text, k);
            i < |lines| && Offset(lines, i) <= k < Offset(lines, i) + |lines[i]|
    decreases |text|
  {
    if k > 0 {
      var rest, i := Split(text[1..]), Newlines(text[1..], k - 1);
      LineHolds(text[1..], k - 1);
      NewlinesCons(text, k);
      if text[0] == '\n' {
        HeldBelow(Split(text), rest, i, k - 1);
      } else {
        HeldLater(Split(text), rest, text[0], i, k - 1);
      }
    }
  }

  lemma HeldBelow(lines: seq<string>, rest: seq<string>, i: nat, k: nat)
    requires lines == [""] + rest && i < |rest| && Offset(rest, i) <= k < Offset(rest, i) + |rest[i]|
    ensures Offset(lines, i + 1) <= k + 1 < Offset(lines, i + 1) + |lines[i + 1]|
  {
    OffsetRest(lines, i + 1);
    assert lines[1..] == rest;
  }

  lemma HeldLater(lines: seq<string>, rest: seq<string>, c: char, i: nat, k: nat)
    requires rest != [] && lines == [[c] + rest[0]] + rest[1..]
    requires i < |rest| && Offset(rest, i) <= k < Offset(rest, i) + |rest[i]|
    ensures Offset(lines, i) <= k + 1 < Offset(lines, i) + |lines[i]|
  {
    if i > 0 {
      OffsetRest(lines, i);
      OffsetRest(rest, i);
      assert lines[1..] == rest[1..];
    }
  }

  /** The line of position `k` is fenced, or `k` lies in a code span of what the fences leave. */
  ghost predicate InCode(text: string, k: nat)
    requires k < |text|
  {
    var i := LineNumber(text, k) - 1;
    (i < |Split(text)| && Fenced(Split(text), i)) || InSpan(MaskFences(text), k)
  }

  /** No inline link opens in code. */
  lemma LinkOutsideCode(text: string, l: Link)
    requires l in Links(MaskCode(text), 0)
    ensures l.start < |text| && LineNumber(text, l.start) <= |Split(text)| && !InCode(text, l.start)
  {
    BracketStands(text, l);
    OutsideCode(text, l.start);
  }

  lemma OutsideCode(text: string, k: nat)
    requires k < |text| == |MaskCode(text)| && text[k] == '[' == MaskCode(text)[k]
    ensures LineNumber(text, k) <= |Split(text)| && !InCode(text, k)
  {
    assert !InSpan(MaskFences(text), k) by {
      OutsideSpans(text, k);
    }
    OutsideFences(text, k);
  }

  lemma BracketStands(text: string, l: Link)
    requires l in Links(MaskCode(text), 0)
    ensures l.start < |text| == |MaskCode(text)| && text[l.start] == '[' == MaskCode(text)[l.start]
  {
    LinkStandsInText(text, l);
    LinksFound(MaskCode(text), l);
  }

  lemma OutsideFences(text: string, k: nat)
    requires k < |text| == |MaskCode(text)| && text[k] == '[' == MaskCode(text)[k]
    ensures var i := LineNumber(text, k) - 1; i < |Split(text)| && !Fenced(Split(text), i)
  {
    var i := LineNumber(text, k) - 1;
    LineHolds(text, k);
    FencedLinesAreBlank(text, i, k - Offset(Split(text), i));
  }

  lemma OutsideSpans(text: string, k: nat)
    requires k < |MaskCode(text)| && MaskCode(text)[k] == '['
    ensures !InSpan(MaskFences(text), k)
  {
    SpansMask(MaskFences(text), 0);
    SpansExactly(MaskFences(text), k);
  }

  /** The inner loop: walk to the parenthesis that closes the target at `start`. */
  method ReadTarget(text: string, start: nat) returns (closed: bool, index: nat)
    requires start <= |text|
    ensures closed ==> ClosesTarget(text, start, index)
    ensures !closed ==> forall j :: !ClosesTarget(text, start, j)
    ensures Close(text, start, 0) == if closed then Closed(index) else Broken(index)
  {
    var depth := 0;
    index := start;
    closed := false;
    while index < |text|
      invariant start <= index <= |text| + 1 && !closed
      invariant Close(text, index, depth) == Close(text, start, 0)
    {
      if text[index] == '\n' {
        break;
      }
      if text[index] == '\\' {
        index := index + 2;
        continue;
      }
      if text[index] == '(' {
        depth := depth + 1;
      } else if text[index] == ')' {
        if depth == 0 {
          closed := true;
          break;
        }
        depth := depth - 1;
      }
      index := index + 1;
    }
    forall j
      ensures Close(text, start, 0) == Closed(j) <==> ClosesTarget(text, start, j)
    {
      CloseIsBalanced(text, start, j);
    }
  }

  /** One opening bracket: the link it starts, if any, and where the scan goes on. */
  method VisitBracket(text: string, start: nat) returns (found: seq<Link>, cursor: nat)
    requires start < |text|
    ensures found == LinkAt(text, start) && cursor == After(text, start)
  {
    found := [];
    if start > 0 && text[start - 1] == '!' {
      return [], start + 1;
    }
    var ending := Find(text, ']', start + 1);
    if ending.None? || ending.value + 1 >= |text| || text[ending.value + 1] != '(' {
      return [], start + 1;
    }
    var closed, index := ReadTarget(text, ending.value + 2);
    if closed {
      found := [Link(start, ending.value + 2, index)];
    }
    cursor := index + 1;
  }

  /** The inline links of a text, from left to right. */
  method ScanLinks(text: string) returns (found: seq<Link>)
    ensures found == Links(text, 0)
    ensures forall l :: l in found <==> IsLink(text, l) && Visited(text, l.start)
  {
    found := [];
    var cursor := 0;
    while cursor < |text|
      invariant found + Links(text, cursor) == Links(text, 0)
    {
      var open := Find(text, '[', cursor);
      if open.None? {
        break;
      }
      var more, next := VisitBracket(text, open.value);
      Regroup(found, more, Links(text, next));
      found := found + more;
      cursor := next;
    }
    forall l
      ensures l in Links(text, 0) <==> IsLink(text, l) && Visited(text, l.start)
    {
      LinksFound(text, l);
    }
  }

  method InlineTargets(ghost text: string, masked: string, links: seq<Link>) returns (targets: seq<Found>)
    requires Masks(text, masked) && forall l :: l in links ==> l.start < |masked| && l.from <= l.to < |masked|
    ensures FromLinks(text, masked, links, targets)
  {
    targets := [];
    for i := 0 to |links|
      invariant FromLinks(text, masked, links[..i], targets)
    {
      var l := links[i];
      MaskKeepsLines(text, masked, l.start);
      targets := targets + [Found(LineNumber(masked, l.start), masked[l.from..l.to])];
    }
    assert links[..|links|] == links;
  }

  method ReferenceTargets(ghost text: string, masked: string, refs: seq<Ref>) returns (targets: seq<Found>)
    requires Masks(text, masked) && forall r :: r in refs ==> InText(masked, r)
    ensures FromRefs(text, masked, refs, targets)
  {
    targets := [];
    for i := 0 to |refs|
      invariant FromRefs(text, masked, refs[..i], targets)
    {
      var r := refs[i];
      assert InText(masked, r);
      MaskKeepsLines(text, masked, r.start);
      targets := targets + [Found(LineNumber(masked, r.start), masked[r.target.from..r.target.to])];
    }
    assert refs[..|refs|] == refs;
  }

  predicate InText(text: string, r: Ref) {
    r.start < |text| && r.target.from <= r.target.to <= |text|
  }

  lemma RefsInText(text: string)
    ensures forall r :: r in Refs(text) ==> InText(text, r)
  {
    forall i | 0 <= i < |Refs(text)|
      ensures InText(text, Refs(text)[i])
    {
      RefIsDefinition(text, i);
    }
  }

  /** Every target with its line: first the inline links, then the reference definitions. */
  method IterLinkTargets(text: string) returns (targets: seq<Found>)
    ensures var masked := MaskCode(text);
            var n := |Links(masked, 0)|;
            && Masks(text, masked) && |targets| == n + |Refs(masked)|
            && FromLinks(text, masked, Links(masked, 0), targets[..n])
            && FromRefs(text, masked, Refs(masked), targets[n..])
  {
    var code := MaskCodeInPlace(text);
    var links := ScanLinks(code);
    var inline := InlineTargets(text, code, links);
    RefsInText(code);
    var references := ReferenceTargets(text, code, Refs(code));
    targets := inline + references;
    assert targets[..|links|] == inline && targets[|links|..] == references;
  }
}
