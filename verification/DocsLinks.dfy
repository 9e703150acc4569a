/** The inline links of a documentation file, read by a scanner that balances parentheses and
    runs over the text with its code blanked out. */
module DocsLinks {
  import opened Options

  // ── Reading to the closing parenthesis ──────────────────────────────

  /** Where the reading of a link target stops: at its closing parenthesis, or at a newline
      or the end of the text. A trailing backslash steps one past the end. */
  datatype Stop = Closed(at: nat) | Broken(at: nat)

  function Close(text: string, i: nat, depth: nat): (r: Stop)
    requires i <= |text| + 1
    ensures i <= r.at <= |text| + 1
    ensures r.Closed? ==> r.at < |text|
    decreases |text| + 1 - i
  {
    if i >= |text| || text[i] == '\n' then Broken(i)
    else if text[i] == '\\' then Close(text, i + 2, depth)
    else if text[i] == '(' then Close(text, i + 1, depth + 1)
    else if text[i] == ')' && depth == 0 then Closed(i)
    else if text[i] == ')' then Close(text, i + 1, depth - 1)
    else Close(text, i + 1, depth)
  }

  /** A character after an unescaped backslash, reading from `i`. */
  predicate Escaped(text: string, i: nat, k: nat)
    requires i <= k <= |text|
    decreases k
  {
    i < k && text[k - 1] == '\\' && !Escaped(text, i, k - 1)
  }

  /** Unescaped parentheses left open before `k`. */
  function Depth(text: string, i: nat, k: nat): int
    requires i <= k <= |text|
    decreases k
  {
    if k == i then 0
    else
      var before := Depth(text, i, k - 1);
      if Escaped(text, i, k - 1) then before
      else if text[k - 1] == '(' then before + 1
      else if text[k - 1] == ')' then before - 1
      else before
  }

  /** No parenthesis is closed before it is opened, and no unescaped newline is passed. */
  predicate Readable(text: string, i: nat, j: nat)
    requires i <= j <= |text|
  {
    && (forall m :: i <= m <= j ==> Depth(text, i, m) >= 0)
    && (forall m :: i <= m < j && !Escaped(text, i, m) ==> text[m] != '\n')
  }

  /** The parenthesis at `j` closes the target that starts at `i`. */
  predicate ClosesTarget(text: string, i: nat, j: nat) {
    && i <= j < |text| && text[j] == ')' && !Escaped(text, i, j)
    && Depth(text, i, j) == 0 && Readable(text, i, j)
  }

  lemma {:induction false} CloseFrom(text: string, i: nat, k: nat, j: nat)
    requires i <= k <= |text| && !Escaped(text, i, k) && Readable(text, i, k)
    ensures Close(text, k, Depth(text, i, k)) == Closed(j) <==> k <= j && ClosesTarget(text, i, j)
    decreases |text| - k
  {
    if k < |text| && text[k] != '\n' {
      assert Depth(text, i, k + 1)
          == Depth(text, i, k) + (if text[k] == '(' then 1 else if text[k] == ')' then -1 else 0);
      if text[k] == '\\' {
        if k + 1 < |text| {
          assert Escaped(text, i, k + 1) && Depth(text, i, k + 2) == Depth(text, i, k + 1);
          CloseFrom(text, i, k + 2, j);
        }
      } else if text[k] == ')' && Depth(text, i, k) == 0 {
        assert Depth(text, i, k + 1) == -1;
      } else {
        CloseFrom(text, i, k + 1, j);
      }
    }
  }

  /** The scanner stops at `j` exactly when `j` closes the target: the first unescaped
      closing parenthesis that matches none opened inside, with no unescaped newline before
      it. */
  lemma CloseIsBalanced(text: string, i: nat, j: nat)
    requires i <= |text|
    ensures Close(text, i, 0) == Closed(j) <==> ClosesTarget(text, i, j)
  {
    CloseFrom(text, i, i, j);
  }

  /** The target that starts at `i` is not closed, and its reading stops at `j`: at the first
      newline that is not escaped, or at the end of the text, one past it when a backslash
      is the last character. */
  predicate StopsUnclosed(text: string, i: nat, j: nat) {
    i <= |text| &&
    if j < |text| then i <= j && text[j] == '\n' && !Escaped(text, i, j) && Readable(text, i, j)
    else Readable(text, i, |text|) && j == if Escaped(text, i, |text|) then |text| + 1 else |text|
  }

  lemma {:induction false} BreaksFrom(text: string, i: nat, k: nat, j: nat)
    requires i <= k <= |text| && !Escaped(text, i, k) && Readable(text, i, k)
    ensures Close(text, k, Depth(text, i, k)) == Broken(j) <==> k <= j && StopsUnclosed(text, i, j)
    decreases |text| - k
  {
    if k < |text| && text[k] != '\n' {
      assert Depth(text, i, k + 1)
          == Depth(text, i, k) + (if text[k] == '(' then 1 else if text[k] == ')' then -1 else 0);
      if text[k] == '\\' {
        assert Escaped(text, i, k + 1);
        if k + 1 < |text| {
          assert Depth(text, i, k + 2) == Depth(text, i, k + 1);
          BreaksFrom(text, i, k + 2, j);
        }
      } else if text[k] == ')' && Depth(text, i, k) == 0 {
        assert Depth(text, i, k + 1) == -1;
      } else {
        BreaksFrom(text, i, k + 1, j);
      }
    }
  }

  // ── Inline links ────────────────────────────────────────────────────

  /** `text.find(c, i)`. */
  function Find(text: string, c: char, i: nat): (r: Option<nat>)
    requires i <= |text|
    ensures r.Some? ==> i <= r.value < |text| && text[r.value] == c && c !in text[i..r.value]
    ensures r.None? ==> c !in text[i..]
    decreases |text| - i
  {
    if i == |text| then None else if text[i] == c then Some(i) else Find(text, c, i + 1)
  }

  /** The bracket at `start`, the target from `from` up to its closing parenthesis at `to`. */
  datatype Link = Link(start: nat, from: nat, to: nat)

  /** A link by itself: a bracket that no `!` precedes, a label that ends at the
      next closing bracket, and a parenthesised target right after it. */
  predicate IsLink(text: string, l: Link) {
    && l.start + 3 <= l.from <= |text| && text[l.start] == '[' && (l.start == 0 || text[l.start - 1] != '!')
    && text[l.from - 2] == ']' && text[l.from - 1] == '(' && ']' !in text[l.start + 1..l.from - 2]
    && ClosesTarget(text, l.from, l.to)
  }

  /** What the scanner does at an opening bracket: step past it, or read a target. */
  datatype Visit = Skip | Read(from: nat, stop: Stop)

  function VisitAt(text: string, start: nat): (v: Visit)
    requires start < |text|
    ensures v.Read? ==> start + 3 <= v.from <= |text| && v.from <= v.stop.at
    ensures v.Read? && v.stop.Closed? ==> v.stop.at < |text|
  {
    if start > 0 && text[start - 1] == '!' then Skip
    else
      var ending := Find(text, ']', start + 1);
      if ending.None? || ending.value + 1 >= |text| || text[ending.value + 1] != '(' then Skip
      else Read(ending.value + 2, Close(text, ending.value + 2, 0))
  }

  function After(text: string, start: nat): (n: nat)
    requires start < |text|
    ensures n > start
  {
    var v := VisitAt(text, start);
    if v.Read? then v.stop.at + 1 else start + 1
  }

  function LinkAt(text: string, start: nat): seq<Link>
    requires start < |text|
  {
    var v := VisitAt(text, start);
    if v.Read? && v.stop.Closed? then [Link(start, v.from, v.stop.at)] else []
  }

  function Links(text: string, cursor: nat): seq<Link>
    decreases |text| - cursor
  {
    if cursor >= |text| then []
    else
      var open := Find(text, '[', cursor);
      if open.None? then [] else LinkAt(text, open.value) + Links(text, After(text, open.value))
  }

  lemma LinkAtIsLink(text: string, l: Link)
    requires l.start < |text| && text[l.start] == '['
    ensures l in LinkAt(text, l.start) <==> IsLink(text, l)
  {
    var ending := Find(text, ']', l.start + 1);
    if ending.Some? && l.from == ending.value + 2 <= |text| {
      CloseIsBalanced(text, l.from, l.to);
    }
    if IsLink(text, l) {
      assert text[l.from - 2] in text[l.start + 1..];
      SameEnd(text, ']', l.start + 1, ending.value, l.from - 2);
    }
  }

  /** A bracket that no `!` precedes, whose label ends at the next closing bracket with a
      parenthesis right after it, so that a target starts at `from`. */
  predicate TargetStarts(text: string, start: nat, from: nat) {
    && start + 3 <= from <= |text| && text[start] == '[' && (start == 0 || text[start - 1] != '!')
    && text[from - 2] == ']' && text[from - 1] == '(' && ']' !in text[start + 1..from - 2]
  }

  /** Where the scan goes on after a bracket: past the closing parenthesis of a link, past the
      place where the reading of an unclosed target stopped, or else right after the bracket. */
  lemma GoesOnAfter(text: string, start: nat)
    requires start < |text| && text[start] == '['
    ensures forall l :: IsLink(text, l) && l.start == start ==> After(text, start) == l.to + 1
    ensures forall from: nat, j: nat :: TargetStarts(text, start, from) && StopsUnclosed(text, from, j) ==>
              After(text, start) == j + 1
    ensures (forall from: nat :: !TargetStarts(text, start, from)) ==> After(text, start) == start + 1
  {
    var ending := Find(text, ']', start + 1);
    forall l | IsLink(text, l) && l.start == start ensures After(text, start) == l.to + 1 {
      LinkAtIsLink(text, l);
    }
    forall from: nat, j: nat | TargetStarts(text, start, from) && StopsUnclosed(text, from, j)
      ensures After(text, start) == j + 1
    {
      StartsAfterLabel(text, start, from);
      BreaksFrom(text, from, from, j);
    }
    if ending.Some? && ending.value + 1 < |text| && text[ending.value + 1] == '('
       && (start == 0 || text[start - 1] != '!') {
      assert TargetStarts(text, start, ending.value + 2);
    }
  }

  lemma StartsAfterLabel(text: string, start: nat, from: nat)
    requires TargetStarts(text, start, from)
    ensures Find(text, ']', start + 1) == Some(from - 2)
  {
    var ending := Find(text, ']', start + 1);
    assert text[from - 2] in text[start + 1..];
    SameEnd(text, ']', start + 1, ending.value, from - 2);
  }

  lemma SameEnd(text: string, c: char, i: nat, a: nat, b: nat)
    requires i <= a < |text| && text[a] == c && c !in text[i..a]
    requires i <= b < |text| && text[b] == c && c !in text[i..b]
    ensures a == b
  {
    forall k | i <= k < a
      ensures text[k] != c
    {
      assert text[k] in text[i..a];
    }
    forall k | i <= k < b
      ensures text[k] != c
    {
      assert text[k] in text[i..b];
    }
  }

  /** An opening bracket the scanner visits: no earlier visited one reads past it. */
  predicate Visited(text: string, p: nat)
    decreases p
  {
    p < |text| && text[p] == '[' && forall s :: 0 <= s < p && Visited(text, s) ==> After(text, s) <= p
  }

  /** Everything visited before `cursor` has been read to its end. */
  predicate ClearBefore(text: string, cursor: nat) {
    forall s :: 0 <= s < cursor && Visited(text, s) ==> After(text, s) <= cursor
  }

  lemma {:induction false} LinksFrom(text: string, cursor: nat, l: Link)
    requires ClearBefore(text, cursor)
    ensures l in Links(text, cursor) <==> l.start >= cursor && IsLink(text, l) && Visited(text, l.start)
    decreases |text| - cursor
  {
    if cursor < |text| {
      var open := Find(text, '[', cursor);
      if open.None? {
        assert cursor <= l.start < |text| ==> text[l.start] in text[cursor..];
      } else {
        NextVisited(text, cursor, open.value);
        LinksFrom(text, After(text, open.value), l);
        if l.start == open.value {
          LinkAtIsLink(text, l);
        } else if cursor <= l.start < open.value {
          assert text[l.start] in text[cursor..open.value];
        }
      }
    }
  }

  lemma NextVisited(text: string, cursor: nat, open: nat)
    requires ClearBefore(text, cursor) && cursor <= open < |text| && text[open] == '[' && '[' !in text[cursor..open]
    ensures Visited(text, open) && ClearBefore(text, After(text, open))
  {
    forall s | cursor <= s < open
      ensures !Visited(text, s)
    {
      assert text[s] in text[cursor..open];
    }
  }

  /** The scanner reports exactly the links it visits. A link is missed only where an
      earlier bracket, visited itself, read a target past it. */
  lemma LinksFound(text: string, l: Link)
    ensures l in Links(text, 0) <==> IsLink(text, l) && Visited(text, l.start)
  {
    LinksFrom(text, 0, l);
  }

  /** Links are reported from left to right and never overlap. */
  lemma {:induction false} LinksInOrder(text: string, cursor: nat, i: nat, j: nat)
    requires i < j < |Links(text, cursor)|
    ensures Links(text, cursor)[i].to < Links(text, cursor)[j].start
    decreases |text| - cursor
  {
    var open := Find(text, '[', cursor).value;
    var next := After(text, open);
    var n := |LinkAt(text, open)|;
    if i < n {
      LinkStarts(text, next, j - n);
    } else {
      LinksInOrder(text, next, i - n, j - n);
    }
  }

  lemma {:induction false} LinkStarts(text: string, cursor: nat, i: nat)
    requires i < |Links(text, cursor)|
    ensures Links(text, cursor)[i].start >= cursor
    decreases |text| - cursor
  {
    var open := Find(text, '[', cursor).value;
    if i >= |LinkAt(text, open)| {
      LinkStarts(text, After(text, open), i - |LinkAt(text, open)|);
    }
  }
}
