/** Line numbers of positions in a text. */
module Lines {
  predicate IsLineStart(text: string, s: nat) {
    s <= |text| && (s == 0 || text[s - 1] == '\n')
  }

  /** Where the line that holds `i` starts. */
  function LineStart(text: string, i: nat): (s: nat)
    requires i <= |text|
    ensures s <= i && IsLineStart(text, s)
    ensures forall k :: s <= k < i ==> text[k] != '\n'
    decreases i
  {
    if i > 0 && text[i - 1] != '\n' then LineStart(text, i - 1) else i
  }

  lemma NewlineBefore(text: string, k: nat, i: nat)
    requires k < i <= |text| && text[k] == '\n'
    ensures k < LineStart(text, i)
  {
  }

  /** `text.count("\n", 0, i)`. */
  function Newlines(text: string, i: nat): nat
    requires i <= |text|
    decreases i
  {
    if i == 0 then 0 else Newlines(text, i - 1) + if text[i - 1] == '\n' then 1 else 0
  }

  function LineNumber(text: string, i: nat): nat
    requires i <= |text|
  {
    Newlines(text, i) + 1
  }

  /** Two positions have the same number exactly when their lines start at the same place. */
  lemma SameLine(text: string, i: nat, j: nat)
    requires i <= j <= |text|
    ensures LineNumber(text, i) == LineNumber(text, j) <==> LineStart(text, i) == LineStart(text, j)
  {
    NewlinesBetween(text, i, j);
    if LineStart(text, j) <= i {
      SameStart(text, i, j);
    }
  }

  lemma LinesGrow(text: string, i: nat, j: nat)
    requires i <= j <= |text|
    ensures LineNumber(text, i) <= LineNumber(text, j)
  {
    NewlinesBetween(text, i, j);
  }

  lemma {:induction false} NewlinesBetween(text: string, i: nat, j: nat)
    requires i <= j <= |text|
    ensures Newlines(text, i) <= Newlines(text, j)
    ensures Newlines(text, i) == Newlines(text, j) <==> LineStart(text, j) <= i
    decreases j
  {
    if i < j {
      NewlinesBetween(text, i, j - 1);
    }
  }

  lemma {:induction false} SameStart(text: string, i: nat, j: nat)
    requires i <= j <= |text| && LineStart(text, j) <= i
    ensures LineStart(text, i) == LineStart(text, j)
    decreases j
  {
    if i < j {
      SameStart(text, i, j - 1);
    }
  }
}
