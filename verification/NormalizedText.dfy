/** What the normalizing of rendered text comes to: the same words, one space apart. */
module NormalizedText {
  import opened Whitespace
  import opened SourceRanges

  /** The characters that are not whitespace, each with whether whitespace, or the start of
      the text, comes right before it. */
  function Letters(s: string, gap: bool): seq<(char, bool)>
    decreases |s|
  {
    if s == "" then []
    else if IsScriptSpace(s[0]) then Letters(s[1..], true)
    else [(s[0], gap)] + Letters(s[1..], false)
  }

  /** All whitespace is a single space between two other characters. */
  predicate Tidy(s: string) {
    forall i :: 0 <= i < |s| && IsScriptSpace(s[i]) ==> s[i] == ' ' && 0 < i < |s| - 1 && !IsScriptSpace(s[i + 1])
  }

  // ── The words stay ──────────────────────────────────────────────────

  lemma {:induction false} CollapseKeepsWords(s: string, after: bool, gap: bool)
    requires after ==> gap
    ensures Letters(Collapse(s, after), gap) == Letters(s, gap)
    decreases |s|
  {
    if s != "" {
      var space := IsScriptSpace(s[0]);
      var rest := Collapse(s[1..], space);
      CollapseKeepsWords(s[1..], space, space);
      if !space {
        assert ([s[0]] + rest)[1..] == rest;
      } else if after {
        assert "" + rest == rest;
      } else {
        assert (" " + rest)[1..] == rest && IsScriptSpace(' ');
      }
    }
  }

  lemma {:induction false} TrimLeftKeepsWords(s: string)
    ensures Letters(TrimLeft(s), true) == Letters(s, true)
    decreases |s|
  {
    if s != "" && IsScriptSpace(s[0]) {
      TrimLeftKeepsWords(s[1..]);
    }
  }

  lemma {:induction false} LettersBeforeSpace(s: string, c: char, gap: bool)
    requires IsScriptSpace(c)
    ensures Letters(s + [c], gap) == Letters(s, gap)
    decreases |s|
  {
    if s == "" {
      assert s + [c] == [c] && [c][1..] == "";
    } else {
      assert (s + [c])[1..] == s[1..] + [c];
      LettersBeforeSpace(s[1..], c, IsScriptSpace(s[0]));
    }
  }

  lemma {:induction false} TrimRightKeepsWords(s: string, gap: bool)
    ensures Letters(TrimRight(s), gap) == Letters(s, gap)
    decreases |s|
  {
    if s != "" && IsScriptSpace(s[|s| - 1]) {
      var n := |s| - 1;
      assert s == s[..n] + [s[n]];
      LettersBeforeSpace(s[..n], s[n], gap);
      TrimRightKeepsWords(s[..n], gap);
    }
  }

  // ── The spaces are single ───────────────────────────────────────────

  /** Whitespace is single spaces, except that one may stand at either end. */
  predicate Single(s: string) {
    forall i :: 0 <= i < |s| && IsScriptSpace(s[i]) ==> s[i] == ' ' && (i + 1 < |s| ==> !IsScriptSpace(s[i + 1]))
  }

  lemma {:induction false} CollapseIsSingle(s: string, after: bool)
    ensures Single(Collapse(s, after)) && (after && Collapse(s, after) != "" ==> !IsScriptSpace(Collapse(s, after)[0]))
    decreases |s|
  {
    if s != "" {
      CollapseIsSingle(s[1..], IsScriptSpace(s[0]));
    }
  }

  lemma {:induction false} TrimLeftIsSingle(s: string)
    requires Single(s)
    ensures Single(TrimLeft(s)) && (TrimLeft(s) != "" ==> !IsScriptSpace(TrimLeft(s)[0]))
    decreases |s|
  {
    if s != "" && IsScriptSpace(s[0]) {
      forall i | 0 <= i < |s[1..]| && IsScriptSpace(s[1..][i])
        ensures s[1..][i] == ' ' && (i + 1 < |s[1..]| ==> !IsScriptSpace(s[1..][i + 1]))
      {
        assert s[1..][i] == s[i + 1];
      }
      TrimLeftIsSingle(s[1..]);
    }
  }

  lemma {:induction false} TrimRightIsTidy(s: string)
    requires Single(s) && (s != "" ==> !IsScriptSpace(s[0]))
    ensures Tidy(TrimRight(s))
    decreases |s|
  {
    if s != "" && IsScriptSpace(s[|s| - 1]) {
      TrimRightIsTidy(s[..|s| - 1]);
    }
  }

  /** Normalizing keeps the words of a text as they are, in order and apart where they were
      apart, and leaves one space between two of them and none elsewhere. */
  lemma NormalizeTidies(s: string)
    ensures Letters(Normalize(s), true) == Letters(s, true) && Tidy(Normalize(s))
  {
    var collapsed := Collapse(s, false);
    var trimmed := TrimLeft(collapsed);
    CollapseKeepsWords(s, false, true);
    TrimLeftKeepsWords(collapsed);
    TrimRightKeepsWords(trimmed, true);
    CollapseIsSingle(s, false);
    TrimLeftIsSingle(collapsed);
    TrimRightIsTidy(trimmed);
  }
}
