/** Sequences: regrouping them, their elements, and those without repetitions. */
module Ordering {
  lemma Regroup<T>(a: seq<T>, b: seq<T>, c: seq<T>)
    ensures a + (b + c) == (a + b) + c
  {
  }

  function Elements<T>(s: seq<T>): set<T> {
    set x | x in s
  }

  predicate Distinct<T(==)>(s: seq<T>) {
    forall i, j :: 0 <= i < j < |s| ==> s[i] != s[j]
  }

  function Without<T(==,!new)>(s: seq<T>, x: T): (r: seq<T>)
    ensures forall y :: y in r <==> y in s && y != x
  {
    if s == [] then []
    else if s[0] == x then Without(s[1..], x)
    else [s[0]] + Without(s[1..], x)
  }

  function LastN<T>(s: seq<T>, n: nat): seq<T> {
    if |s| <= n then s else s[|s| - n..]
  }

  lemma {:induction false} WithoutAppend<T(!new)>(s: seq<T>, t: seq<T>, x: T)
    ensures Without(s + t, x) == Without(s, x) + Without(t, x)
  {
    if s == [] {
      assert s + t == t;
    } else {
      assert (s + t)[1..] == s[1..] + t;
      WithoutAppend(s[1..], t, x);
    }
  }

  lemma {:induction false} WithoutAbsent<T(!new)>(s: seq<T>, x: T)
    requires x !in s
    ensures Without(s, x) == s
  {
    if s != [] {
      WithoutAbsent(s[1..], x);
    }
  }

  lemma {:induction false} WithoutPresent<T(!new)>(s: seq<T>, x: T)
    requires Distinct(s) && x in s
    ensures |Without(s, x)| == |s| - 1
  {
    if s[0] == x {
      WithoutAbsent(s[1..], x);
    } else {
      WithoutPresent(s[1..], x);
    }
  }

  lemma {:induction false} WithoutShorter<T(!new)>(s: seq<T>, x: T)
    ensures |Without(s, x)| <= |s|
  {
    if s != [] {
      WithoutShorter(s[1..], x);
    }
  }

  lemma DistinctSnoc<T>(s: seq<T>, x: T)
    requires Distinct(s) && x !in s
    ensures Distinct(s + [x])
  {
  }

  lemma DistinctCons<T>(s: seq<T>, x: T)
    requires Distinct(s) && x !in s
    ensures Distinct([x] + s)
  {
  }

  lemma {:induction false} WithoutDistinct<T(!new)>(s: seq<T>, x: T)
    requires Distinct(s)
    ensures Distinct(Without(s, x))
  {
    if s != [] {
      WithoutDistinct(s[1..], x);
      if s[0] != x {
        DistinctCons(Without(s[1..], x), s[0]);
      }
    }
  }

  lemma DistinctParts<T>(a: seq<T>, b: seq<T>, x: T)
    requires Distinct(a + b) && x in b
    ensures x !in a && Distinct(b)
  {
    var k :| 0 <= k < |b| && b[k] == x;
    assert (a + b)[|a| + k] == x;
    forall i | 0 <= i < |a| ensures a[i] != x {
      assert (a + b)[i] == a[i];
    }
    forall i, j | 0 <= i < j < |b| ensures b[i] != b[j] {
      assert (a + b)[|a| + i] == b[i] && (a + b)[|a| + j] == b[j];
    }
  }

  /** Taking out an element of the kept end. */
  lemma LastNTouched<T(!new)>(s: seq<T>, x: T, n: nat)
    requires Distinct(s) && n > 0 && x in LastN(s, n)
    ensures Without(LastN(s, n), x) == LastN(Without(s, x), n - 1)
  {
    var last := LastN(s, n);
    var gone := s[..|s| - |last|];
    assert s == gone + last;
    DistinctParts(gone, last, x);
    WithoutAppend(gone, last, x);
    WithoutAbsent(gone, x);
    WithoutPresent(last, x);
    if gone != [] {
      assert |Without(last, x)| == n - 1;
    }
  }

  /** Taking out an element that is not in the kept end. */
  lemma LastNMissed<T(!new)>(s: seq<T>, x: T, n: nat)
    requires n > 0 && x !in LastN(s, n)
    ensures LastN(Without(s, x), n - 1) == LastN(s, n - 1)
  {
    var last := LastN(s, n - 1);
    var gone := s[..|s| - |last|];
    assert s == gone + last;
    assert x !in last by {
      assert LastN(s, n)[|LastN(s, n)| - |last|..] == last;
    }
    WithoutAppend(gone, last, x);
    WithoutAbsent(last, x);
  }

  /** The first of the kept elements is not among the others. */
  lemma FirstGone<T>(s: seq<T>, x: T, n: nat)
    requires n > 0 && |s| >= n && Distinct(s) && x !in LastN(s, n)
    ensures LastN(s, n)[0] !in LastN(s, n - 1) + [x]
    ensures (LastN(s, n) + [x])[1..] == LastN(s, n - 1) + [x]
  {
    var order := LastN(s, n);
    assert order[1..] == LastN(s, n - 1);
    forall k | 0 < k < n ensures order[k] != order[0] {
      assert order[k] == s[|s| - n + k] && order[0] == s[|s| - n];
    }
  }

  /** Of distinct elements, the kept end has those that fewer than `n` others follow. */
  lemma InLastN<T>(a: seq<T>, x: T, b: seq<T>, n: nat)
    requires Distinct(a + [x] + b)
    ensures x in LastN(a + [x] + b, n) <==> |b| < n
  {
    var all := a + [x] + b;
    var last := LastN(all, n);
    assert all[|a|] == x;
    if |b| < n {
      assert last[|last| - 1 - |b|] == x;
    } else {
      forall i | 0 <= i < |last| ensures last[i] != x {
        assert last[i] == all[|all| - |last| + i];
      }
    }
  }

  /** Using an element that is not in the kept end drops the oldest of a full end. */
  lemma LastNInserted<T(!new)>(s: seq<T>, x: T, n: nat)
    requires Distinct(s) && n > 0 && x !in LastN(s, n)
    ensures var kept := LastN(s, n);
            LastN(Without(s, x) + [x], n) == if |kept| < n then kept + [x] else (kept + [x])[1..]
    ensures |LastN(s, n)| == n ==> LastN(s, n)[0] !in (LastN(s, n) + [x])[1..]
  {
    LastNMissed(s, x, n);
    if |s| < n {
      WithoutAbsent(s, x);
    } else {
      FirstGone(s, x, n);
      LastNSnoc(Without(s, x), x, n);
    }
  }

  lemma LastNSnoc<T>(s: seq<T>, x: T, n: nat)
    requires n > 0
    ensures LastN(s + [x], n) == LastN(s, n - 1) + [x]
  {
  }
}
