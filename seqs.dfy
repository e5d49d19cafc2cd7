// Generic list operations the components build on: JavaScript's Array
// `filter`, `find` and a `reduce` that sums, each defined by recursion on the
// last element so that loops walking a list from the front can keep them as
// invariants.
module Seqs {

  /** `s.filter(p)`: the elements satisfying `p`, in their original order. */
  function Filter<T>(s: seq<T>, p: T -> bool): (r: seq<T>)
    ensures |r| <= |s|
    ensures forall x :: x in r ==> x in s && p(x)
  {
    if |s| == 0 then []
    else Filter(s[..|s| - 1], p) + (if p(s[|s| - 1]) then [s[|s| - 1]] else [])
  }

  /** `s.filter(p).length`. */
  function Count<T>(s: seq<T>, p: T -> bool): nat
  {
    |Filter(s, p)|
  }

  /** `s.reduce((sum, x) => sum + f(x), 0)`. */
  function Sum<T>(s: seq<T>, f: T -> nat): nat
  {
    if |s| == 0 then 0 else Sum(s[..|s| - 1], f) + f(s[|s| - 1])
  }

  /** The index `s.findIndex(p)` would return, or -1 when nothing matches. */
  function FindIndex<T>(s: seq<T>, p: T -> bool): (r: int)
    ensures -1 <= r < |s|
    ensures 0 <= r ==> p(s[r]) && forall j :: 0 <= j < r ==> !p(s[j])
    ensures r == -1 ==> forall j :: 0 <= j < |s| ==> !p(s[j])
  {
    if |s| == 0 then -1
    else if p(s[0]) then 0
    else
      var k := FindIndex(s[1..], p);
      if k == -1 then -1 else k + 1
  }

  /** The first index satisfying `p` in `a + b` is the one in `a`, or else the one in `b` shifted by `|a|`. */
  lemma FindIndexAppend<T>(a: seq<T>, b: seq<T>, p: T -> bool)
    ensures FindIndex(a + b, p) ==
      if FindIndex(a, p) >= 0 then FindIndex(a, p)
      else if FindIndex(b, p) >= 0 then |a| + FindIndex(b, p)
      else -1
  {
    var k, i, m := FindIndex(a + b, p), FindIndex(a, p), FindIndex(b, p);
    forall j | 0 <= j < |a| ensures (a + b)[j] == a[j] {
    }
    forall j | 0 <= j < |b| ensures (a + b)[|a| + j] == b[j] {
    }
    if i >= 0 {
      assert p((a + b)[i]);
    } else if m >= 0 {
      assert p((a + b)[|a| + m]);
    }
  }

  /** The elements of `s`, each kept only at its first occurrence. */
  function Dedup<T(==)>(s: seq<T>): (r: seq<T>)
  {
    if |s| == 0 then []
    else
      var d := Dedup(s[..|s| - 1]);
      if s[|s| - 1] in d then d else d + [s[|s| - 1]]
  }

  /** The position of the first occurrence of `x` in `s`. */
  function FirstIndex<T(==)>(s: seq<T>, x: T): (k: nat)
    requires x in s
    ensures k < |s| && s[k] == x && forall j :: 0 <= j < k ==> s[j] != x
  {
    if s[0] == x then 0 else 1 + FirstIndex(s[1..], x)
  }

  ghost predicate Distinct<T>(s: seq<T>)
  {
    forall i, j :: 0 <= i < j < |s| ==> s[i] != s[j]
  }

  // ---------------------------------------------------------------------------
  // Filter

  lemma {:induction false} FilterAppend<T>(a: seq<T>, b: seq<T>, p: T -> bool)
    ensures Filter(a + b, p) == Filter(a, p) + Filter(b, p)
    decreases |b|
  {
    if |b| == 0 {
      assert a + b == a;
    } else {
      var b', x := b[..|b| - 1], b[|b| - 1];
      var tail := if p(x) then [x] else [];
      assert (a + b)[..|a + b| - 1] == a + b';
      assert (a + b)[|a + b| - 1] == x;
      assert Filter(a + b, p) == Filter(a + b', p) + tail;
      FilterAppend(a, b', p);
      assert Filter(b, p) == Filter(b', p) + tail;
    }
  }

  /** Filter keeps exactly the elements satisfying `p`. */
  lemma {:induction false} FilterMembers<T>(s: seq<T>, p: T -> bool, x: T)
    ensures x in Filter(s, p) <==> x in s && p(x)
  {
    if |s| > 0 {
      FilterMembers(s[..|s| - 1], p, x);
      assert s == s[..|s| - 1] + [s[|s| - 1]];
    }
  }

  /** Filtering a list every element of which passes is the identity. */
  lemma {:induction false} FilterAll<T>(s: seq<T>, p: T -> bool)
    requires forall i :: 0 <= i < |s| ==> p(s[i])
    ensures Filter(s, p) == s
  {
    if |s| > 0 {
      FilterAll(s[..|s| - 1], p);
    }
  }

  /** Filtering a list no element of which passes gives the empty list. */
  lemma {:induction false} FilterNone<T>(s: seq<T>, p: T -> bool)
    requires forall i :: 0 <= i < |s| ==> !p(s[i])
    ensures Filter(s, p) == []
  {
    if |s| > 0 {
      FilterNone(s[..|s| - 1], p);
    }
  }

  /** Filtering twice by the same predicate is filtering once. */
  lemma FilterIdempotent<T>(s: seq<T>, p: T -> bool)
    ensures Filter(Filter(s, p), p) == Filter(s, p)
  {
    var f := Filter(s, p);
    forall i | 0 <= i < |f| ensures p(f[i]) {
      assert f[i] in f;
    }
    FilterAll(f, p);
  }

  // ---------------------------------------------------------------------------
  // Sum

  lemma {:induction false} SumAppend<T>(a: seq<T>, b: seq<T>, f: T -> nat)
    ensures Sum(a + b, f) == Sum(a, f) + Sum(b, f)
    decreases |b|
  {
    if |b| == 0 {
      assert a + b == a;
    } else {
      var b' := b[..|b| - 1];
      assert (a + b)[..|a + b| - 1] == a + b';
      assert (a + b)[|a + b| - 1] == b[|b| - 1];
      SumAppend(a, b', f);
    }
  }

  /** Each term of a sum is at most the sum. */
  lemma {:induction false} SumBoundsTerm<T>(s: seq<T>, f: T -> nat, i: int)
    requires 0 <= i < |s|
    ensures f(s[i]) <= Sum(s, f)
  {
    if i < |s| - 1 {
      SumBoundsTerm(s[..|s| - 1], f, i);
    }
  }

  /** Raising one term of a sum by `d` raises the sum by `d`. */
  lemma {:induction false} SumOneChanged<T>(a: seq<T>, b: seq<T>, f: T -> nat, j: int, d: nat)
    requires |a| == |b| && 0 <= j < |a|
    requires forall i :: 0 <= i < |a| && i != j ==> f(b[i]) == f(a[i])
    requires f(b[j]) == f(a[j]) + d
    ensures Sum(b, f) == Sum(a, f) + d
  {
    var n := |a| - 1;
    if j < n {
      SumOneChanged(a[..n], b[..n], f, j, d);
    } else {
      SumSame(a[..n], b[..n], f);
    }
  }

  /** Sums of lists whose terms agree are equal. */
  lemma {:induction false} SumSame<T>(a: seq<T>, b: seq<T>, f: T -> nat)
    requires |a| == |b| && forall i :: 0 <= i < |a| ==> f(b[i]) == f(a[i])
    ensures Sum(b, f) == Sum(a, f)
  {
    if |a| > 0 {
      SumSame(a[..|a| - 1], b[..|b| - 1], f);
    }
  }

  // ---------------------------------------------------------------------------
  // Dedup

  /** Dedup keeps every element once, and nothing else. */
  lemma {:induction false} DedupMembers<T>(s: seq<T>)
    ensures Distinct(Dedup(s))
    ensures forall x :: x in Dedup(s) <==> x in s
  {
    if |s| > 0 {
      DedupMembers(s[..|s| - 1]);
      assert s == s[..|s| - 1] + [s[|s| - 1]];
    }
  }

  /** A list without repeats is its own Dedup. */
  lemma {:induction false} DedupDistinct<T>(s: seq<T>)
    requires Distinct(s)
    ensures Dedup(s) == s
  {
    if |s| > 0 {
      var s' := s[..|s| - 1];
      DedupDistinct(s');
      assert s[|s| - 1] !in s' by {
        forall j | 0 <= j < |s'| ensures s'[j] != s[|s| - 1] {
          assert s[j] != s[|s| - 1];
        }
      }
    }
  }

  /** Dedup lists the elements in the order of their first occurrence. */
  lemma {:induction false} DedupFirstOccurrence<T>(s: seq<T>)
    ensures forall x :: x in Dedup(s) ==> x in s
    ensures forall i, j :: 0 <= i < j < |Dedup(s)| ==>
      FirstIndex(s, Dedup(s)[i]) < FirstIndex(s, Dedup(s)[j])
  {
    DedupMembers(s);
    if |s| > 0 {
      var s' := s[..|s| - 1];
      var x := s[|s| - 1];
      var d := Dedup(s');
      DedupFirstOccurrence(s');
      DedupMembers(s');
      assert s == s' + [x];
      forall y | y in s'
        ensures FirstIndex(s, y) == FirstIndex(s', y)
      {
        FirstIndexPrefix(s', x, y);
      }
      if x !in d {
        assert x !in s';
        assert FirstIndex(s, x) == |s'|;
      }
    }
  }

  lemma FirstIndexPrefix<T>(s: seq<T>, x: T, y: T)
    requires y in s
    ensures FirstIndex(s + [x], y) == FirstIndex(s, y)
  {
    var k := FirstIndex(s, y);
    var t := s + [x];
    assert t[k] == y;
    var k' := FirstIndex(t, y);
    assert k' <= k;
    assert k' < |s| && s[k'] == y;
  }

  lemma {:induction false} DedupSnoc<T>(s: seq<T>, x: T)
    ensures Dedup(s + [x]) == if x in Dedup(s) then Dedup(s) else Dedup(s) + [x]
  {
    assert (s + [x])[..|s + [x]| - 1] == s;
  }

  /** A prefix of a list without repeats has none either. */
  lemma DistinctPrefix<T>(a: seq<T>, b: seq<T>)
    requires Distinct(a + b)
    ensures Distinct(a)
  {
    forall i, j | 0 <= i < j < |a|
      ensures a[i] != a[j]
    {
      assert (a + b)[i] == a[i] && (a + b)[j] == a[j];
    }
  }

  /** Dropping the tail `c` of a list without repeats leaves a list without repeats. */
  lemma DistinctShrink<T>(a: seq<T>, b: seq<T>, c: seq<T>)
    requires Distinct(a + (b + c))
    ensures Distinct(a + b)
  {
    forall i, j | 0 <= i < j < |a + b|
      ensures (a + b)[i] != (a + b)[j]
    {
      assert (a + (b + c))[i] == (a + b)[i] && (a + (b + c))[j] == (a + b)[j];
    }
  }

}
