/** Order-preserving selection and summation over sequences: the
    `Array.prototype.filter`, `.filter(...).length` and `.reduce(+)` idioms
    the store's components are written with. */
module Seqs {

  /** `s.filter(p)`: the elements of `s` satisfying `p`, in their original order. */
  function Keep<T>(s: seq<T>, p: T -> bool): (r: seq<T>)
    ensures |r| <= |s|
    ensures forall i :: 0 <= i < |r| ==> p(r[i])
    ensures forall x :: x in r ==> x in s
    ensures forall i :: 0 <= i < |s| && p(s[i]) ==> s[i] in r
    ensures multiset(r) <= multiset(s)
  {
    if s == [] then []
    else
      assert s == [s[0]] + s[1..];
      (if p(s[0]) then [s[0]] else []) + Keep(s[1..], p)
  }

  /** Filtering a concatenation filters each part. */
  lemma {:induction false} KeepAppend<T>(a: seq<T>, b: seq<T>, p: T -> bool)
    ensures Keep(a + b, p) == Keep(a, p) + Keep(b, p)
    decreases |a|
  {
    if a == [] {
      assert a + b == b;
    } else {
      assert (a + b)[0] == a[0];
      assert (a + b)[1..] == a[1..] + b;
      KeepAppend(a[1..], b, p);
    }
  }

  /** A filter that every element passes changes nothing. */
  lemma {:induction false} KeepAll<T>(s: seq<T>, p: T -> bool)
    requires forall i :: 0 <= i < |s| ==> p(s[i])
    ensures Keep(s, p) == s
    decreases |s|
  {
    if s != [] {
      KeepAll(s[1..], p);
    }
  }

  /** A filter that no element passes leaves nothing. */
  lemma {:induction false} KeepNone<T>(s: seq<T>, p: T -> bool)
    requires forall i :: 0 <= i < |s| ==> !p(s[i])
    ensures Keep(s, p) == []
    decreases |s|
  {
    if s != [] {
      KeepNone(s[1..], p);
    }
  }

  /** Filtering twice with the same predicate is filtering once. */
  lemma KeepIdempotent<T>(s: seq<T>, p: T -> bool)
    ensures Keep(Keep(s, p), p) == Keep(s, p)
  {
    KeepAll(Keep(s, p), p);
  }

  /** Every element is either kept by `p` or kept by its complement `q`. */
  lemma {:induction false} KeepSplitCount<T>(s: seq<T>, p: T -> bool, q: T -> bool)
    requires forall x :: q(x) == !p(x)
    ensures |Keep(s, p)| + |Keep(s, q)| == |s|
    decreases |s|
  {
    if s != [] {
      KeepSplitCount(s[1..], p, q);
    }
  }

  /** The number of elements kept is the number of positions whose element
      satisfies `p`. */
  lemma {:induction false} KeepCountsIndices<T>(s: seq<T>, p: T -> bool)
    ensures |Keep(s, p)| == |IndicesWhere(s, p)|
    decreases |s|
  {
    if s != [] {
      var n := |s| - 1;
      var init := s[..n];
      KeepCountsIndices(init, p);
      assert s == init + [s[n]];
      KeepAppend(init, [s[n]], p);
      KeepOne(s[n], p);
      IndicesGrow(s, p);
    }
  }

  /** The positions of `s` whose element satisfies `p`. */
  function IndicesWhere<T>(s: seq<T>, p: T -> bool): set<int> {
    set i | 0 <= i < |s| && p(s[i])
  }

  lemma KeepOne<T>(x: T, p: T -> bool)
    ensures Keep([x], p) == if p(x) then [x] else []
  {
    assert [x][1..] == [];
  }

  lemma IndicesGrow<T>(s: seq<T>, p: T -> bool)
    requires s != []
    ensures |IndicesWhere(s, p)| == |IndicesWhere(s[..|s| - 1], p)| + (if p(s[|s| - 1]) then 1 else 0)
  {
    var n := |s| - 1;
    var init := s[..n];
    var before := IndicesWhere(init, p);
    var after := IndicesWhere(s, p);
    var last: set<int> := if p(s[n]) then {n} else {};
    forall i
      ensures i in after <==> i in before + last
    {
      if 0 <= i < n {
        assert init[i] == s[i];
      }
    }
    assert after == before + last;
    assert n !in before;
    assert before !! last;
  }

  /** `s.reduce((sum, x) => sum + f(x), 0)`. */
  function SumOf<T>(s: seq<T>, f: T -> int): int {
    if s == [] then 0 else f(s[0]) + SumOf(s[1..], f)
  }

  lemma {:induction false} SumAppend<T>(a: seq<T>, b: seq<T>, f: T -> int)
    ensures SumOf(a + b, f) == SumOf(a, f) + SumOf(b, f)
    decreases |a|
  {
    if a == [] {
      assert a + b == b;
    } else {
      assert (a + b)[0] == a[0];
      assert (a + b)[1..] == a[1..] + b;
      SumAppend(a[1..], b, f);
    }
  }

  /** A sum splits into the part `p` selects and the part its complement
      `q` selects. */
  lemma {:induction false} SumSplit<T>(s: seq<T>, f: T -> int, p: T -> bool, q: T -> bool)
    requires forall x :: q(x) == !p(x)
    ensures SumOf(s, f) == SumOf(Keep(s, p), f) + SumOf(Keep(s, q), f)
    decreases |s|
  {
    if s != [] {
      SumSplit(s[1..], f, p, q);
      var head := if p(s[0]) then [s[0]] else [];
      SumAppend(head, Keep(s[1..], p), f);
      var nhead := if q(s[0]) then [s[0]] else [];
      SumAppend(nhead, Keep(s[1..], q), f);
    }
  }

  /** A sum of non-negative terms is non-negative. */
  lemma {:induction false} SumNonNegative<T>(s: seq<T>, f: T -> int)
    requires forall i :: 0 <= i < |s| ==> f(s[i]) >= 0
    ensures SumOf(s, f) >= 0
    decreases |s|
  {
    if s != [] {
      SumNonNegative(s[1..], f);
    }
  }
}
