/** A stable insertion sort by a key under a total order: the model of
    `Array.prototype.sort` with a comparator that compares one field (the
    ECMAScript sort is stable, so ties keep their input order). */
module Sorting {

  import Text

  /** `le` is a total order on keys: total, antisymmetric and transitive
      (totality gives reflexivity). */
  ghost predicate TotalOrder<K(!new)>(le: (K, K) -> bool) {
    && (forall a, b :: le(a, b) || le(b, a))
    && (forall a, b :: le(a, b) && le(b, a) ==> a == b)
    && (forall a, b, c :: le(a, b) && le(b, c) ==> le(a, c))
  }

  /** Every earlier element's key is `le` every later element's key. */
  ghost predicate SortedBy<T, K>(s: seq<T>, key: T -> K, le: (K, K) -> bool) {
    forall i, j :: 0 <= i < j < |s| ==> le(key(s[i]), key(s[j]))
  }

  /** The elements of `s` whose key is exactly `k`, in order. Stability means
      this subsequence is the same before and after sorting, for every `k`. */
  function WithKey<T, K(==)>(s: seq<T>, key: T -> K, k: K): seq<T> {
    if s == [] then [] else (if key(s[0]) == k then [s[0]] else []) + WithKey(s[1..], key, k)
  }

  /** Inserts `x` before the first element whose key is not below its own. */
  function Insert<T, K>(x: T, t: seq<T>, key: T -> K, le: (K, K) -> bool): (r: seq<T>)
    ensures |r| == |t| + 1
    ensures multiset(r) == multiset([x] + t)
  {
    if t == [] || le(key(x), key(t[0])) then [x] + t
    else
      assert t == [t[0]] + t[1..];
      [t[0]] + Insert(x, t[1..], key, le)
  }

  /** Insertion sort of `s` by `key` under `le`. */
  function SortBy<T, K>(s: seq<T>, key: T -> K, le: (K, K) -> bool): (r: seq<T>)
    ensures |r| == |s|
    ensures multiset(r) == multiset(s)
  {
    if s == [] then []
    else
      assert s == [s[0]] + s[1..];
      Insert(s[0], SortBy(s[1..], key, le), key, le)
  }

  lemma {:induction false} InsertSorted<T, K(!new)>(x: T, t: seq<T>, key: T -> K, le: (K, K) -> bool)
    requires TotalOrder(le)
    requires SortedBy(t, key, le)
    ensures SortedBy(Insert(x, t, key, le), key, le)
    decreases |t|
  {
    if t != [] && !le(key(x), key(t[0])) {
      var rest := Insert(x, t[1..], key, le);
      InsertSorted(x, t[1..], key, le);
      forall j | 0 <= j < |rest| ensures le(key(t[0]), key(rest[j])) {
        InsertFrom(x, t[1..], key, le, j);
        if rest[j] != x {
          var m :| 0 <= m < |t[1..]| && t[1..][m] == rest[j];
          assert t[m + 1] == rest[j];
        }
      }
      SortedCons(t[0], rest, key, le);
    }
  }

  /** Every element of an insertion result is the inserted one or came from the list. */
  lemma InsertFrom<T, K>(x: T, t: seq<T>, key: T -> K, le: (K, K) -> bool, j: int)
    requires 0 <= j < |Insert(x, t, key, le)|
    ensures Insert(x, t, key, le)[j] == x || Insert(x, t, key, le)[j] in t
  {
    var r := Insert(x, t, key, le);
    assert r[j] in multiset(r);
  }

  /** A head no greater than every element of a sorted list keeps it sorted. */
  lemma SortedCons<T, K>(h: T, rest: seq<T>, key: T -> K, le: (K, K) -> bool)
    requires SortedBy(rest, key, le)
    requires forall j :: 0 <= j < |rest| ==> le(key(h), key(rest[j]))
    ensures SortedBy([h] + rest, key, le)
  {
    var r := [h] + rest;
    forall i, j | 0 <= i < j < |r| ensures le(key(r[i]), key(r[j])) {
      assert r[j] == rest[j - 1];
      if i > 0 {
        assert r[i] == rest[i - 1];
      }
    }
  }

  /** Sorting produces a sequence ordered by `le` on the keys. */
  lemma {:induction false} SortBySorted<T, K(!new)>(s: seq<T>, key: T -> K, le: (K, K) -> bool)
    requires TotalOrder(le)
    ensures SortedBy(SortBy(s, key, le), key, le)
    decreases |s|
  {
    if s != [] {
      SortBySorted(s[1..], key, le);
      InsertSorted(s[0], SortBy(s[1..], key, le), key, le);
    }
  }

  lemma WithKeyCons<T, K>(x: T, t: seq<T>, key: T -> K, k: K)
    ensures WithKey([x] + t, key, k) == (if key(x) == k then [x] else []) + WithKey(t, key, k)
  {
    assert ([x] + t)[0] == x;
    assert ([x] + t)[1..] == t;
  }

  /** Putting the same element in front of two lists with the same
      subsequence for `k` keeps them equal on `k`. */
  lemma ConsSameKeys<T, K>(x: T, a: seq<T>, b: seq<T>, key: T -> K, k: K)
    requires WithKey(a, key, k) == WithKey(b, key, k)
    ensures WithKey([x] + a, key, k) == WithKey([x] + b, key, k)
  {
    WithKeyCons(x, a, key, k);
    WithKeyCons(x, b, key, k);
  }

  /** Insertion places `x` ahead of every element sharing its key. */
  lemma {:induction false} InsertStable<T, K(!new)>(x: T, t: seq<T>, key: T -> K, le: (K, K) -> bool, k: K)
    requires TotalOrder(le)
    ensures WithKey(Insert(x, t, key, le), key, k) == WithKey([x] + t, key, k)
    decreases |t|
  {
    if t != [] && !le(key(x), key(t[0])) {
      var head, rest := t[0], t[1..];
      assert key(head) != key(x);
      InsertStable(x, rest, key, le, k);
      assert Insert(x, t, key, le) == [head] + Insert(x, rest, key, le);
      assert t == [head] + rest;
      PassOther(x, head, rest, Insert(x, rest, key, le), key, k);
    }
  }

  /** Moving `x` past an element with another key does not change any
      key's subsequence. */
  lemma PassOther<T, K>(x: T, head: T, rest: seq<T>, moved: seq<T>, key: T -> K, k: K)
    requires key(head) != key(x)
    requires WithKey(moved, key, k) == WithKey([x] + rest, key, k)
    ensures WithKey([head] + moved, key, k) == WithKey([x] + ([head] + rest), key, k)
  {
    WithKeyCons(head, moved, key, k);
    WithKeyCons(x, rest, key, k);
    WithKeyCons(x, [head] + rest, key, k);
    WithKeyCons(head, rest, key, k);
    if key(x) == k {
      assert WithKey([head] + rest, key, k) == WithKey(rest, key, k);
    } else {
      assert WithKey([x] + rest, key, k) == WithKey(rest, key, k);
    }
  }

  /** Sorting is stable: for every key value, the elements carrying it keep
      their relative input order. */
  lemma {:induction false} SortByStable<T, K(!new)>(s: seq<T>, key: T -> K, le: (K, K) -> bool, k: K)
    requires TotalOrder(le)
    ensures WithKey(SortBy(s, key, le), key, k) == WithKey(s, key, k)
    decreases |s|
  {
    if s != [] {
      var tail := SortBy(s[1..], key, le);
      SortByStable(s[1..], key, le, k);
      InsertStable(s[0], tail, key, le, k);
      ConsSameKeys(s[0], tail, s[1..], key, k);
      assert s == [s[0]] + s[1..];
    }
  }

  /** Ascending and descending numeric order, for comparators `a - b` and `b - a`. */
  const Ascending: (int, int) -> bool := (a: int, b: int) => a <= b
  const Descending: (int, int) -> bool := (a: int, b: int) => a >= b

  lemma NumericOrdersAreTotal()
    ensures TotalOrder(Ascending)
    ensures TotalOrder(Descending)
  {
  }

  /** Code-point lexicographic order on strings, ascending and descending
      (`Text.LexLe`, the stand-in for code-unit order). */
  const LexAscending: (string, string) -> bool := (a: string, b: string) => Text.LexLe(a, b)
  const LexDescending: (string, string) -> bool := (a: string, b: string) => Text.LexLe(b, a)

  lemma LexOrdersAreTotal()
    ensures TotalOrder(LexAscending)
    ensures TotalOrder(LexDescending)
  {
    forall a: string, b: string ensures Text.LexLe(a, b) || Text.LexLe(b, a) {
      Text.LexLeTotal(a, b);
    }
    forall a: string, b: string | Text.LexLe(a, b) && Text.LexLe(b, a) ensures a == b {
      Text.LexLeAntisymmetric(a, b);
    }
    forall a: string, b: string, c: string | Text.LexLe(a, b) && Text.LexLe(b, c)
      ensures Text.LexLe(a, c)
    {
      Text.LexLeTransitive(a, b, c);
    }
    forall a: string, b: string, c: string | Text.LexLe(c, b) && Text.LexLe(b, a)
      ensures Text.LexLe(c, a)
    {
      Text.LexLeTransitive(c, b, a);
    }
  }
}
