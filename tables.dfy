/**
 * Rows kept in table order, as the repositories and the LINQ queries see
 * them: lookup by key, replacement of the row with a key, filtering (`Where`)
 * and ordering by a key (`OrderBy`).
 */
module Tables {
  import opened Wrappers

  /** No two rows share a key. */
  predicate UniqueKeys<T>(s: seq<T>, key: T -> int) {
    forall i, j :: 0 <= i < j < |s| ==> key(s[i]) != key(s[j])
  }

  /** The row with key `k`, if there is one. */
  function Find<T>(s: seq<T>, key: T -> int, k: int): (r: Option<T>)
    ensures r.Some? ==> r.value in s && key(r.value) == k
    ensures r.None? <==> forall i :: 0 <= i < |s| ==> key(s[i]) != k
  {
    if s == [] then None
    else if key(s[0]) == k then Some(s[0])
    else Find(s[1..], key, k)
  }

  /** With unique keys, the row found for a key is the one at its position. */
  lemma {:induction false} FindUnique<T>(s: seq<T>, key: T -> int, i: int)
    requires UniqueKeys(s, key) && 0 <= i < |s|
    ensures Find(s, key, key(s[i])) == Some(s[i])
  {
    if i > 0 {
      assert key(s[0]) != key(s[i]);
      assert s[1..][i - 1] == s[i];
      FindUnique(s[1..], key, i - 1);
    }
  }

  /** Every row with the key of `x` replaced by `x`; the other rows unchanged, in place. */
  function Replace<T>(s: seq<T>, key: T -> int, x: T): (r: seq<T>)
    ensures |r| == |s|
    ensures forall i :: 0 <= i < |s| ==> r[i] == (if key(s[i]) == key(x) then x else s[i])
  {
    seq(|s|, i requires 0 <= i < |s| => if key(s[i]) == key(x) then x else s[i])
  }

  /** A row appended at the end is found only for a key no earlier row has. */
  lemma {:induction false} FindAppend<T>(s: seq<T>, key: T -> int, x: T, k: int)
    ensures Find(s + [x], key, k) == if Find(s, key, k).Some? then Find(s, key, k) else if key(x) == k then Some(x) else None
    decreases |s|
  {
    if s != [] {
      assert (s + [x])[1..] == s[1..] + [x];
      FindAppend(s[1..], key, x, k);
    }
  }

  /** Replacing the rows of one key leaves the row found for every other key as it was. */
  lemma {:induction false} FindReplaceOther<T>(s: seq<T>, key: T -> int, x: T, k: int)
    requires key(x) != k
    ensures Find(Replace(s, key, x), key, k) == Find(s, key, k)
    decreases |s|
  {
    if s != [] {
      assert Replace(s, key, x)[1..] == Replace(s[1..], key, x);
      FindReplaceOther(s[1..], key, x, k);
    }
  }

  /** Replacing twice by the same row is replacing once. */
  lemma ReplaceIdempotent<T>(s: seq<T>, key: T -> int, x: T)
    ensures Replace(Replace(s, key, x), key, x) == Replace(s, key, x)
  {
  }

  /** After a replacement, a row found under the replacing row's key is that row, and one is found if one was before. */
  lemma {:induction false} FindReplaced<T>(s: seq<T>, key: T -> int, x: T)
    ensures Find(Replace(s, key, x), key, key(x)).Some? ==> Find(Replace(s, key, x), key, key(x)) == Some(x)
    ensures Find(s, key, key(x)).Some? ==> Find(Replace(s, key, x), key, key(x)) == Some(x)
    decreases |s|
  {
    if s != [] {
      assert Replace(s, key, x)[1..] == Replace(s[1..], key, x);
      FindReplaced(s[1..], key, x);
    }
  }

  /** `Where(p)`: the rows satisfying `p`, in table order. */
  function Filter<T(!new)>(s: seq<T>, p: T -> bool): (r: seq<T>)
    ensures |r| <= |s|
    ensures forall x :: x in r <==> x in s && p(x)
    ensures multiset(r) <= multiset(s)
  {
    if s == [] then []
    else
      assert s == [s[0]] + s[1..];
      (if p(s[0]) then [s[0]] else []) + Filter(s[1..], p)
  }

  lemma {:induction false} FilterAppend<T(!new)>(a: seq<T>, b: seq<T>, p: T -> bool)
    ensures Filter(a + b, p) == Filter(a, p) + Filter(b, p)
    decreases |a|
  {
    if a != [] {
      assert (a + b)[1..] == a[1..] + b;
      FilterAppend(a[1..], b, p);
    } else {
      assert a + b == b;
    }
  }

  /** Two sequences with the same multiset have the same members. */
  lemma SameMembers<T>(a: seq<T>, b: seq<T>)
    requires multiset(a) == multiset(b)
    ensures forall x :: x in a <==> x in b
  {
    forall x ensures x in a <==> x in b {
      assert x in a <==> x in multiset(a);
      assert x in b <==> x in multiset(b);
    }
  }

  /** Filtering twice by the same predicate is filtering once. */
  lemma {:induction false} FilterIdempotent<T(!new)>(s: seq<T>, p: T -> bool)
    ensures Filter(Filter(s, p), p) == Filter(s, p)
    decreases |s|
  {
    if s != [] {
      var rest := Filter(s[1..], p);
      FilterIdempotent(s[1..], p);
      if p(s[0]) {
        var f := [s[0]] + rest;
        assert f[0] == s[0] && f[1..] == rest;
        assert Filter(f, p) == [s[0]] + Filter(rest, p);
      } else {
        assert Filter(s, p) == rest;
      }
    }
  }

  lemma {:induction false} FilterUnique<T(!new)>(s: seq<T>, key: T -> int, p: T -> bool)
    requires UniqueKeys(s, key)
    ensures UniqueKeys(Filter(s, p), key)
    decreases |s|
  {
    if s != [] {
      FilterUnique(s[1..], key, p);
      var rest := Filter(s[1..], p);
      forall y | y in rest
        ensures key(y) != key(s[0])
      {
        var k :| 0 <= k < |s[1..]| && s[1..][k] == y;
        assert s[k + 1] == y;
      }
    }
  }

  /** Replacing a row by one with the same key keeps keys unique. */
  lemma ReplaceUnique<T>(s: seq<T>, key: T -> int, x: T)
    requires UniqueKeys(s, key)
    ensures UniqueKeys(Replace(s, key, x), key)
  {
    var r := Replace(s, key, x);
    assert forall i :: 0 <= i < |s| ==> key(r[i]) == key(s[i]);
  }

  /** Appending a row whose key exceeds every key keeps keys unique. */
  lemma AppendUnique<T>(s: seq<T>, key: T -> int, x: T)
    requires UniqueKeys(s, key)
    requires forall i :: 0 <= i < |s| ==> key(s[i]) < key(x)
    ensures UniqueKeys(s + [x], key)
  {
  }

  /** Rows in non-decreasing order of `key`. */
  predicate SortedBy<T>(s: seq<T>, key: T -> int) {
    forall i, j :: 0 <= i < j < |s| ==> key(s[i]) <= key(s[j])
  }

  /** `x` inserted into a sorted sequence before the first row with a greater key. */
  function InsertBy<T(!new)>(x: T, s: seq<T>, key: T -> int): (r: seq<T>)
    requires SortedBy(s, key)
    ensures SortedBy(r, key)
    ensures multiset(r) == multiset(s) + multiset{x}
    ensures |r| == |s| + 1
    ensures forall y :: y in r ==> y == x || y in s
  {
    if s == [] then [x]
    else if key(x) < key(s[0]) then [x] + s
    else
      var rest := InsertBy(x, s[1..], key);
      assert s == [s[0]] + s[1..];
      HeadBelow(s, x, rest, key);
      SortedCons(s[0], rest, key);
      [s[0]] + rest
  }

  /** The head of a sorted sequence is at most every row of its tail, and at most `x` when `x` is not below it. */
  lemma HeadBelow<T>(s: seq<T>, x: T, rest: seq<T>, key: T -> int)
    requires s != [] && SortedBy(s, key) && key(s[0]) <= key(x)
    requires forall y :: y in rest ==> y == x || y in s[1..]
    ensures forall y :: y in rest ==> key(s[0]) <= key(y)
  {
    forall y | y in rest
      ensures key(s[0]) <= key(y)
    {
      if y != x {
        var j :| 0 <= j < |s[1..]| && s[1..][j] == y;
        assert s[j + 1] == y;
      }
    }
  }

  /** A row no greater than any row of a sorted sequence can go in front of it. */
  lemma SortedCons<T>(h: T, t: seq<T>, key: T -> int)
    requires SortedBy(t, key)
    requires forall y :: y in t ==> key(h) <= key(y)
    ensures SortedBy([h] + t, key)
  {
    var r := [h] + t;
    forall i, j | 0 <= i < j < |r|
      ensures key(r[i]) <= key(r[j])
    {
      if i == 0 {
        assert r[j] == t[j - 1] && t[j - 1] in t;
      } else {
        assert r[i] == t[i - 1] && r[j] == t[j - 1];
      }
    }
  }

  /**
   * `OrderBy(key)`: the rows sorted by `key`, a permutation of the input. The
   * order among rows with equal keys is not specified.
   */
  function SortBy<T(!new)>(s: seq<T>, key: T -> int): (r: seq<T>)
    ensures SortedBy(r, key)
    ensures multiset(r) == multiset(s)
    ensures |r| == |s|
  {
    if s == [] then []
    else
      var r := InsertBy(s[|s| - 1], SortBy(s[..|s| - 1], key), key);
      assert s == s[..|s| - 1] + [s[|s| - 1]];
      r
  }
}
