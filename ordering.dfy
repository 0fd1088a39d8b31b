/** `ORDER BY <key> DESC [LIMIT n]` over the rows of a table, as a reference sort.
    SQLite does not fix the order of rows with equal keys; this sort keeps table order
    among them, which is one of the orders SQLite may return. */
module Ordering {

  /** Keys never increase from the front of `s` to its back. */
  predicate NewestFirst<T>(s: seq<T>, key: T -> int) {
    forall i, j :: 0 <= i < j < |s| ==> key(s[i]) >= key(s[j])
  }

  /** Every key in `s` is at most `b`. */
  predicate AllAtMost<T>(s: seq<T>, key: T -> int, b: int) {
    forall k :: 0 <= k < |s| ==> key(s[k]) <= b
  }

  /** Inserts `x` into a newest-first `s`, in front of the rows whose key is not larger. */
  function Insert<T>(x: T, s: seq<T>, key: T -> int): (r: seq<T>)
    requires NewestFirst(s, key)
    ensures NewestFirst(r, key)
    ensures multiset(r) == multiset(s) + multiset{x}
  {
    if s == [] || key(s[0]) <= key(x) then
      [x] + s
    else
      var rest := Insert(x, s[1..], key);
      assert s == [s[0]] + s[1..];
      BoundedByMultiset(rest, s[1..], x, key, key(s[0]));
      [s[0]] + rest
  }

  /** A sequence with the elements of `s` and `x` has no key above a bound of both. */
  lemma BoundedByMultiset<T>(r: seq<T>, s: seq<T>, x: T, key: T -> int, b: int)
    requires multiset(r) == multiset(s) + multiset{x}
    requires AllAtMost(s, key, b) && key(x) <= b
    ensures AllAtMost(r, key, b)
  {
    forall k | 0 <= k < |r| ensures key(r[k]) <= b {
      assert r[k] in multiset(r);
      if r[k] != x {
        assert r[k] in multiset(s);
        var j :| 0 <= j < |s| && s[j] == r[k];
      }
    }
  }

  /** The rows of `s`, newest first: a permutation of `s` whose keys never increase. */
  function SortNewestFirst<T>(s: seq<T>, key: T -> int): (r: seq<T>)
    ensures NewestFirst(r, key)
    ensures multiset(r) == multiset(s)
    ensures |r| == |s|
  {
    if s == [] then []
    else
      assert s == [s[0]] + s[1..];
      Insert(s[0], SortNewestFirst(s[1..], key), key)
  }

  function Min(a: int, b: int): int { if a <= b then a else b }

  /** `ORDER BY key DESC LIMIT n`: the `min(n, |s|)` newest rows of `s`, newest first. */
  function Newest<T>(s: seq<T>, key: T -> int, n: nat): (r: seq<T>)
    ensures |r| == Min(n, |s|)
    ensures NewestFirst(r, key)
    ensures multiset(r) <= multiset(s)
    ensures forall x, y :: x in multiset(s) - multiset(r) && y in r ==> key(x) <= key(y)
  {
    var sorted := SortNewestFirst(s, key);
    var m := Min(n, |s|);
    NewestCut(s, sorted, key, m);
    sorted[..m]
  }

  /** The first `m` rows of a newest-first arrangement of `s` are drawn from `s`, and
      no row of `s` left out is newer than one kept. */
  lemma NewestCut<T>(s: seq<T>, sorted: seq<T>, key: T -> int, m: nat)
    requires NewestFirst(sorted, key) && multiset(sorted) == multiset(s) && m <= |sorted|
    ensures NewestFirst(sorted[..m], key)
    ensures multiset(sorted[..m]) <= multiset(s)
    ensures forall x, y :: x in multiset(s) - multiset(sorted[..m]) && y in sorted[..m] ==> key(x) <= key(y)
  {
    NewestPrefixLemma(sorted, key, m);
    assert sorted == sorted[..m] + sorted[m..];
    assert multiset(s) - multiset(sorted[..m]) == multiset(sorted[m..]);
  }

  /** Cutting a newest-first sequence at `m` leaves no row behind that is newer than a kept one. */
  lemma NewestPrefixLemma<T>(s: seq<T>, key: T -> int, m: nat)
    requires NewestFirst(s, key) && m <= |s|
    ensures NewestFirst(s[..m], key)
    ensures forall x, y :: x in s[m..] && y in s[..m] ==> key(x) <= key(y)
  {
    forall x, y | x in s[m..] && y in s[..m] ensures key(x) <= key(y) {
      var p :| 0 <= p < |s[m..]| && s[m..][p] == x;
      var q :| 0 <= q < |s[..m]| && s[..m][q] == y;
      assert s[q] == y && s[m + p] == x;
    }
  }
}
