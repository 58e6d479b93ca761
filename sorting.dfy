/** Sorting by a caller-chosen order. `main.py` sorts with
    pandas' `sort_values` and Python's `sorted`; the model sorts by
    insertion, which yields one of the orderings those calls may produce:
    a permutation of the input that is ordered by the sort key. */
module Sorting {

  /** `le` is total and transitive, the least an order needs so that a
      sorted arrangement of any sequence exists. */
  ghost predicate TotalPreorder<T(!new)>(le: (T, T) -> bool)
  {
    && (forall a, b :: le(a, b) || le(b, a))
    && (forall a, b, c :: le(a, b) && le(b, c) ==> le(a, c))
  }

  predicate SortedBy<T>(s: seq<T>, le: (T, T) -> bool)
  {
    forall i, j :: 0 <= i < j < |s| ==> le(s[i], s[j])
  }

  /** Places `x` before the first element it may precede. */
  function Insert<T>(x: T, s: seq<T>, le: (T, T) -> bool): (r: seq<T>)
    ensures multiset(r) == multiset(s) + multiset{x}
    ensures |r| == |s| + 1
  {
    if s == [] || le(x, s[0]) then [x] + s
    else
      assert s == [s[0]] + s[1..];
      [s[0]] + Insert(x, s[1..], le)
  }

  /** A permutation of `s`; ordered by `le` when `le` is a total preorder
      (lemma SortIsSorted). */
  function Sort<T>(s: seq<T>, le: (T, T) -> bool): (r: seq<T>)
    ensures multiset(r) == multiset(s)
    ensures |r| == |s|
  {
    if s == [] then []
    else
      assert s == [s[0]] + s[1..];
      Insert(s[0], Sort(s[1..], le), le)
  }

  lemma {:induction false} InsertIsSorted<T(!new)>(x: T, s: seq<T>, le: (T, T) -> bool)
    requires TotalPreorder(le)
    requires SortedBy(s, le)
    ensures SortedBy(Insert(x, s, le), le)
  {
    if s == [] || le(x, s[0]) {
      var r := [x] + s;
      forall i, j | 0 <= i < j < |r| ensures le(r[i], r[j]) {
        if i == 0 && j > 1 {
          assert le(x, s[0]) && le(s[0], s[j - 1]);
        }
      }
    } else {
      var t := Insert(x, s[1..], le);
      InsertIsSorted(x, s[1..], le);
      var r := [s[0]] + t;
      assert le(s[0], x);
      forall j | 0 <= j < |t| ensures le(s[0], t[j]) {
        assert t[j] in multiset(t);
        if t[j] != x {
          assert t[j] in multiset(s[1..]);
          var k :| 0 <= k < |s[1..]| && s[1..][k] == t[j];
          assert s[k + 1] == t[j];
        }
      }
      forall i, j | 0 <= i < j < |r| ensures le(r[i], r[j]) {
        if i > 0 {
          assert r[i] == t[i - 1] && r[j] == t[j - 1];
        }
      }
    }
  }

  lemma {:induction false} SortIsSorted<T(!new)>(s: seq<T>, le: (T, T) -> bool)
    requires TotalPreorder(le)
    ensures SortedBy(Sort(s, le), le)
  {
    if s != [] {
      SortIsSorted(s[1..], le);
      InsertIsSorted(s[0], Sort(s[1..], le), le);
    }
  }

  /** In a sorted sequence every element of a prefix may precede every
      element after it. */
  lemma PrefixPrecedesRest<T>(s: seq<T>, le: (T, T) -> bool, k: nat)
    requires SortedBy(s, le) && k <= |s|
    ensures forall x, y :: x in s[..k] && y in s[k..] ==> le(x, y)
  {
    forall x, y | x in s[..k] && y in s[k..] ensures le(x, y) {
      var i :| 0 <= i < k && s[..k][i] == x;
      var j :| 0 <= j < |s| - k && s[k..][j] == y;
      assert s[i] == x && s[k + j] == y;
    }
  }

  /** The first `k` elements of a sorted copy of `s` are taken from `s`, and
      each may precede every element of `s` left out. */
  lemma SortedPrefixFirst<T(!new)>(s: seq<T>, le: (T, T) -> bool, k: nat)
    requires TotalPreorder(le) && k <= |s|
    ensures var r := Sort(s, le);
      && multiset(r[..k]) <= multiset(s)
      && forall x, y :: x in r[..k] && y in multiset(s) - multiset(r[..k]) ==> le(x, y)
  {
    var r := Sort(s, le);
    SortIsSorted(s, le);
    PrefixPrecedesRest(r, le, k);
    assert r == r[..k] + r[k..];
    assert multiset(s) - multiset(r[..k]) == multiset(r[k..]);
    forall x, y | x in r[..k] && y in multiset(s) - multiset(r[..k]) ensures le(x, y) {
      assert y in r[k..];
    }
  }
}
