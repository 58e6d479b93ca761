/** `groupby(key)["amount"].sum()`: one row per distinct key, holding the
    sum of the amounts that carry that key. Generic in the key, so that the
    monthly and the product summaries share one definition. */
module Aggregate {
  import opened Sorting

  /** One row of a summary table: a group key and its `total_amount`. */
  datatype Row<K> = Row(key: K, total: real)

  /** The sum of every amount in `ps`. */
  function Total<K>(ps: seq<(K, real)>): real
  {
    if ps == [] then 0.0 else Total(ps[..|ps| - 1]) + ps[|ps| - 1].1
  }

  /** The sum of the amounts in `ps` whose key is `k`. */
  function SumFor<K(==)>(ps: seq<(K, real)>, k: K): real
  {
    if ps == [] then 0.0
    else SumFor(ps[..|ps| - 1], k) + (if ps[|ps| - 1].0 == k then ps[|ps| - 1].1 else 0.0)
  }

  /** The keys occurring in `ps`. */
  function KeySet<K>(ps: seq<(K, real)>): set<K>
  {
    set p | p in ps :: p.0
  }

  /** The sum of the `total_amount` column. */
  function TotalsOf<K>(rows: seq<Row<K>>): real
  {
    if rows == [] then 0.0 else rows[0].total + TotalsOf(rows[1..])
  }

  function RowKeys<K>(rows: seq<Row<K>>): set<K>
  {
    set r | r in rows :: r.key
  }

  predicate KeysDistinct<K(==)>(rows: seq<Row<K>>)
  {
    forall i, j :: 0 <= i < j < |rows| ==> rows[i].key != rows[j].key
  }

  /** `rows` is a grouped sum of `ps`: one row per key of `ps` and no other,
      each holding the sum of that key's amounts. */
  ghost predicate Summarizes<K>(rows: seq<Row<K>>, ps: seq<(K, real)>)
  {
    && KeysDistinct(rows)
    && RowKeys(rows) == KeySet(ps)
    && (forall i :: 0 <= i < |rows| ==> rows[i].total == SumFor(ps, rows[i].key))
  }

  /** The distinct keys of `ps`, in order of first occurrence. */
  function FirstOccurrences<K(==, !new)>(ps: seq<(K, real)>): (ks: seq<K>)
    ensures forall i, j :: 0 <= i < j < |ks| ==> ks[i] != ks[j]
    ensures forall k :: k in ks <==> k in KeySet(ps)
  {
    if ps == [] then []
    else
      var ks := FirstOccurrences(ps[..|ps| - 1]);
      assert ps == ps[..|ps| - 1] + [ps[|ps| - 1]];
      assert forall k :: k in KeySet(ps) <==> k in KeySet(ps[..|ps| - 1]) || k == ps[|ps| - 1].0;
      if ps[|ps| - 1].0 in ks then ks else ks + [ps[|ps| - 1].0]
  }

  /** One row per key of `ks`, in that order. */
  function RowsFor<K(==)>(ps: seq<(K, real)>, ks: seq<K>): (rows: seq<Row<K>>)
    ensures |rows| == |ks|
    ensures forall i :: 0 <= i < |ks| ==> rows[i] == Row(ks[i], SumFor(ps, ks[i]))
  {
    if ks == [] then [] else RowsFor(ps, ks[..|ks| - 1]) + [Row(ks[|ks| - 1], SumFor(ps, ks[|ks| - 1]))]
  }

  /** The grouped sum, before any sorting. */
  function GroupSum<K(==, !new)>(ps: seq<(K, real)>): (rows: seq<Row<K>>)
    ensures Summarizes(rows, ps)
    ensures |rows| == |KeySet(ps)|
  {
    var ks := FirstOccurrences(ps);
    var rows := RowsFor(ps, ks);
    assert forall k :: k in RowKeys(rows) <==> k in ks by {
      forall k | k in ks ensures k in RowKeys(rows) {
        var i :| 0 <= i < |ks| && ks[i] == k;
        assert rows[i] in rows;
      }
    }
    DistinctLength(ks, KeySet(ps));
    rows
  }

  /** A sequence of distinct elements that lists a set has its size. */
  lemma {:induction false} DistinctLength<K>(ks: seq<K>, s: set<K>)
    requires forall i, j :: 0 <= i < j < |ks| ==> ks[i] != ks[j]
    requires forall k :: k in ks <==> k in s
    ensures |ks| == |s|
  {
    if ks != [] {
      var last := ks[|ks| - 1];
      DistinctLength(ks[..|ks| - 1], s - {last});
    }
  }

  lemma {:induction false} TotalsOfAppend<K>(a: seq<Row<K>>, b: seq<Row<K>>)
    ensures TotalsOf(a + b) == TotalsOf(a) + TotalsOf(b)
  {
    if a == [] {
      assert a + b == b;
    } else {
      assert (a + b)[1..] == a[1..] + b;
      TotalsOfAppend(a[1..], b);
    }
  }

  /** A key that does not occur contributes nothing. */
  lemma {:induction false} SumForAbsent<K>(ps: seq<(K, real)>, k: K)
    requires k !in KeySet(ps)
    ensures SumFor(ps, k) == 0.0
  {
    if ps != [] {
      assert ps[|ps| - 1] in ps;
      assert KeySet(ps[..|ps| - 1]) <= KeySet(ps) by {
        forall p | p in ps[..|ps| - 1] ensures p in ps { }
      }
      SumForAbsent(ps[..|ps| - 1], k);
    }
  }

  /** Appending one amount to the input adds it to the row of its key. */
  lemma {:induction false} RowsForAppend<K>(ps: seq<(K, real)>, p: (K, real), ks: seq<K>)
    requires forall i, j :: 0 <= i < j < |ks| ==> ks[i] != ks[j]
    ensures TotalsOf(RowsFor(ps + [p], ks)) == TotalsOf(RowsFor(ps, ks)) + (if p.0 in ks then p.1 else 0.0)
  {
    var qs := ps + [p];
    assert qs[..|qs| - 1] == ps;
    if ks != [] {
      var init, last := ks[..|ks| - 1], ks[|ks| - 1];
      RowsForAppend(ps, p, init);
      TotalsOfAppend(RowsFor(qs, init), [Row(last, SumFor(qs, last))]);
      TotalsOfAppend(RowsFor(ps, init), [Row(last, SumFor(ps, last))]);
      assert ks == init + [last];
      assert p.0 in ks <==> p.0 in init || p.0 == last;
    }
  }

  /** Grouping conserves mass: the totals add up to the sum of all amounts. */
  lemma {:induction false} GroupSumConserves<K(!new)>(ps: seq<(K, real)>)
    ensures TotalsOf(GroupSum(ps)) == Total(ps)
  {
    if ps != [] {
      var init, p := ps[..|ps| - 1], ps[|ps| - 1];
      assert ps == init + [p];
      var ks := FirstOccurrences(init);
      GroupSumConserves(init);
      RowsForAppend(init, p, ks);
      if p.0 !in ks {
        SumForAbsent(init, p.0);
        TotalsOfAppend(RowsFor(ps, ks), [Row(p.0, SumFor(ps, p.0))]);
      }
    }
  }

  lemma {:induction false} InsertTotals<K>(x: Row<K>, s: seq<Row<K>>, le: (Row<K>, Row<K>) -> bool)
    ensures TotalsOf(Insert(x, s, le)) == x.total + TotalsOf(s)
  {
    if s != [] && !le(x, s[0]) {
      InsertTotals(x, s[1..], le);
    }
  }

  lemma {:induction false} SortTotals<K>(s: seq<Row<K>>, le: (Row<K>, Row<K>) -> bool)
    ensures TotalsOf(Sort(s, le)) == TotalsOf(s)
  {
    if s != [] {
      SortTotals(s[1..], le);
      InsertTotals(s[0], Sort(s[1..], le), le);
    }
  }

  lemma {:induction false} InsertKeysDistinct<K>(x: Row<K>, s: seq<Row<K>>, le: (Row<K>, Row<K>) -> bool)
    requires KeysDistinct(s)
    requires forall i :: 0 <= i < |s| ==> s[i].key != x.key
    ensures KeysDistinct(Insert(x, s, le))
  {
    if s != [] && !le(x, s[0]) {
      var t := Insert(x, s[1..], le);
      InsertKeysDistinct(x, s[1..], le);
      forall j | 0 <= j < |t| ensures t[j].key != s[0].key {
        assert t[j] in multiset(t);
        if t[j] != x {
          assert t[j] in multiset(s[1..]);
          var k :| 0 <= k < |s[1..]| && s[1..][k] == t[j];
          assert s[k + 1] == t[j];
        }
      }
      var r := [s[0]] + t;
      forall i, j | 0 <= i < j < |r| ensures r[i].key != r[j].key {
        if i > 0 {
          assert r[i] == t[i - 1];
        }
      }
    }
  }

  lemma {:induction false} SortKeysDistinct<K>(s: seq<Row<K>>, le: (Row<K>, Row<K>) -> bool)
    requires KeysDistinct(s)
    ensures KeysDistinct(Sort(s, le))
  {
    if s != [] {
      var t := Sort(s[1..], le);
      SortKeysDistinct(s[1..], le);
      forall i | 0 <= i < |t| ensures t[i].key != s[0].key {
        assert t[i] in multiset(s[1..]);
        var k :| 0 <= k < |s[1..]| && s[1..][k] == t[i];
        assert s[k + 1] == t[i];
      }
      InsertKeysDistinct(s[0], t, le);
    }
  }

  /** Reordering a grouped sum keeps it a grouped sum of the same input,
      with the same grand total. */
  lemma SortKeepsSummary<K>(rows: seq<Row<K>>, ps: seq<(K, real)>, le: (Row<K>, Row<K>) -> bool)
    requires Summarizes(rows, ps)
    ensures Summarizes(Sort(rows, le), ps)
    ensures TotalsOf(Sort(rows, le)) == TotalsOf(rows)
  {
    var s := Sort(rows, le);
    SortKeysDistinct(rows, le);
    SortTotals(rows, le);
    assert forall r :: r in s <==> r in rows by {
      forall r ensures r in s <==> r in rows {
        assert r in s <==> r in multiset(s);
        assert r in rows <==> r in multiset(rows);
      }
    }
    assert RowKeys(s) == RowKeys(rows);
    forall i | 0 <= i < |s| ensures s[i].total == SumFor(ps, s[i].key) {
      assert s[i] in rows;
    }
  }

  /** `sort_values("total_amount", ascending=False)`: larger totals first. */
  predicate TotalAtLeast<K>(a: Row<K>, b: Row<K>)
  {
    a.total >= b.total
  }

  /** `sort_values("total_amount", ascending=True)`: smaller totals first. */
  predicate TotalAtMost<K>(a: Row<K>, b: Row<K>)
  {
    a.total <= b.total
  }

  lemma TotalOrdersArePreorders<K(!new)>()
    ensures TotalPreorder(TotalAtLeast<K>)
    ensures TotalPreorder(TotalAtMost<K>)
  {
  }
}
