/** The data side of the two chart exports: the empty-input guards of
    `export_trend_png` and `export_product_top10_png`, and the top-10
    selection. Drawing and saving the images is not modelled. */
module Charts {
  import opened Wrappers
  import opened Records
  import opened Aggregate
  import opened Sorting

  /** How many products the bar chart shows. */
  const TopCount: nat := 10

  /** The series `export_trend_png` draws: month labels along the x axis,
      totals up the y axis. */
  datatype TrendData = TrendData(months: seq<string>, totals: seq<real>)

  /** `export_trend_png`: refuses an empty summary, otherwise plots every
      row in the order given. */
  function TrendChart(summary: seq<Row<string>>): (r: Result<TrendData, Error>)
    ensures r.Failure? <==> summary == []
    ensures r.Failure? ==> r.error == EmptyMonthlySummary
    ensures r.Success? ==>
      && |r.value.months| == |summary| && |r.value.totals| == |summary|
      && (forall i :: 0 <= i < |summary| ==>
            r.value.months[i] == summary[i].key && r.value.totals[i] == summary[i].total)
  {
    if summary == [] then Failure(EmptyMonthlySummary)
    else
      Success(TrendData(
        seq(|summary|, i requires 0 <= i < |summary| => summary[i].key),
        seq(|summary|, i requires 0 <= i < |summary| => summary[i].total)))
  }

  /** `export_product_top10_png`: refuses an empty summary; otherwise
      re-sorts it descending by total, keeps the first ten rows and sorts
      those ascending, so that the largest bar is drawn at the top. */
  function Top10<K>(rows: seq<Row<K>>): (r: Result<seq<Row<K>>, Error>)
    ensures r.Failure? <==> rows == []
    ensures r.Failure? ==> r.error == EmptyProductSummary
  {
    if rows == [] then Failure(EmptyProductSummary)
    else
      var ranked := Sort(rows, TotalAtLeast);
      var head := ranked[..if |ranked| < TopCount then |ranked| else TopCount];
      Success(Sort(head, TotalAtMost))
  }

  /** The chart shows min(10, n) rows, ascending by total. */
  lemma Top10Shape<K(!new)>(rows: seq<Row<K>>)
    requires rows != []
    ensures var shown := Top10(rows).value;
      && |shown| == (if |rows| < TopCount then |rows| else TopCount)
      && (forall i, j :: 0 <= i < j < |shown| ==> shown[i].total <= shown[j].total)
  {
    var ranked := Sort(rows, TotalAtLeast);
    var head := ranked[..if |ranked| < TopCount then |ranked| else TopCount];
    var shown := Top10(rows).value;
    assert shown == Sort(head, TotalAtMost);
    TotalOrdersArePreorders<K>();
    SortIsSorted(head, TotalAtMost);
    forall i, j | 0 <= i < j < |shown| ensures shown[i].total <= shown[j].total {
      assert TotalAtMost(shown[i], shown[j]);
    }
  }

  /** The rows shown are taken from the summary, no row more often than
      the summary has it, and no row left out has a larger total than any
      row shown. */
  lemma Top10Largest<K(!new)>(rows: seq<Row<K>>)
    requires rows != []
    ensures var shown := Top10(rows).value;
      && multiset(shown) <= multiset(rows)
      && (forall x, y :: x in shown && y in multiset(rows) - multiset(shown) ==> y.total <= x.total)
  {
    var ranked := Sort(rows, TotalAtLeast);
    var k := if |ranked| < TopCount then |ranked| else TopCount;
    var shown := Top10(rows).value;
    assert multiset(shown) == multiset(ranked[..k]);
    TotalOrdersArePreorders<K>();
    SortedPrefixFirst(rows, TotalAtLeast, k);
    forall x, y | x in shown && y in multiset(rows) - multiset(shown) ensures y.total <= x.total {
      assert x in multiset(ranked[..k]);
      assert TotalAtLeast(x, y);
    }
  }
}
