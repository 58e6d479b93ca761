/** The two aggregations of the merged data set: `build_summary` (by
    month) and `build_product_by_summary` (by product). */
module Summaries {
  import opened Wrappers
  import opened Records
  import opened Aggregate
  import opened Sorting
  import Lex

  /** The sum of every amount in the data set. */
  function SumAmounts(corpus: seq<Record>): real
  {
    if corpus == [] then 0.0 else SumAmounts(corpus[..|corpus| - 1]) + corpus[|corpus| - 1].amount
  }

  /** Each record's month label with its amount: the `month` column that
      `build_summary` adds, beside `amount`. */
  function MonthAmounts(corpus: seq<Record>): (ps: seq<(string, real)>)
    ensures |ps| == |corpus|
    ensures forall i :: 0 <= i < |corpus| ==> ps[i] == (MonthLabel(corpus[i].date), corpus[i].amount)
  {
    seq(|corpus|, i requires 0 <= i < |corpus| => (MonthLabel(corpus[i].date), corpus[i].amount))
  }

  /** Each record's product cell with its amount. */
  function ProductAmounts(corpus: seq<Record>): (ps: seq<(Option<string>, real)>)
    ensures |ps| == |corpus|
    ensures forall i :: 0 <= i < |corpus| ==> ps[i] == (corpus[i].product, corpus[i].amount)
  {
    seq(|corpus|, i requires 0 <= i < |corpus| => (corpus[i].product, corpus[i].amount))
  }

  /** `sort_values("month")`: month labels in string order. */
  predicate LabelAtMost(a: Row<string>, b: Row<string>)
  {
    Lex.LessEq(a.key, b.key)
  }

  lemma LabelAtMostIsPreorder()
    ensures TotalPreorder(LabelAtMost)
  {
    forall a: Row<string>, b: Row<string> ensures LabelAtMost(a, b) || LabelAtMost(b, a) {
      Lex.LessEqTotal(a.key, b.key);
    }
    forall a: Row<string>, b: Row<string>, c: Row<string> | LabelAtMost(a, b) && LabelAtMost(b, c)
      ensures LabelAtMost(a, c)
    {
      Lex.LessEqTransitive(a.key, b.key, c.key);
    }
  }

  /** `build_summary`: total amount per month label, ascending by label. */
  function MonthlySummary(corpus: seq<Record>): seq<Row<string>>
  {
    Sort(GroupSum(MonthAmounts(corpus)), LabelAtMost)
  }

  /** `build_product_by_summary` with every record grouped, a missing
      product forming a group of its own; descending by total. */
  function ProductSummary(corpus: seq<Record>): seq<Row<Option<string>>>
  {
    Sort(GroupSum(ProductAmounts(corpus)), TotalAtLeast)
  }

  lemma {:induction false} MonthAmountsTotal(corpus: seq<Record>)
    ensures Total(MonthAmounts(corpus)) == SumAmounts(corpus)
  {
    if corpus != [] {
      var init := corpus[..|corpus| - 1];
      assert MonthAmounts(corpus)[..|corpus| - 1] == MonthAmounts(init);
      MonthAmountsTotal(init);
    }
  }

  lemma {:induction false} ProductAmountsTotal(corpus: seq<Record>)
    ensures Total(ProductAmounts(corpus)) == SumAmounts(corpus)
  {
    if corpus != [] {
      var init := corpus[..|corpus| - 1];
      assert ProductAmounts(corpus)[..|corpus| - 1] == ProductAmounts(init);
      ProductAmountsTotal(init);
    }
  }

  /** The month labels of the pairs are the month labels of the records. */
  lemma MonthKeys(corpus: seq<Record>)
    ensures forall name :: name in KeySet(MonthAmounts(corpus)) <==> exists r :: r in corpus && MonthLabel(r.date) == name
  {
    var ps := MonthAmounts(corpus);
    forall name ensures name in KeySet(ps) <==> exists r :: r in corpus && MonthLabel(r.date) == name {
      if name in KeySet(ps) {
        var p :| p in ps && p.0 == name;
        var i :| 0 <= i < |ps| && ps[i] == p;
        assert corpus[i] in corpus;
      }
      if r :| r in corpus && MonthLabel(r.date) == name {
        var i :| 0 <= i < |corpus| && corpus[i] == r;
        assert ps[i] in ps;
      }
    }
  }

  /** One row per month label occurring in the data set, and no other;
      each row's total is the sum of the amounts of that month. */
  lemma MonthlyOneRowPerMonth(corpus: seq<Record>)
    ensures var ms := MonthlySummary(corpus);
      && Summarizes(ms, MonthAmounts(corpus))
      && (forall name :: name in RowKeys(ms) <==> exists r :: r in corpus && MonthLabel(r.date) == name)
      && (|ms| == 0 <==> corpus == [])
  {
    var ps := MonthAmounts(corpus);
    SortKeepsSummary(GroupSum(ps), ps, LabelAtMost);
    MonthKeys(corpus);
    if corpus != [] {
      assert ps[0] in ps;
      assert ps[0].0 in RowKeys(MonthlySummary(corpus));
    }
  }

  /** The monthly rows are strictly ascending by label. */
  lemma MonthlyAscending(corpus: seq<Record>)
    ensures var ms := MonthlySummary(corpus);
      forall i, j :: 0 <= i < j < |ms| ==> Lex.Less(ms[i].key, ms[j].key)
  {
    var ms := MonthlySummary(corpus);
    LabelAtMostIsPreorder();
    SortIsSorted(GroupSum(MonthAmounts(corpus)), LabelAtMost);
    MonthlyOneRowPerMonth(corpus);
    forall i, j | 0 <= i < j < |ms| ensures Lex.Less(ms[i].key, ms[j].key) {
      assert LabelAtMost(ms[i], ms[j]);
    }
  }

  /** ... and that order is the chronological order of the months. */
  lemma MonthlyChronological(corpus: seq<Record>)
    ensures var ms := MonthlySummary(corpus);
      forall i, j, a, b :: 0 <= i < j < |ms| && a in corpus && b in corpus
        && MonthLabel(a.date) == ms[i].key && MonthLabel(b.date) == ms[j].key
        ==> MonthBefore(MonthOf(a.date), MonthOf(b.date))
  {
    var ms := MonthlySummary(corpus);
    MonthlyAscending(corpus);
    forall i, j, a, b | 0 <= i < j < |ms| && a in corpus && b in corpus
        && MonthLabel(a.date) == ms[i].key && MonthLabel(b.date) == ms[j].key
      ensures MonthBefore(MonthOf(a.date), MonthOf(b.date))
    {
      LabelOrder(a.date, b.date);
    }
  }

  /** The monthly totals add up to the sum of all amounts. */
  lemma MonthlyConserves(corpus: seq<Record>)
    ensures TotalsOf(MonthlySummary(corpus)) == SumAmounts(corpus)
  {
    var ps := MonthAmounts(corpus);
    SortKeepsSummary(GroupSum(ps), ps, LabelAtMost);
    GroupSumConserves(ps);
    MonthAmountsTotal(corpus);
  }

  /** The keys of the pairs are the product cells of the records. */
  lemma ProductKeys(corpus: seq<Record>)
    ensures forall p :: p in KeySet(ProductAmounts(corpus)) <==> exists r :: r in corpus && r.product == p
  {
    var ps := ProductAmounts(corpus);
    forall p ensures p in KeySet(ps) <==> exists r :: r in corpus && r.product == p {
      if p in KeySet(ps) {
        var q :| q in ps && q.0 == p;
        var i :| 0 <= i < |ps| && ps[i] == q;
        assert corpus[i] in corpus;
      }
      if r :| r in corpus && r.product == p {
        var i :| 0 <= i < |corpus| && corpus[i] == r;
        assert ps[i] in ps;
      }
    }
  }

  /** One row per distinct product cell, and no other; each row's total is
      the sum of that product's amounts. */
  lemma ProductOneRowPerProduct(corpus: seq<Record>)
    ensures var ps := ProductSummary(corpus);
      && Summarizes(ps, ProductAmounts(corpus))
      && (forall p :: p in RowKeys(ps) <==> exists r :: r in corpus && r.product == p)
      && (|ps| == 0 <==> corpus == [])
  {
    var ps := ProductAmounts(corpus);
    SortKeepsSummary(GroupSum(ps), ps, TotalAtLeast);
    ProductKeys(corpus);
    if corpus != [] {
      assert ps[0] in ps;
      assert ps[0].0 in RowKeys(ProductSummary(corpus));
    }
  }

  /** The product rows are non-increasing by total. */
  lemma ProductDescending(corpus: seq<Record>)
    ensures var ps := ProductSummary(corpus);
      forall i, j :: 0 <= i < j < |ps| ==> ps[i].total >= ps[j].total
  {
    var ps := ProductSummary(corpus);
    SortIsSorted(GroupSum(ProductAmounts(corpus)), TotalAtLeast);
    forall i, j | 0 <= i < j < |ps| ensures ps[i].total >= ps[j].total {
      assert TotalAtLeast(ps[i], ps[j]);
    }
  }

  /** The product totals add up to the sum of all amounts. */
  lemma ProductConserves(corpus: seq<Record>)
    ensures TotalsOf(ProductSummary(corpus)) == SumAmounts(corpus)
  {
    var ps := ProductAmounts(corpus);
    SortKeepsSummary(GroupSum(ps), ps, TotalAtLeast);
    GroupSumConserves(ps);
    ProductAmountsTotal(corpus);
  }

  /** Both summaries account for the same grand total. */
  lemma SummariesAgree(corpus: seq<Record>)
    ensures TotalsOf(MonthlySummary(corpus)) == TotalsOf(ProductSummary(corpus))
  {
    MonthlyConserves(corpus);
    ProductConserves(corpus);
  }

  /** The records that have a product, as `(product, amount)`: what
      `groupby("product")` actually groups, since by default it leaves out
      rows whose key is missing. */
  function NamedProductAmounts(corpus: seq<Record>): (ps: seq<(string, real)>)
    ensures |ps| <= |corpus|
  {
    if corpus == [] then []
    else
      var last := corpus[|corpus| - 1];
      NamedProductAmounts(corpus[..|corpus| - 1])
      + (match last.product case Some(p) => [(p, last.amount)] case None => [])
  }

  /** The sum of the amounts of the records without a product. */
  function UnnamedAmount(corpus: seq<Record>): real
  {
    if corpus == [] then 0.0
    else UnnamedAmount(corpus[..|corpus| - 1]) + (if corpus[|corpus| - 1].product.None? then corpus[|corpus| - 1].amount else 0.0)
  }

  /** `build_product_by_summary` as the program runs it: rows whose
      product cell was missing are grouped nowhere. */
  function ProductSummaryAsWritten(corpus: seq<Record>): seq<Row<string>>
  {
    Sort(GroupSum(NamedProductAmounts(corpus)), TotalAtLeast)
  }

  lemma {:induction false} NamedProductAmountsTotal(corpus: seq<Record>)
    ensures Total(NamedProductAmounts(corpus)) + UnnamedAmount(corpus) == SumAmounts(corpus)
  {
    if corpus != [] {
      var init, last := corpus[..|corpus| - 1], corpus[|corpus| - 1];
      NamedProductAmountsTotal(init);
      match last.product
      case Some(p) =>
        var ps := NamedProductAmounts(init) + [(p, last.amount)];
        assert ps[..|ps| - 1] == NamedProductAmounts(init);
      case None =>
        assert NamedProductAmounts(init) + [] == NamedProductAmounts(init);
        assert NamedProductAmounts(corpus) == NamedProductAmounts(init);
        assert UnnamedAmount(corpus) == UnnamedAmount(init) + last.amount;
    }
  }

  /** The product totals as written fall short of the grand total by
      exactly the amounts of the records without a product. */
  lemma ProductAsWrittenLosesUnnamed(corpus: seq<Record>)
    ensures TotalsOf(ProductSummaryAsWritten(corpus)) == SumAmounts(corpus) - UnnamedAmount(corpus)
  {
    var ps := NamedProductAmounts(corpus);
    SortKeepsSummary(GroupSum(ps), ps, TotalAtLeast);
    GroupSumConserves(ps);
    NamedProductAmountsTotal(corpus);
  }

  /** Any one record with an empty product cell: the monthly summary shows
      its amount, the product summary as written shows nothing at all. */
  lemma ProductAsWrittenDropsUnnamed(date: Timestamp, amount: real)
    ensures var corpus := [Record(date, None, amount)];
      && TotalsOf(MonthlySummary(corpus)) == amount
      && ProductSummaryAsWritten(corpus) == []
      && TotalsOf(ProductSummary(corpus)) == amount
  {
    var corpus := [Record(date, None, amount)];
    assert corpus[..0] == [];
    assert SumAmounts(corpus) == amount;
    MonthlyConserves(corpus);
    ProductConserves(corpus);
    assert NamedProductAmounts(corpus) == [];
    assert GroupSum<string>([]) == [];
  }

  /** The same for the row `2024-01-05,,100`. */
  lemma ProductAsWrittenCounterexample()
    ensures var corpus := [Record(Date(2024, 1, 5), None, 100.0)];
      && TotalsOf(MonthlySummary(corpus)) == 100.0
      && ProductSummaryAsWritten(corpus) == []
      && TotalsOf(ProductSummary(corpus)) == 100.0
  {
    var d := Date(2024, 1, 5);
    assert ValidTimestamp(d);
    ProductAsWrittenDropsUnnamed(d, 100.0);
  }

  /** The products the summary as written groups are exactly the product
      cells that occur. */
  lemma {:induction false} NamedProductKeys(corpus: seq<Record>)
    ensures forall p :: p in KeySet(NamedProductAmounts(corpus)) <==> exists r :: r in corpus && r.product == Some(p)
  {
    if corpus != [] {
      var init, last := corpus[..|corpus| - 1], corpus[|corpus| - 1];
      NamedProductKeys(init);
      var named := NamedProductAmounts(init);
      var tail: seq<(string, real)> := match last.product case Some(q) => [(q, last.amount)] case None => [];
      assert NamedProductAmounts(corpus) == named + tail;
      assert corpus == init + [last];
      forall p ensures p in KeySet(named + tail) <==> exists r :: r in corpus && r.product == Some(p) {
        if p in KeySet(named + tail) {
          var e: (string, real) :| e in named + tail && e.0 == p;
          if e in named {
            assert p in KeySet(named);
            var r :| r in init && r.product == Some(p);
            assert r in corpus;
          } else {
            assert last in corpus && last.product == Some(p);
          }
        }
        if r :| r in corpus && r.product == Some(p) {
          if r in init {
            assert p in KeySet(named);
            var e: (string, real) :| e in named && e.0 == p;
            assert e in named + tail;
          } else {
            assert r == last;
            assert tail == [(p, last.amount)];
            assert (p, last.amount) in named + tail;
          }
        }
      }
    }
  }

  /** Leaving out the rows without a product changes no product's sum. */
  lemma {:induction false} NamedSumFor(corpus: seq<Record>, p: string)
    ensures SumFor(NamedProductAmounts(corpus), p) == SumFor(ProductAmounts(corpus), Some(p))
  {
    if corpus != [] {
      var init, last := corpus[..|corpus| - 1], corpus[|corpus| - 1];
      NamedSumFor(init, p);
      var all := ProductAmounts(corpus);
      assert all[..|all| - 1] == ProductAmounts(init);
      match last.product
      case Some(q) =>
        var ps := NamedProductAmounts(init) + [(q, last.amount)];
        assert ps[..|ps| - 1] == NamedProductAmounts(init);
      case None =>
        assert NamedProductAmounts(init) + [] == NamedProductAmounts(init);
        assert NamedProductAmounts(corpus) == NamedProductAmounts(init);
    }
  }

  /** The product summary as written has one row for each product cell that
      occurs and no other, each with the sum of that product's amounts. */
  lemma ProductAsWrittenOneRowPerProduct(corpus: seq<Record>)
    ensures var ps := ProductSummaryAsWritten(corpus);
      && Summarizes(ps, NamedProductAmounts(corpus))
      && (forall p :: p in RowKeys(ps) <==> exists r :: r in corpus && r.product == Some(p))
      && (forall i :: 0 <= i < |ps| ==> ps[i].total == SumFor(ProductAmounts(corpus), Some(ps[i].key)))
  {
    var named := NamedProductAmounts(corpus);
    SortKeepsSummary(GroupSum(named), named, TotalAtLeast);
    NamedProductKeys(corpus);
    var ps := ProductSummaryAsWritten(corpus);
    forall i | 0 <= i < |ps| ensures ps[i].total == SumFor(ProductAmounts(corpus), Some(ps[i].key)) {
      NamedSumFor(corpus, ps[i].key);
    }
  }

  /** The product rows as written are non-increasing by total. */
  lemma ProductAsWrittenDescending(corpus: seq<Record>)
    ensures var ps := ProductSummaryAsWritten(corpus);
      forall i, j :: 0 <= i < j < |ps| ==> ps[i].total >= ps[j].total
  {
    var ps := ProductSummaryAsWritten(corpus);
    TotalOrdersArePreorders<string>();
    SortIsSorted(GroupSum(NamedProductAmounts(corpus)), TotalAtLeast);
    forall i, j | 0 <= i < j < |ps| ensures ps[i].total >= ps[j].total {
      assert TotalAtLeast(ps[i], ps[j]);
    }
  }

  /** The product summary as written is empty exactly when no row has a
      product, so also for data that is not empty. */
  lemma ProductAsWrittenEmptyIff(corpus: seq<Record>)
    ensures ProductSummaryAsWritten(corpus) == [] <==> forall r :: r in corpus ==> r.product.None?
  {
    var ps := ProductSummaryAsWritten(corpus);
    ProductAsWrittenOneRowPerProduct(corpus);
    if ps != [] {
      assert ps[0].key in RowKeys(ps);
    }
    if r :| r in corpus && r.product.Some? {
      assert r.product.value in RowKeys(ps);
    }
  }

  lemma {:induction false} UnnamedAmountZero(corpus: seq<Record>)
    requires forall r :: r in corpus ==> r.product.Some?
    ensures UnnamedAmount(corpus) == 0.0
  {
    if corpus != [] {
      var init := corpus[..|corpus| - 1];
      assert forall r :: r in init ==> r in corpus;
      UnnamedAmountZero(init);
      assert corpus[|corpus| - 1] in corpus;
    }
  }

  /** When every row has a product, the summaries as written account for
      the same grand total. */
  lemma SummariesAgreeAsWritten(corpus: seq<Record>)
    requires forall r :: r in corpus ==> r.product.Some?
    ensures TotalsOf(MonthlySummary(corpus)) == TotalsOf(ProductSummaryAsWritten(corpus))
  {
    MonthlyConserves(corpus);
    ProductAsWrittenLosesUnnamed(corpus);
    UnnamedAmountZero(corpus);
  }

  /** The monthly summary is empty exactly when the data set is, the product
      summary as written exactly when no row has a product, and the
      corrected product summary exactly when the data set is. */
  lemma SummariesEmptyIff(corpus: seq<Record>)
    ensures MonthlySummary(corpus) == [] <==> corpus == []
    ensures ProductSummaryAsWritten(corpus) == [] <==> forall r :: r in corpus ==> r.product.None?
    ensures ProductSummary(corpus) == [] <==> corpus == []
  {
    MonthlyOneRowPerMonth(corpus);
    ProductAsWrittenEmptyIff(corpus);
    ProductOneRowPerProduct(corpus);
  }
}
