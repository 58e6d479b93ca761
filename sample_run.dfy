/** A worked example: three sales rows over two months and two products,
    and the two summary tables `main.py` writes for them. */
module SampleRun {
  import opened Wrappers
  import opened Records
  import opened Aggregate
  import opened Sorting
  import opened Summaries
  import Lex

  function ExampleCorpus(): seq<Record>
  {
    [ Record(Date(2024, 1, 5), Some("Widget"), 100.0),
      Record(Date(2024, 1, 20), Some("Widget"), 50.0),
      Record(Date(2024, 2, 1), Some("Gadget"), 200.0) ]
  }

  lemma ExampleLabels()
    ensures MonthLabel(Date(2024, 1, 5)) == "2024-01"
    ensures MonthLabel(Date(2024, 1, 20)) == "2024-01"
    ensures MonthLabel(Date(2024, 2, 1)) == "2024-02"
  {
    assert Digits(2, 1) == "2";
    assert Digits(20, 2) == "20";
    assert Digits(202, 3) == "202";
    assert Digits(2024, 4) == "2024";
    assert Digits(0, 1) == "0";
    assert Digits(1, 2) == "01";
    assert Digits(2, 2) == "02";
  }

  /** The keys of two amounts of one key and then one of another. */
  lemma FirstThree<K(!new)>(a: K, b: K)
    requires a != b
    ensures FirstOccurrences([(a, 100.0), (a, 50.0), (b, 200.0)]) == [a, b]
  {
    var ps := [(a, 100.0), (a, 50.0), (b, 200.0)];
    var p1, p2 := ps[..1], ps[..2];
    assert p1[..0] == [] && p2[..1] == p1 && ps[..2] == p2;
    assert FirstOccurrences(p1) == [a];
    assert FirstOccurrences(p2) == [a];
  }

  /** The sums per key of the same amounts. */
  lemma SumsThree<K>(a: K, b: K)
    requires a != b
    ensures SumFor([(a, 100.0), (a, 50.0), (b, 200.0)], a) == 150.0
    ensures SumFor([(a, 100.0), (a, 50.0), (b, 200.0)], b) == 200.0
  {
    var ps := [(a, 100.0), (a, 50.0), (b, 200.0)];
    var p1, p2 := ps[..1], ps[..2];
    assert p1[..0] == [] && p2[..1] == p1 && ps[..2] == p2;
    assert SumFor(p1, a) == 100.0 && SumFor(p1, b) == 0.0;
    assert SumFor(p2, a) == 150.0 && SumFor(p2, b) == 0.0;
  }

  /** Grouping two amounts of one key and then one of another. */
  lemma GroupThree<K(!new)>(a: K, b: K)
    requires a != b
    ensures GroupSum([(a, 100.0), (a, 50.0), (b, 200.0)]) == [Row(a, 150.0), Row(b, 200.0)]
  {
    var ps := [(a, 100.0), (a, 50.0), (b, 200.0)];
    FirstThree(a, b);
    SumsThree(a, b);
    var rows := RowsFor(ps, [a, b]);
    assert rows == [Row(a, 150.0), Row(b, 200.0)];
  }

  lemma ExampleMonthAmounts()
    ensures MonthAmounts(ExampleCorpus()) == [("2024-01", 100.0), ("2024-01", 50.0), ("2024-02", 200.0)]
  {
    ExampleLabels();
  }

  lemma ExampleMonthGroups()
    ensures GroupSum(MonthAmounts(ExampleCorpus())) == [Row("2024-01", 150.0), Row("2024-02", 200.0)]
  {
    ExampleMonthAmounts();
    assert "2024-01"[6] != "2024-02"[6];
    GroupThree("2024-01", "2024-02");
  }

  lemma ExampleNamedAmounts()
    ensures NamedProductAmounts(ExampleCorpus()) == [("Widget", 100.0), ("Widget", 50.0), ("Gadget", 200.0)]
  {
    var c := ExampleCorpus();
    assert c[..2][..1] == c[..1] && c[..1][..0] == [];
    assert NamedProductAmounts(c[..1]) == [("Widget", 100.0)];
    assert NamedProductAmounts(c[..2]) == [("Widget", 100.0), ("Widget", 50.0)];
  }

  lemma ExampleProductGroups()
    ensures GroupSum(NamedProductAmounts(ExampleCorpus())) == [Row("Widget", 150.0), Row("Gadget", 200.0)]
  {
    ExampleNamedAmounts();
    assert "Widget"[0] != "Gadget"[0];
    GroupThree("Widget", "Gadget");
  }

  /** Sorting two rows: already in order, or swapped. */
  lemma SortPair<T>(x: T, y: T, le: (T, T) -> bool)
    ensures le(x, y) ==> Sort([x, y], le) == [x, y]
    ensures !le(x, y) ==> Sort([x, y], le) == [y, x]
  {
    var s := [x, y];
    assert s[1..] == [y];
    assert Sort([y], le) == [y];
  }

  lemma JanuaryBeforeFebruary()
    ensures Lex.Less("2024-01", "2024-02")
  {
    Lex.Concat("2024-0", "2024-0", "1", "2");
    assert "2024-0" + "1" == "2024-01" && "2024-0" + "2" == "2024-02";
  }

  lemma MonthlyExample()
    ensures MonthlySummary(ExampleCorpus()) == [Row("2024-01", 150.0), Row("2024-02", 200.0)]
  {
    var g := [Row("2024-01", 150.0), Row("2024-02", 200.0)];
    assert MonthlySummary(ExampleCorpus()) == Sort(g, LabelAtMost) by {
      ExampleMonthGroups();
    }
    assert LabelAtMost(g[0], g[1]) by {
      JanuaryBeforeFebruary();
    }
    SortPair(g[0], g[1], LabelAtMost);
  }

  lemma ProductExample()
    ensures ProductSummaryAsWritten(ExampleCorpus()) == [Row("Gadget", 200.0), Row("Widget", 150.0)]
  {
    ExampleProductGroups();
    SortPair(Row("Widget", 150.0), Row("Gadget", 200.0), TotalAtLeast);
  }
}
