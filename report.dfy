/** The driver, `main`: the input files in sorted path order, each read by
    the record loader, the per-file rows concatenated, both summaries
    built, then the two CSV files and the two charts written in turn. */
module Report {
  import opened Wrappers
  import opened Records
  import opened Loader
  import opened Aggregate
  import opened Sorting
  import opened Summaries
  import opened Charts
  import Lex

  /** The input files as the run sees them: what `pd.read_csv` reads from
      each path. */
  type FileSystem = string -> Table

  /** What the run writes into the output directory, in the order written. */
  datatype Output =
    | SummaryCsv(monthly: seq<Row<string>>)                  // summary.csv
    | ProductSummaryCsv(products: seq<Row<string>>)  // summary_by_product.csv
    | TrendPng(trend: TrendData)                     // sales_trend.png
    | Top10Png(bars: seq<Row<string>>)               // product_top10.png

  datatype Status = Completed | Aborted(error: Error)

  predicate PathAtMost(a: string, b: string)
  {
    Lex.LessEq(a, b)
  }

  lemma PathAtMostIsPreorder()
    ensures TotalPreorder(PathAtMost)
  {
    forall a, b ensures PathAtMost(a, b) || PathAtMost(b, a) {
      Lex.LessEqTotal(a, b);
    }
    forall a, b, c | PathAtMost(a, b) && PathAtMost(b, c) ensures PathAtMost(a, c) {
      Lex.LessEqTransitive(a, b, c);
    }
  }

  /** `sorted(glob.glob(...))`: the matched paths in string order. */
  function SortedPaths(matches: seq<string>): (files: seq<string>)
    ensures multiset(files) == multiset(matches)
    ensures forall i, j :: 0 <= i < j < |files| ==> Lex.LessEq(files[i], files[j])
  {
    PathAtMostIsPreorder();
    SortIsSorted(matches, PathAtMost);
    var files := Sort(matches, PathAtMost);
    assert forall i, j :: 0 <= i < j < |files| ==> PathAtMost(files[i], files[j]);
    files
  }

  /** `read_one_csv`, as a function of the path. */
  function Reader(fs: FileSystem, dates: DateParser, amounts: AmountParser)
    : string -> Result<seq<Record>, Error>
  {
    path => ReadOneCsv(path, fs(path), dates, amounts)
  }

  /** Reads the files in order with `read`, stopping at the first that
      fails. */
  function ReadAll<T>(read: string -> Result<T, Error>, files: seq<string>): Result<seq<T>, Error>
  {
    if files == [] then Success([])
    else
      var prefix := ReadAll(read, files[..|files| - 1]);
      var last := read(files[|files| - 1]);
      if prefix.Failure? then Failure(prefix.error)
      else if last.Failure? then Failure(last.error)
      else Success(prefix.value + [last.value])
  }

  /** `pd.concat(dfs)`: the row sets one after another. */
  function Concat<T>(dfs: seq<seq<T>>): seq<T>
  {
    if dfs == [] then [] else Concat(dfs[..|dfs| - 1]) + dfs[|dfs| - 1]
  }

  /** The merged data set of a run over `files` (already sorted). */
  function Merge<T>(read: string -> Result<seq<T>, Error>, files: seq<string>): Result<seq<T>, Error>
  {
    if files == [] then Failure(NoInputFiles)
    else
      var all := ReadAll(read, files);
      if all.Failure? then Failure(all.error) else Success(Concat(all.value))
  }

  /** Reading succeeds exactly when every file loads, and then yields each
      file's rows, in the order of the files. */
  lemma {:induction false} ReadAllSucceeds<T>(read: string -> Result<T, Error>, files: seq<string>)
    ensures var r := ReadAll(read, files);
      && (r.Success? <==> forall i :: 0 <= i < |files| ==> read(files[i]).Success?)
      && (r.Success? ==>
            && |r.value| == |files|
            && forall i :: 0 <= i < |files| ==> r.value[i] == read(files[i]).value)
  {
    if files != [] {
      var init := files[..|files| - 1];
      ReadAllSucceeds(read, init);
      assert forall i :: 0 <= i < |init| ==> files[i] == init[i];
    }
  }

  /** A failure reading a prefix of the files is the failure of the run. */
  lemma {:induction false} ReadAllPrefixFailure<T>(read: string -> Result<T, Error>, files: seq<string>, k: nat)
    requires k <= |files|
    requires ReadAll(read, files[..k]).Failure?
    ensures ReadAll(read, files) == ReadAll(read, files[..k])
  {
    if k < |files| {
      var init := files[..|files| - 1];
      assert init[..k] == files[..k];
      ReadAllPrefixFailure(read, init, k);
    } else {
      assert files[..k] == files;
    }
  }

  /** An element is in the concatenation exactly when some part holds it. */
  lemma {:induction false} ConcatHolds<T>(dfs: seq<seq<T>>, x: T)
    ensures x in Concat(dfs) <==> exists i :: 0 <= i < |dfs| && x in dfs[i]
  {
    if dfs != [] {
      var init := dfs[..|dfs| - 1];
      ConcatHolds(init, x);
      if x in Concat(dfs) && x !in dfs[|dfs| - 1] {
        var i :| 0 <= i < |init| && x in init[i];
        assert dfs[i] == init[i];
      }
      if i :| 0 <= i < |dfs| && x in dfs[i] {
        if i < |init| {
          assert init[i] == dfs[i];
        }
      }
    }
  }

  /** One more file that loads extends a successful read by its rows. */
  lemma ReadAllStep<T>(read: string -> Result<T, Error>, files: seq<string>, i: nat, dfs: seq<T>)
    requires i < |files|
    requires ReadAll(read, files[..i]) == Success(dfs)
    requires read(files[i]).Success?
    ensures ReadAll(read, files[..i + 1]) == Success(dfs + [read(files[i]).value])
  {
    assert files[..i + 1][..i] == files[..i];
  }

  /** A file that fails to load is the failure of the whole read. */
  lemma ReadAllStops<T>(read: string -> Result<T, Error>, files: seq<string>, i: nat)
    requires i < |files|
    requires ReadAll(read, files[..i]).Success?
    requires read(files[i]).Failure?
    ensures ReadAll(read, files) == Failure(read(files[i]).error)
  {
    assert files[..i + 1][..i] == files[..i];
    ReadAllPrefixFailure(read, files, i + 1);
  }

  /** The merge loop of `main`: loads `files` in order with `read`, stopping
      at the first failure; `readFiles` lists the files read, in order. */
  method LoadFiles<T>(files: seq<string>, read: string -> Result<seq<T>, Error>)
    returns (r: Result<seq<T>, Error>, readFiles: seq<string>)
    requires files != []
    ensures r == Merge(read, files)
    ensures readFiles <= files
    ensures r.Success? ==> readFiles == files
    ensures r.Failure? ==>
      && readFiles != []
      && read(readFiles[|readFiles| - 1]) == Failure(r.error)
      && forall j :: 0 <= j < |readFiles| - 1 ==> read(readFiles[j]).Success?
  {
    var dfs: seq<seq<T>> := [];
    readFiles := [];
    var i := 0;
    while i < |files|
      invariant 0 <= i <= |files|
      invariant readFiles == files[..i]
      invariant ReadAll(read, files[..i]) == Success(dfs)
      invariant forall j :: 0 <= j < i ==> read(files[j]).Success?
    {
      var f := files[i];
      readFiles := readFiles + [f];
      var df := read(f);
      if df.Failure? {
        ReadAllStops(read, files, i);
        return Failure(df.error), readFiles;
      }
      ReadAllStep(read, files, i, dfs);
      dfs := dfs + [df.value];
      i := i + 1;
    }
    assert files[..i] == files;
    r := Success(Concat(dfs));
  }

  /** The file list of `main` and its check: sorts the matched paths,
      fails if there are none, and otherwise loads them in that order. */
  method LoadCorpus<T>(matches: seq<string>, read: string -> Result<seq<T>, Error>)
    returns (r: Result<seq<T>, Error>, readFiles: seq<string>)
    ensures r == Merge(read, SortedPaths(matches))
    ensures var files := SortedPaths(matches);
      && readFiles <= files
      && (files == [] ==> r == Failure(NoInputFiles) && readFiles == [])
      && (r.Success? ==> readFiles == files)
      && (r.Failure? && files != [] ==>
            && readFiles != []
            && read(readFiles[|readFiles| - 1]) == Failure(r.error)
            && forall j :: 0 <= j < |readFiles| - 1 ==> read(readFiles[j]).Success?)
  {
    var files := SortedPaths(matches);
    if files == [] {
      return Failure(NoInputFiles), [];
    }
    r, readFiles := LoadFiles(files, read);
  }

  /** The exports at the end of `main`: write summary.csv,
      summary_by_product.csv, sales_trend.png and product_top10.png in that
      order, stopping at the first chart that refuses its input. */
  method WriteReports(monthly: seq<Row<string>>, byProduct: seq<Row<string>>)
    returns (status: Status, written: seq<Output>)
    ensures monthly == [] ==>
      && status == Aborted(EmptyMonthlySummary)
      && written == [SummaryCsv(monthly), ProductSummaryCsv(byProduct)]
    ensures monthly != [] && byProduct == [] ==>
      && status == Aborted(EmptyProductSummary)
      && written == [SummaryCsv(monthly), ProductSummaryCsv(byProduct), TrendPng(TrendChart(monthly).value)]
    ensures monthly != [] && byProduct != [] ==>
      && status == Completed
      && written == [SummaryCsv(monthly), ProductSummaryCsv(byProduct),
                     TrendPng(TrendChart(monthly).value), Top10Png(Top10(byProduct).value)]
  {
    var summaryCsv, productCsv := SummaryCsv(monthly), ProductSummaryCsv(byProduct);
    written := [summaryCsv, productCsv];
    var trend := TrendChart(monthly);
    if trend.Failure? {
      status := Aborted(trend.error);
      return;
    }
    var trendPng := TrendPng(trend.value);
    written := [summaryCsv, productCsv, trendPng];
    var bars := Top10(byProduct);
    if bars.Failure? {
      status := Aborted(bars.error);
      return;
    }
    written := [summaryCsv, productCsv, trendPng, Top10Png(bars.value)];
    status := Completed;
  }

  /** `main` after argument parsing and creating the output directory. */
  method RunReport(matches: seq<string>, fs: FileSystem, dates: DateParser, amounts: AmountParser)
    returns (status: Status, written: seq<Output>, readFiles: seq<string>)
    ensures SortedPaths(matches) == [] ==> status == Aborted(NoInputFiles) && written == [] && readFiles == []
    ensures var loaded := Merge(Reader(fs, dates, amounts), SortedPaths(matches));
      && (loaded.Failure? ==> status == Aborted(loaded.error) && written == [])
      && (loaded.Success? ==> readFiles == SortedPaths(matches))
      && (loaded.Success? && loaded.value == [] ==>
            && status == Aborted(EmptyMonthlySummary)
            && written == [SummaryCsv([]), ProductSummaryCsv([])])
      && (loaded.Success? && loaded.value != [] && (forall r :: r in loaded.value ==> r.product.None?) ==>
            var monthly := MonthlySummary(loaded.value);
            && status == Aborted(EmptyProductSummary)
            && TrendChart(monthly).Success?
            && written == [SummaryCsv(monthly), ProductSummaryCsv([]), TrendPng(TrendChart(monthly).value)])
      && (loaded.Success? && (exists r :: r in loaded.value && r.product.Some?) ==>
            var monthly, byProduct := MonthlySummary(loaded.value), ProductSummaryAsWritten(loaded.value);
            && status == Completed
            && TrendChart(monthly).Success? && Top10(byProduct).Success?
            && written == [SummaryCsv(monthly), ProductSummaryCsv(byProduct),
                           TrendPng(TrendChart(monthly).value), Top10Png(Top10(byProduct).value)])
  {
    var loaded;
    loaded, readFiles := LoadCorpus(matches, Reader(fs, dates, amounts));
    if loaded.Failure? {
      status, written := Aborted(loaded.error), [];
      return;
    }
    var monthly := MonthlySummary(loaded.value);
    var byProduct := ProductSummaryAsWritten(loaded.value);
    SummariesEmptyIff(loaded.value);
    status, written := WriteReports(monthly, byProduct);
  }
}
