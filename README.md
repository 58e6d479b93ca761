# Bulk CSV sales report — a verified model

`main.py` reads every sales CSV file that matches a glob pattern in an
input directory, checks that each file has the columns `date`, `product`
and `amount`, coerces dates and amounts and drops the rows where either
fails, concatenates the surviving rows of all files in sorted path order,
and then writes four outputs: `summary.csv` (total amount per calendar
month `YYYY-MM`, ascending by month), `summary_by_product.csv` (total
amount per product, descending by total), `sales_trend.png` (the monthly
totals as a line) and `product_top10.png` (the ten products with the
largest totals as horizontal bars, smallest bar first).

This project models that pipeline in Dafny and proves what it promises:

- `wrappers.dfy` — `Option` and `Result`.
- `lex.dfy` — Python's string order (`<` on `str`) and its laws.
- `sorting.dfy` — one sort by a caller-given order, proved to be a
  permutation and to be sorted when the order is a total preorder.
- `records.dfy` — dates within pandas' timestamp range, the loaded record
  `(date, product, amount)`, the run's errors, and the month label
  `YYYY-MM`, whose string order is proved to be the chronological order.
- `loader.dfy` — `read_one_csv`: the schema check, the coercion of dates
  and amounts, the dropping of rows and the projection.
- `aggregate.dfy` — `groupby(key).sum()` as a generic group-sum, proved to
  give one row per key with the key's sum, and to conserve the grand total.
- `summaries.dfy` — `build_summary` and `build_product_by_summary`.
- `charts.dfy` — the empty-input guards of both chart exports, the series
  plotted by the trend chart and the top-10 selection.
- `report.dfy` — `main`: the sorted file list, the loop that reads every
  file (an imperative method with loop invariants), the merge, and the
  order in which outputs are written and errors end the run.
- `sample_run.dfy` — a three-row example (two months, two products),
  computed through the model.

The file system is a parameter (`Report.FileSystem`: what `pd.read_csv`
reads at each path), and so are the glob's matches, pandas' date parser
(`Loader.DateParser`, which sees the whole column because pandas infers one
format per column) and its number parser (`Loader.AmountParser`). An
output file is modelled as the value written into it (`Report.Output`).

Three facts about `main.py` shape the driver:

- `main.py:160-163` writes both CSV files before the trend chart's
  empty-input guard can raise, so a failing run can still leave
  `summary.csv` and `summary_by_product.csv` behind. `Report.RunReport`
  states the outputs written on each path.
- `groupby` sorts its keys and `sort_values` uses an unstable quicksort by
  default, so the code fixes no order among products with equal totals;
  the model states only the order by total.
- `groupby("product")` leaves out rows whose product cell is missing (see
  "## Findings"). The driver writes the product summary as the code
  builds it (`Summaries.ProductSummaryAsWritten`), so data whose rows all
  lack a product writes the monthly files and the trend chart and then
  stops at the top-10 chart's guard. The corrected summary, in which a
  missing product forms its own group (`Summaries.ProductSummary`), is the
  corrected half of that finding.

## Model

| member | source | states |
|---|---|---|
| `Loader.MissingColumns` | main.py:24-50 | a column is reported missing exactly when it is one of `date`, `product`, `amount` and absent from the header; the list is strictly ascending in string order, as `sorted(missing)` gives it |
| `Loader.Basename` | main.py:50 | the file name in the error message is the suffix of the path after its last `/` and holds no `/` |
| `Loader.KeptIndices` | main.py:54-57 | the kept rows are, in file order and without repetition, exactly the rows whose date and amount both coerce |
| `Loader.ReadOneCsv` | main.py:45-58 | the read fails exactly when a required column is missing, with the file's base name and the sorted missing columns; otherwise it keeps at most as many rows as the file has |
| `Loader.ReadOneCsvKeepsParsedRows` | main.py:53-58 | a file with all three columns yields one record per row that survives `dropna`, in file order, carrying the coerced date and amount and the unchanged product cell |
| `Records.MonthLabel` | main.py:64 | the month label is seven characters with `-` at position 4 |
| `Records.LabelOrder` | main.py:64-70 | two month labels compare as strings exactly as their months compare in time, and are equal exactly for the same year and month |
| `Lex.Trichotomy` | main.py:70 | Python string order is a strict total order: of `a < b`, `a == b`, `b < a` exactly one holds |
| `Lex.Concat` | main.py:64-70 | for equal-length prefixes, comparing `a + c` with `b + d` compares the prefixes first and the suffixes only on a tie |
| `Sorting.SortIsSorted` | main.py:70 | sorting by a total preorder gives a sequence ordered by it |
| `Sorting.SortedPrefixFirst` | main.py:121-123 | the first k rows after sorting are taken from the input, and each may precede every input row left out |
| `Aggregate.GroupSum` | main.py:67-68 | `groupby(...).sum()` gives one row per distinct key, no other row, and each row's total is the sum of that key's amounts |
| `Aggregate.GroupSumConserves` | main.py:67-68 | the group totals add up to the sum of all amounts |
| `Aggregate.SortKeepsSummary` | main.py:70 | re-ordering the grouped rows keeps one row per key with the key's sum |
| `Summaries.MonthlyOneRowPerMonth` | main.py:61-73 | the monthly summary has one row for each month that occurs in the data and no other, each with that month's sum; it is empty exactly when the data is |
| `Summaries.MonthlyAscending` | main.py:70-71 | the monthly rows are strictly ascending by label |
| `Summaries.MonthlyChronological` | main.py:64-70 | an earlier monthly row is an earlier calendar month |
| `Summaries.MonthlyConserves` | main.py:66-69 | the monthly totals add up to the sum of all amounts |
| `Summaries.NamedProductKeys` | main.py:80-81 | the products grouped are exactly the product cells that occur in the data |
| `Summaries.NamedSumFor` | main.py:80-81 | leaving out rows without a product changes no product's sum |
| `Summaries.ProductAsWrittenOneRowPerProduct` | main.py:75-86 | the product summary has one row for each product cell that occurs and no other, each with the sum of that product's amounts |
| `Summaries.ProductAsWrittenDescending` | main.py:83-84 | the product rows are non-increasing by total |
| `Summaries.ProductAsWrittenEmptyIff` | main.py:80-81 | the product summary is empty exactly when no row has a product, even when the data is not empty |
| `Summaries.SummariesAgreeAsWritten` | main.py:157-158 | when every row has a product, both summaries account for the same grand total |
| `Summaries.SummariesEmptyIff` | main.py:157-158 | the monthly summary is empty exactly when the merged data is, the product summary exactly when no row has a product; the corrected product summary exactly when the data is |
| `Summaries.ProductOneRowPerProduct` | main.py:80-81 | corrected half of the finding: with a missing product as its own group, one row for each product cell (missing included) that occurs and no other, each with its sum; empty exactly when the data is |
| `Summaries.ProductDescending` | main.py:83-84 | corrected half of the finding: its rows are non-increasing by total |
| `Summaries.ProductConserves` | main.py:79-82 | corrected half of the finding: its totals add up to the sum of all amounts |
| `Summaries.SummariesAgree` | main.py:157-158 | corrected half of the finding: the monthly summary and the corrected product summary account for the same grand total, whatever the data |
| `Summaries.ProductAsWrittenLosesUnnamed` | main.py:80-81 | the product totals as written fall short of the grand total by exactly the amounts of rows without a product |
| `Summaries.ProductAsWrittenDropsUnnamed` | main.py:80-81 | any single row with an empty product cell is counted in the monthly total and the corrected product summary, but the product summary as written is empty |
| `Summaries.ProductAsWrittenCounterexample` | main.py:80-81 | one row with an empty product cell appears in the monthly total but not at all in the product summary as written |
| `Charts.TrendChart` | main.py:98-103 | the trend chart refuses exactly an empty summary; otherwise it plots every month with its total, in the summary's order |
| `Charts.Top10` | main.py:118-119 | the top-10 chart refuses exactly an empty summary |
| `Charts.Top10Shape` | main.py:121-128 | the chart shows min(10, n) rows, ascending by total |
| `Charts.Top10Largest` | main.py:121-125 | the rows shown come from the summary, and no row left out has a larger total than any row shown |
| `Report.SortedPaths` | main.py:39-42 | the files are the matched paths, each as often as matched, in ascending string order |
| `Report.ReadAllSucceeds` | main.py:149-152 | reading all files succeeds exactly when every file loads, and then yields each file's rows in file order |
| `Report.ReadAllPrefixFailure` | main.py:150-151 | a failure among the first files read is the failure of the whole read |
| `Report.ReadAllStep` | main.py:150-152 | a file that loads extends the rows read so far by its own |
| `Report.ReadAllStops` | main.py:150-151 | a file that fails to load makes its error the error of the whole read |
| `Report.ConcatHolds` | main.py:155 | a row is in the merged data exactly when it is in one of the files' row sets |
| `Report.LoadFiles` | main.py:149-155 | the loop reads the files in order and yields the concatenation of their rows; on a failed file it stops there, having read only files that loaded before it |
| `Report.LoadCorpus` | main.py:145-155 | the matched paths are read in sorted order; with no files the run fails with the no-input error before any file is read |
| `Report.WriteReports` | main.py:160-163 | the two CSV files are written first, then the trend chart unless the monthly summary is empty, then the top-10 chart unless the product summary is empty, the run ending at the first refusal |
| `Report.RunReport` | main.py:141-163 | a run with no input files or a failing file writes nothing; a run whose files hold no valid rows writes both (empty) CSV files and stops at the trend chart; a run whose rows all lack a product writes both CSV files and the trend chart and stops at the top-10 chart; otherwise it writes all four outputs from the two summaries |
| `SampleRun.MonthlyExample` | main.py:61-73 | rows (2024-01-05, Widget, 100), (2024-01-20, Widget, 50), (2024-02-01, Gadget, 200) give `2024-01,150` then `2024-02,200` |
| `SampleRun.ProductExample` | main.py:75-86 | the same rows give `Gadget,200` then `Widget,150` |

## Left out

- Argument parsing, creating the output directory and the font settings
  (`main.py:13-36`, `main.py:142-143`): configuration, not data handling.
- Globbing: the paths the pattern matches are an input of `Report.LoadCorpus`.
- Parsing CSV text, `to_csv` formatting and reading errors of
  `pd.read_csv` (unreadable file, bad quoting, encodings): a file is given
  as the table it reads as. Duplicate header names, which pandas renames,
  are not modelled.
- `pd.read_csv`'s own type inference on the `product` column (a column of
  digits becomes numbers): a product cell is its text, or missing.
- Which strings `pd.to_datetime` and `pd.to_numeric` accept: they are the
  parameters `Loader.DateParser` and `Loader.AmountParser`.
- The time of day and time zone of a timestamp: only the calendar date
  reaches the output, through the month label.
- Floating-point arithmetic: amounts are exact reals, so rounding in sums
  and the values `inf` and `nan` that `to_numeric` can produce are not
  modelled.
- Drawing and saving the charts (`main.py:102-112`, `main.py:130-139`):
  a chart is modelled as the data it plots.
- The progress and completion messages (`main.py:153`, `main.py:165-170`).
- Summaries.ProductAsWrittenDescending: does not state the order of
  products with equal totals, because pandas' default sort is not stable
  and the code fixes no tie order.
- Summaries.ProductDescending: the same, for the corrected summary.
- Report.RunReport: the product rows written to `summary_by_product.csv`
  and `product_top10.png` are one of the orders the code may produce
  (rows non-increasing by total); among equal totals the code fixes no
  order, since `groupby` sorts its keys and `sort_values` is not stable.
- Charts.Top10Largest: does not state which of several products with
  the same total as the tenth is shown, for the same reason.

## Findings

| source | as written | input that shows it | evidently intended | confidence | as-written member | corrected member |
|---|---|---|---|---|---|---|
| main.py:80-81 | `groupby("product")` drops rows whose product cell is missing, since `dropna` defaults to true, so their amounts appear in `summary.csv` but in no row of `summary_by_product.csv` | one file with the single row `2024-01-05,,100`: the monthly total is 100, the product summary is empty | every valid row counted in the product summary too, the missing product forming its own group, so both summaries add up to the same total | not executed | `Summaries.ProductAsWrittenCounterexample` | `Summaries.ProductConserves` |
