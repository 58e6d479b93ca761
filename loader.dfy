/** The record loader (`read_one_csv`): a schema check on the header,
    then type coercion of `date` and `amount`, dropping every row where
    either fails, and projection onto the three canonical columns. */
module Loader {
  import opened Wrappers
  import opened Records
  import Lex

  /** A cell as `pd.read_csv` delivers it; `None` for an empty field or a
      missing-value marker. */
  type Cell = Option<string>

  /** One data row: column name to cell text; a column absent from the
      map is a missing cell. */
  type RawRow = map<string, string>

  /** A file as `pd.read_csv` reads it: the header, then the data rows. */
  datatype Table = Table(header: seq<string>, rows: seq<RawRow>)

  /** `pd.to_datetime(column, errors="coerce")`, asked about row `i`:
      pandas infers one date format from the whole column, so a cell's
      parse may depend on its neighbours. `None` is NaT. */
  type DateParser = (seq<Cell>, nat) -> Option<Timestamp>

  /** `pd.to_numeric(cell, errors="coerce")`; `None` is NaN. */
  type AmountParser = string -> Option<real>

  /** `REQUIRED_COLS`. */
  const RequiredColumns: set<string> := {"date", "product", "amount"}

  /** The required columns absent from `header`, in sorted order
      (`sorted(REQUIRED_COLS - set(df.columns))`). */
  function MissingColumns(header: seq<string>): (missing: seq<string>)
    ensures forall c :: c in missing <==> c in RequiredColumns && c !in header
    ensures forall i, j :: 0 <= i < j < |missing| ==> Lex.Less(missing[i], missing[j])
  {
    // "amount" < "date" < "product"
    (if "amount" in header then [] else ["amount"])
    + (if "date" in header then [] else ["date"])
    + (if "product" in header then [] else ["product"])
  }

  /** `os.path.basename` on a POSIX path: the text after the last `/`. */
  function Basename(path: string): (name: string)
    ensures '/' !in name
    ensures |name| <= |path| && name == path[|path| - |name|..]
    ensures |name| < |path| ==> path[|path| - |name| - 1] == '/'
  {
    if path == [] || path[|path| - 1] == '/' then []
    else Basename(path[..|path| - 1]) + [path[|path| - 1]]
  }

  function CellOf(row: RawRow, column: string): Cell
  {
    if column in row then Some(row[column]) else None
  }

  function Column(t: Table, column: string): (col: seq<Cell>)
    ensures |col| == |t.rows|
  {
    seq(|t.rows|, i requires 0 <= i < |t.rows| => CellOf(t.rows[i], column))
  }

  /** The coerced date of row `i`; a missing cell is NaT. */
  function ParsedDate(t: Table, dates: DateParser, i: nat): Option<Timestamp>
    requires i < |t.rows|
  {
    if CellOf(t.rows[i], "date").None? then None else dates(Column(t, "date"), i)
  }

  /** The coerced amount of row `i`; a missing cell is NaN. */
  function ParsedAmount(t: Table, amounts: AmountParser, i: nat): Option<real>
    requires i < |t.rows|
  {
    match CellOf(t.rows[i], "amount")
    case None => None
    case Some(text) => amounts(text)
  }

  /** Row `i` survives `dropna(subset=["date", "amount"])`. */
  predicate RowParses(t: Table, dates: DateParser, amounts: AmountParser, i: nat)
    requires i < |t.rows|
  {
    ParsedDate(t, dates, i).Some? && ParsedAmount(t, amounts, i).Some?
  }

  /** Row `i` cut down to the three canonical fields. */
  function RecordAt(t: Table, dates: DateParser, amounts: AmountParser, i: nat): Record
    requires i < |t.rows| && RowParses(t, dates, amounts, i)
  {
    Record(ParsedDate(t, dates, i).value, CellOf(t.rows[i], "product"), ParsedAmount(t, amounts, i).value)
  }

  /** The indices, below `n`, of the rows that survive, in file order. */
  function KeptIndices(t: Table, dates: DateParser, amounts: AmountParser, n: nat): (ix: seq<nat>)
    requires n <= |t.rows|
    ensures |ix| <= n
    ensures forall j :: 0 <= j < |ix| ==> ix[j] < n && RowParses(t, dates, amounts, ix[j])
    ensures forall j, k :: 0 <= j < k < |ix| ==> ix[j] < ix[k]
    ensures forall i :: 0 <= i < n ==> (i in ix <==> RowParses(t, dates, amounts, i))
  {
    if n == 0 then []
    else
      var prev := KeptIndices(t, dates, amounts, n - 1);
      var ix := prev + (if RowParses(t, dates, amounts, n - 1) then [n - 1] else []);
      assert forall i :: 0 <= i < n - 1 ==> (i in ix <==> i in prev);
      ix
  }

  /** `read_one_csv` on a file at `path` whose contents read as `t`. */
  function ReadOneCsv(path: string, t: Table, dates: DateParser, amounts: AmountParser)
    : (r: Result<seq<Record>, Error>)
    ensures r.Failure? <==> !("date" in t.header && "product" in t.header && "amount" in t.header)
    ensures r.Failure? ==> r.error == SchemaError(Basename(path), MissingColumns(t.header))
    ensures r.Failure? ==> r.error.missing != []
    ensures r.Success? ==> |r.value| <= |t.rows|
  {
    var missing := MissingColumns(t.header);
    if missing != [] then
      Failure(SchemaError(Basename(path), missing))
    else
      var ix := KeptIndices(t, dates, amounts, |t.rows|);
      Success(seq(|ix|, j requires 0 <= j < |ix| => RecordAt(t, dates, amounts, ix[j])))
  }

  /** A loaded file holds exactly the rows whose date and amount both
      parsed, in file order, each with its product cell unchanged. */
  lemma ReadOneCsvKeepsParsedRows(path: string, t: Table, dates: DateParser, amounts: AmountParser)
    requires "date" in t.header && "product" in t.header && "amount" in t.header
    ensures var r := ReadOneCsv(path, t, dates, amounts);
      var ix := KeptIndices(t, dates, amounts, |t.rows|);
      && r.Success?
      && |r.value| == |ix|
      && (forall j :: 0 <= j < |ix| ==>
            && r.value[j].date == ParsedDate(t, dates, ix[j]).value
            && r.value[j].amount == ParsedAmount(t, amounts, ix[j]).value
            && r.value[j].product == CellOf(t.rows[ix[j]], "product"))
      && (forall i :: 0 <= i < |t.rows| ==> (i in ix <==> RowParses(t, dates, amounts, i)))
  {
  }
}
