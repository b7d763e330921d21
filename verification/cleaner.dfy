/** The cleaning transforms of src/data_cleaner.py over a generic data
    frame: named columns and rows of cells. Each transform returns a new
    frame; the caller's frame is a value and is never changed. */
module DataCleaner {
  import opened Wrappers
  import opened Seqs

  /** A cell: missing (NaN / None), an integer, or text. */
  datatype Cell = Null | Num(n: int) | Text(s: string)

  type Row = seq<Cell>

  datatype Frame = Frame(columns: seq<string>, rows: seq<Row>)

  /** What pandas raises instead of returning a frame. */
  datatype CleanError =
    | MissingColumn(name: string)   // KeyError: the column does not exist
    | NonNumeric(name: string)      // TypeError: quantiles of a text column
    | RepeatedColumn(name: string)  // AttributeError: `df[name]` is a frame, which has no `.dtype`

  /** A rectangular frame with distinct column names. */
  predicate WellFormed(f: Frame) {
    && Distinct(f.columns)
    && forall i :: 0 <= i < |f.rows| ==> |f.rows[i]| == |f.columns|
  }

  /** `name` labels more than one column. */
  predicate Repeated(columns: seq<string>, name: string) {
    exists i, j :: 0 <= i < j < |columns| && columns[i] == name && columns[j] == name
  }

  /** Position of the column called `name`. */
  function IndexOf(columns: seq<string>, name: string): (j: nat)
    requires name in columns
    ensures j < |columns| && columns[j] == name
    ensures forall k :: 0 <= k < j ==> columns[k] != name
  {
    if columns[0] == name then 0 else 1 + IndexOf(columns[1..], name)
  }

  // ---------------------------------------------------------------------------
  // remove_duplicates

  /** `df.drop_duplicates()`: every row equal to an earlier row is dropped. */
  function RemoveDuplicates(f: Frame): (r: Frame)
    ensures r.columns == f.columns
    ensures IsSubseq(r.rows, f.rows)
    ensures Distinct(r.rows)
    ensures forall i :: 0 <= i < |f.rows| ==> f.rows[i] in r.rows
    ensures forall i :: 0 <= i < |r.rows| ==> r.rows[i] in f.rows
  {
    Frame(f.columns, Dedup(f.rows))
  }

  /** `initial_count - final_count`: the number of rows reported as removed. */
  function DuplicatesRemoved(f: Frame): (removed: nat)
    ensures removed == |f.rows| - |Elements(f.rows)|
    ensures removed == 0 <==> Distinct(f.rows)
  {
    SubseqLength(Dedup(f.rows), f.rows);
    DedupLength(f.rows);
    DedupKeepsAllIffDistinct(f.rows);
    |f.rows| - |RemoveDuplicates(f).rows|
  }

  /** Removing duplicates from its own output removes nothing. */
  lemma RemoveDuplicatesIdempotent(f: Frame)
    ensures RemoveDuplicates(RemoveDuplicates(f)) == RemoveDuplicates(f)
    ensures DuplicatesRemoved(RemoveDuplicates(f)) == 0
  {
    DedupIdempotent(f.rows);
  }

  /** A row is kept iff it equals no earlier row, so the survivors keep the
      order of their first occurrences. */
  lemma RemoveDuplicatesAppend(f: Frame, row: Row)
    ensures RemoveDuplicates(Frame(f.columns, f.rows + [row])).rows ==
            RemoveDuplicates(f).rows + (if row in f.rows then [] else [row])
  {
    DedupSnoc(f.rows, row);
  }

  // ---------------------------------------------------------------------------
  // handle_missing_values

  /** The `columns` argument: None selects every column. */
  datatype Selection = AllColumns | Only(names: seq<string>)

  function Selected(f: Frame, sel: Selection): seq<string> {
    match sel
    case AllColumns => f.columns
    case Only(names) => names
  }

  /** The row has no missing cell in any of the named columns. */
  predicate Complete(columns: seq<string>, names: seq<string>, row: Row) {
    forall j :: 0 <= j < |row| && j < |columns| && columns[j] in names ==> row[j] != Null
  }

  function CompleteIn(columns: seq<string>, names: seq<string>): Row -> bool {
    (row: Row) => Complete(columns, names, row)
  }

  /** `df.dropna(subset=names)`: keep the rows complete in the named columns. */
  function DropMissing(f: Frame, names: seq<string>): (r: Frame)
    ensures r.columns == f.columns
    ensures IsSubseq(r.rows, f.rows)
    ensures forall i :: 0 <= i < |r.rows| ==> Complete(f.columns, names, r.rows[i])
    ensures forall i :: 0 <= i < |f.rows| && Complete(f.columns, names, f.rows[i]) ==> f.rows[i] in r.rows
    // every copy of a complete row is kept, every copy of an incomplete one dropped
    ensures forall row :: multiset(r.rows)[row] == if Complete(f.columns, names, row) then multiset(f.rows)[row] else 0
  {
    FilterIsSubseq(f.rows, CompleteIn(f.columns, names));
    FilterCounts(f.rows, CompleteIn(f.columns, names));
    Frame(f.columns, Filter(f.rows, CompleteIn(f.columns, names)))
  }

  /** With every column selected, exactly the rows without any missing cell survive. */
  lemma DropAllColumns(f: Frame, row: Row)
    requires WellFormed(f)
    requires row in f.rows
    ensures row in DropMissing(f, f.columns).rows <==> Null !in row
  {
    if Null in row {
      var j :| 0 <= j < |row| && row[j] == Null;
      assert !Complete(f.columns, f.columns, row);
    }
  }

  /** Each missing cell of a named column replaced by that column's fill value. */
  function FillRow(columns: seq<string>, names: seq<string>, fill: string -> Cell, row: Row): (r: Row)
    ensures |r| == |row|
    ensures forall j :: 0 <= j < |row| && row[j] != Null ==> r[j] == row[j]
    ensures forall j :: 0 <= j < |row| && (j >= |columns| || columns[j] !in names) ==> r[j] == row[j]
    ensures forall j :: 0 <= j < |row| && j < |columns| && columns[j] in names && row[j] == Null ==>
              r[j] == fill(columns[j])
  {
    seq(|row|, j requires 0 <= j < |row| =>
      if row[j] == Null && j < |columns| && columns[j] in names then fill(columns[j]) else row[j])
  }

  /** The fill branch on a copy: `fillna(fill(col))` for each named column.
      The fill value stands for the column median (numeric) or mode (text). */
  function FillMissing(f: Frame, names: seq<string>, fill: string -> Cell): (r: Frame)
    ensures r.columns == f.columns
    ensures |r.rows| == |f.rows|
    ensures forall i :: 0 <= i < |f.rows| ==> r.rows[i] == FillRow(f.columns, names, fill, f.rows[i])
    // when no fill value is itself missing, no named column keeps a gap
    ensures (forall name :: name in names ==> fill(name) != Null) ==>
              forall i :: 0 <= i < |r.rows| ==> Complete(r.columns, names, r.rows[i])
  {
    Frame(f.columns, seq(|f.rows|, i requires 0 <= i < |f.rows| => FillRow(f.columns, names, fill, f.rows[i])))
  }

  /** The first selected name that is not a column, if any. For the drop
      branch pandas' KeyError lists every absent name; the model reports only
      this first one. */
  function FirstUnknown(columns: seq<string>, names: seq<string>): (u: Option<string>)
    ensures u.None? <==> forall k :: 0 <= k < |names| ==> names[k] in columns
    ensures u.Some? ==> u.value in names && u.value !in columns
  {
    if names == [] then None
    else if names[0] !in columns then Some(names[0])
    else FirstUnknown(columns, names[1..])
  }

  /** The error the fill loop stops at: each selected name is looked up in
      turn, an absent one raises KeyError and a repeated one yields a frame,
      whose `.dtype` raises AttributeError. */
  function FirstUnfillable(columns: seq<string>, names: seq<string>): (e: Option<CleanError>)
    ensures e.None? <==> forall k :: 0 <= k < |names| ==> names[k] in columns && !Repeated(columns, names[k])
    ensures e.Some? ==> e.value.MissingColumn? || e.value.RepeatedColumn?
    // it is the error of the first selected name that is absent or repeated
    ensures e.Some? ==>
      exists k ::
        && 0 <= k < |names| && names[k] == e.value.name
        && (forall m :: 0 <= m < k ==> names[m] in columns && !Repeated(columns, names[m]))
        && (if e.value.MissingColumn? then names[k] !in columns else names[k] in columns && Repeated(columns, names[k]))
  {
    if names == [] then None
    else if names[0] !in columns then Some(MissingColumn(names[0]))
    else if Repeated(columns, names[0]) then Some(RepeatedColumn(names[0]))
    else
      assert forall k :: 0 <= k < |names[1..]| ==> names[1..][k] == names[k + 1];
      FirstUnfillable(columns, names[1..])
  }

  /** `handle_missing_values(df, strategy, columns)`: "drop" drops incomplete
      rows, any other strategy fills. Naming an absent column raises KeyError;
      the fill branch also fails on a name that labels several columns. */
  function HandleMissingValues(f: Frame, strategy: string, sel: Selection, fill: string -> Cell): (r: Result<Frame, CleanError>)
    ensures strategy == "drop" ==>
      (r.Failure? <==> exists name :: name in Selected(f, sel) && name !in f.columns)
    ensures strategy != "drop" ==>
      (r.Failure? <==> exists name :: name in Selected(f, sel) && (name !in f.columns || Repeated(f.columns, name)))
    // with distinct column names only an absent name fails, whatever the strategy
    ensures Distinct(f.columns) ==>
      (r.Failure? <==> exists name :: name in Selected(f, sel) && name !in f.columns)
    ensures r.Failure? && r.error.MissingColumn? ==> r.error.name in Selected(f, sel) && r.error.name !in f.columns
    ensures r.Failure? && !r.error.MissingColumn? ==>
      strategy != "drop" && r.error.RepeatedColumn? && r.error.name in Selected(f, sel) && Repeated(f.columns, r.error.name)
    ensures r.Success? && strategy == "drop" ==> r.value == DropMissing(f, Selected(f, sel))
    ensures r.Success? && strategy != "drop" ==> r.value == FillMissing(f, Selected(f, sel), fill)
  {
    var names := Selected(f, sel);
    if strategy == "drop" then
      match FirstUnknown(f.columns, names)
      case Some(name) => Failure(MissingColumn(name))
      case None => Success(DropMissing(f, names))
    else
      match FirstUnfillable(f.columns, names)
      case Some(e) => Failure(e)
      case None => Success(FillMissing(f, names, fill))
  }

  // ---------------------------------------------------------------------------
  // remove_outliers

  /** `lower_bound <= v <= upper_bound` with the bounds 1.5 IQR beyond the
      quartiles, both inclusive. */
  predicate WithinFences(v: int, q1: real, q3: real) {
    var iqr := q3 - q1;
    q1 - 1.5 * iqr <= v as real <= q3 + 1.5 * iqr
  }

  /** A NaN cell fails both comparisons, so only numbers can pass. */
  function KeepsRow(j: nat, q1: real, q3: real): Row -> bool {
    (row: Row) => j < |row| && row[j].Num? && WithinFences(row[j].n, q1, q3)
  }

  /** Some row holds text in column `j`. */
  predicate HasText(rows: seq<Row>, j: nat) {
    exists i :: 0 <= i < |rows| && j < |rows[i]| && rows[i][j].Text?
  }

  /** `remove_outliers(df, column)` with the quartiles Q1, Q3 of the column given. */
  function RemoveOutliers(f: Frame, column: string, q1: real, q3: real): (r: Result<Frame, CleanError>)
    requires WellFormed(f)
    ensures column !in f.columns ==> r == Failure(MissingColumn(column))
    ensures column in f.columns && HasText(f.rows, IndexOf(f.columns, column)) ==> r == Failure(NonNumeric(column))
    ensures r.Success? <==> column in f.columns && !HasText(f.rows, IndexOf(f.columns, column))
    ensures r.Success? ==> r.value.columns == f.columns && IsSubseq(r.value.rows, f.rows)
    ensures r.Success? ==> WellFormed(r.value)
    ensures r.Success? ==> forall i :: 0 <= i < |r.value.rows| ==>
              r.value.rows[i][IndexOf(f.columns, column)].Num? &&
              WithinFences(r.value.rows[i][IndexOf(f.columns, column)].n, q1, q3)
    ensures r.Success? ==> forall i :: 0 <= i < |f.rows| ==>
              f.rows[i][IndexOf(f.columns, column)].Num? &&
              WithinFences(f.rows[i][IndexOf(f.columns, column)].n, q1, q3) ==>
              f.rows[i] in r.value.rows
    // given Q1 <= Q3, a value between the quartiles is never an outlier
    ensures r.Success? && q1 <= q3 ==> forall i :: 0 <= i < |f.rows| ==>
              f.rows[i][IndexOf(f.columns, column)].Num? &&
              q1 <= f.rows[i][IndexOf(f.columns, column)].n as real <= q3 ==>
              f.rows[i] in r.value.rows
    // a missing value compares false with both bounds
    ensures r.Success? ==> forall i :: 0 <= i < |f.rows| ==>
              f.rows[i][IndexOf(f.columns, column)] == Null ==> f.rows[i] !in r.value.rows
    // every copy of a kept row survives
    ensures r.Success? ==> forall row ::
              multiset(r.value.rows)[row] == if KeepsRow(IndexOf(f.columns, column), q1, q3)(row) then multiset(f.rows)[row] else 0
  {
    if column !in f.columns then Failure(MissingColumn(column))
    else
      var j := IndexOf(f.columns, column);
      if HasText(f.rows, j) then Failure(NonNumeric(column))
      else
        FilterIsSubseq(f.rows, KeepsRow(j, q1, q3));
        FilterCounts(f.rows, KeepsRow(j, q1, q3));
        Success(Frame(f.columns, Filter(f.rows, KeepsRow(j, q1, q3))))
  }

  // ---------------------------------------------------------------------------
  // clean_data

  /** `clean_data(df)`: de-duplication applied to a copy of the frame. */
  function CleanData(f: Frame): (r: Frame)
    ensures r == RemoveDuplicates(f)
    ensures r.columns == f.columns
    ensures Distinct(r.rows)
    ensures forall i :: 0 <= i < |f.rows| ==> f.rows[i] in r.rows
    ensures IsSubseq(r.rows, f.rows)
  {
    var copy := Frame(f.columns, f.rows);
    RemoveDuplicates(copy)
  }

  /** Cleaning an already clean frame changes nothing. */
  lemma CleanDataIdempotent(f: Frame)
    ensures CleanData(CleanData(f)) == CleanData(f)
  {
    DedupIdempotent(f.rows);
  }
}
