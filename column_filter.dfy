/**
  The column cleaner for the Part D claim-line table: it drops every column
  whose cells are all blank and every column holding one value in every row,
  but never the `patient_ref` column, and falls back to the original header
  when nothing would be left.
 */
module ColumnFilter {
  import opened Wrappers
  import opened Text
  import opened Seqs
  import opened Tables

  /** The one column the cleaner never drops. */
  const PatientRef: string := "patient_ref"

  /** `is_null(value)`: a missing cell, or text that strips to nothing. */
  predicate IsNull(v: Option<string>) {
    match v
    case None => true
    case Some(s) => Strip(s) == ""
  }

  /** A present cell is null exactly when it is made only of whitespace. */
  lemma {:induction false} IsNullIffBlank(s: string)
    ensures IsNull(Some(s)) <==> IsBlank(s)
  {
    StripEmptyIffBlank(s);
  }

  // ---------------------------------------------------------------------------
  // What the scan decides about one column
  // ---------------------------------------------------------------------------

  /** The cells of `col` in the first `n` rows are all null. */
  predicate AllNullBefore(rows: seq<Row>, col: string, n: nat)
    requires n <= |rows|
  {
    forall i :: 0 <= i < n ==> IsNull(Some(Cell(rows[i], col)))
  }

  /** The cells of `col` in the first `n` rows all equal its cell in the first row. */
  predicate ConstantBefore(rows: seq<Row>, col: string, n: nat)
    requires n <= |rows|
  {
    forall i :: 0 <= i < n ==> Cell(rows[i], col) == Cell(rows[0], col)
  }

  predicate AllNull(rows: seq<Row>, col: string) {
    AllNullBefore(rows, col, |rows|)
  }

  predicate Constant(rows: seq<Row>, col: string) {
    ConstantBefore(rows, col, |rows|)
  }

  /** A column the cleaner drops: all null or constant, and not `patient_ref`. */
  predicate Droppable(rows: seq<Row>, col: string) {
    (AllNull(rows, col) || Constant(rows, col)) && col != PatientRef
  }

  function DropSet(t: Table): set<string> {
    set c | c in t.header && Droppable(t.rows, c)
  }

  /** The cleaned table and the list of columns reported as dropped. */
  datatype FilterResult = FilterResult(out: Table, dropped: seq<string>)

  /**
    What the cleaner writes. A table with no header is written empty, a table
    with no rows keeps its header; otherwise the droppable columns go, unless
    that would leave no column at all, in which case every column stays.
   */
  function FilterColumns(t: Table): FilterResult {
    if |t.header| == 0 then FilterResult(Table([], []), [])
    else if |t.rows| == 0 then FilterResult(Table(t.header, []), [])
    else
      var dropped := Select(t.header, DropSet(t));
      var kept := Exclude(t.header, Elements(dropped));
      if |kept| == 0 then FilterResult(Table(t.header, ProjectAll(t.rows, t.header)), [])
      else FilterResult(Table(kept, ProjectAll(t.rows, kept)), dropped)
  }

  // ---------------------------------------------------------------------------
  // The scanning procedure
  // ---------------------------------------------------------------------------

  /** The trackers a scan of the first `n` rows leaves behind, one entry per header column. */
  predicate Tracked(header: seq<string>, rows: seq<Row>, n: nat,
                    allNull: map<string, bool>, constant: map<string, bool>)
    requires n <= |rows|
  {
    && allNull.Keys == Elements(header) && constant.Keys == Elements(header)
    && (forall c :: c in allNull ==> allNull[c] == AllNullBefore(rows, c, n))
    && (forall c :: c in constant ==> constant[c] == ConstantBefore(rows, c, n))
  }

  lemma {:induction false} UpdateKeepsKeys<V>(m: map<string, V>, k: string, v: V)
    requires k in m
    ensures m[k := v].Keys == m.Keys
  {
  }

  /** Extending the scan by row `r` changes a column's all-null flag only through that row's cell. */
  lemma {:induction false} AllNullStep(rows: seq<Row>, col: string, r: nat)
    requires r < |rows|
    ensures AllNullBefore(rows, col, r + 1) == (AllNullBefore(rows, col, r) && IsNull(Some(Cell(rows[r], col))))
  {
  }

  /** Extending the scan by row `r` changes a column's constant flag only through that row's cell. */
  lemma {:induction false} ConstantStep(rows: seq<Row>, col: string, r: nat)
    requires r < |rows|
    ensures ConstantBefore(rows, col, r + 1) == (ConstantBefore(rows, col, r) && Cell(rows[r], col) == Cell(rows[0], col))
  {
  }

  /** How many rows of column `c` the trackers have taken in part-way through row `r`. */
  function RowsTaken(c: string, seen: set<string>, r: nat): nat {
    if c in seen then r + 1 else r
  }

  /** The all-null flags once the columns in `seen` have taken in row `r`. */
  predicate NullFlags(header: seq<string>, rows: seq<Row>, r: nat, seen: set<string>, allNull: map<string, bool>)
    requires r < |rows|
  {
    && allNull.Keys == Elements(header)
    && forall c :: c in allNull ==> allNull[c] == AllNullBefore(rows, c, RowsTaken(c, seen, r))
  }

  /** The constant flags once the columns in `seen` have taken in row `r`. */
  predicate ConstantFlags(header: seq<string>, rows: seq<Row>, r: nat, seen: set<string>, constant: map<string, bool>)
    requires r < |rows|
  {
    && constant.Keys == Elements(header)
    && forall c :: c in constant ==> constant[c] == ConstantBefore(rows, c, RowsTaken(c, seen, r))
  }

  /** The first-row baselines: one per column reached so far. */
  predicate Baselines(header: seq<string>, rows: seq<Row>, r: nat, seen: set<string>, firstValue: map<string, string>)
    requires r < |rows|
  {
    && (r == 0 ==> firstValue.Keys == seen)
    && (r > 0 ==> firstValue.Keys == Elements(header))
    && (forall c :: c in firstValue ==> firstValue[c] == Cell(rows[0], c))
  }

  /**
    The trackers part-way through row `r`, once the first `j` header columns
    of that row are visited: those columns have had row `r` folded in, the
    others not yet.
   */
  predicate RowState(header: seq<string>, rows: seq<Row>, r: nat, j: nat,
                     allNull: map<string, bool>, constant: map<string, bool>, firstValue: map<string, string>)
    requires r < |rows| && j <= |header|
  {
    var seen := Elements(header[..j]);
    NullFlags(header, rows, r, seen, allNull) && ConstantFlags(header, rows, r, seen, constant)
    && Baselines(header, rows, r, seen, firstValue)
  }

  /** Visiting column `col` of row `r` folds that cell into its all-null flag. */
  lemma {:induction false} NullFlagsStep(header: seq<string>, rows: seq<Row>, r: nat, seen: set<string>, col: string,
                      m0: map<string, bool>, m: map<string, bool>)
    requires r < |rows| && col in header && NullFlags(header, rows, r, seen, m0)
    requires m == if IsNull(Some(Cell(rows[r], col))) then m0 else m0[col := false]
    ensures NullFlags(header, rows, r, seen + {col}, m)
  {
    AllNullStep(rows, col, r);
    UpdateKeepsKeys(m0, col, false);
    forall c | c in m ensures m[c] == AllNullBefore(rows, c, RowsTaken(c, seen + {col}, r)) {
      if c != col { assert m[c] == m0[c] && RowsTaken(c, seen + {col}, r) == RowsTaken(c, seen, r); }
    }
  }

  /** Visiting column `col` of row `r` folds that cell into its constant flag. */
  lemma {:induction false} ConstantFlagsStep(header: seq<string>, rows: seq<Row>, r: nat, seen: set<string>, col: string,
                          m0: map<string, bool>, m: map<string, bool>)
    requires r < |rows| && col in header && ConstantFlags(header, rows, r, seen, m0)
    requires m == if Cell(rows[r], col) == Cell(rows[0], col) then m0 else m0[col := false]
    ensures ConstantFlags(header, rows, r, seen + {col}, m)
  {
    ConstantStep(rows, col, r);
    UpdateKeepsKeys(m0, col, false);
    forall c | c in m ensures m[c] == ConstantBefore(rows, c, RowsTaken(c, seen + {col}, r)) {
      if c != col { assert m[c] == m0[c] && RowsTaken(c, seen + {col}, r) == RowsTaken(c, seen, r); }
    }
  }

  /** Visiting column `col` of row `r` records the first row's cell as its baseline, once. */
  lemma {:induction false} BaselinesStep(header: seq<string>, rows: seq<Row>, r: nat, seen: set<string>, col: string,
                      f0: map<string, string>, f: map<string, string>)
    requires r < |rows| && col in header && Baselines(header, rows, r, seen, f0)
    requires f == if col in f0 then f0 else f0[col := Cell(rows[r], col)]
    ensures Baselines(header, rows, r, seen + {col}, f)
    ensures col in f0 ==> f0[col] == Cell(rows[0], col)
    ensures col !in f0 ==> r == 0
  {
  }

  /**
    The body of the loop over columns, at column `j`: clears the column's
    all-null flag on a non-null cell, records the first row's cell as the
    column's baseline, and clears its constant flag on a cell that differs
    from the baseline.
   */
  method VisitCell(header: seq<string>, rows: seq<Row>, r: nat, j: nat,
                   allNull0: map<string, bool>, constant0: map<string, bool>, firstValue0: map<string, string>)
    returns (allNull: map<string, bool>, constant: map<string, bool>, firstValue: map<string, string>)
    requires r < |rows| && j < |header|
    requires RowState(header, rows, r, j, allNull0, constant0, firstValue0)
    ensures RowState(header, rows, r, j + 1, allNull, constant, firstValue)
  {
    allNull, constant, firstValue := allNull0, constant0, firstValue0;
    var col := header[j];
    var value := Cell(rows[r], col);
    ghost var seen := Elements(header[..j]);
    if !IsNull(Some(value)) {
      allNull := allNull[col := false];
    }
    if col !in firstValue {
      firstValue := firstValue[col := value];
    } else if value != firstValue[col] {
      constant := constant[col := false];
    }
    BaselinesStep(header, rows, r, seen, col, firstValue0, firstValue);
    NullFlagsStep(header, rows, r, seen, col, allNull0, allNull);
    ConstantFlagsStep(header, rows, r, seen, col, constant0, constant);
    assert header[..j + 1] == header[..j] + [col];
    ElementsSnoc(header[..j], col);
  }

  /** The loop over the columns of row `r`. */
  method ScanRow(header: seq<string>, rows: seq<Row>, r: nat,
                 allNull0: map<string, bool>, constant0: map<string, bool>, firstValue0: map<string, string>)
    returns (allNull: map<string, bool>, constant: map<string, bool>, firstValue: map<string, string>)
    requires r < |rows|
    requires RowState(header, rows, r, 0, allNull0, constant0, firstValue0)
    ensures RowState(header, rows, r, |header|, allNull, constant, firstValue)
  {
    allNull, constant, firstValue := allNull0, constant0, firstValue0;
    var j := 0;
    while j < |header|
      invariant 0 <= j <= |header|
      invariant RowState(header, rows, r, j, allNull, constant, firstValue)
    {
      allNull, constant, firstValue := VisitCell(header, rows, r, j, allNull, constant, firstValue);
      j := j + 1;
    }
  }

  /** Before row `r` is visited, the trackers are those of the first `r` rows. */
  lemma {:induction false} RowStateStart(header: seq<string>, rows: seq<Row>, r: nat,
                      allNull: map<string, bool>, constant: map<string, bool>, firstValue: map<string, string>)
    requires r < |rows| && Tracked(header, rows, r, allNull, constant)
    requires r == 0 ==> firstValue == map[]
    requires r > 0 ==> firstValue.Keys == Elements(header)
    requires forall c :: c in firstValue ==> firstValue[c] == Cell(rows[0], c)
    ensures RowState(header, rows, r, 0, allNull, constant, firstValue)
  {
    assert Elements(header[..0]) == {};
  }

  /** After row `r` is visited, the trackers are those of the first `r + 1` rows. */
  lemma {:induction false} RowStateEnd(header: seq<string>, rows: seq<Row>, r: nat,
                    allNull: map<string, bool>, constant: map<string, bool>, firstValue: map<string, string>)
    requires r < |rows| && RowState(header, rows, r, |header|, allNull, constant, firstValue)
    ensures Tracked(header, rows, r + 1, allNull, constant)
    ensures firstValue.Keys == Elements(header)
  {
    assert header[..|header|] == header;
  }

  /** The loop over the rows. */
  method ScanRows(header: seq<string>, rows: seq<Row>) returns (allNull: map<string, bool>, constant: map<string, bool>)
    requires |rows| > 0
    ensures allNull.Keys == Elements(header) && constant.Keys == Elements(header)
    ensures forall c :: c in allNull ==> allNull[c] == AllNull(rows, c)
    ensures forall c :: c in constant ==> constant[c] == Constant(rows, c)
  {
    allNull := map c | c in header :: true;
    constant := map c | c in header :: true;
    var firstValue: map<string, string> := map[];
    var r := 0;
    while r < |rows|
      invariant 0 <= r <= |rows|
      invariant Tracked(header, rows, r, allNull, constant)
      invariant r == 0 ==> firstValue == map[]
      invariant r > 0 ==> firstValue.Keys == Elements(header)
      invariant forall c :: c in firstValue ==> firstValue[c] == Cell(rows[0], c)
    {
      RowStateStart(header, rows, r, allNull, constant, firstValue);
      allNull, constant, firstValue := ScanRow(header, rows, r, allNull, constant, firstValue);
      RowStateEnd(header, rows, r, allNull, constant, firstValue);
      r := r + 1;
    }
  }

  /**
    `drop_null_and_constant_columns`: the scan, then the dropped and kept
    lists, the fallback, and the projected rows.
   */
  method DropNullAndConstantColumns(t: Table) returns (out: Table, dropped: seq<string>)
    ensures FilterResult(out, dropped) == FilterColumns(t)
  {
    var header, rows := t.header, t.rows;
    if |header| == 0 {
      return Table([], []), [];
    }
    if |rows| == 0 {
      return Table(header, []), [];
    }
    var allNull, constant := ScanRows(header, rows);
    var dropSet := set c | c in allNull && (allNull[c] || constant[c]) && c != PatientRef;
    assert dropSet == DropSet(t);
    dropped := Select(header, dropSet);
    var kept := Exclude(header, Elements(dropped));
    if |kept| == 0 {
      kept := header;
      dropped := [];
    }
    var outRows := WriteRows(rows, kept);
    out := Table(kept, outRows);
  }

  // ---------------------------------------------------------------------------
  // What the result means
  // ---------------------------------------------------------------------------

  /** Some column of a non-empty table survives the drop rule. */
  predicate HasSurvivor(t: Table) {
    exists c :: c in t.header && !Droppable(t.rows, c)
  }

  /**
    When some column survives, the dropped columns are exactly the droppable
    ones, the kept columns exactly the others, and both lists keep the
    header's order.
   */
  lemma {:induction false} DropIsPartition(t: Table)
    requires |t.header| > 0 && |t.rows| > 0 && HasSurvivor(t)
    ensures var res := FilterColumns(t);
      && (forall c :: c in res.dropped <==> c in t.header && Droppable(t.rows, c))
      && (forall c :: c in res.out.header <==> c in t.header && !Droppable(t.rows, c))
      && IsSubsequence(res.dropped, t.header)
      && IsSubsequence(res.out.header, t.header)
  {
    var dropped := Select(t.header, DropSet(t));
    var kept := Exclude(t.header, Elements(dropped));
    var c :| c in t.header && !Droppable(t.rows, c);
    assert c in kept;
    SelectIsSubsequence(t.header, DropSet(t));
    ExcludeIsSubsequence(t.header, Elements(dropped));
  }

  /** When every column is droppable nothing is dropped and the header stays whole. */
  lemma {:induction false} FallbackKeepsEverything(t: Table)
    requires |t.header| > 0 && |t.rows| > 0 && !HasSurvivor(t)
    ensures FilterColumns(t).out.header == t.header
    ensures FilterColumns(t).dropped == []
  {
    var dropped := Select(t.header, DropSet(t));
    var kept := Exclude(t.header, Elements(dropped));
    ExcludeAll(t.header, Elements(dropped));
  }

  /** A table that has a `patient_ref` column keeps it, and never falls back. */
  lemma {:induction false} PatientRefNeverDropped(t: Table)
    requires PatientRef in t.header
    ensures |t.rows| > 0 ==> HasSurvivor(t)
    ensures PatientRef in FilterColumns(t).out.header
    ensures PatientRef !in FilterColumns(t).dropped
  {
    if |t.rows| > 0 {
      assert !Droppable(t.rows, PatientRef);
      DropIsPartition(t);
    }
  }

  /**
    Every row reaches the output, each written under the kept header with its
    own cell for every kept column.
   */
  lemma {:induction false} RowsPreserved(t: Table)
    requires |t.header| > 0
    ensures var out := FilterColumns(t).out;
      && |out.rows| == |t.rows|
      && forall i :: 0 <= i < |t.rows| ==>
           out.rows[i].Keys == Elements(out.header)
           && forall c :: c in out.rows[i] ==> out.rows[i][c] == Cell(t.rows[i], c)
  {
  }

  /**
    With one data row every column is constant, so all columns but
    `patient_ref` are dropped; with no `patient_ref` column that is everything,
    and the header stays whole.
   */
  lemma {:induction false} SingleRowKeepsOnlyPatientRef(t: Table)
    requires |t.header| > 0 && |t.rows| == 1
    ensures PatientRef in t.header ==> Elements(FilterColumns(t).out.header) == {PatientRef}
    ensures PatientRef !in t.header ==> FilterColumns(t).out.header == t.header
  {
    forall c ensures Constant(t.rows, c) {
      assert ConstantBefore(t.rows, c, 1);
    }
    if PatientRef in t.header {
      DropIsPartition(t);
    } else {
      FallbackKeepsEverything(t);
    }
  }

  /** A column whose cells are all blank is dropped unless it is `patient_ref`. */
  lemma {:induction false} BlankColumnDropped(t: Table, col: string)
    requires |t.rows| > 0 && col in t.header && col != PatientRef && HasSurvivor(t)
    requires forall i :: 0 <= i < |t.rows| ==> IsBlank(Cell(t.rows[i], col))
    ensures col in FilterColumns(t).dropped
    ensures col !in FilterColumns(t).out.header
  {
    forall i | 0 <= i < |t.rows| ensures IsNull(Some(Cell(t.rows[i], col))) {
      IsNullIffBlank(Cell(t.rows[i], col));
    }
    DropIsPartition(t);
  }
}
