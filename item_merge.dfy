/**
  The table merger: splices the columns of a second table (the exploded
  claim lines) into a first table (the cleaned claim table) at the position
  of the first table's `item` column, which it replaces, skipping names the
  first table already has and dropping the block-listed columns.
 */
module ItemMerge {
  import opened Seqs
  import opened Tables

  /** The column of the first table that the second table's columns replace. */
  const ItemCol: string := "item"

  /** Columns never written to the merged table. */
  const DropCols: set<string> := {"created", "sequence"}

  datatype MergeError =
    | RowCountMismatch(rows1: nat, rows2: nat)
    | MissingItemColumn

  datatype MergeResult =
    | Merged(table: Table)
    | Failed(error: MergeError)

  /** `[c for c in h2 if c not in {c for c in h1 if c != item}]` */
  function InsertBlock<T(==, !new)>(h1: seq<T>, h2: seq<T>, item: T): seq<T> {
    Exclude(h2, Elements(h1) - {item})
  }

  /** `h1[:i] + insert + h1[i + 1:]` with `i = h1.index(item)`, then the block-listed names removed. */
  function SpliceHeader<T(==, !new)>(h1: seq<T>, h2: seq<T>, item: T, drop: set<T>): seq<T>
    requires item in h1
  {
    Exclude(SpliceAt(h1, IndexOf(h1, item), InsertBlock(h1, h2, item)), drop)
  }

  /**
    The second table's columns, in its order, minus every name the first
    table has other than `item`.
   */
  function InsertCols(h1: seq<string>, h2: seq<string>): (r: seq<string>)
    ensures forall c :: c in r <==> c in h2 && (c == ItemCol || c !in h1)
  {
    InsertBlock(h1, h2, ItemCol)
  }

  /** The inserted columns keep the second table's order. */
  lemma {:induction false} InsertColsInOrder(h1: seq<string>, h2: seq<string>)
    ensures IsSubsequence(InsertCols(h1, h2), h2)
  {
    ExcludeIsSubsequence(h2, Elements(h1) - {ItemCol});
  }

  /**
    The merged header: the first table's columns before `item`, the inserted
    columns, the first table's columns after `item`, with the block-listed
    columns removed.
   */
  function CombinedHeader(h1: seq<string>, h2: seq<string>): (r: seq<string>)
    requires ItemCol in h1
    ensures forall c :: c in r ==> c !in DropCols
  {
    SpliceHeader(h1, h2, ItemCol, DropCols)
  }

  /** `c` is copied from a first-table row: any column but `item` and the block-list. */
  predicate FromFirst(c: string, cols1: seq<string>) {
    c in cols1 && c != ItemCol && c !in DropCols
  }

  /** `c` is copied from a second-table row: any inserted column but the block-list. */
  predicate FromSecond(c: string, cols2: seq<string>) {
    c in cols2 && c !in DropCols
  }

  /**
    The merged dictionary built from the columns `cols1` of row `r1` and the
    inserted columns `cols2` of row `r2`; a name in both takes the second
    row's cell, as it is written last.
   */
  function MergedRow(cols1: seq<string>, cols2: seq<string>, r1: Row, r2: Row): Row {
    map c | c in cols1 + cols2 && (FromFirst(c, cols1) || FromSecond(c, cols2)) :: if FromSecond(c, cols2) then Cell(r2, c) else Cell(r1, c)
  }

  function MergedRows(h1: seq<string>, insert: seq<string>, rows1: seq<Row>, rows2: seq<Row>): (r: seq<Row>)
    requires |rows1| == |rows2|
    ensures |r| == |rows1|
    ensures forall k :: 0 <= k < |rows1| ==> r[k] == MergedRow(h1, insert, rows1[k], rows2[k])
  {
    seq(|rows1|, k requires 0 <= k < |rows1| => MergedRow(h1, insert, rows1[k], rows2[k]))
  }

  /**
    What the merger writes, or the error it raises: a row-count mismatch is
    reported before a missing `item` column.
   */
  function MergeTables(t1: Table, t2: Table): MergeResult {
    if |t1.rows| != |t2.rows| then Failed(RowCountMismatch(|t1.rows|, |t2.rows|))
    else if ItemCol !in t1.header then Failed(MissingItemColumn)
    else
      var insert := InsertCols(t1.header, t2.header);
      var header := CombinedHeader(t1.header, t2.header);
      Merged(Table(header, ProjectAll(MergedRows(t1.header, insert, t1.rows, t2.rows), header)))
  }

  // ---------------------------------------------------------------------------
  // The merging procedure
  // ---------------------------------------------------------------------------

  /** Visiting one more first-table column adds its cell unless it is `item` or block-listed. */
  lemma {:induction false} MergedRowFirstStep(cols1: seq<string>, col: string, r1: Row, r2: Row)
    ensures MergedRow(cols1 + [col], [], r1, r2)
         == if col == ItemCol || col in DropCols then MergedRow(cols1, [], r1, r2)
            else MergedRow(cols1, [], r1, r2)[col := Cell(r1, col)]
  {
    var before, after := MergedRow(cols1, [], r1, r2), MergedRow(cols1 + [col], [], r1, r2);
    assert forall c :: FromFirst(c, cols1 + [col]) <==> FromFirst(c, cols1) || (c == col && FromFirst(c, [col]));
    if col == ItemCol || col in DropCols {
      assert after.Keys == before.Keys;
    } else {
      assert after.Keys == before.Keys + {col};
    }
  }

  /** Visiting one more inserted column sets its cell from the second row unless it is block-listed. */
  lemma {:induction false} MergedRowSecondStep(cols1: seq<string>, cols2: seq<string>, col: string, r1: Row, r2: Row)
    ensures MergedRow(cols1, cols2 + [col], r1, r2)
         == if col in DropCols then MergedRow(cols1, cols2, r1, r2)
            else MergedRow(cols1, cols2, r1, r2)[col := Cell(r2, col)]
  {
    var before, after := MergedRow(cols1, cols2, r1, r2), MergedRow(cols1, cols2 + [col], r1, r2);
    var expected := if col in DropCols then before else before[col := Cell(r2, col)];
    forall c ensures FromSecond(c, cols2 + [col]) <==> FromSecond(c, cols2) || (c == col && c !in DropCols) {
      assert c in cols2 + [col] <==> c in cols2 || c == col;
    }
    assert after.Keys == expected.Keys;
    forall c | c in after ensures after[c] == expected[c] {
    }
  }

  /** The first loop of the row merge: the first row's columns. */
  method CopyFirst(h1: seq<string>, r1: Row, r2: Row) returns (merged: Row)
    ensures merged == MergedRow(h1, [], r1, r2)
  {
    merged := map[];
    var j := 0;
    assert MergedRow(h1[..0], [], r1, r2) == map[];
    while j < |h1|
      invariant 0 <= j <= |h1|
      invariant merged == MergedRow(h1[..j], [], r1, r2)
    {
      var col := h1[j];
      assert h1[..j + 1] == h1[..j] + [col];
      MergedRowFirstStep(h1[..j], col, r1, r2);
      if col == ItemCol || col in DropCols {
        j := j + 1;
        continue;
      }
      merged := merged[col := Cell(r1, col)];
      j := j + 1;
    }
    assert h1[..j] == h1;
  }

  /**
    The body of the row loop: the first row's cells for its columns other
    than `item` and the block-list, then the second row's cells for the
    inserted columns other than the block-list.
   */
  method MergeRow(h1: seq<string>, insert: seq<string>, r1: Row, r2: Row) returns (merged: Row)
    ensures merged == MergedRow(h1, insert, r1, r2)
  {
    merged := CopyFirst(h1, r1, r2);
    var j := 0;
    assert insert[..0] == [];
    while j < |insert|
      invariant 0 <= j <= |insert|
      invariant merged == MergedRow(h1, insert[..j], r1, r2)
    {
      var col := insert[j];
      assert insert[..j + 1] == insert[..j] + [col];
      MergedRowSecondStep(h1, insert[..j], col, r1, r2);
      if col in DropCols {
        j := j + 1;
        continue;
      }
      merged := merged[col := Cell(r2, col)];
      j := j + 1;
    }
    assert insert[..j] == insert;
  }

  /**
    `append_columns_replace_item`: the two checks, the inserted columns and
    merged header, the row-by-row merge, and the projection onto the header
    as the rows are written.
   */
  method AppendColumnsReplaceItem(t1: Table, t2: Table) returns (res: MergeResult)
    ensures res == MergeTables(t1, t2)
  {
    if |t1.rows| != |t2.rows| {
      return Failed(RowCountMismatch(|t1.rows|, |t2.rows|));
    }
    if ItemCol !in t1.header {
      return Failed(MissingItemColumn);
    }
    var itemIdx := IndexOf(t1.header, ItemCol);
    var existing := set c | c in t1.header && c != ItemCol;
    assert existing == Elements(t1.header) - {ItemCol};
    var insert := Exclude(t2.header, existing);
    var combined := Exclude(SpliceAt(t1.header, itemIdx, insert), DropCols);
    var mergedRows: seq<Row> := [];
    var k := 0;
    while k < |t1.rows|
      invariant 0 <= k <= |t1.rows|
      invariant mergedRows == MergedRows(t1.header, insert, t1.rows[..k], t2.rows[..k])
    {
      var merged := MergeRow(t1.header, insert, t1.rows[k], t2.rows[k]);
      mergedRows := mergedRows + [merged];
      k := k + 1;
    }
    assert t1.rows[..k] == t1.rows && t2.rows[..k] == t2.rows;
    var outRows := WriteRows(mergedRows, combined);
    return Merged(Table(combined, outRows));
  }

  // ---------------------------------------------------------------------------
  // What the result means
  // ---------------------------------------------------------------------------

  /** The merger fails exactly on a row-count mismatch or a missing `item` column, the mismatch first. */
  lemma {:induction false} MergeFailsExactly(t1: Table, t2: Table)
    ensures MergeTables(t1, t2).Failed? <==> |t1.rows| != |t2.rows| || ItemCol !in t1.header
    ensures |t1.rows| != |t2.rows| ==> MergeTables(t1, t2) == Failed(RowCountMismatch(|t1.rows|, |t2.rows|))
    ensures MergeTables(t1, t2) == Failed(MissingItemColumn) <==> |t1.rows| == |t2.rows| && ItemCol !in t1.header
  {
  }

  /**
    The inserted block sits exactly where `item` was: the merged header is
    the filtered columns before `item`, then the filtered inserted columns,
    then the filtered columns after it.
   */
  lemma {:induction false} HeaderSplice(h1: seq<string>, h2: seq<string>, i: nat)
    requires ItemCol in h1 && i == IndexOf(h1, ItemCol)
    ensures CombinedHeader(h1, h2)
         == Exclude(h1[..i], DropCols) + Exclude(InsertCols(h1, h2), DropCols) + Exclude(h1[i + 1..], DropCols)
  {
    ExcludeSplice(h1, i, InsertCols(h1, h2), DropCols);
  }

  /**
    Every column of either table other than `item` reaches the merged
    header unless it is block-listed, and nothing else does.
   */
  lemma {:induction false} HeaderColumns(h1: seq<string>, h2: seq<string>, c: string)
    requires ItemCol in h1 && c != ItemCol
    ensures c in CombinedHeader(h1, h2) <==> c !in DropCols && (c in h1 || c in h2)
  {
    var i := IndexOf(h1, ItemCol);
    assert h1 == h1[..i] + [h1[i]] + h1[i + 1..];
    assert c in h1 <==> c in h1[..i] || c in h1[i + 1..];
  }

  /**
    The merged table has one row per input row, and each of its cells comes
    from the same row of the table that owns the column: an inserted column
    from the second table, any other from the first; an `item` column that
    is not inserted is written empty.
   */
  lemma {:induction false} CellSources(t1: Table, t2: Table)
    requires |t1.rows| == |t2.rows| && ItemCol in t1.header
    ensures var out := MergeTables(t1, t2).table;
      var insert := InsertCols(t1.header, t2.header);
      && |out.rows| == |t1.rows|
      && forall k, c :: 0 <= k < |out.rows| && c in out.header ==>
           out.rows[k][c] == (if c in insert && c !in DropCols then Cell(t2.rows[k], c)
                              else if c == ItemCol then ""
                              else Cell(t1.rows[k], c))
  {
    var out := MergeTables(t1, t2).table;
    var insert := InsertCols(t1.header, t2.header);
    forall k, c | 0 <= k < |out.rows| && c in out.header
      ensures out.rows[k][c] == (if c in insert && c !in DropCols then Cell(t2.rows[k], c)
                                 else if c == ItemCol then ""
                                 else Cell(t1.rows[k], c))
    {
      if c != ItemCol && !(c in insert && c !in DropCols) {
        HeaderColumns(t1.header, t2.header, c);
        assert c in t1.header;
      }
    }
  }

  /**
    The worked example: merging a table with header `[a, item, d]` and one
    with header `[b, c]`, where `b` and `c` are new names and none is
    block-listed, gives `[a, b, c, d]` (say `[id, seq, amount, status]`).
   */
  lemma {:induction false} SpliceExample(a: string, b: string, c: string, d: string)
    requires a != ItemCol && b != a && b != d && c != a && c != d
    requires a !in DropCols && b !in DropCols && c !in DropCols && d !in DropCols
    ensures CombinedHeader([a, ItemCol, d], [b, c]) == [a, b, c, d]
  {
    SpliceHeaderExample(a, b, c, d, ItemCol, DropCols);
  }

  lemma {:induction false} SpliceHeaderExample<T(!new)>(a: T, b: T, c: T, d: T, item: T, drop: set<T>)
    requires a != item && b != a && b != d && c != a && c != d
    requires a !in drop && b !in drop && c !in drop && d !in drop
    ensures SpliceHeader([a, item, d], [b, c], item, drop) == [a, b, c, d]
  {
    var h1 := [a, item, d];
    var ins := InsertBlock(h1, [b, c], item);
    assert ins == [b, c] by {
      var existing := Elements(h1) - {item};
      assert b !in existing && c !in existing;
      ExcludeNone([b, c], existing);
    }
    assert IndexOf(h1, item) == 1 by {
      assert h1[1..][0] == item;
    }
    assert SpliceAt(h1, 1, ins) == [a, b, c, d] by {
      assert h1[..1] == [a] && h1[2..] == [d];
    }
    ExcludeNone([a, b, c, d], drop);
  }
}
