/** A CSV file held in memory: its header and its rows, as `csv.DictReader` yields them. */
module Tables {
  import opened Seqs

  type Row = map<string, string>

  datatype Table = Table(header: seq<string>, rows: seq<Row>)

  /** `row.get(col, "")` */
  function Cell(row: Row, col: string): string {
    if col in row then row[col] else ""
  }

  /** `{k: row.get(k, "") for k in cols}`: the row that `csv.DictWriter` writes under header `cols`. */
  function Project(row: Row, cols: seq<string>): (r: Row)
    ensures r.Keys == Elements(cols)
    ensures forall c :: c in r ==> r[c] == Cell(row, c)
  {
    map c | c in cols :: Cell(row, c)
  }

  /** Every row projected onto `cols`, in the original order. */
  function ProjectAll(rows: seq<Row>, cols: seq<string>): (r: seq<Row>)
    ensures |r| == |rows|
    ensures forall i :: 0 <= i < |rows| ==> r[i] == Project(rows[i], cols)
  {
    seq(|rows|, i requires 0 <= i < |rows| => Project(rows[i], cols))
  }

  /**
    The writing loop `for row in rows: writer.writerow({k: row.get(k, "") for k in cols})`:
    each row, in order, cut down to `cols`.
   */
  method WriteRows(rows: seq<Row>, cols: seq<string>) returns (outRows: seq<Row>)
    ensures outRows == ProjectAll(rows, cols)
  {
    outRows := [];
    var k := 0;
    while k < |rows|
      invariant 0 <= k <= |rows|
      invariant outRows == ProjectAll(rows[..k], cols)
    {
      assert rows[..k + 1] == rows[..k] + [rows[k]];
      outRows := outRows + [Project(rows[k], cols)];
      k := k + 1;
    }
    assert rows[..k] == rows;
  }
}
