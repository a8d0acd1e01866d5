/**
  * An append-only CSV destination. The logger never reads its files back; it only
  * asks whether the path exists (to decide whether to write the header) and
  * appends. A destination is therefore modelled as a `present` flag (the answer
  * `Path.exists()` gives) and the lines written so far: one header line, then
  * data rows.
  */
module CsvLog {
  datatype Line<R> = Header | Data(row: R)

  datatype Dest<R> = Dest(present: bool, lines: seq<Line<R>>)

  /**
    * A file this logger produced: absent and empty, or present with the header
    * as its first line and no other header after it.
    */
  ghost predicate WellFormed<R>(d: Dest<R>) {
    if d.present then
      |d.lines| > 0 && d.lines[0].Header? && HeaderCount(d.lines) == 1
    else
      |d.lines| == 0
  }

  /** The data rows of a file, in the order they were written. */
  ghost function Rows<R>(lines: seq<Line<R>>): seq<R> {
    if |lines| == 0 then []
    else (if lines[0].Data? then [lines[0].row] else []) + Rows(lines[1..])
  }

  /** How many header lines a file holds. */
  ghost function HeaderCount<R>(lines: seq<Line<R>>): nat {
    if |lines| == 0 then 0
    else (if lines[0].Header? then 1 else 0) + HeaderCount(lines[1..])
  }

  /** The lines `df.to_csv(..., header=False)` writes for `rows`. */
  function DataLines<R>(rows: seq<R>): (ls: seq<Line<R>>)
    ensures |ls| == |rows|
    ensures forall i :: 0 <= i < |ls| ==> ls[i].Data?
  {
    if |rows| == 0 then [] else [Data(rows[0])] + DataLines(rows[1..])
  }

  lemma {:induction false} RowsConcat<R>(a: seq<Line<R>>, b: seq<Line<R>>)
    ensures Rows(a + b) == Rows(a) + Rows(b)
    ensures HeaderCount(a + b) == HeaderCount(a) + HeaderCount(b)
  {
    if |a| > 0 {
      assert (a + b)[1..] == a[1..] + b;
      RowsConcat(a[1..], b);
    } else {
      assert a + b == b;
    }
  }

  lemma {:induction false} RowsOfDataLines<R>(rows: seq<R>)
    ensures Rows(DataLines(rows)) == rows
    ensures HeaderCount(DataLines(rows)) == 0
  {
    if |rows| > 0 {
      var first: seq<Line<R>> := [Data(rows[0])];
      assert DataLines(rows) == first + DataLines(rows[1..]);
      RowsConcat(first, DataLines(rows[1..]));
      assert first[1..] == [];
      RowsOfDataLines(rows[1..]);
      assert rows == [rows[0]] + rows[1..];
    }
  }

  /**
    * Appending `rows`: nothing happens for an empty batch; otherwise the header
    * is written first if and only if the file does not exist yet, then the rows.
    */
  function Append<R>(d: Dest<R>, rows: seq<R>): (r: Dest<R>)
    ensures |rows| == 0 ==> r == d
    ensures |rows| > 0 ==> r.present
    ensures Rows(r.lines) == Rows(d.lines) + rows
    ensures HeaderCount(r.lines) == HeaderCount(d.lines) + (if !d.present && |rows| > 0 then 1 else 0)
    ensures WellFormed(d) ==> WellFormed(r)
  {
    if |rows| == 0 then
      assert rows == [];
      d
    else
      var head: seq<Line<R>> := if d.present then [] else [Header];
      RowsConcat(d.lines, head);
      RowsConcat(d.lines + head, DataLines(rows));
      RowsOfDataLines(rows);
      assert Rows(head) == [] && HeaderCount(head) == (if d.present then 0 else 1) by {
        if !d.present { assert head[1..] == []; }
      }
      Dest(true, d.lines + head + DataLines(rows))
  }

  /** In a file of this logger every line after the first is a data row. */
  lemma {:induction false} OnlyDataAfterHeader<R>(d: Dest<R>)
    requires WellFormed(d)
    ensures forall i :: 1 <= i < |d.lines| ==> d.lines[i].Data?
    ensures d.present ==> Rows(d.lines) == Rows(d.lines[1..])
  {
    if d.present {
      assert d.lines == [d.lines[0]] + d.lines[1..];
      RowsConcat([d.lines[0]], d.lines[1..]);
      assert [d.lines[0]][1..] == [];
      NoHeaderAmong(d.lines[1..]);
      forall i | 1 <= i < |d.lines| ensures d.lines[i].Data? {
        assert d.lines[i] == d.lines[1..][i - 1];
      }
    }
  }

  /** A run of lines without a header holds only data rows. */
  lemma {:induction false} NoHeaderAmong<R>(lines: seq<Line<R>>)
    requires HeaderCount(lines) == 0
    ensures forall i :: 0 <= i < |lines| ==> lines[i].Data?
  {
    if |lines| > 0 {
      NoHeaderAmong(lines[1..]);
      forall i | 1 <= i < |lines| ensures lines[i].Data? {
        assert lines[i] == lines[1..][i - 1];
      }
    }
  }

  /** A sequence of appends accumulates every batch, in order, under one header. */
  lemma {:induction false} AppendTwice<R>(d: Dest<R>, a: seq<R>, b: seq<R>)
    requires WellFormed(d) && !d.present
    requires |a| > 0
    ensures var r := Append(Append(d, a), b);
      HeaderCount(r.lines) == 1 && Rows(r.lines) == a + b
  {
    assert Rows(d.lines) == [];
  }
}
