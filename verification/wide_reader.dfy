/**
 * How `beta_diversity.py` reads the `single` layout: one tab-separated table
 * whose header names the samples from the count column on, and whose other
 * lines give a category and one count per sample. A positive count is added
 * to the sample's total but REPLACES the category's entry, so a category
 * listed twice keeps only its last count while the total keeps both.
 */
module WideReader {
  import opened Fields
  import opened Abundance
  import opened ReportReader

  /** How many fields `range(lo, n)` visits. */
  function Span(lo: int, n: nat): nat {
    if lo < n then n - lo else 0
  }

  /**
   * A data line does not crash the reader: its category column exists,
   * every count field is something `int()` accepts, and a field past the
   * header's samples holds no positive count (a positive one would be added
   * to a sample that does not exist).
   */
  predicate RowSafe(c: Columns, width: nat, row: Row) {
    c.count >= -1 &&
    -|row| <= c.category < |row| &&
    (forall i :: c.count <= i < |row| ==> IsIntLiteral(Strip(At(row, i)))) &&
    forall i :: c.count + width <= i < |row| ==> IntValue(Strip(At(row, i))) <= 0
  }

  /** A data line as the reader uses it: its category and `int()` of its count fields, sample by sample. */
  datatype WideRow = WideRow(category: string, cells: seq<int>)

  function ParseRow(c: Columns, width: nat, row: Row): (w: WideRow)
    requires RowSafe(c, width, row)
    ensures |w.cells| == Span(c.count, |row|)
  {
    WideRow(At(row, c.category),
            seq(Span(c.count, |row|), s requires 0 <= s < Span(c.count, |row|) => IntValue(Strip(At(row, c.count + s)))))
  }

  /** The count a row gives sample `s`; a row too short to reach the sample gives 0. */
  function Cell(w: WideRow, s: nat): int {
    if s < |w.cells| then w.cells[s] else 0
  }

  /** `int()` of the line's field for sample `s`: the count the line gives that sample. */
  method ReadField(c: Columns, width: nat, row: Row, s: nat) returns (v: int)
    requires RowSafe(c, width, row) && s < Span(c.count, |row|)
    ensures v == Cell(ParseRow(c, width, row), s)
  {
    v := IntValue(Strip(At(row, c.count + s)));
  }

  /** The sample names: the header's fields from the count column on. */
  function SampleNames(c: Columns, header: Row): seq<string>
    requires c.count >= -1
  {
    seq(Span(c.count, |header|), s requires 0 <= s < Span(c.count, |header|) => At(header, c.count + s))
  }

  /** Every line after the header is safe to read. */
  predicate WideSafe(c: Columns, lines: seq<string>) {
    c.count >= -1 &&
    forall i :: 1 <= i < |lines| ==> RowSafe(c, |SampleNames(c, Tokens(lines[0]))|, Tokens(lines[i]))
  }

  /** The data lines after the header, parsed. */
  function DataRows(c: Columns, lines: seq<string>): (rows: seq<WideRow>)
    requires WideSafe(c, lines) && |lines| > 0
    ensures |rows| == |lines| - 1
  {
    var width := |SampleNames(c, Tokens(lines[0]))|;
    seq(|lines| - 1, i requires 0 <= i < |lines| - 1 => ParseRow(c, width, Tokens(lines[i + 1])))
  }

  /** Row `i` is data line `i + 1`, which is safe to parse. */
  lemma DataRowAt(c: Columns, lines: seq<string>, i: nat)
    requires WideSafe(c, lines) && i < |lines| - 1
    ensures var width := |SampleNames(c, Tokens(lines[0]))|;
      RowSafe(c, width, Tokens(lines[i + 1])) &&
      DataRows(c, lines)[..i + 1] == DataRows(c, lines)[..i] + [ParseRow(c, width, Tokens(lines[i + 1]))]
  {
    var rows := DataRows(c, lines);
    assert rows[..i + 1] == rows[..i] + [rows[i]];
  }

  /** The total of sample `s`: the sum of its positive counts over all rows. */
  function ColumnTotal(rows: seq<WideRow>, s: nat): nat {
    if rows == [] then 0
    else
      var v := Cell(rows[|rows| - 1], s);
      ColumnTotal(rows[..|rows| - 1], s) + (if v > 0 then v as nat else 0)
  }

  /** The counts of sample `s`: each positive count overwrites its row's category. */
  function ColumnCounts(rows: seq<WideRow>, s: nat): map<string, nat> {
    if rows == [] then map[]
    else
      var w := rows[|rows| - 1];
      var m := ColumnCounts(rows[..|rows| - 1], s);
      if Cell(w, s) > 0 then m[w.category := Cell(w, s) as nat] else m
  }

  /** Sample `s` after the rows: its name, its total and its counts. */
  function Column(names: seq<string>, rows: seq<WideRow>, s: nat): SampleTable
    requires s < |names|
  {
    SampleTable(names[s], ColumnTotal(rows, s), ColumnCounts(rows, s))
  }

  /** The samples of a `single` file, one per header field from the count column on. */
  function WideTables(c: Columns, lines: seq<string>): (tables: seq<SampleTable>)
    requires WideSafe(c, lines)
  {
    if lines == [] then []
    else
      var names := SampleNames(c, Tokens(lines[0]));
      var rows := DataRows(c, lines);
      seq(|names|, s requires 0 <= s < |names| => Column(names, rows, s))
  }

  /** Reads the header into empty samples. */
  method ReadHeader(c: Columns, header: Row) returns (tables: seq<SampleTable>)
    requires c.count >= -1
    ensures |tables| == |SampleNames(c, header)|
    ensures forall s :: 0 <= s < |tables| ==> tables[s] == SampleTable(SampleNames(c, header)[s], 0, map[])
  {
    tables := [];
    var i := c.count;
    while i < |header|
      invariant c.count <= i && (i <= |header| || i == c.count)
      invariant |tables| == i - c.count
      invariant forall s :: 0 <= s < |tables| ==> tables[s] == SampleTable(At(header, c.count + s), 0, map[])
      decreases |header| - i
    {
      tables := tables + [SampleTable(At(header, i), 0, map[])];
      i := i + 1;
    }
  }

  /**
   * One data line: every positive count is added to its sample's total and
   * written over the line's category in that sample.
   */
  method ReadRow(c: Columns, names: seq<string>, ghost rows: seq<WideRow>, tables: seq<SampleTable>, row: Row)
    returns (newTables: seq<SampleTable>)
    requires RowSafe(c, |names|, row)
    requires |tables| == |names|
    requires forall s :: 0 <= s < |tables| ==> tables[s] == Column(names, rows, s)
    ensures |newTables| == |names|
    ensures forall s :: 0 <= s < |newTables| ==>
      newTables[s] == Column(names, rows + [ParseRow(c, |names|, row)], s)
  {
    ghost var w := ParseRow(c, |names|, row);
    ghost var after := rows + [w];
    newTables := tables;
    var categ := At(row, c.category);
    // Past the header's samples a line holds no positive count, so those fields change nothing.
    var n := if Span(c.count, |row|) < |names| then Span(c.count, |row|) else |names|;
    for s := 0 to n
      invariant |newTables| == |names|
      invariant forall q :: 0 <= q < s ==> newTables[q] == Column(names, after, q)
      invariant forall q :: s <= q < |newTables| ==> newTables[q] == tables[q]
    {
      var v := ReadField(c, |names|, row, s);
      newTables := ReadCell(names, rows, w, newTables, s, categ, v);
    }
    forall q | n <= q < |names|
      ensures Column(names, after, q) == tables[q]
    {
      ColumnSnoc(names, rows, w, q);
    }
  }

  /** Count `v` of a line for sample `s`: the sample moves on by that line, the others stay. */
  method ReadCell(names: seq<string>, ghost rows: seq<WideRow>, ghost w: WideRow, tables: seq<SampleTable>, s: nat, category: string, v: int)
    returns (newTables: seq<SampleTable>)
    requires s < |names| == |tables|
    requires tables[s] == Column(names, rows, s) && category == w.category && v == Cell(w, s)
    ensures |newTables| == |tables|
    ensures newTables[s] == Column(names, rows + [w], s)
    ensures forall q :: 0 <= q < |tables| && q != s ==> newTables[q] == tables[q]
  {
    ColumnSnoc(names, rows, w, s);
    newTables := tables;
    if v > 0 {
      newTables := tables[s := SampleTable(tables[s].name, tables[s].total + v, tables[s].counts[category := v])];
    }
  }

  /** One more row adds its positive count to the sample's total and writes it over its category. */
  lemma ColumnSnoc(names: seq<string>, rows: seq<WideRow>, w: WideRow, s: nat)
    requires s < |names|
    ensures var before, v := Column(names, rows, s), Cell(w, s);
      Column(names, rows + [w], s) ==
        if v > 0 then SampleTable(before.name, before.total + v, before.counts[w.category := v])
        else before
  {
    assert (rows + [w])[..|rows|] == rows;
  }

  /**
   * Reads a `single` file: the header gives the samples, then every data
   * line adds its positive counts to the totals and writes them over the
   * category entries, sample by sample.
   */
  method ReadWide(c: Columns, lines: seq<string>) returns (tables: seq<SampleTable>)
    requires WideSafe(c, lines)
    ensures tables == WideTables(c, lines)
  {
    if |lines| == 0 {
      return [];
    }
    var names := SampleNames(c, Tokens(lines[0]));
    tables := ReadHeader(c, Tokens(lines[0]));
    ghost var rows := DataRows(c, lines);
    for k := 0 to |lines| - 1
      invariant |tables| == |names|
      invariant forall s :: 0 <= s < |tables| ==> tables[s] == Column(names, rows[..k], s)
    {
      DataRowAt(c, lines, k);
      tables := ReadRow(c, names, rows[..k], tables, Tokens(lines[k + 1]));
    }
    assert rows[..|lines| - 1] == rows;
  }

  /** Every count of a sample is positive and their sum never exceeds the sample's total. */
  lemma {:induction false} ColumnCovered(rows: seq<WideRow>, s: nat)
    ensures Positive(ColumnCounts(rows, s))
    ensures SumValues(ColumnCounts(rows, s)) <= ColumnTotal(rows, s)
  {
    if rows != [] {
      var front, w := rows[..|rows| - 1], rows[|rows| - 1];
      ColumnCovered(front, s);
      if Cell(w, s) > 0 {
        SumValuesSet(ColumnCounts(front, s), w.category, Cell(w, s) as nat);
      }
    }
  }

  /** The row writes category `k` into sample `s`. */
  predicate Writes(w: WideRow, s: nat, k: string) {
    Cell(w, s) > 0 && w.category == k
  }

  /** A category is in sample `s` exactly when some row writes it there. */
  lemma {:induction false} WrittenCategories(rows: seq<WideRow>, s: nat, k: string)
    ensures k in ColumnCounts(rows, s) <==> exists i :: 0 <= i < |rows| && Writes(rows[i], s, k)
  {
    if rows != [] {
      var front, w := rows[..|rows| - 1], rows[|rows| - 1];
      WrittenCategories(front, s, k);
      if Writes(w, s, k) {
        assert Writes(rows[|rows| - 1], s, k);
      } else {
        assert forall i :: 0 <= i < |front| ==> front[i] == rows[i];
      }
    }
  }

  /** The last row that writes a category into sample `s` decides its count there. */
  lemma {:induction false} LastWriteWins(rows: seq<WideRow>, s: nat, k: string, i: nat)
    requires i < |rows| && Writes(rows[i], s, k)
    requires forall j :: i < j < |rows| ==> !Writes(rows[j], s, k)
    ensures k in ColumnCounts(rows, s)
    ensures ColumnCounts(rows, s)[k] == Cell(rows[i], s)
  {
    if i < |rows| - 1 {
      var front := rows[..|rows| - 1];
      assert front[i] == rows[i];
      assert forall j :: i < j < |front| ==> front[j] == rows[j];
      LastWriteWins(front, s, k, i);
    }
  }

  /** Rows of distinct categories lose nothing: the counts then add up to the total. */
  lemma {:induction false} DistinctColumnExact(rows: seq<WideRow>, s: nat)
    requires forall i, j :: 0 <= i < j < |rows| ==> rows[i].category != rows[j].category
    ensures SumValues(ColumnCounts(rows, s)) == ColumnTotal(rows, s)
  {
    if rows != [] {
      var front, w := rows[..|rows| - 1], rows[|rows| - 1];
      DistinctColumnExact(front, s);
      if Cell(w, s) > 0 {
        WrittenCategories(front, s, w.category);
        assert w.category !in ColumnCounts(front, s);
        SumValuesSet(ColumnCounts(front, s), w.category, Cell(w, s) as nat);
      }
    }
  }

  /** Every sample of a `single` file keeps its counts positive and within its total. */
  lemma WideCovered(c: Columns, lines: seq<string>)
    requires WideSafe(c, lines)
    ensures forall s :: 0 <= s < |WideTables(c, lines)| ==> Covered(WideTables(c, lines)[s])
  {
    if lines != [] {
      forall s | 0 <= s < |WideTables(c, lines)|
        ensures Covered(WideTables(c, lines)[s])
      {
        ColumnCovered(DataRows(c, lines), s);
      }
    }
  }

  /**
   * The overwrite at work: two rows for category `x` with counts 3 and 5
   * leave `x` at 5 in the sample while its total is 8.
   */
  lemma RepeatedCategory()
    ensures var rows := [WideRow("x", [3]), WideRow("x", [5])];
      ColumnCounts(rows, 0) == map["x" := 5] && ColumnTotal(rows, 0) == 8
  {
    var rows := [WideRow("x", [3]), WideRow("x", [5])];
    assert rows[..1] == [rows[0]] && rows[..1][..0] == [];
  }
}
