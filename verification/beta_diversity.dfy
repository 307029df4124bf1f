/**
 * The beta-diversity script end to end, below its argument parser and file
 * system: the `--cols` option, the rejections it makes before and after
 * reading, the reading of every input into samples and the Bray-Curtis
 * matrix over them.
 */
module BetaDiversity {
  import opened Fields
  import opened Taxonomy
  import opened Abundance
  import opened ReportReader
  import opened WideReader
  import opened BrayCurtis

  /** Why a run stops without a matrix. */
  datatype Failure =
    | SingleNeedsOneFile       // `--type single` with more than one input
    | ColsNoComma              // `--cols` without a comma
    | ColsNotPair              // `--cols` with more than one comma: the unpacking raises
    | ColNotInteger(part: string)
    | NoSamples
    | NoData                   // every sample has a total of 0

  datatype Result<T> = Success(value: T) | Failure(error: Failure)

  /** An input file: its path, which names its sample, and its lines. */
  datatype File = File(path: string, lines: seq<string>)

  /** `--cols a,b`: 1-based category and count columns, turned 0-based. */
  function ParseCols(cols: string): (r: Result<Columns>)
    ensures r.Success? ==> r.value.category >= -1 && r.value.count >= -1
    ensures r == Failure(ColsNoComma) <==> ',' !in cols
  {
    if ',' !in cols then Failure(ColsNoComma)
    else
      var parts := Split(cols, ',');
      if |parts| != 2 then Failure(ColsNotPair)
      else if !IsDigits(parts[0]) then Failure(ColNotInteger(parts[0]))
      else if !IsDigits(parts[1]) then Failure(ColNotInteger(parts[1]))
      else Success(Columns(Value(parts[0]) - 1, Value(parts[1]) - 1))
  }

  /** Writing two columns out as `--cols` expects and parsing them gives them back. */
  lemma ParseColsRoundTrip(category: nat, count: nat)
    ensures ParseCols(Decimal(category + 1) + "," + Decimal(count + 1)) ==
      Success(Columns(category, count))
  {
    var a, b := Decimal(category + 1), Decimal(count + 1);
    AllDigitsMeaning(a);
    AllDigitsMeaning(b);
    assert ',' !in a && ',' !in b;
    SplitPair(a, b, ',');
    assert a + "," + b == a + [','] + b;
    ValueOfDecimal(category + 1);
    ValueOfDecimal(count + 1);
  }

  /** `--cols` with a comma but a part that is not a non-negative integer is refused with that part. */
  lemma ParseColsRejectsPart(a: string, b: string)
    requires ',' !in a && ',' !in b
    requires !IsDigits(a) || !IsDigits(b)
    ensures ParseCols(a + [','] + b) == Failure(ColNotInteger(if !IsDigits(a) then a else b))
  {
    SplitPair(a, b, ',');
  }

  /** `--cols` with a comma at `k` and a run of digits on either side of it. */
  predicate DigitsAround(cols: string, k: int) {
    0 <= k < |cols| && cols[k] == ',' && IsDigits(cols[..k]) && IsDigits(cols[k + 1..])
  }

  /** Two runs of digits around one comma are accepted, leading zeros included, and name those columns. */
  lemma ParseColsAccepts(a: string, b: string)
    requires IsDigits(a) && IsDigits(b)
    ensures ParseCols(a + [','] + b) == Success(Columns(Value(a) - 1, Value(b) - 1))
  {
    DigitsNoComma(a);
    DigitsNoComma(b);
    var cols := a + [','] + b;
    assert cols[|a|] == ',';
    SplitPair(a, b, ',');
    assert Split(cols, ',') == [a, b];
  }

  /**
   * `--cols` is accepted exactly when it is two runs of digits around one
   * comma, and then it names those columns, 0-based.
   */
  lemma ParseColsMeaning(cols: string)
    ensures ParseCols(cols).Success? <==> exists k :: DigitsAround(cols, k)
    ensures forall k :: DigitsAround(cols, k) ==>
      ParseCols(cols) == Success(Columns(Value(cols[..k]) - 1, Value(cols[k + 1..]) - 1))
  {
    forall k | DigitsAround(cols, k)
      ensures ParseCols(cols) == Success(Columns(Value(cols[..k]) - 1, Value(cols[k + 1..]) - 1))
    {
      assert cols == cols[..k] + [','] + cols[k + 1..];
      ParseColsAccepts(cols[..k], cols[k + 1..]);
    }
    if ParseCols(cols).Success? {
      var k := IndexOf(cols, ',');
      var rest := cols[k + 1..];
      SplitMeaning(rest, ',');
      assert Split(cols, ',') == [cols[..k]] + Split(rest, ',');
      assert Split(rest, ',') == [rest];
      assert DigitsAround(cols, k);
    }
  }

  /** `--cols` with two commas or more is refused, and only then with that reason: it does not unpack into two columns. */
  lemma ParseColsManyCommas(cols: string)
    ensures ParseCols(cols) == Failure(ColsNotPair) <==>
      exists i, j :: 0 <= i < j < |cols| && cols[i] == ',' && cols[j] == ','
  {
    if ',' in cols {
      var k := IndexOf(cols, ',');
      var rest := cols[k + 1..];
      SplitMeaning(rest, ',');
      assert Split(cols, ',') == [cols[..k]] + Split(rest, ',');
      if ',' in rest {
        var j :| 0 <= j < |rest| && rest[j] == ',';
        assert cols[k + 1 + j] == ',';
      }
      if exists i, j :: 0 <= i < j < |cols| && cols[i] == ',' && cols[j] == ',' {
        var i, j :| 0 <= i < j < |cols| && cols[i] == ',' && cols[j] == ',';
        assert rest[j - k - 1] == ',';
      }
    }
  }

  /** The columns every input type reads from: `--cols` for single and simple, fixed ones otherwise. */
  function UserColumns(t: InputType, cols: string): Result<Columns> {
    if t.Single? || t.Simple? then ParseCols(cols) else Success(Columns(-1, -1))
  }

  /** A report file does not crash its reader. */
  predicate FileSafe(t: InputType, level: Level, c: Layout, f: File)
    requires WellLaid(t, c)
  {
    ReportSafe(t, level, c, f.lines)
  }

  /** The sample a report file yields, named by its path, as a value so that lists of samples need not look inside it. */
  function FileReader(t: InputType, level: Level, c: Layout): File -> SampleTable
    requires !t.Single? && WellLaid(t, c)
  {
    (f: File) => ReportTable(t, level, c, f.path, f.lines)
  }

  /** No input crashes the reading step once the columns are known. */
  predicate InputsSafe(t: InputType, level: Level, c: Columns, files: seq<File>)
    requires c.category >= -1 && c.count >= -1
  {
    if t.Single? then |files| > 0 ==> WideSafe(c, files[0].lines)
    else forall i :: 0 <= i < |files| ==> FileSafe(t, level, LayoutOf(t, c), files[i])
  }

  /**
   * A run does not crash: whenever the script gets as far as reading (it is
   * not a `single` run with several files, and `--cols` parsed), the inputs
   * are safe to read.
   */
  predicate Safe(t: InputType, cols: string, level: Level, files: seq<File>) {
    var c := UserColumns(t, cols);
    !(t.Single? && |files| > 1) && c.Success? && c.value.category >= -1 && c.value.count >= -1 ==>
      InputsSafe(t, level, c.value, files)
  }

  /** One sample per file, in the order of the files. */
  function ReadEach(files: seq<File>, read: File -> SampleTable): (samples: seq<SampleTable>)
    ensures |samples| == |files|
  {
    if files == [] then [] else ReadEach(files[..|files| - 1], read) + [read(files[|files| - 1])]
  }

  /** Reading one more file appends its sample. */
  lemma ReadEachSnoc(files: seq<File>, read: File -> SampleTable, f: nat)
    requires f < |files|
    ensures ReadEach(files[..f + 1], read) == ReadEach(files[..f], read) + [read(files[f])]
  {
    assert files[..f + 1][..f] == files[..f];
  }

  /** Sample `i` is what file `i` reads to. */
  lemma {:induction false} ReadEachAt(files: seq<File>, read: File -> SampleTable, i: nat)
    requires i < |files|
    ensures ReadEach(files, read)[i] == read(files[i])
  {
    if i < |files| - 1 {
      ReadEachAt(files[..|files| - 1], read, i);
    }
  }

  /** The samples of the inputs: the columns of the one `single` table, or one per report file. */
  function Samples(t: InputType, level: Level, c: Columns, files: seq<File>): seq<SampleTable>
    requires c.category >= -1 && c.count >= -1 && InputsSafe(t, level, c, files) && |files| > 0
  {
    if t.Single? then WideTables(c, files[0].lines)
    else ReadEach(files, FileReader(t, level, LayoutOf(t, c)))
  }

  /** What the script computes its matrix over, or the reason it stops. */
  function Load(t: InputType, cols: string, level: Level, files: seq<File>): Result<seq<SampleTable>>
    requires |files| > 0 && Safe(t, cols, level, files)
  {
    if t.Single? && |files| > 1 then Failure(SingleNeedsOneFile)
    else
      match UserColumns(t, cols)
      case Failure(e) => Failure(e)
      case Success(c) =>
        Verdict(Samples(t, level, c, files))
  }

  /** The two checks after reading: there is a sample, and some sample has data. */
  function Verdict(samples: seq<SampleTable>): (r: Result<seq<SampleTable>>)
    ensures r.Success? <==> |samples| > 0 && exists i :: 0 <= i < |samples| && samples[i].total > 0
    ensures r.Success? ==> r.value == samples
    ensures r.Failure? ==> r.error == (if |samples| == 0 then NoSamples else NoData)
  {
    if |samples| == 0 then Failure(NoSamples)
    else if forall i :: 0 <= i < |samples| ==> samples[i].total == 0 then Failure(NoData)
    else Success(samples)
  }

  /** Reads one report file into its sample. */
  method ReadFile(t: InputType, level: Level, c: Layout, f: File) returns (table: SampleTable)
    requires !t.Single? && WellLaid(t, c) && FileSafe(t, level, c, f)
    ensures table == FileReader(t, level, c)(f)
  {
    table := ReadReport(t, level, c, f.path, f.lines);
  }

  /** Reads every report file into its sample, in order. */
  method ReadReports(t: InputType, level: Level, c: Columns, files: seq<File>) returns (samples: seq<SampleTable>)
    requires !t.Single? && c.category >= -1 && c.count >= -1 && InputsSafe(t, level, c, files) && |files| > 0
    ensures samples == Samples(t, level, c, files)
  {
    var layout := LayoutOf(t, c);
    ghost var read := FileReader(t, level, layout);
    samples := [];
    for f := 0 to |files|
      invariant samples == ReadEach(files[..f], read)
    {
      var table := ReadFile(t, level, layout, files[f]);
      ReadEachSnoc(files, read, f);
      samples := samples + [table];
    }
    assert files[..|files|] == files;
  }

  /** Reads the inputs into samples as their type says. */
  method ReadSamples(t: InputType, level: Level, c: Columns, files: seq<File>) returns (samples: seq<SampleTable>)
    requires c.category >= -1 && c.count >= -1 && InputsSafe(t, level, c, files) && |files| > 0
    ensures samples == Samples(t, level, c, files)
  {
    if t.Single? {
      samples := ReadWide(c, files[0].lines);
    } else {
      samples := ReadReports(t, level, c, files);
    }
  }

  /**
   * A run: the rejections in the order the script makes them, then the
   * samples, then the matrix of their dissimilarities.
   */
  method Run(t: InputType, cols: string, level: Level, files: seq<File>)
    returns (result: Result<seq<SampleTable>>, bc: array2<real>)
    requires |files| > 0 && Safe(t, cols, level, files)
    ensures result == Load(t, cols, level, files)
    ensures result.Success? ==> IsMatrix(bc, result.value)
  {
    bc := new real[0, 0];
    if t.Single? && |files| > 1 {
      return Failure(SingleNeedsOneFile), bc;
    }
    var c := UserColumns(t, cols);
    if c.Failure? {
      return Failure(c.error), bc;
    }
    var samples := ReadSamples(t, level, c.value, files);
    result := Verdict(samples);
    if result.Success? {
      bc := BrayCurtisMatrix(samples);
    }
  }

  /** `single` takes exactly one file. */
  lemma SingleRejectsMoreFiles(cols: string, level: Level, files: seq<File>)
    requires |files| > 1
    ensures Safe(Single, cols, level, files)
    ensures Load(Single, cols, level, files) == Failure(SingleNeedsOneFile)
  {
  }

  /** A single or simple run without a comma in `--cols` stops there, and only then with that reason. */
  lemma ColsNeedComma(t: InputType, cols: string, level: Level, files: seq<File>)
    requires |files| > 0 && Safe(t, cols, level, files)
    requires (t.Single? && |files| == 1) || t.Simple?
    ensures ',' !in cols <==> Load(t, cols, level, files) == Failure(ColsNoComma)
  {
  }

  /** A run that reaches the matrix has at least one sample and one with data. */
  lemma LoadedHasData(t: InputType, cols: string, level: Level, files: seq<File>)
    requires |files| > 0 && Safe(t, cols, level, files)
    requires Load(t, cols, level, files).Success?
    ensures var samples := Load(t, cols, level, files).value;
      |samples| > 0 && exists i :: 0 <= i < |samples| && samples[i].total > 0
  {
  }

  /** Report inputs never give the `NoSamples` rejection: there is one sample per file. */
  lemma ReportsHaveSamples(t: InputType, cols: string, level: Level, files: seq<File>)
    requires |files| > 0 && Safe(t, cols, level, files) && !t.Single?
    ensures Load(t, cols, level, files) != Failure(NoSamples)
  {
  }

  /** Every sample that reaches the matrix keeps its counts positive and within its total. */
  lemma SamplesCovered(t: InputType, cols: string, level: Level, files: seq<File>)
    requires |files| > 0 && Safe(t, cols, level, files)
    requires Load(t, cols, level, files).Success?
    ensures forall s :: s in Load(t, cols, level, files).value ==> Covered(s)
  {
    var c := UserColumns(t, cols).value;
    if t.Single? {
      WideCovered(c, files[0].lines);
    } else {
      var layout := LayoutOf(t, c);
      forall i | 0 <= i < |files|
        ensures Covered(ReadEach(files, FileReader(t, level, layout))[i])
      {
        ReadEachAt(files, FileReader(t, level, layout), i);
        assert FileSafe(t, level, layout, files[i]);
        EntriesPositive(t, level, layout, files[i].lines);
        TallyMeaning(Entries(t, level, layout, files[i].lines));
      }
    }
  }

  /** Every cell of a matrix the script prints lies in [0, 1]. */
  lemma MatrixInRange(t: InputType, cols: string, level: Level, files: seq<File>)
    requires |files| > 0 && Safe(t, cols, level, files)
    requires Load(t, cols, level, files).Success?
    ensures var samples := Load(t, cols, level, files).value;
      forall p, q :: 0 <= p < |samples| && 0 <= q < |samples| ==>
        0.0 <= Dissimilarity(samples[p], samples[q]) <= 1.0
  {
    var samples := Load(t, cols, level, files).value;
    SamplesCovered(t, cols, level, files);
    forall p, q | 0 <= p < |samples| && 0 <= q < |samples|
      ensures 0.0 <= Dissimilarity(samples[p], samples[q]) <= 1.0
    {
      DissimilarityRange(samples[p], samples[q]);
    }
  }
}
