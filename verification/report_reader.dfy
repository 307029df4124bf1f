/**
 * How `beta_diversity.py` reads one report file (bracken, kreport, kreport2,
 * krona, or the generic `simple` layout) into a sample table: a per-line
 * filter, a rank filter, and a fold of the surviving counts into a
 * `category -> count` map and a running total.
 */
module ReportReader {
  import opened Fields
  import opened Taxonomy
  import opened Abundance

  /** The `--type` choices of the beta-diversity script. */
  datatype InputType = Single | Simple | Bracken | KReport | KReport2 | Krona

  /** The 0-based category and count columns declared with `--cols`. */
  datatype Columns = Columns(category: int, count: int)

  /** The columns a layout reads; `rank` is -1 when the layout has no rank column. */
  datatype Layout = Layout(category: int, count: int, rank: int)

  predicate HasRankColumn(t: InputType) {
    t.Bracken? || t.KReport? || t.KReport2?
  }

  /** Column indices fit Python's indexing of a non-empty row; krona scans from its count column. */
  predicate WellLaid(t: InputType, c: Layout) {
    c.category >= -1 && c.count >= -1 && c.rank >= -1 &&
    (t.Krona? ==> c.count >= 0) &&
    (HasRankColumn(t) ==> c.rank >= 0)
  }

  /** The fixed columns of each report layout; `single` and `simple` use `--cols`. */
  function LayoutOf(t: InputType, user: Columns): (c: Layout)
    requires user.category >= -1 && user.count >= -1
    ensures WellLaid(t, c)
    ensures !t.Single? && !t.Simple? ==> 0 <= c.category && 0 <= c.count < 6
  {
    match t
    case Bracken => Layout(0, 5, 2)
    case KReport => Layout(4, 2, 3)
    case KReport2 => Layout(4, 2, 3)
    case Krona => Layout(1, 0, -1)
    case _ => Layout(user.category, user.count, -1)
  }

  /** The largest of the count, category and rank columns: a line needs more fields than this. */
  function Widest(c: Layout): (w: int)
    ensures w >= c.count && w >= c.category && w >= c.rank
  {
    Max(Max(c.count, c.category), c.rank)
  }

  /**
   * The checks every line of every report layout must pass: more fields than
   * the widest column used, a count field of digits, no leading `#`, and a
   * count above 0.
   */
  predicate Passes(t: InputType, c: Layout, l: Row)
    requires WellLaid(t, c)
  {
    |l| > Widest(c) && IsDigits(At(l, c.count)) && !StartsWith(l[0], "#") && Value(At(l, c.count)) > 0
  }

  function Count(t: InputType, c: Layout, l: Row): nat
    requires WellLaid(t, c) && Passes(t, c, l)
  {
    Value(At(l, c.count))
  }

  function Category(t: InputType, c: Layout, l: Row): string
    requires WellLaid(t, c) && Passes(t, c, l)
  {
    At(l, c.category)
  }

  /**
   * The line does not crash the rank filter: `simple` has no rank column to
   * test a level against, and a rank field must be non-empty to take its
   * first character.
   */
  predicate LineSafe(t: InputType, level: Level, c: Layout, l: Row)
    requires WellLaid(t, c)
  {
    Passes(t, c, l) && level.Only? && !t.Krona? ==>
      !t.Simple? && !t.Single? && 0 <= c.rank < |l| && l[c.rank] != []
  }

  predicate ReportSafe(t: InputType, level: Level, c: Layout, lines: seq<string>)
    requires WellLaid(t, c)
  {
    forall i :: 0 <= i < |lines| ==> LineSafe(t, level, c, Tokens(lines[i]))
  }

  /**
   * The rank filter of the non-krona layouts: bracken takes the rank field
   * equal to the code or starting with it, the kraken reports compare the
   * first character only. Where Python raises instead (no rank column, an
   * empty rank field) the line is taken not to match; LineSafe keeps such
   * lines away from ReadReport.
   */
  predicate RankMatches(t: InputType, level: Level, c: Layout, l: Row)
    requires WellLaid(t, c) && Passes(t, c, l)
  {
    match level
    case All => true
    case Only(r) =>
      0 <= c.rank < |l| &&
      ((t.Bracken? && l[c.rank] == [Code(r)]) || (l[c.rank] != [] && l[c.rank][0] == Code(r)))
  }

  /** The prefix krona taxonomy fields carry at a level: `lvl.lower() + "__"`. */
  function KronaPrefix(level: Level): string {
    match level
    case All => "all__"
    case Only(r) => [LowerCode(r), '_', '_']
  }

  predicate KronaMatch(level: Level, field: string) {
    StartsWith(field, KronaPrefix(level)) || level.All?
  }

  /** The fields `l[lo..hi]` that carry the level's prefix, in order. */
  function KronaCategories(level: Level, l: Row, lo: nat, hi: nat): seq<string>
    requires lo <= hi <= |l|
    decreases hi
  {
    if hi == lo then []
    else KronaCategories(level, l, lo, hi - 1) + (if KronaMatch(level, l[hi - 1]) then [l[hi - 1]] else [])
  }

  /** The same count contributed once to each of `cats`. */
  function Records(cats: seq<string>, n: nat): (es: seq<Record>)
    ensures |es| == |cats|
  {
    seq(|cats|, i requires 0 <= i < |cats| => Record(cats[i], n))
  }

  /** What one line contributes to its sample. */
  function LineRecords(t: InputType, level: Level, c: Layout, l: Row): seq<Record>
    requires !t.Single? && WellLaid(t, c)
  {
    if !Passes(t, c, l) then []
    else if t.Krona? then Records(KronaCategories(level, l, c.count, |l|), Count(t, c, l))
    else if RankMatches(t, level, c, l) then [Record(Category(t, c, l), Count(t, c, l))]
    else []
  }

  /** LineRecords of a line's fields as a value, so that sums over a report need not look inside it. */
  function LineFn(t: InputType, level: Level, c: Layout): string -> seq<Record>
    requires !t.Single? && WellLaid(t, c)
  {
    (line: string) => LineRecords(t, level, c, Tokens(line))
  }

  /** The contributions of `lines`, line after line. */
  function Concat(lines: seq<string>, f: string -> seq<Record>): seq<Record> {
    if lines == [] then [] else Concat(lines[..|lines| - 1], f) + f(lines[|lines| - 1])
  }

  /** Splitting the lines splits their contributions. */
  lemma {:induction false} ConcatAppend(a: seq<string>, b: seq<string>, f: string -> seq<Record>)
    ensures Concat(a + b, f) == Concat(a, f) + Concat(b, f)
  {
    if b == [] {
      assert a + b == a;
    } else {
      var front, last := b[..|b| - 1], b[|b| - 1];
      ConcatAppend(a, front, f);
      assert (a + b)[..|a + b| - 1] == a + front;
      assert (a + b)[|a + b| - 1] == last;
      calc {
        Concat(a + b, f);
        Concat(a + front, f) + f(last);
        Concat(a, f) + Concat(front, f) + f(last);
        Concat(a, f) + (Concat(front, f) + f(last));
      }
    }
  }

  /** The contributions of a whole report, line after line. */
  function Entries(t: InputType, level: Level, c: Layout, lines: seq<string>): seq<Record>
    requires !t.Single? && WellLaid(t, c)
  {
    Concat(lines, LineFn(t, level, c))
  }

  /** The table a report yields: the file's name, the sum and the tally of its contributions. */
  function ReportTable(t: InputType, level: Level, c: Layout, path: string, lines: seq<string>): SampleTable
    requires !t.Single? && WellLaid(t, c)
  {
    var es := Entries(t, level, c, lines);
    SampleTable(path, Sum(es), Tally(es))
  }

  /** Reading one more line appends its contributions. */
  lemma ConcatStep(lines: seq<string>, f: string -> seq<Record>, i: nat)
    requires i < |lines|
    ensures Concat(lines[..i + 1], f) == Concat(lines[..i], f) + f(lines[i])
  {
    assert lines[..i + 1][..i] == lines[..i];
  }

  lemma RecordsSnoc(cats: seq<string>, x: string, n: nat)
    ensures Records(cats + [x], n) == Records(cats, n) + [Record(x, n)]
  {
  }

  /**
   * One pass of the reading loop over a line's fields: the checks that skip
   * the line, then its count added to the running table and total, once per
   * matching field for krona and once for the other layouts.
   */
  method ReadLine(t: InputType, level: Level, c: Layout, l: Row, ghost before: seq<Record>,
                  counts: map<string, nat>, total: nat)
    returns (newCounts: map<string, nat>, newTotal: nat)
    requires !t.Single? && WellLaid(t, c) && LineSafe(t, level, c, l)
    requires counts == Tally(before) && total == Sum(before)
    ensures newCounts == Tally(before + LineRecords(t, level, c, l))
    ensures newTotal == Sum(before + LineRecords(t, level, c, l))
  {
    newCounts, newTotal := counts, total;
    assert before + [] == before;
    if |l| <= Widest(c) {
      return;
    }
    if !IsDigits(At(l, c.count)) || StartsWith(l[0], "#") {
      return;
    }
    var count := Value(At(l, c.count));
    if count <= 0 {
      return;
    }
    assert Passes(t, c, l) && count == Count(t, c, l);
    if t.Krona? {
      newCounts, newTotal := ReadKronaFields(level, l, c.count, count, before, newCounts, newTotal);
    } else {
      var matches := if t.Bracken? then
          level.All? || (c.rank < |l| && (l[c.rank] == [Code(level.rank)] || l[c.rank][0] == Code(level.rank)))
        else
          level.All? || (c.rank < |l| && l[c.rank][0] == Code(level.rank));
      if matches {
        newTotal := newTotal + count;
        newCounts := Add(newCounts, At(l, c.category), count);
        TallySnoc(before, Record(At(l, c.category), count));
      }
    }
  }

  /** The krona inner loop: the count added once per field from `lo` on that carries the level's prefix. */
  method ReadKronaFields(level: Level, l: Row, lo: nat, count: nat, ghost before: seq<Record>,
                         counts: map<string, nat>, total: nat)
    returns (newCounts: map<string, nat>, newTotal: nat)
    requires lo <= |l|
    requires counts == Tally(before) && total == Sum(before)
    ensures newCounts == Tally(before + Records(KronaCategories(level, l, lo, |l|), count))
    ensures newTotal == Sum(before + Records(KronaCategories(level, l, lo, |l|), count))
  {
    newCounts, newTotal := counts, total;
    assert before + Records(KronaCategories(level, l, lo, lo), count) == before;
    for j := lo to |l|
      invariant newCounts == Tally(before + Records(KronaCategories(level, l, lo, j), count))
      invariant newTotal == Sum(before + Records(KronaCategories(level, l, lo, j), count))
    {
      newCounts, newTotal := ReadKronaField(level, l, lo, j, count, before + Records(KronaCategories(level, l, lo, j), count), newCounts, newTotal);
      KronaStep(level, l, lo, j, count, before);
    }
  }

  /** Field `j` of a krona line: the count is added when the field carries the level's prefix. */
  method ReadKronaField(level: Level, l: Row, lo: nat, j: nat, count: nat, ghost es: seq<Record>,
                        counts: map<string, nat>, total: nat)
    returns (newCounts: map<string, nat>, newTotal: nat)
    requires lo <= j < |l|
    requires counts == Tally(es) && total == Sum(es)
    ensures var added := if KronaMatch(level, l[j]) then [Record(l[j], count)] else [];
      newCounts == Tally(es + added) && newTotal == Sum(es + added)
  {
    newCounts, newTotal := counts, total;
    if StartsWith(l[j], KronaPrefix(level)) || level.All? {
      newTotal := newTotal + count;
      newCounts := Add(newCounts, l[j], count);
      TallySnoc(es, Record(l[j], count));
    } else {
      assert es + [] == es;
    }
  }

  /** The contributions of a krona line grow field by field. */
  lemma KronaStep(level: Level, l: Row, lo: nat, j: nat, count: nat, before: seq<Record>)
    requires lo <= j < |l|
    ensures before + Records(KronaCategories(level, l, lo, j + 1), count) ==
      before + Records(KronaCategories(level, l, lo, j), count) +
      (if KronaMatch(level, l[j]) then [Record(l[j], count)] else [])
  {
    var cats := KronaCategories(level, l, lo, j);
    if KronaMatch(level, l[j]) {
      RecordsSnoc(cats, l[j], count);
    } else {
      assert Records(cats, count) + [] == Records(cats, count);
    }
  }

  /**
   * Reads the lines of one report file. Every category's count is the sum of
   * the counts contributed to it, every count is positive, and the total is
   * the sum of the counts.
   */
  method ReadReport(t: InputType, level: Level, c: Layout, path: string, lines: seq<string>)
    returns (table: SampleTable)
    requires !t.Single? && WellLaid(t, c) && ReportSafe(t, level, c, lines)
    ensures table == ReportTable(t, level, c, path, lines)
  {
    var total: nat := 0;
    var counts: map<string, nat> := map[];
    ghost var read := LineFn(t, level, c);
    for i := 0 to |lines|
      invariant counts == Tally(Concat(lines[..i], read))
      invariant total == Sum(Concat(lines[..i], read))
    {
      ConcatStep(lines, read, i);
      counts, total := ReadLine(t, level, c, Tokens(lines[i]), Concat(lines[..i], read), counts, total);
    }
    assert lines[..|lines|] == lines;
    table := SampleTable(path, total, counts);
  }

  /**
   * The table of a report holds exactly the categories of its kept lines,
   * each with the sum of their counts, and its total is the sum of those.
   */
  lemma ReportTableMeaning(t: InputType, level: Level, c: Layout, path: string, lines: seq<string>)
    requires !t.Single? && WellLaid(t, c)
    ensures var table := ReportTable(t, level, c, path, lines);
      table.counts.Keys == Categories(Entries(t, level, c, lines)) &&
      (forall k :: k in table.counts ==> table.counts[k] == SumFor(Entries(t, level, c, lines), k)) &&
      Exact(table)
  {
    EntriesPositive(t, level, c, lines);
    TallyMeaning(Entries(t, level, c, lines));
  }

  /**
   * Unfolds `LineRecords` for one fact the readers rely on: a line
   * contributes positive counts only, since the count check comes first.
   */
  lemma LinePositive(t: InputType, level: Level, c: Layout, l: Row)
    requires !t.Single? && WellLaid(t, c)
    ensures AllPositive(LineRecords(t, level, c, l))
  {
  }

  lemma {:induction false} ConcatPositive(lines: seq<string>, f: string -> seq<Record>)
    requires forall line :: AllPositive(f(line))
    ensures AllPositive(Concat(lines, f))
  {
    if lines != [] {
      ConcatPositive(lines[..|lines| - 1], f);
    }
  }

  /** Every contribution of a report carries a positive count. */
  lemma EntriesPositive(t: InputType, level: Level, c: Layout, lines: seq<string>)
    requires !t.Single? && WellLaid(t, c)
    ensures AllPositive(Entries(t, level, c, lines))
  {
    forall line {
      LinePositive(t, level, c, Tokens(line));
    }
    ConcatPositive(lines, LineFn(t, level, c));
  }

  /** The contributions of two stretches of a report are those of each, one after the other. */
  lemma EntriesAppend(t: InputType, level: Level, c: Layout, a: seq<string>, b: seq<string>)
    requires !t.Single? && WellLaid(t, c)
    ensures Entries(t, level, c, a + b) == Entries(t, level, c, a) + Entries(t, level, c, b)
  {
    ConcatAppend(a, b, LineFn(t, level, c));
  }

  lemma ConcatSingle(line: string, f: string -> seq<Record>)
    ensures Concat([line], f) == f(line)
  {
    assert [line][..0] == [];
  }

  /**
   * A line that fails the checks (too few fields, a count that is not
   * digits, a comment, a zero count) changes nothing, wherever it stands.
   */
  lemma SkippedLineIgnored(t: InputType, level: Level, c: Layout, a: seq<string>, bad: string, b: seq<string>)
    requires !t.Single? && WellLaid(t, c)
    requires !Passes(t, c, Tokens(bad))
    ensures Entries(t, level, c, a + [bad] + b) == Entries(t, level, c, a + b)
  {
    var f := LineFn(t, level, c);
    assert f(bad) == [];
    ConcatSkip(a, bad, b, f);
  }

  /** A line that contributes nothing can be dropped from any stretch of lines. */
  lemma ConcatSkip(a: seq<string>, x: string, b: seq<string>, f: string -> seq<Record>)
    requires f(x) == []
    ensures Concat(a + [x] + b, f) == Concat(a + b, f)
  {
    ConcatAppend(a, [x], f);
    ConcatSingle(x, f);
    ConcatAppend(a + [x], b, f);
    ConcatAppend(a, b, f);
    assert Concat(a + [x], f) == Concat(a, f);
  }

  /** Two neighbouring lines contribute, in order, between the stretches around them. */
  lemma ConcatPair(a: seq<string>, x: string, y: string, b: seq<string>, f: string -> seq<Record>)
    ensures Concat(a + [x, y] + b, f) == Concat(a, f) + f(x) + f(y) + Concat(b, f)
  {
    ConcatAppend(a + [x, y], b, f);
    ConcatAppend(a, [x, y], f);
    assert [x, y][..1] == [x];
    ConcatSingle(x, f);
    assert Concat([x, y], f) == f(x) + f(y);
  }

  /** Swapping two neighbouring lines changes neither the tally nor the sum of the contributions. */
  lemma ConcatSwap(a: seq<string>, x: string, y: string, b: seq<string>, f: string -> seq<Record>)
    ensures Tally(Concat(a + [x, y] + b, f)) == Tally(Concat(a + [y, x] + b, f))
    ensures Sum(Concat(a + [x, y] + b, f)) == Sum(Concat(a + [y, x] + b, f))
  {
    ConcatPair(a, x, y, b, f);
    ConcatPair(a, y, x, b, f);
    TallySwap(Concat(a, f), f(x), f(y), Concat(b, f));
  }

  /** Swapping two neighbouring lines yields the same table. */
  lemma LineOrderIrrelevant(t: InputType, level: Level, c: Layout, path: string, a: seq<string>, x: string, y: string, b: seq<string>)
    requires !t.Single? && WellLaid(t, c)
    ensures ReportTable(t, level, c, path, a + [x, y] + b) == ReportTable(t, level, c, path, a + [y, x] + b)
  {
    ConcatSwap(a, x, y, b, LineFn(t, level, c));
  }

  /** A non-krona line that passes the checks and the rank filter; only these contribute. */
  predicate Kept(t: InputType, level: Level, c: Layout, l: Row)
    requires !t.Single? && !t.Krona? && WellLaid(t, c)
  {
    Passes(t, c, l) && RankMatches(t, level, c, l)
  }

  /**
   * Unfolds `LineRecords` for the non-krona layouts, as a helper for the
   * lemmas below: a line contributes its count to its category when kept,
   * and nothing otherwise.
   */
  lemma NonKronaLine(t: InputType, level: Level, c: Layout, l: Row)
    requires !t.Single? && !t.Krona? && WellLaid(t, c)
    ensures LineRecords(t, level, c, l) ==
      if Kept(t, level, c, l) then [Record(Category(t, c, l), Count(t, c, l))] else []
  {
  }

  /** A category receives a contribution from a stretch of lines exactly when one of its lines gives one. */
  lemma {:induction false} CategoriesOfConcat(lines: seq<string>, f: string -> seq<Record>, k: string)
    ensures k in Categories(Concat(lines, f)) <==> exists i :: 0 <= i < |lines| && k in Categories(f(lines[i]))
  {
    if lines != [] {
      var front, last := lines[..|lines| - 1], lines[|lines| - 1];
      CategoriesOfConcat(front, f, k);
      SumAppend(Concat(front, f), f(last));
      assert Categories(Concat(lines, f)) == Categories(Concat(front, f)) + Categories(f(last));
      if k in Categories(Concat(front, f)) {
        var i :| 0 <= i < |front| && k in Categories(f(front[i]));
        assert lines[i] == front[i];
      }
      if exists i :: 0 <= i < |lines| && k in Categories(f(lines[i])) {
        var i :| 0 <= i < |lines| && k in Categories(f(lines[i]));
        if i < |front| {
          assert front[i] == lines[i];
        } else {
          assert lines[i] == last;
        }
      }
    }
  }

  /** The category a kept line names, and none for a line that is not kept. */
  lemma LineCategories(t: InputType, level: Level, c: Layout, l: Row, k: string)
    requires !t.Single? && !t.Krona? && WellLaid(t, c)
    ensures k in Categories(LineRecords(t, level, c, l)) <==> Kept(t, level, c, l) && Category(t, c, l) == k
  {
    NonKronaLine(t, level, c, l);
    if Kept(t, level, c, l) {
      assert [Record(Category(t, c, l), Count(t, c, l))][..0] == [];
    }
  }

  /** A category is in a non-krona table exactly when some kept line names it. */
  lemma CategoriesFromKeptLines(t: InputType, level: Level, c: Layout, lines: seq<string>, k: string)
    requires !t.Single? && !t.Krona? && WellLaid(t, c)
    ensures k in Categories(Entries(t, level, c, lines)) <==>
      exists i :: 0 <= i < |lines| && Kept(t, level, c, Tokens(lines[i])) && Category(t, c, Tokens(lines[i])) == k
  {
    var f := LineFn(t, level, c);
    CategoriesOfConcat(lines, f, k);
    forall i | 0 <= i < |lines|
      ensures k in Categories(f(lines[i])) <==>
        Kept(t, level, c, Tokens(lines[i])) && Category(t, c, Tokens(lines[i])) == k
    {
      LineCategories(t, level, c, Tokens(lines[i]), k);
    }
  }

  /** What a line gives category `k`: its count when it is kept and names `k`. */
  function KeptShare(t: InputType, level: Level, c: Layout, l: Row, k: string): nat
    requires !t.Single? && !t.Krona? && WellLaid(t, c)
  {
    if Kept(t, level, c, l) && Category(t, c, l) == k then Count(t, c, l) else 0
  }

  /** The sum of the counts of the kept non-krona lines naming category `k`. */
  function KeptSum(t: InputType, level: Level, c: Layout, lines: seq<string>, k: string): nat
    requires !t.Single? && !t.Krona? && WellLaid(t, c)
  {
    if lines == [] then 0
    else KeptSum(t, level, c, lines[..|lines| - 1], k) + KeptShare(t, level, c, Tokens(lines[|lines| - 1]), k)
  }

  lemma LineShare(t: InputType, level: Level, c: Layout, l: Row, k: string)
    requires !t.Single? && !t.Krona? && WellLaid(t, c)
    ensures SumFor(LineRecords(t, level, c, l), k) == KeptShare(t, level, c, l, k)
  {
    NonKronaLine(t, level, c, l);
    if Kept(t, level, c, l) {
      assert [Record(Category(t, c, l), Count(t, c, l))][..0] == [];
    }
  }

  lemma {:induction false} KeptSumIsSumFor(t: InputType, level: Level, c: Layout, lines: seq<string>, k: string)
    requires !t.Single? && !t.Krona? && WellLaid(t, c)
    ensures SumFor(Entries(t, level, c, lines), k) == KeptSum(t, level, c, lines, k)
  {
    if lines != [] {
      var front, line := lines[..|lines| - 1], lines[|lines| - 1];
      var f := LineFn(t, level, c);
      KeptSumIsSumFor(t, level, c, front, k);
      SumForAppend(Concat(front, f), f(line), k);
      LineShare(t, level, c, Tokens(line), k);
    }
  }

  /** In a non-krona table a category's count is the sum of its kept lines' counts. */
  lemma CountsFromKeptLines(t: InputType, level: Level, c: Layout, path: string, lines: seq<string>, k: string)
    requires !t.Single? && !t.Krona? && WellLaid(t, c)
    ensures var table := ReportTable(t, level, c, path, lines);
      (if k in table.counts then table.counts[k] else 0) == KeptSum(t, level, c, lines, k)
  {
    TallyMeaning(Entries(t, level, c, lines));
    KeptSumIsSumFor(t, level, c, lines, k);
  }

  /**
   * With a level other than `all`, a bracken or kraken line contributes
   * exactly when it passes the checks and the first character of its rank
   * field is the level's code.
   */
  lemma RankFilter(t: InputType, r: Rank, c: Layout, l: Row)
    requires HasRankColumn(t) && WellLaid(t, c)
    ensures LineRecords(t, Only(r), c, l) != [] <==>
      Passes(t, c, l) && c.rank < |l| && StartsWith(l[c.rank], [Code(r)])
  {
  }

  /** At level `all` a krona line contributes to every one of its fields from the count column on. */
  lemma {:induction false} KronaAllFields(l: Row, lo: nat, hi: nat)
    requires lo <= hi <= |l|
    ensures KronaCategories(All, l, lo, hi) == l[lo..hi]
    decreases hi
  {
    if hi > lo {
      KronaAllFields(l, lo, hi - 1);
      assert l[lo..hi] == l[lo..hi - 1] + [l[hi - 1]];
    }
  }

  /** A krona line adds its count once per matching field, to the total as to the map. */
  lemma {:induction false} KronaLineWeight(cats: seq<string>, n: nat)
    ensures Sum(Records(cats, n)) == n * |cats|
  {
    if cats != [] {
      var front := cats[..|cats| - 1];
      KronaLineWeight(front, n);
      assert Records(cats, n)[..|cats| - 1] == Records(front, n);
    }
  }
}
