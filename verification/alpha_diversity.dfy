/**
 * The alpha-diversity script: it reads one report, keeps the positive
 * counts of the lines that pass its filter (the first line is always taken
 * for a header), and from the counts `n_i` computes the total `N`, the
 * shares `p_i = n_i / N` and Simpson's `D = sum n_i (n_i - 1) / (N (N - 1))`,
 * then prints the requested index: Berger-Parker's `max p_i`, Simpson's
 * `1 - D` or its reciprocal `1 / D`.
 */
module AlphaDiversity {
  import opened Fields
  import opened Taxonomy
  import opened Abundance

  /** The report layouts the script reads. */
  datatype ReportType = Bracken | KReport | KReport2 | Krona

  /** The count, taxonomy and rank columns of a layout; -1 when it has no rank column. */
  datatype Layout = Layout(count: nat, taxonomy: nat, rank: int)

  function LayoutOf(t: ReportType): (c: Layout)
    ensures -1 <= c.rank && (c.rank == -1 <==> t.Krona?)
  {
    match t
    case Bracken => Layout(5, 0, 2)
    case KReport => Layout(2, 4, 3)
    case KReport2 => Layout(2, 4, 3)
    case Krona => Layout(0, 1, -1)
  }

  /** The largest of the count, taxonomy and rank columns, a missing rank column counting as 0: a line needs more fields than this. */
  function Widest(c: Layout): (w: nat)
    ensures c.count <= w && c.taxonomy <= w && c.rank <= w
  {
    var m := if c.count < c.taxonomy then c.taxonomy else c.count;
    var r: nat := if c.rank != -1 && c.rank >= 0 then c.rank else 0;
    if m < r then r else m
  }

  /** The level filter: every line at `all` and in krona files, else a rank field starting with the level's code. */
  predicate RankMatches(c: Layout, level: Level, l: Row)
    requires -1 <= c.rank && |l| > Widest(c)
  {
    level.All? || c.rank == -1 || StartsWith(l[c.rank], [Code(level.rank)])
  }

  /** A line yields a count: wide enough, a digit count field, no comment, the level matches and the count is positive. */
  predicate Kept(t: ReportType, level: Level, l: Row) {
    var c := LayoutOf(t);
    |l| > Widest(c) &&
    IsDigits(Strip(l[c.count])) &&
    !StartsWith(l[0], "#") &&
    RankMatches(c, level, l) &&
    Value(Strip(l[c.count])) > 0
  }

  /** The count a kept line yields. */
  function Count(t: ReportType, level: Level, l: Row): nat
    requires Kept(t, level, l)
  {
    Value(Strip(l[LayoutOf(t).count]))
  }

  /** What one line adds to the list of counts: nothing, or its positive count. */
  function LineCounts(t: ReportType, level: Level, line: string): (n: seq<nat>)
    ensures |n| <= 1 && forall i :: 0 <= i < |n| ==> n[i] > 0
  {
    var l := Tokens(line);
    if Kept(t, level, l) then [Count(t, level, l)] else []
  }

  /** LineCounts as a value, so that lists of counts need not look inside it. */
  function Counter(t: ReportType, level: Level): string -> seq<nat> {
    (line: string) => LineCounts(t, level, line)
  }

  /** The counts of `body`, line after line. */
  function Collect(body: seq<string>, f: string -> seq<nat>): seq<nat> {
    if body == [] then [] else Collect(body[..|body| - 1], f) + f(body[|body| - 1])
  }

  /** The counts of a report: its first line is read as a header and never counted. */
  function Abundances(t: ReportType, level: Level, lines: seq<string>): seq<nat> {
    if lines == [] then [] else Collect(lines[1..], Counter(t, level))
  }

  /** One line of the reading loop; every `continue` of the script is a `return` that adds nothing. */
  method ReadLine(t: ReportType, level: Level, line: string, n: seq<nat>) returns (n': seq<nat>)
    ensures n' == n + LineCounts(t, level, line)
  {
    n' := n;
    var parts := Tokens(line);
    var c := LayoutOf(t);
    if |parts| <= Widest(c) {
      return;
    }
    var field := Strip(parts[c.count]);
    if !IsDigits(field) || StartsWith(parts[0], "#") {
      return;
    }
    var count := Value(field);
    if level.Only? && c.rank != -1 && !StartsWith(parts[c.rank], [Code(level.rank)]) {
      return;
    }
    if count > 0 {
      n' := n + [count];
    }
  }

  /** Reads a report: skips its first line, then collects the count of every kept line. */
  method ReadAbundances(t: ReportType, level: Level, lines: seq<string>) returns (n: seq<nat>)
    ensures n == Abundances(t, level, lines)
  {
    n := [];
    if |lines| == 0 {
      return;
    }
    for i := 1 to |lines|
      invariant n == Collect(lines[1..i], Counter(t, level))
    {
      CollectSnoc(lines, i, Counter(t, level));
      n := ReadLine(t, level, lines[i], n);
    }
    assert lines[1..|lines|] == lines[1..];
  }

  /** Reading one more line appends what it adds. */
  lemma CollectSnoc(lines: seq<string>, i: nat, f: string -> seq<nat>)
    requires 1 <= i < |lines|
    ensures Collect(lines[1..i + 1], f) == Collect(lines[1..i], f) + f(lines[i])
  {
    assert lines[1..i + 1][..i - 1] == lines[1..i];
  }

  /** Splitting the lines splits their counts. */
  lemma {:induction false} CollectAppend(a: seq<string>, b: seq<string>, f: string -> seq<nat>)
    ensures Collect(a + b, f) == Collect(a, f) + Collect(b, f)
  {
    if b == [] {
      assert a + b == a;
    } else {
      var front, last := b[..|b| - 1], b[|b| - 1];
      CollectAppend(a, front, f);
      assert (a + b)[..|a + b| - 1] == a + front;
      assert (a + b)[|a + b| - 1] == last;
      calc {
        Collect(a + b, f);
        Collect(a + front, f) + f(last);
        Collect(a, f) + Collect(front, f) + f(last);
        Collect(a, f) + (Collect(front, f) + f(last));
      }
    }
  }

  /** A line the filter drops adds nothing; a kept line adds exactly its count. */
  lemma CollectOne(t: ReportType, level: Level, line: string)
    ensures Kept(t, level, Tokens(line)) ==> Collect([line], Counter(t, level)) == [Count(t, level, Tokens(line))]
    ensures !Kept(t, level, Tokens(line)) ==> Collect([line], Counter(t, level)) == []
  {
    assert [line][..0] == [];
  }

  /** Every count of a report is positive. */
  lemma {:induction false} CollectPositive(t: ReportType, level: Level, body: seq<string>)
    ensures forall i :: 0 <= i < |Collect(body, Counter(t, level))| ==> Collect(body, Counter(t, level))[i] > 0
  {
    if body != [] {
      CollectPositive(t, level, body[..|body| - 1]);
      var _ := LineCounts(t, level, body[|body| - 1]);
    }
  }

  /** The report's counts, one per kept line after the first, each positive. */
  lemma AbundancesPositive(t: ReportType, level: Level, lines: seq<string>)
    ensures forall i :: 0 <= i < |Abundances(t, level, lines)| ==> Abundances(t, level, lines)[i] > 0
  {
    if lines != [] {
      CollectPositive(t, level, lines[1..]);
    }
  }

  /** The first line is never counted, whatever it holds. */
  lemma HeaderIgnored(t: ReportType, level: Level, h1: string, h2: string, body: seq<string>)
    ensures Abundances(t, level, [h1] + body) == Abundances(t, level, [h2] + body)
  {
    assert ([h1] + body)[1..] == body == ([h2] + body)[1..];
  }

  /**
   * Unfolds `Kept`, spelling out what the filter lets through: a kept line
   * is wide enough, its count is positive digits and it is no comment; at a
   * level other than `all`, a non-krona line's rank field starts with the
   * level's code.
   */
  lemma KeptMeaning(t: ReportType, level: Level, l: Row)
    requires Kept(t, level, l)
    ensures |l| > Widest(LayoutOf(t)) && !StartsWith(l[0], "#")
    ensures Count(t, level, l) > 0
    ensures level.Only? && !t.Krona? ==>
      |l[LayoutOf(t).rank]| > 0 && l[LayoutOf(t).rank][0] == Code(level.rank)
  {
  }

  /** Unfolds `Kept` for krona: the level changes nothing, as there is no rank column to filter on. */
  lemma KronaIgnoresLevel(level: Level, l: Row)
    ensures Kept(Krona, level, l) <==> Kept(Krona, All, l)
  {
  }

  /** `sum(n)`: `N`, the number of individuals. */
  function Total(n: seq<nat>): nat {
    if n == [] then 0 else Total(n[..|n| - 1]) + n[|n| - 1]
  }

  /** The ordered pairs of distinct individuals among `x`: `x (x - 1)`. */
  function Pairs(x: nat): nat {
    if x == 0 then 0 else x * (x - 1)
  }

  /** `sum n_i (n_i - 1)`. */
  function PairSum(n: seq<nat>): nat {
    if n == [] then 0 else PairSum(n[..|n| - 1]) + Pairs(n[|n| - 1])
  }

  function RealSum(p: seq<real>): real {
    if p == [] then 0.0 else RealSum(p[..|p| - 1]) + p[|p| - 1]
  }

  /** The share `n_i / total` of every non-zero count, in order. */
  function Shares(n: seq<nat>, total: nat): seq<real>
    requires total > 0
  {
    if n == [] then []
    else
      var x := n[|n| - 1];
      Shares(n[..|n| - 1], total) + (if x != 0 then [x as real / total as real] else [])
  }

  /** Simpson's `D`: the chance that two individuals drawn without replacement are of one species; 0 when `N <= 1`. */
  function Dominance(n: seq<nat>): real {
    var total := Total(n);
    if total > 1 then PairSum(n) as real / (total * (total - 1)) as real else 0.0
  }

  /**
   * The loop over the counts: the share of every non-zero count and the
   * running `sum n_i (n_i - 1)`, then `D`.
   */
  method Proportions(n: seq<nat>) returns (p: seq<real>, d: real)
    requires Total(n) > 0
    ensures p == Shares(n, Total(n))
    ensures d == Dominance(n)
  {
    var total := Total(n);
    p := [];
    var pairs: int := 0;
    for k := 0 to |n|
      invariant p == Shares(n[..k], total)
      invariant pairs == PairSum(n[..k])
    {
      ProportionsStep(n, k, total);
      var x := n[k];
      if x != 0 {
        p := p + [x as real / total as real];
        pairs := pairs + Pairs(x);
      }
    }
    assert n[..|n|] == n;
    d := if total > 1 then pairs as real / (total * (total - 1)) as real else 0.0;
  }

  /** One more count adds its share when it is not zero, and its pairs. */
  lemma ProportionsStep(n: seq<nat>, k: nat, total: nat)
    requires k < |n| && total > 0
    ensures Shares(n[..k + 1], total) ==
      Shares(n[..k], total) + (if n[k] != 0 then [n[k] as real / total as real] else [])
    ensures PairSum(n[..k + 1]) == PairSum(n[..k]) + Pairs(n[k])
  {
    assert n[..k + 1][..k] == n[..k];
  }

  /** `max(p)`: the largest share, which is one of them. */
  function BergerParker(p: seq<real>): (m: real)
    requires |p| > 0
    ensures m in p
    ensures forall i :: 0 <= i < |p| ==> p[i] <= m
  {
    if |p| == 1 then p[0]
    else
      var m := BergerParker(p[..|p| - 1]);
      assert forall i :: 0 <= i < |p| - 1 ==> p[..|p| - 1][i] == p[i];
      if p[|p| - 1] > m then p[|p| - 1] else m
  }

  /** Simpson's index of diversity. */
  function Simpson(d: real): real {
    1.0 - d
  }

  /** Simpson's reciprocal index; the script divides by `D` unguarded, so `D` must not be 0. */
  function InverseSimpson(d: real): real
    requires d != 0.0
  {
    1.0 / d
  }

  /** The shares of the non-zero counts add up to the counts' total over `total`. */
  lemma {:induction false} SharesSum(n: seq<nat>, total: nat)
    requires total > 0
    ensures RealSum(Shares(n, total)) == Total(n) as real / total as real
  {
    if n != [] {
      var front, x := n[..|n| - 1], n[|n| - 1];
      SharesSum(front, total);
      var s := Shares(front, total);
      if x != 0 {
        RealSumSnoc(s, x as real / total as real);
        assert Shares(n, total) == s + [x as real / total as real];
      } else {
        assert Shares(n, total) == s + [] == s;
      }
      DivAdd(Total(front) as real, x as real, total as real);
    }
  }

  lemma RealSumSnoc(p: seq<real>, v: real)
    ensures RealSum(p + [v]) == RealSum(p) + v
  {
    assert (p + [v])[..|p|] == p;
  }

  lemma DivAdd(a: real, b: real, c: real)
    requires c != 0.0
    ensures a / c + b / c == (a + b) / c
  {
  }

  /** The shares `p_i` add up to 1. */
  lemma SharesSumToOne(n: seq<nat>)
    requires Total(n) > 0
    ensures RealSum(Shares(n, Total(n))) == 1.0
  {
    SharesSum(n, Total(n));
  }

  /** With every count positive there is one share per count, `p_i = n_i / N`. */
  lemma {:induction false} SharesOfPositive(n: seq<nat>, total: nat)
    requires total > 0 && forall i :: 0 <= i < |n| ==> n[i] > 0
    ensures |Shares(n, total)| == |n|
    ensures forall i :: 0 <= i < |n| ==> Shares(n, total)[i] == n[i] as real / total as real
  {
    if n != [] {
      SharesOfPositive(n[..|n| - 1], total);
    }
  }

  /** Every share lies in (0, 1] when the shares are taken of a whole at least the counts' total. */
  lemma {:induction false} SharesInRange(n: seq<nat>, total: nat)
    requires total > 0 && Total(n) <= total
    ensures forall i :: 0 <= i < |Shares(n, total)| ==> 0.0 < Shares(n, total)[i] <= 1.0
  {
    if n != [] {
      var front, x := n[..|n| - 1], n[|n| - 1];
      SharesInRange(front, total);
      if x != 0 {
        Ratio(x as real, total as real);
      }
    }
  }

  /** A positive total leaves at least one share. */
  lemma {:induction false} SharesNonEmpty(n: seq<nat>, total: nat)
    requires total > 0 && Total(n) > 0
    ensures |Shares(n, total)| > 0
  {
    if n[|n| - 1] == 0 {
      SharesNonEmpty(n[..|n| - 1], total);
    }
  }

  /** A sum of values none above `m` is at most `|p| m`. */
  lemma {:induction false} RealSumAtMost(p: seq<real>, m: real)
    requires forall i :: 0 <= i < |p| ==> p[i] <= m
    ensures RealSum(p) <= |p| as real * m
  {
    if p != [] {
      RealSumAtMost(p[..|p| - 1], m);
      assert (|p| - 1) as real * m + m == |p| as real * m;
    }
  }

  /** Berger-Parker's index of a report's counts lies in (0, 1]. */
  lemma BergerParkerRange(n: seq<nat>)
    requires Total(n) > 0
    ensures |Shares(n, Total(n))| > 0
    ensures 0.0 < BergerParker(Shares(n, Total(n))) <= 1.0
  {
    var p := Shares(n, Total(n));
    SharesNonEmpty(n, Total(n));
    var bp := BergerParker(p);
    var i :| 0 <= i < |p| && p[i] == bp;
    SharesInRange(n, Total(n));
    assert 0.0 < p[i] <= 1.0;
  }

  /** Berger-Parker's index is at least `1 / S`: the largest share is no smaller than the mean share. */
  lemma BergerParkerAtLeastMean(n: seq<nat>)
    requires Total(n) > 0
    ensures |Shares(n, Total(n))| > 0
    ensures 1.0 / |Shares(n, Total(n))| as real <= BergerParker(Shares(n, Total(n)))
  {
    SharesNonEmpty(n, Total(n));
    SharesSumToOne(n);
    MaxAtLeastMean(Shares(n, Total(n)), BergerParker(Shares(n, Total(n))));
  }

  /** When values adding up to 1 are none above `m`, `m` is at least their mean `1 / |p|`. */
  lemma MaxAtLeastMean(p: seq<real>, m: real)
    requires |p| > 0 && RealSum(p) == 1.0 && forall i :: 0 <= i < |p| ==> p[i] <= m
    ensures 1.0 / |p| as real <= m
  {
    RealSumAtMost(p, m);
    var k := |p| as real;
    assert 1.0 <= k * m;
    assert 1.0 / k <= m by {
      assert (1.0 / k) * k == 1.0;
    }
  }

  /** `sum n_i (n_i - 1)` never exceeds `N (N - 1)`. */
  lemma {:induction false} PairSumBound(n: seq<nat>)
    ensures PairSum(n) <= Pairs(Total(n))
  {
    if n != [] {
      var front, x := n[..|n| - 1], n[|n| - 1];
      PairSumBound(front);
      PairsGrow(Total(front), x);
    }
  }

  /** Merging two groups adds the pairs across them: `t (t - 1) + y (y - 1) <= (t + y) (t + y - 1)`. */
  lemma PairsGrow(t: nat, y: nat)
    ensures Pairs(t) + Pairs(y) <= Pairs(t + y)
  {
    if t > 0 && y > 0 {
      var a: int, b: int := t, y;
      assert (a + b) * (a + b - 1) == a * (a - 1) + b * (b - 1) + 2 * a * b;
      assert 0 <= 2 * a * b;
    }
  }

  /** A group holds a pair exactly when it has two members. */
  lemma PairsPositive(x: nat)
    ensures Pairs(x) > 0 <==> x >= 2
  {
    if x >= 2 {
      assert x * (x - 1) >= x;
    }
  }

  /** `sum n_i (n_i - 1)` is positive exactly when some species has two individuals. */
  lemma {:induction false} PairSumPositive(n: seq<nat>)
    ensures PairSum(n) > 0 <==> exists i :: 0 <= i < |n| && n[i] >= 2
  {
    if n != [] {
      var front, x := n[..|n| - 1], n[|n| - 1];
      PairSumPositive(front);
      PairsPositive(x);
      if exists i :: 0 <= i < |front| && front[i] >= 2 {
        var i :| 0 <= i < |front| && front[i] >= 2;
        assert n[i] >= 2;
      }
      if exists i :: 0 <= i < |n| && n[i] >= 2 {
        var i :| 0 <= i < |n| && n[i] >= 2;
        if i < |front| {
          assert front[i] >= 2;
        }
      }
    }
  }

  /** `0 <= D <= 1`. */
  lemma DominanceRange(n: seq<nat>)
    ensures 0.0 <= Dominance(n) <= 1.0
  {
    var total := Total(n);
    if total > 1 {
      PairSumBound(n);
      Ratio(PairSum(n) as real, (total * (total - 1)) as real);
    }
  }

  /** `D > 0` exactly when some species has at least two individuals: the condition for the reciprocal index. */
  lemma DominancePositive(n: seq<nat>)
    ensures Dominance(n) > 0.0 <==> exists i :: 0 <= i < |n| && n[i] >= 2
  {
    var total := Total(n);
    PairSumPositive(n);
    PairSumBound(n);
    if total > 1 {
      Ratio(PairSum(n) as real, (total * (total - 1)) as real);
    }
  }

  /** Simpson's index of a report's counts lies in [0, 1]. */
  lemma SimpsonRange(n: seq<nat>)
    ensures 0.0 <= Simpson(Dominance(n)) <= 1.0
  {
    DominanceRange(n);
  }

  /** Simpson's reciprocal index, where it is defined, is at least 1. */
  lemma InverseSimpsonAtLeastOne(n: seq<nat>)
    requires Dominance(n) != 0.0
    ensures InverseSimpson(Dominance(n)) >= 1.0
  {
    var d := Dominance(n);
    DominanceRange(n);
    assert 1.0 / d * d == 1.0;
  }

  /** Four species of ten individuals each: `N = 40`, `S = 4` and `D = 360 / 1560`. */
  lemma EvenExample()
    ensures var n: seq<nat> := [10, 10, 10, 10];
      Total(n) == 40 && |n| == 4 && Dominance(n) == 360.0 / 1560.0
  {
    var n1: seq<nat> := [10];
    var n2: seq<nat> := [10, 10];
    var n3: seq<nat> := [10, 10, 10];
    var n: seq<nat> := [10, 10, 10, 10];
    assert n1[..0] == [] && n2[..1] == n1 && n3[..2] == n2 && n[..3] == n3;
    assert Total(n1) == 10 && PairSum(n1) == 90;
    assert Total(n2) == 20 && PairSum(n2) == 180;
    assert Total(n3) == 30 && PairSum(n3) == 270;
    assert Total(n) == 40 && PairSum(n) == 360;
  }

  /** The same four species: each has a share of 1/4, and so does the most abundant one. */
  lemma EvenExampleBergerParker()
    ensures var n: seq<nat> := [10, 10, 10, 10];
      Shares(n, 40) == [0.25, 0.25, 0.25, 0.25] && BergerParker(Shares(n, 40)) == 0.25
  {
    var n1: seq<nat> := [10];
    var n2: seq<nat> := [10, 10];
    var n3: seq<nat> := [10, 10, 10];
    var n: seq<nat> := [10, 10, 10, 10];
    assert n1[..0] == [] && n2[..1] == n1 && n3[..2] == n2 && n[..3] == n3;
    assert 10 as real / 40 as real == 0.25;
    var p1, p2, p3, p := [0.25], [0.25, 0.25], [0.25, 0.25, 0.25], [0.25, 0.25, 0.25, 0.25];
    assert Shares(n1, 40) == p1;
    assert Shares(n2, 40) == p2;
    assert Shares(n3, 40) == p3;
    assert Shares(n, 40) == p;
    assert p2[..1] == p1 && p3[..2] == p2 && p[..3] == p3;
    assert BergerParker(p1) == 0.25;
    assert BergerParker(p2) == 0.25;
    assert BergerParker(p3) == 0.25;
  }

  /** The indices the `--alpha` option names. */
  datatype Metric = Shannon | BergerParkerIndex | SimpsonIndex | InverseSimpsonIndex | Fisher

  /** `Sh`, `BP`, `Si`, `ISi` and `F`; anything else names no metric. */
  function ParseMetric(s: string): (m: Option<Metric>)
    ensures m.Some? <==> s in {"Sh", "BP", "Si", "ISi", "F"}
  {
    if s == "Sh" then Some(Shannon)
    else if s == "BP" then Some(BergerParkerIndex)
    else if s == "Si" then Some(SimpsonIndex)
    else if s == "ISi" then Some(InverseSimpsonIndex)
    else if s == "F" then Some(Fisher)
    else None
  }

  datatype Option<T> = None | Some(value: T)

  /** How a run ends. */
  datatype Outcome =
    | NoData                 // no line was kept: the script exits with status 1
    | Index(value: real)     // the value the script prints
    | NotModelled(m: Metric) // Shannon's and Fisher's indices
    | Unsupported            // `--alpha` names no metric

  /** A run never divides by zero: the reciprocal index is only asked of counts with `D != 0`. */
  predicate Safe(t: ReportType, level: Level, metric: string, lines: seq<string>) {
    var n := Abundances(t, level, lines);
    metric == "ISi" && n != [] ==> Dominance(n) != 0.0
  }

  /** What a run prints. */
  function Alpha(t: ReportType, level: Level, metric: string, lines: seq<string>): Outcome
    requires Safe(t, level, metric, lines)
  {
    var n := Abundances(t, level, lines);
    if n == [] then NoData
    else
      AbundancesTotal(t, level, lines);
      match ParseMetric(metric)
      case None => Unsupported
      case Some(Shannon) => NotModelled(Shannon)
      case Some(Fisher) => NotModelled(Fisher)
      case Some(BergerParkerIndex) =>
        SharesNonEmpty(n, Total(n));
        Index(BergerParker(Shares(n, Total(n))))
      case Some(SimpsonIndex) => Index(Simpson(Dominance(n)))
      case Some(InverseSimpsonIndex) => Index(InverseSimpson(Dominance(n)))
  }

  /** A run: read the counts, stop when there are none, compute `p` and `D`, then the requested index. */
  method Run(t: ReportType, level: Level, metric: string, lines: seq<string>) returns (outcome: Outcome)
    requires Safe(t, level, metric, lines)
    ensures outcome == Alpha(t, level, metric, lines)
  {
    var n := ReadAbundances(t, level, lines);
    if |n| == 0 {
      return NoData;
    }
    AbundancesTotal(t, level, lines);
    var p, d := Proportions(n);
    var m := ParseMetric(metric);
    match m {
      case None => outcome := Unsupported;
      case Some(Shannon) => outcome := NotModelled(Shannon);
      case Some(Fisher) => outcome := NotModelled(Fisher);
      case Some(BergerParkerIndex) =>
        SharesNonEmpty(n, Total(n));
        outcome := Index(BergerParker(p));
      case Some(SimpsonIndex) => outcome := Index(Simpson(d));
      case Some(InverseSimpsonIndex) => outcome := Index(InverseSimpson(d));
    }
  }

  /** A run prints nothing exactly when no line is kept. */
  lemma AlphaNoData(t: ReportType, level: Level, metric: string, lines: seq<string>)
    requires Safe(t, level, metric, lines)
    ensures Alpha(t, level, metric, lines) == NoData <==> Abundances(t, level, lines) == []
  {
  }

  /** The Berger-Parker index a run prints lies in (0, 1] and is at least `1 / S`. */
  lemma AlphaBergerParker(t: ReportType, level: Level, lines: seq<string>)
    requires Safe(t, level, "BP", lines) && Abundances(t, level, lines) != []
    ensures Alpha(t, level, "BP", lines).Index?
    ensures var x := Alpha(t, level, "BP", lines).value;
      0.0 < x <= 1.0 && 1.0 / |Abundances(t, level, lines)| as real <= x
  {
    var n := Abundances(t, level, lines);
    AbundancesTotal(t, level, lines);
    AbundancesPositive(t, level, lines);
    BergerParkerRange(n);
    BergerParkerAtLeastMean(n);
    SharesOfPositive(n, Total(n));
  }

  /** The Simpson index a run prints lies in [0, 1]. */
  lemma AlphaSimpson(t: ReportType, level: Level, lines: seq<string>)
    requires Safe(t, level, "Si", lines) && Abundances(t, level, lines) != []
    ensures Alpha(t, level, "Si", lines).Index?
    ensures 0.0 <= Alpha(t, level, "Si", lines).value <= 1.0
  {
    SimpsonRange(Abundances(t, level, lines));
  }

  /** The reciprocal Simpson index a run prints is at least 1. */
  lemma AlphaInverseSimpson(t: ReportType, level: Level, lines: seq<string>)
    requires Safe(t, level, "ISi", lines) && Abundances(t, level, lines) != []
    ensures Alpha(t, level, "ISi", lines).Index?
    ensures Alpha(t, level, "ISi", lines).value >= 1.0
  {
    InverseSimpsonAtLeastOne(Abundances(t, level, lines));
  }

  /** With every count positive there are no more species than individuals: `S <= N`. */
  lemma {:induction false} TotalOfPositive(n: seq<nat>)
    requires forall i :: 0 <= i < |n| ==> n[i] > 0
    ensures |n| <= Total(n)
  {
    if n != [] {
      TotalOfPositive(n[..|n| - 1]);
    }
  }

  /** A report's counts have `S <= N`, so `N > 0` once any line is kept. */
  lemma AbundancesTotal(t: ReportType, level: Level, lines: seq<string>)
    ensures |Abundances(t, level, lines)| <= Total(Abundances(t, level, lines))
  {
    AbundancesPositive(t, level, lines);
    TotalOfPositive(Abundances(t, level, lines));
  }
}
