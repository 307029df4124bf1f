/**
 * The Bray-Curtis dissimilarity of `beta_diversity.py`: for two samples with
 * totals `Ti` and `Tj`, one minus twice the shared abundance over the sum of
 * the totals, where the shared abundance sums the smaller count of every
 * category both samples hold; 1 when either total is 0. The matrix has 0 on
 * its diagonal and the value of each pair in both of its cells.
 */
module BrayCurtis {
  import opened Abundance

  function Min(a: nat, b: nat): nat { if a < b then a else b }

  /** The categories both tables hold, each with the smaller of its two counts. */
  function Common(a: map<string, nat>, b: map<string, nat>): map<string, nat> {
    map k | k in a && k in b :: Min(a[k], b[k])
  }

  /** The shared abundance `C_ij` of two samples. */
  ghost function Shared(x: SampleTable, y: SampleTable): nat {
    SumValues(Common(x.counts, y.counts))
  }

  /** `bc_ij`, with exact arithmetic in place of floating point. */
  ghost function Dissimilarity(x: SampleTable, y: SampleTable): real {
    if x.total == 0 || y.total == 0 then 1.0
    else 1.0 - (2.0 * Shared(x, y) as real) / ((x.total + y.total) as real)
  }

  /** Common restricted to the categories of `a` already visited. */
  function CommonOn(a: map<string, nat>, b: map<string, nat>, seen: set<string>): map<string, nat> {
    map k | k in seen && k in a && k in b :: Min(a[k], b[k])
  }

  /**
   * The loop over the categories of the first sample: `C_ij` grows by the
   * smaller count of every category the second sample also holds.
   */
  method SharedAbundance(a: map<string, nat>, b: map<string, nat>) returns (shared: nat)
    ensures shared == SumValues(Common(a, b))
  {
    shared := 0;
    var rest := a.Keys;
    ghost var seen: set<string> := {};
    assert CommonOn(a, b, seen) == map[];
    while rest != {}
      invariant rest + seen == a.Keys && rest !! seen
      invariant shared == SumValues(CommonOn(a, b, seen))
      decreases rest
    {
      var k :| k in rest;
      if k in b {
        assert CommonOn(a, b, seen + {k}) == Add(CommonOn(a, b, seen), k, Min(a[k], b[k]));
        SumValuesAdd(CommonOn(a, b, seen), k, Min(a[k], b[k]));
        shared := shared + Min(a[k], b[k]);
      } else {
        assert CommonOn(a, b, seen + {k}) == CommonOn(a, b, seen);
      }
      rest := rest - {k};
      seen := seen + {k};
    }
    assert CommonOn(a, b, seen) == Common(a, b);
  }

  /** One pair of the matrix, computed as the script does. */
  method PairDissimilarity(x: SampleTable, y: SampleTable) returns (d: real)
    ensures d == Dissimilarity(x, y)
  {
    if x.total == 0 || y.total == 0 {
      d := 1.0;
    } else {
      var shared := SharedAbundance(x.counts, y.counts);
      d := 1.0 - (2.0 * shared as real) / ((x.total + y.total) as real);
    }
  }

  /** Cell `(p, q)` is written once row `i` has reached column `j`. */
  predicate Written(p: int, q: int, i: int, j: int) {
    p != q && (p < i || q < i || (p == i && q < j) || (q == i && p < j))
  }

  /** The dissimilarity matrix of the samples: 0 on the diagonal, every other cell the dissimilarity of its two samples. */
  ghost predicate IsMatrix(bc: array2<real>, samples: seq<SampleTable>)
    reads bc
  {
    bc.Length0 == |samples| && bc.Length1 == |samples| &&
    forall p, q :: 0 <= p < |samples| && 0 <= q < |samples| ==>
      bc[p, q] == if p == q then 0.0 else Dissimilarity(samples[p], samples[q])
  }

  /**
   * Fills the matrix. Each pair is computed once, for the cell above the
   * diagonal, and copied to its mirror.
   */
  method BrayCurtisMatrix(samples: seq<SampleTable>) returns (bc: array2<real>)
    ensures IsMatrix(bc, samples)
  {
    var n := |samples|;
    bc := new real[n, n]((p, q) => 0.0);
    for i := 0 to n
      invariant bc.Length0 == n && bc.Length1 == n
      invariant forall p, q :: 0 <= p < n && 0 <= q < n ==>
        bc[p, q] == if Written(p, q, i, i + 1) then Dissimilarity(samples[p], samples[q]) else 0.0
    {
      for j := i + 1 to n
        invariant bc.Length0 == n && bc.Length1 == n
        invariant forall p, q :: 0 <= p < n && 0 <= q < n ==>
          bc[p, q] == if Written(p, q, i, j) then Dissimilarity(samples[p], samples[q]) else 0.0
      {
        var d := PairDissimilarity(samples[i], samples[j]);
        DissimilaritySymmetric(samples[i], samples[j]);
        bc[i, j] := d;
        bc[j, i] := d;
      }
    }
  }

  /** The measure does not depend on the order of the two samples. */
  lemma DissimilaritySymmetric(x: SampleTable, y: SampleTable)
    ensures Dissimilarity(x, y) == Dissimilarity(y, x)
  {
    assert Common(x.counts, y.counts) == Common(y.counts, x.counts);
  }

  /** The shared abundance is no more than either sample holds. */
  lemma SharedBelow(x: SampleTable, y: SampleTable)
    ensures Shared(x, y) <= SumValues(x.counts) && Shared(x, y) <= SumValues(y.counts)
  {
    SumValuesMonotone(Common(x.counts, y.counts), x.counts);
    SumValuesMonotone(Common(x.counts, y.counts), y.counts);
  }

  /** For samples whose totals cover their counts, the measure lies in [0, 1]. */
  lemma DissimilarityRange(x: SampleTable, y: SampleTable)
    requires Covered(x) && Covered(y)
    ensures 0.0 <= Dissimilarity(x, y) <= 1.0
  {
    SharedBelow(x, y);
    if x.total != 0 && y.total != 0 {
      Ratio(2.0 * Shared(x, y) as real, (x.total + y.total) as real);
    }
  }

  /** Samples with no category in common, or one without any data, are as far apart as can be. */
  lemma NothingSharedIsOne(x: SampleTable, y: SampleTable)
    requires x.total == 0 || y.total == 0 || x.counts.Keys !! y.counts.Keys
    ensures Dissimilarity(x, y) == 1.0
  {
    if x.counts.Keys !! y.counts.Keys {
      assert Common(x.counts, y.counts) == map[];
    }
  }

  /** A table shares all of itself with itself. */
  lemma CommonSelf(a: map<string, nat>)
    ensures Common(a, a) == a
  {
  }

  /**
   * Two samples with data, each of whose total is the sum of its counts,
   * are at dissimilarity 0 exactly when their counts are the same.
   */
  lemma ZeroIffSameCounts(x: SampleTable, y: SampleTable)
    requires Exact(x) && Exact(y) && x.total > 0 && y.total > 0
    ensures Dissimilarity(x, y) == 0.0 <==> x.counts == y.counts
  {
    var m := Common(x.counts, y.counts);
    if x.counts == y.counts {
      CommonSelf(x.counts);
      Ratio(2.0 * Shared(x, y) as real, (x.total + y.total) as real);
    } else if Dissimilarity(x, y) == 0.0 {
      SharedBelow(x, y);
      Ratio(2.0 * Shared(x, y) as real, (x.total + y.total) as real);
      assert 2 * Shared(x, y) == x.total + y.total;
      assert Shared(x, y) == x.total == y.total;
      if m != x.counts {
        var k := DifferingKey(m, x.counts);
        SumValuesStrict(m, x.counts, k);
        assert false;
      }
      if m != y.counts {
        var k := DifferingKey(m, y.counts);
        SumValuesStrict(m, y.counts, k);
        assert false;
      }
    }
  }

  /** Where the common table falls short of a positive table it lies under. */
  lemma DifferingKey(m: map<string, nat>, a: map<string, nat>) returns (k: string)
    requires Below(m, a) && Positive(a) && m != a
    ensures k in a && (if k in m then m[k] < a[k] else a[k] > 0)
  {
    if m.Keys == a.Keys {
      k :| k in m && m[k] != a[k];
    } else {
      k :| k in a && k !in m;
    }
  }

  /** The two-sample example: equal distributions are at 0, disjoint ones at 1. */
  lemma Example()
    ensures var a := SampleTable("A", 10, map["x" := 5, "y" := 5]);
      var b := SampleTable("B", 10, map["x" := 5, "y" := 5]);
      var c := SampleTable("C", 10, map["z" := 10]);
      Dissimilarity(a, b) == 0.0 && Dissimilarity(a, c) == 1.0
  {
    var a := SampleTable("A", 10, map["x" := 5, "y" := 5]);
    var b := SampleTable("B", 10, map["x" := 5, "y" := 5]);
    var c := SampleTable("C", 10, map["z" := 10]);
    CommonSelf(a.counts);
    SumValuesPick(a.counts, "x");
    SumValuesPick(a.counts - {"x"}, "y");
    assert a.counts - {"x"} - {"y"} == map[];
    NothingSharedIsOne(a, c);
  }
}
