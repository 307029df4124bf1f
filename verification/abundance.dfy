/**
 * The canonical per-sample abundance table both scripts reduce a report to,
 * and sums over tables and over the contributions that build them.
 */
module Abundance {

  /** One `(category, count)` contribution taken from a report line. */
  datatype Record = Record(category: string, count: nat)

  /** A sample: its name, its running total and its per-category counts. */
  datatype SampleTable = SampleTable(name: string, total: nat, counts: map<string, nat>)

  /** The sum of the values of a map. */
  ghost function SumValues<K>(m: map<K, nat>): nat
    decreases m.Keys
  {
    if m.Keys == {} then 0
    else
      var k :| k in m.Keys;
      m[k] + SumValues(m - {k})
  }

  /** The sum may be taken apart at any key, whichever one the definition picked. */
  lemma {:induction false} SumValuesPick<K>(m: map<K, nat>, k: K)
    requires k in m
    ensures SumValues(m) == m[k] + SumValues(m - {k})
    decreases m.Keys
  {
    var j :| j in m.Keys && SumValues(m) == m[j] + SumValues(m - {j});
    if j != k {
      var mk := m - {k};
      var mj := m - {j};
      SumValuesPick(mj, k);
      SumValuesPick(mk, j);
      assert mj - {k} == mk - {j};
    }
  }

  /** Every key of a table has a positive count. */
  predicate Positive<K>(m: map<K, nat>) {
    forall k :: k in m ==> m[k] > 0
  }

  /** A table whose total is the sum of its counts, as a report's tables are. */
  ghost predicate Exact(t: SampleTable) {
    Positive(t.counts) && t.total == SumValues(t.counts)
  }

  /** A table whose total covers the sum of its counts, as a wide table's are. */
  ghost predicate Covered(t: SampleTable) {
    Positive(t.counts) && SumValues(t.counts) <= t.total
  }

  /** Adds `n` to the entry of `k`, which starts at 0 when `k` is new. */
  function Add<K>(m: map<K, nat>, k: K, n: nat): map<K, nat> {
    m[k := (if k in m then m[k] else 0) + n]
  }

  /** Adding `n` under one key adds `n` to the sum of the map. */
  lemma SumValuesAdd<K>(m: map<K, nat>, k: K, n: nat)
    ensures SumValues(Add(m, k, n)) == SumValues(m) + n
  {
    var a := Add(m, k, n);
    SumValuesPick(a, k);
    if k in m {
      SumValuesPick(m, k);
      assert a - {k} == m - {k};
    } else {
      assert a - {k} == m;
    }
  }

  /** Overwriting the value under a key replaces that value in the sum. */
  lemma SumValuesSet<K>(m: map<K, nat>, k: K, v: nat)
    ensures SumValues(m[k := v]) == SumValues(m) - (if k in m then m[k] else 0) + v
  {
    var a := m[k := v];
    SumValuesPick(a, k);
    if k in m {
      SumValuesPick(m, k);
      assert a - {k} == m - {k};
    } else {
      assert a - {k} == m;
    }
  }

  /** `m1` lies under `m2`: fewer keys and no larger value at any key. */
  predicate Below<K>(m1: map<K, nat>, m2: map<K, nat>) {
    forall k :: k in m1 ==> k in m2 && m1[k] <= m2[k]
  }

  /** The sum is monotone. */
  lemma {:induction false} SumValuesMonotone<K>(m1: map<K, nat>, m2: map<K, nat>)
    requires Below(m1, m2)
    ensures SumValues(m1) <= SumValues(m2)
    decreases m2.Keys
  {
    if m2.Keys != {} {
      var k :| k in m2;
      SumValuesPick(m2, k);
      if k in m1 {
        SumValuesPick(m1, k);
        SumValuesMonotone(m1 - {k}, m2 - {k});
      } else {
        assert m1 - {k} == m1;
        SumValuesMonotone(m1, m2 - {k});
      }
    } else {
      assert m1 == map[];
    }
  }

  /** The sum is strictly monotone: a key where `m1` falls short costs it the difference. */
  lemma SumValuesStrict<K>(m1: map<K, nat>, m2: map<K, nat>, k: K)
    requires Below(m1, m2) && k in m2
    requires if k in m1 then m1[k] < m2[k] else m2[k] > 0
    ensures SumValues(m1) < SumValues(m2)
  {
    SumValuesPick(m2, k);
    SumValuesMonotone(m1 - {k}, m2 - {k});
    if k in m1 {
      SumValuesPick(m1, k);
    } else {
      assert m1 - {k} == m1;
    }
  }

  /** The sum of the counts of a sequence of contributions. */
  function Sum(es: seq<Record>): nat {
    if es == [] then 0 else Sum(es[..|es| - 1]) + es[|es| - 1].count
  }

  /** The sum of the counts contributed to category `k`. */
  function SumFor(es: seq<Record>, k: string): nat {
    if es == [] then 0
    else SumFor(es[..|es| - 1], k) + (if es[|es| - 1].category == k then es[|es| - 1].count else 0)
  }

  /** The categories that receive a contribution. */
  function Categories(es: seq<Record>): set<string> {
    if es == [] then {} else Categories(es[..|es| - 1]) + {es[|es| - 1].category}
  }

  /** A category is in the set exactly when some contribution names it. */
  lemma {:induction false} CategoriesMeaning(es: seq<Record>, k: string)
    ensures k in Categories(es) <==> exists i :: 0 <= i < |es| && es[i].category == k
  {
    if es != [] {
      var front := es[..|es| - 1];
      CategoriesMeaning(front, k);
      if k in Categories(front) {
        var i :| 0 <= i < |front| && front[i].category == k;
        assert es[i].category == k;
      } else if exists i :: 0 <= i < |es| && es[i].category == k {
        var i :| 0 <= i < |es| && es[i].category == k;
        if i < |front| {
          assert front[i].category == k;
        }
      }
    }
  }

  /** Every contribution carries a positive count. */
  predicate AllPositive(es: seq<Record>) {
    forall i :: 0 <= i < |es| ==> es[i].count > 0
  }

  /** The running table a report reader builds: contributions added in order. */
  function Tally(es: seq<Record>): map<string, nat> {
    if es == [] then map[]
    else
      var e := es[|es| - 1];
      Add(Tally(es[..|es| - 1]), e.category, e.count)
  }

  /**
   * The tally holds one key per category that received a contribution; its
   * value is the sum of that category's contributions, the values add up to
   * the sum of all contributions, and positive contributions give positive
   * values.
   */
  lemma {:induction false} TallyMeaning(es: seq<Record>)
    ensures Tally(es).Keys == Categories(es)
    ensures forall k :: SumFor(es, k) == if k in Tally(es) then Tally(es)[k] else 0
    ensures SumValues(Tally(es)) == Sum(es)
    ensures AllPositive(es) ==> Positive(Tally(es))
  {
    if es != [] {
      var front := es[..|es| - 1];
      var e := es[|es| - 1];
      TallyMeaning(front);
      SumValuesAdd(Tally(front), e.category, e.count);
      assert forall i :: 0 <= i < |front| ==> front[i] == es[i];
    }
  }

  /** The sums of a concatenation are the sums of its two parts. */
  lemma {:induction false} SumAppend(a: seq<Record>, b: seq<Record>)
    ensures Sum(a + b) == Sum(a) + Sum(b)
    ensures Categories(a + b) == Categories(a) + Categories(b)
  {
    if b != [] {
      SumAppend(a, b[..|b| - 1]);
      assert (a + b)[..|a + b| - 1] == a + b[..|b| - 1];
    } else {
      assert a + b == a;
    }
  }

  /** The same holds category by category. */
  lemma {:induction false} SumForAppend(a: seq<Record>, b: seq<Record>, k: string)
    ensures SumFor(a + b, k) == SumFor(a, k) + SumFor(b, k)
  {
    if b != [] {
      SumForAppend(a, b[..|b| - 1], k);
      assert (a + b)[..|a + b| - 1] == a + b[..|b| - 1];
    } else {
      assert a + b == a;
    }
  }

  /** One more contribution adds its count to its category and to the sum. */
  lemma TallySnoc(es: seq<Record>, e: Record)
    ensures Tally(es + [e]) == Add(Tally(es), e.category, e.count)
    ensures Sum(es + [e]) == Sum(es) + e.count
  {
    assert (es + [e])[..|es|] == es;
  }

  /** Two neighbouring stretches of contributions may trade places: the table does not change. */
  lemma TallySwap(a: seq<Record>, x: seq<Record>, y: seq<Record>, b: seq<Record>)
    ensures Tally(a + x + y + b) == Tally(a + y + x + b)
    ensures Sum(a + x + y + b) == Sum(a + y + x + b)
  {
    var e1, e2 := a + x + y + b, a + y + x + b;
    SumAppend(a, x);
    SumAppend(a + x, y);
    SumAppend(a + x + y, b);
    SumAppend(a, y);
    SumAppend(a + y, x);
    SumAppend(a + y + x, b);
    TallyMeaning(e1);
    TallyMeaning(e2);
    forall k | k in Tally(e1)
      ensures Tally(e1)[k] == Tally(e2)[k]
    {
      SumForAppend(a, x, k);
      SumForAppend(a + x, y, k);
      SumForAppend(a + x + y, b, k);
      SumForAppend(a, y, k);
      SumForAppend(a + y, x, k);
      SumForAppend(a + y + x, b, k);
    }
  }

  /** A part of a positive whole, as a ratio: at most 1 exactly when the part is at most the whole. */
  lemma Ratio(a: real, t: real)
    requires 0.0 <= a && 0.0 < t
    ensures 0.0 <= a / t
    ensures 0.0 < a / t <==> 0.0 < a
    ensures a / t <= 1.0 <==> a <= t
    ensures a / t == 1.0 <==> a == t
  {
    assert a / t * t == a;
  }
}
