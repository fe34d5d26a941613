/** The aggregator's mapping between grouped lift metrics and flat vectors
    of integers: eight values per metrics, the overall metrics first and
    then each subgroup, always in the order of the struct's fields. */
module MetricsMapping {
  import opened Common
  import opened Lift

  /** The metrics stored at v[index..index + 8]. */
  function MetricsAt(v: seq<Int64>, index: nat): (m: LiftMetrics)
    requires index + 8 <= |v|
    ensures Fields(m) == v[index..index + 8]
  {
    LiftMetrics(v[index], v[index + 1], v[index + 2], v[index + 3],
      v[index + 4], v[index + 5], v[index + 6], v[index + 7])
  }

  /** The metrics written one after the other. */
  function FlattenAll(ms: seq<LiftMetrics>): (v: seq<Int64>)
    ensures |v| == 8 * |ms|
    decreases |ms|
  {
    if |ms| == 0 then [] else FlattenAll(ms[..|ms| - 1]) + Fields(ms[|ms| - 1])
  }

  /** The flat vector of grouped metrics: overall, then each subgroup. */
  function Flatten(g: GroupedLiftMetrics): (v: seq<Int64>)
    ensures |v| == 8 * (1 + |g.subGroupMetrics|)
  {
    Fields(g.metrics) + FlattenAll(g.subGroupMetrics)
  }

  /** The k-th block of eight values of v, as metrics. */
  function MetricsSeq(v: seq<Int64>, k: nat): (ms: seq<LiftMetrics>)
    requires 8 * k <= |v|
    ensures |ms| == k
    ensures forall i :: 0 <= i < k ==> ms[i] == MetricsAt(v, 8 * i)
  {
    seq(k, i requires 0 <= i < k => MetricsAt(v, 8 * i))
  }

  /** A flat vector that holds whole grouped metrics: at least the overall
      metrics, and whole blocks of eight. */
  predicate WellSized(v: seq<Int64>)
  {
    |v| >= 8 && |v| % 8 == 0
  }

  /** The grouped metrics of a flat vector: the first eight values are the
      overall metrics and every further eight a subgroup. */
  function Unflatten(v: seq<Int64>): (g: GroupedLiftMetrics)
    requires WellSized(v)
    ensures |g.subGroupMetrics| == |v| / 8 - 1
  {
    var blocks := MetricsSeq(v, |v| / 8);
    GroupedLiftMetrics(blocks[0], blocks[1..])
  }

  lemma {:induction false} FlattenAllAt(ms: seq<LiftMetrics>, i: nat)
    requires i < |ms|
    ensures FlattenAll(ms)[8 * i..8 * i + 8] == Fields(ms[i])
    decreases |ms|
  {
    var n := |ms| - 1;
    var prefix := FlattenAll(ms[..n]);
    assert FlattenAll(ms) == prefix + Fields(ms[n]);
    if i < n {
      FlattenAllAt(ms[..n], i);
      assert ms[..n][i] == ms[i];
      assert (prefix + Fields(ms[n]))[8 * i..8 * i + 8] == prefix[8 * i..8 * i + 8];
    } else {
      assert (prefix + Fields(ms[n]))[8 * n..8 * n + 8] == Fields(ms[n]);
    }
  }

  /** Block k of a flattened grouped metrics is the overall metrics for
      k = 0 and subgroup k - 1 otherwise. */
  lemma FlattenBlockAt(g: GroupedLiftMetrics, k: nat)
    requires k <= |g.subGroupMetrics|
    ensures MetricsAt(Flatten(g), 8 * k) == if k == 0 then g.metrics else g.subGroupMetrics[k - 1]
  {
    var v := Flatten(g);
    if k == 0 {
      assert v[..8] == Fields(g.metrics);
      FieldsInjective(MetricsAt(v, 0), g.metrics);
    } else {
      FlattenAllAt(g.subGroupMetrics, k - 1);
      assert v[8 * k..8 * k + 8] == FlattenAll(g.subGroupMetrics)[8 * (k - 1)..8 * (k - 1) + 8];
      FieldsInjective(MetricsAt(v, 8 * k), g.subGroupMetrics[k - 1]);
    }
  }

  /** Two vectors of one length whose blocks of eight agree are equal. */
  lemma BlocksEqual(x: seq<Int64>, y: seq<Int64>)
    requires |x| == |y| && |x| % 8 == 0
    requires forall k :: 0 <= k < |x| / 8 ==> MetricsAt(x, 8 * k) == MetricsAt(y, 8 * k)
    ensures x == y
  {
    forall p | 0 <= p < |x|
      ensures x[p] == y[p]
    {
      var k := p / 8;
      assert Fields(MetricsAt(x, 8 * k)) == Fields(MetricsAt(y, 8 * k));
      assert x[p] == x[8 * k..8 * k + 8][p - 8 * k];
      assert y[p] == y[8 * k..8 * k + 8][p - 8 * k];
    }
  }

  /** Reading the flattened vector gives the grouped metrics back. */
  lemma {:induction false} UnflattenFlatten(g: GroupedLiftMetrics)
    ensures WellSized(Flatten(g))
    ensures Unflatten(Flatten(g)) == g
  {
    var h := Unflatten(Flatten(g));
    FlattenBlockAt(g, 0);
    forall i | 0 <= i < |g.subGroupMetrics|
      ensures h.subGroupMetrics[i] == g.subGroupMetrics[i]
    {
      FlattenBlockAt(g, i + 1);
    }
  }

  /** Two grouped metrics with the same flat vector are equal. */
  lemma FlattenInjective(g: GroupedLiftMetrics, h: GroupedLiftMetrics)
    requires Flatten(g) == Flatten(h)
    ensures g == h
  {
    UnflattenFlatten(g);
    UnflattenFlatten(h);
  }

  /** Flattening the grouped metrics of a well-sized vector gives it back. */
  lemma {:induction false} FlattenUnflatten(v: seq<Int64>)
    requires WellSized(v)
    ensures Flatten(Unflatten(v)) == v
  {
    var g := Unflatten(v);
    forall k | 0 <= k < |v| / 8
      ensures MetricsAt(Flatten(g), 8 * k) == MetricsAt(v, 8 * k)
    {
      FlattenBlockAt(g, k);
    }
    BlocksEqual(Flatten(g), v);
  }

  // ---------------------------------------------------------------------
  // The functions of the mapper, with the source's running index and
  // appended vectors.
  // ---------------------------------------------------------------------

  /** genLiftMetricsFromVector: reads eight values from index on, in the
      order of the fields, and advances the index by eight (the reads are
      unchecked, so the eight values must be there). */
  method GenLiftMetricsFromVector(v: seq<Int64>, index: nat) returns (metrics: LiftMetrics, next: nat)
    requires index + 8 <= |v|
    ensures Fields(metrics) == v[index..index + 8]
    ensures next == index + 8
  {
    next := index;
    var testPopulation := v[next];
    next := next + 1;
    var controlPopulation := v[next];
    next := next + 1;
    var testBuyers := v[next];
    next := next + 1;
    var controlBuyers := v[next];
    next := next + 1;
    var testSales := v[next];
    next := next + 1;
    var controlSales := v[next];
    next := next + 1;
    var testSquared := v[next];
    next := next + 1;
    var controlSquared := v[next];
    next := next + 1;
    metrics := LiftMetrics(testPopulation, controlPopulation, testBuyers, controlBuyers,
      testSales, controlSales, testSquared, controlSquared);
  }

  /** addLiftMetricsToEmpVector: appends the eight fields in order. */
  method AddLiftMetricsToVector(v: seq<Int64>, metrics: LiftMetrics) returns (r: seq<Int64>)
    ensures r == v + Fields(metrics)
  {
    r := v;
    r := r + [metrics.testPopulation];
    r := r + [metrics.controlPopulation];
    r := r + [metrics.testBuyers];
    r := r + [metrics.controlBuyers];
    r := r + [metrics.testSales];
    r := r + [metrics.controlSales];
    r := r + [metrics.testSquared];
    r := r + [metrics.controlSquared];
  }

  /** mapGroupedLiftMetricsToEmpVector: the overall metrics, then each
      subgroup's. */
  method MapGroupedLiftMetricsToVector(metrics: GroupedLiftMetrics) returns (v: seq<Int64>)
    ensures v == Flatten(metrics)
    ensures WellSized(v) && Unflatten(v) == metrics
  {
    v := AddLiftMetricsToVector([], metrics.metrics);
    var i := 0;
    while i < |metrics.subGroupMetrics|
      invariant 0 <= i <= |metrics.subGroupMetrics|
      invariant v == Fields(metrics.metrics) + FlattenAll(metrics.subGroupMetrics[..i])
    {
      assert metrics.subGroupMetrics[..i + 1][..i] == metrics.subGroupMetrics[..i];
      v := AddLiftMetricsToVector(v, metrics.subGroupMetrics[i]);
      i := i + 1;
    }
    assert metrics.subGroupMetrics[..i] == metrics.subGroupMetrics;
    UnflattenFlatten(metrics);
  }

  /** mapVectorToGroupedLiftMetrics: the first eight values are the overall
      metrics, then subgroups are read eight at a time until the end (the
      reads are unchecked, so the vector must hold whole blocks). */
  method MapVectorToGroupedLiftMetrics(v: seq<Int64>) returns (metrics: GroupedLiftMetrics)
    requires WellSized(v)
    ensures Flatten(metrics) == v
    ensures metrics == Unflatten(v)
  {
    var i := 0;
    var overall;
    overall, i := GenLiftMetricsFromVector(v, i);
    var subGroupMetrics: seq<LiftMetrics> := [];
    while i < |v|
      invariant 8 <= i <= |v| && i % 8 == 0
      invariant |subGroupMetrics| == i / 8 - 1
      invariant Fields(overall) + FlattenAll(subGroupMetrics) == v[..i]
    {
      var m;
      ghost var before := i;
      m, i := GenLiftMetricsFromVector(v, i);
      assert (subGroupMetrics + [m])[..|subGroupMetrics|] == subGroupMetrics;
      assert v[..i] == v[..before] + v[before..i];
      subGroupMetrics := subGroupMetrics + [m];
    }
    metrics := GroupedLiftMetrics(overall, subGroupMetrics);
    assert v[..i] == v;
    FlattenUnflatten(v);
    FlattenInjective(metrics, Unflatten(v));
  }
}
