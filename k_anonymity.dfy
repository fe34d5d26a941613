/** The k-anonymity aggregation game of Private Lift: the two parties'
    exclusive-or shares of grouped metrics are decoded, summed, and every
    group with fewer than 100 buyers has all but its populations hidden
    before the result is revealed. The secure computation is modelled in
    the clear. */
module KAnonymity {
  import opened Common
  import opened Lift
  import opened MetricsMapping

  /** The value a hidden metric takes. */
  const HiddenMetric: Int64 := MinusOne

  const AnonymityThreshold: int := 100

  /** The condition of kAnonymizeMetrics: the 64-bit sum of the test and
      the control buyers, read as a signed number, is at least 100. */
  predicate Reportable(m: LiftMetrics)
  {
    Signed(Add64(m.testBuyers, m.controlBuyers)) >= AnonymityThreshold
  }

  /** kAnonymizeMetrics: the metrics unchanged when they are reportable,
      otherwise only the two populations, every other field -1. */
  function KAnonymizeMetrics(metrics: LiftMetrics): LiftMetrics
  {
    var condition := Reportable(metrics);
    LiftMetrics(
      metrics.testPopulation,
      metrics.controlPopulation,
      if condition then metrics.testBuyers else HiddenMetric,
      if condition then metrics.controlBuyers else HiddenMetric,
      if condition then metrics.testSales else HiddenMetric,
      if condition then metrics.controlSales else HiddenMetric,
      if condition then metrics.testSquared else HiddenMetric,
      if condition then metrics.controlSquared else HiddenMetric)
  }

  /** Reportable metrics are shown as they are; the others keep only the
      two populations and read -1 in every other field. */
  lemma KAnonymizeShowsOrHides(metrics: LiftMetrics)
    ensures Reportable(metrics) ==> KAnonymizeMetrics(metrics) == metrics
    ensures !Reportable(metrics) ==>
      var r := KAnonymizeMetrics(metrics);
      && r.testPopulation == metrics.testPopulation
      && r.controlPopulation == metrics.controlPopulation
      && (forall i :: 2 <= i < 8 ==> Signed(Fields(r)[i]) == -1)
  {
  }

  /** Hidden metrics stay hidden: -1 + -1 buyers are below the threshold. */
  lemma KAnonymizeIdempotent(metrics: LiftMetrics)
    ensures KAnonymizeMetrics(KAnonymizeMetrics(metrics)) == KAnonymizeMetrics(metrics)
  {
    if !Reportable(metrics) {
      assert Add64(HiddenMetric, HiddenMetric) == TwoTo64 - 2;
    }
  }

  /** The populations are never hidden. */
  lemma PopulationsAlwaysShown(metrics: LiftMetrics)
    ensures KAnonymizeMetrics(metrics).testPopulation == metrics.testPopulation
    ensures KAnonymizeMetrics(metrics).controlPopulation == metrics.controlPopulation
  {
  }

  /** kAnonymizeMetrics on the overall metrics and on each subgroup, on
      their own. */
  function KAnonymizeGroupedMetrics(g: GroupedLiftMetrics): (r: GroupedLiftMetrics)
    ensures r.metrics == KAnonymizeMetrics(g.metrics)
    ensures |r.subGroupMetrics| == |g.subGroupMetrics|
    ensures forall i :: 0 <= i < |g.subGroupMetrics| ==>
      r.subGroupMetrics[i] == KAnonymizeMetrics(g.subGroupMetrics[i])
  {
    GroupedLiftMetrics(KAnonymizeMetrics(g.metrics),
      seq(|g.subGroupMetrics|, i requires 0 <= i < |g.subGroupMetrics| =>
        KAnonymizeMetrics(g.subGroupMetrics[i])))
  }

  /** kAnonymizeGrouped: reads the flat vector as grouped metrics,
      anonymizes the overall metrics and then each subgroup, and writes
      them back in the same layout. */
  method KAnonymizeGrouped(metrics: seq<Int64>) returns (r: seq<Int64>)
    requires WellSized(metrics)
    ensures |r| == |metrics|
    ensures WellSized(r) && Unflatten(r) == KAnonymizeGroupedMetrics(Unflatten(metrics))
  {
    var groupedMetrics := MapVectorToGroupedLiftMetrics(metrics);
    var overall := KAnonymizeMetrics(groupedMetrics.metrics);
    var subGroupMetrics: seq<LiftMetrics> := [];
    var i := 0;
    while i < |groupedMetrics.subGroupMetrics|
      invariant 0 <= i <= |groupedMetrics.subGroupMetrics|
      invariant |subGroupMetrics| == i
      invariant forall j :: 0 <= j < i ==>
        subGroupMetrics[j] == KAnonymizeMetrics(groupedMetrics.subGroupMetrics[j])
    {
      subGroupMetrics := subGroupMetrics + [KAnonymizeMetrics(groupedMetrics.subGroupMetrics[i])];
      i := i + 1;
    }
    var anonymizedMetrics := GroupedLiftMetrics(overall, subGroupMetrics);
    assert anonymizedMetrics == KAnonymizeGroupedMetrics(groupedMetrics);
    r := MapGroupedLiftMetricsToVector(anonymizedMetrics);
  }

  /** So block k of kAnonymizeGrouped's result is block k of its input
      anonymized, for each block of eight. */
  lemma AnonymizedBlocks(metrics: seq<Int64>, r: seq<Int64>)
    requires WellSized(metrics) && WellSized(r)
    requires Unflatten(r) == KAnonymizeGroupedMetrics(Unflatten(metrics))
    ensures |r| == |metrics|
    ensures forall k :: 0 <= k < |metrics| / 8 ==>
      MetricsAt(r, 8 * k) == KAnonymizeMetrics(MetricsAt(metrics, 8 * k))
  {
    BlocksOfGrouped(metrics);
    BlocksOfGrouped(r);
  }

  /** Block k of a well-sized vector is the overall metrics for k = 0 and
      subgroup k - 1 otherwise. */
  lemma BlocksOfGrouped(v: seq<Int64>)
    requires WellSized(v)
    ensures forall k :: 0 <= k < |v| / 8 ==>
      MetricsAt(v, 8 * k) == if k == 0 then Unflatten(v).metrics else Unflatten(v).subGroupMetrics[k - 1]
  {
  }

  // ---------------------------------------------------------------------
  // play: decode the shares, sum, anonymize, reveal.
  // ---------------------------------------------------------------------

  /** Two vectors of one length combined element by element with op. */
  function Elementwise(x: seq<Int64>, y: seq<Int64>, op: (Int64, Int64) -> Int64): (r: seq<Int64>)
    requires |x| == |y|
    ensures |r| == |x|
  {
    seq(|x|, i requires 0 <= i < |x| => op(x[i], y[i]))
  }

  /** Elementwise exclusive-or, as the EmpVector's map decodes the shares. */
  function XorVectors(x: seq<Int64>, y: seq<Int64>): (r: seq<Int64>)
    requires |x| == |y|
    ensures |r| == |x|
  {
    Elementwise(x, y, Xor64)
  }

  /** Elementwise sum, as the vectors are reduced. */
  function AddVectors(x: seq<Int64>, y: seq<Int64>): (r: seq<Int64>)
    requires |x| == |y|
    ensures |r| == |x|
  {
    Elementwise(x, y, Add64)
  }

  /** Vectors all of one length n. */
  predicate AllOfLength(vs: seq<seq<Int64>>, n: nat)
  {
    forall i :: 0 <= i < |vs| ==> |vs[i]| == n
  }

  /** The left fold of AddVectors over a non-empty list of vectors. */
  function SumVectors(vs: seq<seq<Int64>>): (r: seq<Int64>)
    requires |vs| > 0 && AllOfLength(vs, |vs[0]|)
    ensures |r| == |vs[0]|
    decreases |vs|
  {
    if |vs| == 1 then vs[0]
    else AddVectors(SumVectors(vs[..|vs| - 1]), vs[|vs| - 1])
  }

  /** Both parties hold the same number of grouped metrics, all of one
      shape. */
  predicate SharesAligned(alice: seq<GroupedLiftMetrics>, bob: seq<GroupedLiftMetrics>)
  {
    && |alice| == |bob| && |alice| > 0
    && (forall i :: 0 <= i < |alice| ==> SameShape(alice[i], alice[0]))
    && (forall i :: 0 <= i < |bob| ==> SameShape(bob[i], alice[0]))
  }

  /** The decoded vectors: each pair of shares flattened and exclusive-or'ed
      element by element. */
  function Decoded(alice: seq<GroupedLiftMetrics>, bob: seq<GroupedLiftMetrics>): (vv: seq<seq<Int64>>)
    requires SharesAligned(alice, bob)
    ensures |vv| == |alice|
    ensures AllOfLength(vv, |Flatten(alice[0])|)
  {
    seq(|alice|, i requires 0 <= i < |alice| => XorVectors(Flatten(alice[i]), Flatten(bob[i])))
  }

  /** What play reveals: the anonymized grouped metrics of the sum of the
      decoded vectors. */
  function PlayResult(alice: seq<GroupedLiftMetrics>, bob: seq<GroupedLiftMetrics>): GroupedLiftMetrics
    requires SharesAligned(alice, bob)
  {
    var v := SumVectors(Decoded(alice, bob));
    assert WellSized(Flatten(alice[0]));
    KAnonymizeGroupedMetrics(Unflatten(v))
  }

  /** play: decodes the shares, sums them, anonymizes each group and
      reads the revealed vector as grouped metrics (revealing is the
      identity in the clear). */
  method Play(alice: seq<GroupedLiftMetrics>, bob: seq<GroupedLiftMetrics>) returns (r: GroupedLiftMetrics)
    requires SharesAligned(alice, bob)
    ensures r == PlayResult(alice, bob)
  {
    var vv := Decoded(alice, bob);
    var v := SumVectors(vv);
    assert WellSized(Flatten(alice[0]));
    var anonymized := KAnonymizeGrouped(v);
    var revealed := anonymized;
    r := MapVectorToGroupedLiftMetrics(revealed);
  }

  // ---------------------------------------------------------------------
  // What play computes: the anonymized sum of the metrics the shares
  // encode.
  // ---------------------------------------------------------------------

  lemma BlockFieldwise(x: seq<Int64>, y: seq<Int64>, op: (Int64, Int64) -> Int64, k: nat)
    requires |x| == |y| && 8 * k + 8 <= |x|
    ensures MetricsAt(Elementwise(x, y, op), 8 * k) == Fieldwise(MetricsAt(x, 8 * k), MetricsAt(y, 8 * k), op)
  {
  }

  /** Combining two flattened grouped metrics element by element is
      flattening their fieldwise combination. */
  lemma FlattenFieldwise(a: GroupedLiftMetrics, b: GroupedLiftMetrics, op: (Int64, Int64) -> Int64)
    requires SameShape(a, b)
    ensures Elementwise(Flatten(a), Flatten(b), op) == Flatten(GroupedFieldwise(a, b, op))
  {
    var x := Elementwise(Flatten(a), Flatten(b), op);
    var g := GroupedFieldwise(a, b, op);
    forall k | 0 <= k < |x| / 8
      ensures MetricsAt(x, 8 * k) == MetricsAt(Flatten(g), 8 * k)
    {
      FlattenBlockAt(a, k);
      FlattenBlockAt(b, k);
      FlattenBlockAt(g, k);
      BlockFieldwise(Flatten(a), Flatten(b), op, k);
    }
    BlocksEqual(x, Flatten(g));
  }

  /** The flattened metrics of a list, one vector each. */
  function FlattenEach(gs: seq<GroupedLiftMetrics>): (vv: seq<seq<Int64>>)
    ensures |vv| == |gs|
    ensures forall i :: 0 <= i < |gs| ==> vv[i] == Flatten(gs[i])
  {
    seq(|gs|, i requires 0 <= i < |gs| => Flatten(gs[i]))
  }

  /** Summing the flat vectors is flattening the grouped sum. */
  lemma {:induction false} SumFlattened(gs: seq<GroupedLiftMetrics>)
    requires AllShaped(gs)
    ensures AllOfLength(FlattenEach(gs), |Flatten(gs[0])|)
    ensures SumVectors(FlattenEach(gs)) == Flatten(GroupedSum(gs))
    decreases |gs|
  {
    if |gs| > 1 {
      var n := |gs| - 1;
      var init := gs[..n];
      assert AllShaped(init);
      SumFlattened(init);
      var vv := FlattenEach(gs);
      assert vv[..n] == FlattenEach(init);
      var s := GroupedSum(init);
      FlattenFieldwise(s, gs[n], Add64);
      calc {
        SumVectors(vv);
        AddVectors(SumVectors(vv[..n]), vv[n]);
        Elementwise(Flatten(s), Flatten(gs[n]), Add64);
        Flatten(GroupedFieldwise(s, gs[n], Add64));
        Flatten(GroupedSum(gs));
      }
    }
  }

  /** Shares whose exclusive-or is the true metrics decode to the flat
      true metrics. */
  lemma DecodedOfShares(truth: seq<GroupedLiftMetrics>, alice: seq<GroupedLiftMetrics>, bob: seq<GroupedLiftMetrics>)
    requires SharesAligned(alice, bob) && |truth| == |alice|
    requires forall i :: 0 <= i < |truth| ==> SameShape(truth[i], alice[i]) && bob[i] == GroupedXor(truth[i], alice[i])
    ensures Decoded(alice, bob) == FlattenEach(truth)
  {
    var vv := Decoded(alice, bob);
    forall i | 0 <= i < |truth|
      ensures vv[i] == Flatten(truth[i])
    {
      FlattenFieldwise(alice[i], bob[i], Xor64);
      GroupedXorCancels(truth[i], alice[i]);
    }
  }

  /** When Bob's shares are the true metrics exclusive-or'ed with Alice's
      shares, play returns the k-anonymized sum of the true metrics: the
      overall metrics and each subgroup anonymized on its own. */
  lemma PlayOfShares(truth: seq<GroupedLiftMetrics>, alice: seq<GroupedLiftMetrics>, bob: seq<GroupedLiftMetrics>)
    requires AllShaped(truth) && |alice| == |truth| == |bob|
    requires forall i :: 0 <= i < |truth| ==> SameShape(alice[i], truth[0])
    requires forall i :: 0 <= i < |truth| ==> SameShape(truth[i], alice[i]) && bob[i] == GroupedXor(truth[i], alice[i])
    ensures SharesAligned(alice, bob)
    ensures PlayResult(alice, bob) == KAnonymizeGroupedMetrics(GroupedSum(truth))
  {
    assert SharesAligned(alice, bob);
    DecodedOfShares(truth, alice, bob);
    SumFlattened(truth);
    UnflattenFlatten(GroupedSum(truth));
  }
}
