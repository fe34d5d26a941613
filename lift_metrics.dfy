/** Private Lift's metrics: eight 64-bit counters for the test and the
    control group, their equality, sum and exclusive-or, and their
    conversion to and from a JSON object. */
module Lift {
  import opened Common

  /** An int64_t as its two's-complement bit pattern, read as an unsigned
      number: addition wraps modulo 2^64 and exclusive-or works on the
      64 bits, as on the 64-bit integers that carry the metrics. */
  type Int64 = x: int | 0 <= x < TwoTo64

  const TwoTo63: int := 0x8000_0000_0000_0000

  /** The signed value of an Int64. */
  function Signed(x: Int64): (v: int)
    ensures -TwoTo63 <= v < TwoTo63
    ensures v < 0 <==> x >= TwoTo63
    ensures v % TwoTo64 == x
  {
    if x < TwoTo63 then x else x - TwoTo64
  }

  /** -1 in two's complement. */
  const MinusOne: Int64 := TwoTo64 - 1

  /** 64-bit addition, wrapping around. */
  function Add64(x: Int64, y: Int64): (r: Int64)
    ensures r == (x + y) % TwoTo64
  {
    if x + y < TwoTo64 then x + y else x + y - TwoTo64
  }

  /** The exclusive-or of the low n bits of x and y. */
  function XorBits(x: nat, y: nat, n: nat): nat
    decreases n
  {
    if n == 0 then 0 else 2 * XorBits(x / 2, y / 2, n - 1) + (if x % 2 != y % 2 then 1 else 0)
  }

  lemma {:induction false} XorBitsBound(x: nat, y: nat, n: nat)
    ensures XorBits(x, y, n) < Pow2(n)
    decreases n
  {
    if n > 0 {
      XorBitsBound(x / 2, y / 2, n - 1);
    }
  }

  lemma XorBits64Bound(x: nat, y: nat)
    ensures XorBits(x, y, 64) < TwoTo64
  {
    XorBitsBound(x, y, 64);
    Pow2Natives();
  }

  lemma {:induction false} XorBitsCancel(x: nat, y: nat, n: nat)
    requires x < Pow2(n)
    ensures XorBits(XorBits(x, y, n), y, n) == x
    decreases n
  {
    if n > 0 {
      var z := XorBits(x, y, n);
      var z' := XorBits(x / 2, y / 2, n - 1);
      XorBitsBound(x / 2, y / 2, n - 1);
      assert z / 2 == z' && z % 2 == (if x % 2 != y % 2 then 1 else 0);
      XorBitsCancel(x / 2, y / 2, n - 1);
    }
  }

  lemma {:induction false} XorBitsCommutes(x: nat, y: nat, n: nat)
    ensures XorBits(x, y, n) == XorBits(y, x, n)
    decreases n
  {
    if n > 0 {
      XorBitsCommutes(x / 2, y / 2, n - 1);
    }
  }

  /** 64-bit exclusive-or. */
  function Xor64(x: Int64, y: Int64): Int64
  {
    XorBits64Bound(x, y);
    XorBits(x, y, 64)
  }

  lemma Xor64Cancels(x: Int64, y: Int64)
    ensures Xor64(Xor64(x, y), y) == x
    ensures Xor64(y, Xor64(x, y)) == x
  {
    Pow2Natives();
    XorBitsCancel(x, y, 64);
    XorBitsCommutes(y, Xor64(x, y), 64);
  }

  lemma Xor64Commutes(x: Int64, y: Int64)
    ensures Xor64(x, y) == Xor64(y, x)
  {
    XorBitsCommutes(x, y, 64);
  }

  lemma Add64Associates(x: Int64, y: Int64, z: Int64)
    ensures Add64(Add64(x, y), z) == Add64(x, Add64(y, z))
  {
  }

  datatype LiftMetrics = LiftMetrics(
    testPopulation: Int64,
    controlPopulation: Int64,
    testBuyers: Int64,
    controlBuyers: Int64,
    testSales: Int64,
    controlSales: Int64,
    testSquared: Int64,
    controlSquared: Int64)

  /** operator==: all eight fields agree. */
  function Equal(a: LiftMetrics, b: LiftMetrics): (r: bool)
    ensures r <==> a == b
  {
    && a.testPopulation == b.testPopulation
    && a.controlPopulation == b.controlPopulation
    && a.testBuyers == b.testBuyers && a.controlBuyers == b.controlBuyers
    && a.testSales == b.testSales && a.controlSales == b.controlSales
    && a.testSquared == b.testSquared
    && a.controlSquared == b.controlSquared
  }

  /** The metrics combined field by field with op. */
  function Fieldwise(a: LiftMetrics, b: LiftMetrics, op: (Int64, Int64) -> Int64): LiftMetrics
  {
    LiftMetrics(
      op(a.testPopulation, b.testPopulation),
      op(a.controlPopulation, b.controlPopulation),
      op(a.testBuyers, b.testBuyers),
      op(a.controlBuyers, b.controlBuyers),
      op(a.testSales, b.testSales),
      op(a.controlSales, b.controlSales),
      op(a.testSquared, b.testSquared),
      op(a.controlSquared, b.controlSquared))
  }

  /** operator+: fieldwise 64-bit sums. */
  function Plus(a: LiftMetrics, b: LiftMetrics): LiftMetrics
  {
    Fieldwise(a, b, Add64)
  }

  /** operator^: fieldwise exclusive-or. */
  function Xor(a: LiftMetrics, b: LiftMetrics): LiftMetrics
  {
    Fieldwise(a, b, Xor64)
  }

  /** The all-zero metrics, the unit of both operators. */
  const ZeroMetrics := LiftMetrics(0, 0, 0, 0, 0, 0, 0, 0)

  lemma PlusCommutes(a: LiftMetrics, b: LiftMetrics)
    ensures Plus(a, b) == Plus(b, a)
  {
  }

  lemma PlusAssociates(a: LiftMetrics, b: LiftMetrics, c: LiftMetrics)
    ensures Plus(Plus(a, b), c) == Plus(a, Plus(b, c))
  {
    Add64Associates(a.testPopulation, b.testPopulation, c.testPopulation);
    Add64Associates(a.controlPopulation, b.controlPopulation, c.controlPopulation);
    Add64Associates(a.testBuyers, b.testBuyers, c.testBuyers);
    Add64Associates(a.controlBuyers, b.controlBuyers, c.controlBuyers);
    Add64Associates(a.testSales, b.testSales, c.testSales);
    Add64Associates(a.controlSales, b.controlSales, c.controlSales);
    Add64Associates(a.testSquared, b.testSquared, c.testSquared);
    Add64Associates(a.controlSquared, b.controlSquared, c.controlSquared);
  }

  lemma PlusZero(a: LiftMetrics)
    ensures Plus(a, ZeroMetrics) == a
  {
  }

  /** Exclusive-or with the same metrics twice gives the metrics back:
      an exclusive-or share decodes. */
  lemma XorCancels(a: LiftMetrics, b: LiftMetrics)
    ensures Xor(Xor(a, b), b) == a
    ensures Xor(b, Xor(a, b)) == a
  {
    Xor64Cancels(a.testPopulation, b.testPopulation);
    Xor64Cancels(a.controlPopulation, b.controlPopulation);
    Xor64Cancels(a.testBuyers, b.testBuyers);
    Xor64Cancels(a.controlBuyers, b.controlBuyers);
    Xor64Cancels(a.testSales, b.testSales);
    Xor64Cancels(a.controlSales, b.controlSales);
    Xor64Cancels(a.testSquared, b.testSquared);
    Xor64Cancels(a.controlSquared, b.controlSquared);
  }

  lemma XorCommutes(a: LiftMetrics, b: LiftMetrics)
    ensures Xor(a, b) == Xor(b, a)
  {
    Xor64Commutes(a.testPopulation, b.testPopulation);
    Xor64Commutes(a.controlPopulation, b.controlPopulation);
    Xor64Commutes(a.testBuyers, b.testBuyers);
    Xor64Commutes(a.controlBuyers, b.controlBuyers);
    Xor64Commutes(a.testSales, b.testSales);
    Xor64Commutes(a.controlSales, b.controlSales);
    Xor64Commutes(a.testSquared, b.testSquared);
    Xor64Commutes(a.controlSquared, b.controlSquared);
  }

  // ---------------------------------------------------------------------
  // toDynamic / fromDynamic: a JSON object with one integer per field.
  // ---------------------------------------------------------------------

  /** A JSON object whose values are integers (folly's int64). */
  type Dynamic = map<string, Int64>

  const FieldNames: seq<string> := ["testPopulation", "controlPopulation", "testBuyers",
    "controlBuyers", "testSales", "controlSales", "testSquared", "controlSquared"]

  /** The fields in the order of the struct. */
  function Fields(m: LiftMetrics): (r: seq<Int64>)
    ensures |r| == 8
  {
    [m.testPopulation, m.controlPopulation, m.testBuyers, m.controlBuyers,
     m.testSales, m.controlSales, m.testSquared, m.controlSquared]
  }

  /** toDynamic: one key per field, named after it. */
  function ToDynamic(m: LiftMetrics): (d: Dynamic)
    ensures forall k :: k in d <==> k in FieldNames
    ensures forall i :: 0 <= i < 8 ==> d[FieldNames[i]] == Fields(m)[i]
  {
    map[
      "testPopulation" := m.testPopulation,
      "controlPopulation" := m.controlPopulation,
      "testBuyers" := m.testBuyers,
      "controlBuyers" := m.controlBuyers,
      "testSales" := m.testSales,
      "controlSales" := m.controlSales,
      "testSquared" := m.testSquared,
      "controlSquared" := m.controlSquared]
  }

  /** The object has all eight keys. */
  predicate HasAllFields(d: Dynamic)
  {
    && "testPopulation" in d && "controlPopulation" in d && "testBuyers" in d
    && "controlBuyers" in d && "testSales" in d && "controlSales" in d
    && "testSquared" in d && "controlSquared" in d
  }

  /** fromDynamic: reads the eight keys; a missing key is an out_of_range
      (keys beyond the eight are ignored). */
  function FromDynamic(d: Dynamic): (r: Result<LiftMetrics>)
    ensures r.Ok? <==> forall k :: k in FieldNames ==> k in d
    ensures r.Err? ==> r.kind == OutOfRange
    ensures r.Ok? ==> forall i :: 0 <= i < 8 ==> Fields(r.value)[i] == d[FieldNames[i]]
  {
    if HasAllFields(d) then
      Ok(LiftMetrics(d["testPopulation"], d["controlPopulation"], d["testBuyers"],
        d["controlBuyers"], d["testSales"], d["controlSales"], d["testSquared"],
        d["controlSquared"]))
    else
      Err(OutOfRange)
  }

  /** Two metrics with the same fields are equal. */
  lemma FieldsInjective(a: LiftMetrics, b: LiftMetrics)
    requires Fields(a) == Fields(b)
    ensures a == b
  {
    assert Fields(a)[0] == Fields(b)[0] && Fields(a)[1] == Fields(b)[1];
    assert Fields(a)[2] == Fields(b)[2] && Fields(a)[3] == Fields(b)[3];
    assert Fields(a)[4] == Fields(b)[4] && Fields(a)[5] == Fields(b)[5];
    assert Fields(a)[6] == Fields(b)[6] && Fields(a)[7] == Fields(b)[7];
  }

  lemma FromDynamicToDynamic(m: LiftMetrics)
    ensures FromDynamic(ToDynamic(m)) == Ok(m)
  {
    var d := ToDynamic(m);
    FieldsInjective(FromDynamic(d).value, m);
  }

  /** An object that fromDynamic accepts comes back from toDynamic with
      the same eight keys and values. */
  lemma ToDynamicFromDynamic(d: Dynamic)
    requires FromDynamic(d).Ok?
    ensures forall i :: 0 <= i < 8 ==> ToDynamic(FromDynamic(d).value)[FieldNames[i]] == d[FieldNames[i]]
  {
  }

  // ---------------------------------------------------------------------
  // Grouped metrics: the overall metrics and one per subgroup.
  // ---------------------------------------------------------------------

  datatype GroupedLiftMetrics = GroupedLiftMetrics(metrics: LiftMetrics, subGroupMetrics: seq<LiftMetrics>)

  /** Two grouped metrics with the same number of subgroups. */
  predicate SameShape(a: GroupedLiftMetrics, b: GroupedLiftMetrics)
  {
    |a.subGroupMetrics| == |b.subGroupMetrics|
  }

  /** Two grouped metrics of the same shape combined with op: overall
      with overall, subgroup with subgroup. */
  function GroupedFieldwise(a: GroupedLiftMetrics, b: GroupedLiftMetrics, op: (Int64, Int64) -> Int64): (r: GroupedLiftMetrics)
    requires SameShape(a, b)
    ensures SameShape(r, a)
    ensures r.metrics == Fieldwise(a.metrics, b.metrics, op)
    ensures forall i :: 0 <= i < |a.subGroupMetrics| ==>
      r.subGroupMetrics[i] == Fieldwise(a.subGroupMetrics[i], b.subGroupMetrics[i], op)
  {
    GroupedLiftMetrics(Fieldwise(a.metrics, b.metrics, op),
      seq(|a.subGroupMetrics|, i requires 0 <= i < |a.subGroupMetrics| =>
        Fieldwise(a.subGroupMetrics[i], b.subGroupMetrics[i], op)))
  }

  /** The sum of two grouped metrics of the same shape. */
  function GroupedPlus(a: GroupedLiftMetrics, b: GroupedLiftMetrics): (r: GroupedLiftMetrics)
    requires SameShape(a, b)
    ensures SameShape(r, a)
  {
    GroupedFieldwise(a, b, Add64)
  }

  /** The exclusive-or of two grouped metrics of the same shape. */
  function GroupedXor(a: GroupedLiftMetrics, b: GroupedLiftMetrics): (r: GroupedLiftMetrics)
    requires SameShape(a, b)
    ensures SameShape(r, a)
  {
    GroupedFieldwise(a, b, Xor64)
  }

  lemma GroupedXorCancels(a: GroupedLiftMetrics, b: GroupedLiftMetrics)
    requires SameShape(a, b)
    ensures GroupedXor(b, GroupedXor(a, b)) == a
  {
    var r := GroupedXor(b, GroupedXor(a, b));
    XorCancels(a.metrics, b.metrics);
    forall i | 0 <= i < |a.subGroupMetrics|
      ensures r.subGroupMetrics[i] == a.subGroupMetrics[i]
    {
      XorCancels(a.subGroupMetrics[i], b.subGroupMetrics[i]);
    }
  }

  /** A non-empty list of grouped metrics of one shape. */
  predicate AllShaped(gs: seq<GroupedLiftMetrics>)
  {
    |gs| > 0 && forall i :: 0 <= i < |gs| ==> SameShape(gs[i], gs[0])
  }

  /** The left fold of GroupedPlus over a non-empty list, as the
      aggregation reduces it. */
  function GroupedSum(gs: seq<GroupedLiftMetrics>): (r: GroupedLiftMetrics)
    requires AllShaped(gs)
    ensures SameShape(r, gs[0])
    decreases |gs|
  {
    if |gs| == 1 then gs[0]
    else
      assert AllShaped(gs[..|gs| - 1]);
      GroupedPlus(GroupedSum(gs[..|gs| - 1]), gs[|gs| - 1])
  }
}
