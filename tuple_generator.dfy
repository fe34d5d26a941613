/** The tuple generator's value types and metric recorder
    (fbpcf/engine/tuple_generator/ITupleGenerator.h): a Boolean
    multiplicative triple packed into the low three bits of one byte, a
    composite triple sharing one a bit over n (b, c) pairs, and the
    counters a generator reports.  The generators themselves (oblivious
    transfer over the network) are not part of this model. */
module TupleGeneration {
  import opened Common

  /** The bit 0 or 1 of a Boolean, as a byte. */
  function Bit(x: bool): (r: bv8)
    ensures r <= 1 && (r == 1 <==> x)
  {
    if x then 1 else 0
  }

  /** One party's share of a triple: a, b and c = a & b (over the parties'
      XOR), held in the low three bits of one byte as a·4 ^ b·2 ^ c. */
  datatype BooleanTuple = BooleanTuple(value: bv8)
  {
    /** The share of a: bit 2. */
    function A(): bool
    {
      (value >> 2) & 1 == 1
    }

    /** The share of b: bit 1. */
    function B(): bool
    {
      (value >> 1) & 1 == 1
    }

    /** The share of c: bit 0. */
    function C(): bool
    {
      value & 1 == 1
    }
  }

  /** BooleanTuple(a, b, c): the three bits are packed so that the getters
      give back a, b and c, and nothing above bit 2 is set. */
  function MakeTuple(a: bool, b: bool, c: bool): (t: BooleanTuple)
    ensures t.A() == a && t.B() == b && t.C() == c
    ensures t.value < 8
  {
    BooleanTuple((Bit(a) << 2) ^ (Bit(b) << 1) ^ Bit(c))
  }

  /** A composite triple: one share of a, and n shares of b and of c, with
      a & b[i] = c[i] over the parties' XOR for every i. */
  datatype CompositeBooleanTuple = CompositeBooleanTuple(a: bool, b: seq<bool>, c: seq<bool>)

  /** The composite constructor: b and c must have the same length, else
      invalid_argument. */
  function MakeCompositeTuple(a: bool, b: seq<bool>, c: seq<bool>): (r: Result<CompositeBooleanTuple>)
    ensures r.Err? <==> |b| != |c|
    ensures r.Err? ==> r.kind == InvalidArgument
    ensures r.Ok? ==> r.value.a == a && r.value.b == b && r.value.c == c
  {
    if |b| != |c| then Err(InvalidArgument) else Ok(CompositeBooleanTuple(a, b, c))
  }

  /** The eight metrics getMetrics reports. */
  datatype TupleMetrics = TupleMetrics(
    tuplesGenerated: nat,
    tuplesConsumed: nat,
    tuplesUnused: nat,
    compositeTuplesRequested: nat,
    compositeTuplesWithoutExpansionRequested: nat,
    compositeTuplesRequiringExpansionRequested: nat,
    miniTuplesWithoutExpansionRequested: nat,
    miniTuplesRequiringExpansionRequested: nat)

  /** The generator's counters: tuples generated and consumed, and the
      composite requests (and the mini tuples in them) with and without
      expansion. */
  class TuplesMetricRecorder {
    var tuplesGenerated: nat
    var tuplesConsumed: nat
    var compositeWithoutExpansion: nat
    var compositeRequiringExpansion: nat
    var miniWithoutExpansion: nat
    var miniRequiringExpansion: nat

    constructor ()
      ensures tuplesGenerated == 0 && tuplesConsumed == 0
      ensures compositeWithoutExpansion == 0 && compositeRequiringExpansion == 0
      ensures miniWithoutExpansion == 0 && miniRequiringExpansion == 0
    {
      tuplesGenerated, tuplesConsumed := 0, 0;
      compositeWithoutExpansion, compositeRequiringExpansion := 0, 0;
      miniWithoutExpansion, miniRequiringExpansion := 0, 0;
    }

    method AddTuplesGenerated(size: nat)
      modifies this
      ensures tuplesGenerated == old(tuplesGenerated) + size
      ensures tuplesConsumed == old(tuplesConsumed)
      ensures compositeWithoutExpansion == old(compositeWithoutExpansion)
      ensures compositeRequiringExpansion == old(compositeRequiringExpansion)
      ensures miniWithoutExpansion == old(miniWithoutExpansion) && miniRequiringExpansion == old(miniRequiringExpansion)
    {
      tuplesGenerated := tuplesGenerated + size;
    }

    method AddTuplesConsumed(size: nat)
      modifies this
      ensures tuplesConsumed == old(tuplesConsumed) + size
      ensures tuplesGenerated == old(tuplesGenerated)
      ensures compositeWithoutExpansion == old(compositeWithoutExpansion)
      ensures compositeRequiringExpansion == old(compositeRequiringExpansion)
      ensures miniWithoutExpansion == old(miniWithoutExpansion) && miniRequiringExpansion == old(miniRequiringExpansion)
    {
      tuplesConsumed := tuplesConsumed + size;
    }

    /** count requests of composite tuples of size `size` that need no
        expansion: count requests and count·size mini tuples. */
    method AddCompositeTuplesWithoutExpansionRequested(count: nat, size: nat)
      modifies this
      ensures compositeWithoutExpansion == old(compositeWithoutExpansion) + count
      ensures miniWithoutExpansion == old(miniWithoutExpansion) + count * size
      ensures tuplesGenerated == old(tuplesGenerated) && tuplesConsumed == old(tuplesConsumed)
      ensures compositeRequiringExpansion == old(compositeRequiringExpansion)
      ensures miniRequiringExpansion == old(miniRequiringExpansion)
    {
      compositeWithoutExpansion := compositeWithoutExpansion + count;
      miniWithoutExpansion := miniWithoutExpansion + count * size;
    }

    /** The same for requests that need expansion. */
    method AddCompositeTuplesRequiringExpansionRequested(count: nat, size: nat)
      modifies this
      ensures compositeRequiringExpansion == old(compositeRequiringExpansion) + count
      ensures miniRequiringExpansion == old(miniRequiringExpansion) + count * size
      ensures tuplesGenerated == old(tuplesGenerated) && tuplesConsumed == old(tuplesConsumed)
      ensures compositeWithoutExpansion == old(compositeWithoutExpansion)
      ensures miniWithoutExpansion == old(miniWithoutExpansion)
    {
      compositeRequiringExpansion := compositeRequiringExpansion + count;
      miniRequiringExpansion := miniRequiringExpansion + count * size;
    }

    /** getMetrics.  The unused count is a uint64 subtraction, so it wraps
        when more tuples were consumed than generated; the composite
        request total is the sum of the two kinds. */
    function GetMetrics(): (m: TupleMetrics)
      reads this
      ensures m.tuplesGenerated == tuplesGenerated && m.tuplesConsumed == tuplesConsumed
      ensures tuplesConsumed <= tuplesGenerated < 0x1_0000_0000_0000_0000 ==> m.tuplesUnused == tuplesGenerated - tuplesConsumed
      ensures m.compositeTuplesRequested == m.compositeTuplesWithoutExpansionRequested + m.compositeTuplesRequiringExpansionRequested
      ensures m.compositeTuplesWithoutExpansionRequested == compositeWithoutExpansion
      ensures m.compositeTuplesRequiringExpansionRequested == compositeRequiringExpansion
      ensures m.miniTuplesWithoutExpansionRequested == miniWithoutExpansion
      ensures m.miniTuplesRequiringExpansionRequested == miniRequiringExpansion
    {
      TupleMetrics(
        tuplesGenerated, tuplesConsumed, (tuplesGenerated - tuplesConsumed) % 0x1_0000_0000_0000_0000,
        compositeWithoutExpansion + compositeRequiringExpansion,
        compositeWithoutExpansion, compositeRequiringExpansion,
        miniWithoutExpansion, miniRequiringExpansion)
    }
  }

  /** After generating g tuples and consuming c of them (c <= g) on a
      fresh recorder, the unused count reported is g - c. */
  method UnusedScenario(g: nat, c: nat) returns (m: TupleMetrics)
    requires c <= g < 0x1_0000_0000_0000_0000
    ensures m.tuplesUnused == g - c && m.tuplesGenerated == g && m.tuplesConsumed == c
  {
    var recorder := new TuplesMetricRecorder();
    recorder.AddTuplesGenerated(g);
    recorder.AddTuplesConsumed(c);
    m := recorder.GetMetrics();
  }
}
