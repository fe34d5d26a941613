/** The plaintext scheduler (fbpcf/scheduler/PlaintextScheduler.cpp): every
    gate is evaluated at once on plain Booleans, its result stored on a new
    wire of the wire keeper (at level 0), and the gate counted as free or
    non-free.  AND of two private values and opening a value to a party
    are the non-free gates. */
module PlaintextScheduling {
  import opened Common
  import opened WireKeeping

  /** Bitwise AND of two batches of one size. */
  function AndBits(a: seq<bool>, b: seq<bool>): (r: seq<bool>)
    requires |a| == |b|
    ensures |r| == |a| && forall i :: 0 <= i < |a| ==> r[i] == (a[i] && b[i])
    decreases |a|
  {
    if |a| == 0 then [] else AndBits(a[..|a| - 1], b[..|b| - 1]) + [a[|a| - 1] && b[|b| - 1]]
  }

  /** Bitwise XOR of two batches of one size. */
  function XorBits(a: seq<bool>, b: seq<bool>): (r: seq<bool>)
    requires |a| == |b|
    ensures |r| == |a| && forall i :: 0 <= i < |a| ==> r[i] == (a[i] != b[i])
    decreases |a|
  {
    if |a| == 0 then [] else XorBits(a[..|a| - 1], b[..|b| - 1]) + [a[|a| - 1] != b[|b| - 1]]
  }

  /** Bitwise negation of a batch. */
  function NotBits(a: seq<bool>): (r: seq<bool>)
    ensures |r| == |a| && forall i :: 0 <= i < |a| ==> r[i] == !a[i]
    decreases |a|
  {
    if |a| == 0 then [] else NotBits(a[..|a| - 1]) + [!a[|a| - 1]]
  }

  /** A composite AND: the left value ANDed with each right value. */
  function AndEach(left: bool, rights: seq<bool>): (r: seq<bool>)
    ensures |r| == |rights| && forall i :: 0 <= i < |rights| ==> r[i] == (left && rights[i])
    decreases |rights|
  {
    if |rights| == 0 then [] else AndEach(left, rights[..|rights| - 1]) + [left && rights[|rights| - 1]]
  }

  /** Every batch has n values. */
  predicate AllSized(batches: seq<seq<bool>>, n: nat)
  {
    forall i :: 0 <= i < |batches| ==> |batches[i]| == n
  }

  /** A batched composite AND: the left batch ANDed with each right batch. */
  function AndEachBatch(left: seq<bool>, rights: seq<seq<bool>>): (r: seq<seq<bool>>)
    requires AllSized(rights, |left|)
    ensures |r| == |rights| && forall i :: 0 <= i < |rights| ==> r[i] == AndBits(left, rights[i])
    decreases |rights|
  {
    if |rights| == 0 then []
    else AndEachBatch(left, rights[..|rights| - 1]) + [AndBits(left, rights[|rights| - 1])]
  }

  /** The gates a batched composite AND counts: the left batch size
      times the number of right wires. */
  function BatchGateCount(batchSize: nat, rights: nat): nat
  {
    batchSize * rights
  }

  /** A batched composite AND counts one gate per value it computes. */
  lemma {:induction false} BatchGateCountIsOutputSize(left: seq<bool>, bs: seq<seq<bool>>)
    requires AllSized(bs, |left|)
    ensures TotalLength(AndEachBatch(left, bs)) == BatchGateCount(|left|, |bs|)
    decreases |bs|
  {
    if |bs| > 0 {
      var n := |bs| - 1;
      var r := AndEachBatch(left, bs);
      assert r[..n] == AndEachBatch(left, bs[..n]);
      BatchGateCountIsOutputSize(left, bs[..n]);
      MulSucc(|left|, n);
    }
  }

  lemma MulSucc(a: nat, n: nat)
    ensures a * (n + 1) == a * n + a
  {
  }

  /** The loop of privateAndPrivateBatch and privateAndPublicBatch. */
  method AndLoop(a: seq<bool>, b: seq<bool>) returns (rst: seq<bool>)
    requires |a| == |b|
    ensures rst == AndBits(a, b)
  {
    var buffer := new bool[|a|];
    for i := 0 to |a|
      invariant forall k :: 0 <= k < i ==> buffer[k] == (a[k] && b[k])
    {
      buffer[i] := a[i] && b[i];
    }
    rst := buffer[..];
  }

  /** The loop of privateXorPrivateBatch. */
  method XorLoop(a: seq<bool>, b: seq<bool>) returns (rst: seq<bool>)
    requires |a| == |b|
    ensures rst == XorBits(a, b)
  {
    var buffer := new bool[|a|];
    for i := 0 to |a|
      invariant forall k :: 0 <= k < i ==> buffer[k] == (a[k] != b[k])
    {
      buffer[i] := a[i] != b[i];
    }
    rst := buffer[..];
  }

  /** The loop of notPrivateBatch. */
  method NotLoop(a: seq<bool>) returns (rst: seq<bool>)
    ensures rst == NotBits(a)
  {
    var buffer := new bool[|a|];
    for i := 0 to |a|
      invariant forall k :: 0 <= k < i ==> buffer[k] == !a[k]
    {
      buffer[i] := !a[i];
    }
    rst := buffer[..];
  }

  /** Batching then unbatching by the batches' sizes gives the batches
      back, and unbatching then batching gives back the sliced prefix. */
  lemma UnbatchingInvertsBatchingUp(batches: seq<seq<bool>>)
    ensures Sum(Lengths(batches)) == |Concat(batches)|
    ensures Slices(Concat(batches), Lengths(batches)) == batches
  {
    SlicesConcat(batches);
    SumLengths(batches);
  }

  class PlaintextScheduler {
    const wireKeeper: WireKeeper
    var freeGates: nat
    var nonFreeGates: nat

    ghost predicate Valid()
      reads this, wireKeeper
    {
      wireKeeper.Valid()
    }

    constructor (wireKeeper: WireKeeper)
      requires wireKeeper.Valid()
      ensures Valid() && this.wireKeeper == wireKeeper
      ensures freeGates == 0 && nonFreeGates == 0
    {
      this.wireKeeper := wireKeeper;
      freeGates := 0;
      nonFreeGates := 0;
    }

    /** The gate counters went up by free and nonFree. */
    twostate predicate Counted(free: nat, nonFree: nat)
      reads this
    {
      freeGates == old(freeGates) + free && nonFreeGates == old(nonFreeGates) + nonFree
    }

    /** privateBooleanInput, publicBooleanInput and recoverBooleanWire: a
        free gate storing the value on a new wire. */
    method BooleanInput(v: bool) returns (w: nat)
      requires Valid()
      modifies this, wireKeeper
      ensures Valid() && Counted(1, 0)
      ensures wireKeeper.BoolsAllocated([w], WireRecord(v, 0, 1, 0))
    {
      freeGates := freeGates + 1;
      w := wireKeeper.AllocateBooleanValue(v, 0);
      assert [w][..0] == [];
    }

    /** The batch inputs: one free gate per value of the batch. */
    method BooleanInputBatch(v: seq<bool>) returns (w: nat)
      requires Valid()
      modifies this, wireKeeper
      ensures Valid() && Counted(|v|, 0)
      ensures wireKeeper.BatchBoolsAllocated([w], WireRecord(v, 0, 1, 0))
    {
      freeGates := freeGates + |v|;
      w := wireKeeper.AllocateBatchBooleanValue(v, 0, 0);
      assert [w][..0] == [];
    }

    /** openBooleanValueToParty: a non-free gate copying the value. */
    method OpenBooleanValueToParty(src: nat, partyId: int) returns (w: nat)
      requires Valid() && src in wireKeeper.boolWires
      modifies this, wireKeeper
      ensures Valid() && Counted(0, 1)
      ensures wireKeeper.BoolsAllocated([w], WireRecord(old(wireKeeper.boolWires[src].v), 0, 1, 0))
    {
      nonFreeGates := nonFreeGates + 1;
      w := wireKeeper.AllocateBooleanValue(wireKeeper.boolWires[src].v, 0);
      assert [w][..0] == [];
    }

    /** openBooleanValueToPartyBatch: one non-free gate per value. */
    method OpenBooleanValueToPartyBatch(src: nat, partyId: int) returns (w: nat)
      requires Valid() && src in wireKeeper.boolBatchWires
      modifies this, wireKeeper
      ensures Valid() && Counted(0, |old(wireKeeper.boolBatchWires[src].v)|)
      ensures wireKeeper.BatchBoolsAllocated([w], WireRecord(old(wireKeeper.boolBatchWires[src].v), 0, 1, 0))
    {
      var v := wireKeeper.boolBatchWires[src].v;
      nonFreeGates := nonFreeGates + |v|;
      w := wireKeeper.AllocateBatchBooleanValue(v, 0, 0);
      assert [w][..0] == [];
    }

    /** privateAndPrivate: the non-free AND. */
    method PrivateAndPrivate(left: nat, right: nat) returns (w: nat)
      requires Valid() && left in wireKeeper.boolWires && right in wireKeeper.boolWires
      modifies this, wireKeeper
      ensures Valid() && Counted(0, 1)
      ensures wireKeeper.BoolsAllocated([w],
        WireRecord(old(wireKeeper.boolWires[left].v) && old(wireKeeper.boolWires[right].v), 0, 1, 0))
    {
      nonFreeGates := nonFreeGates + 1;
      w := wireKeeper.AllocateBooleanValue(wireKeeper.boolWires[left].v && wireKeeper.boolWires[right].v, 0);
      assert [w][..0] == [];
    }

    /** privateAndPublic and publicAndPublic: the free AND. */
    method PrivateAndPublic(left: nat, right: nat) returns (w: nat)
      requires Valid() && left in wireKeeper.boolWires && right in wireKeeper.boolWires
      modifies this, wireKeeper
      ensures Valid() && Counted(1, 0)
      ensures wireKeeper.BoolsAllocated([w],
        WireRecord(old(wireKeeper.boolWires[left].v) && old(wireKeeper.boolWires[right].v), 0, 1, 0))
    {
      freeGates := freeGates + 1;
      w := wireKeeper.AllocateBooleanValue(wireKeeper.boolWires[left].v && wireKeeper.boolWires[right].v, 0);
      assert [w][..0] == [];
    }

    /** privateAndPrivateBatch: batches of different sizes throw
        invalid_argument before anything is counted. */
    method PrivateAndPrivateBatch(left: nat, right: nat) returns (r: Result<nat>)
      requires Valid() && left in wireKeeper.boolBatchWires && right in wireKeeper.boolBatchWires
      modifies this, wireKeeper
      ensures Valid()
      ensures var a, b := old(wireKeeper.boolBatchWires[left].v), old(wireKeeper.boolBatchWires[right].v);
        && (r.Err? <==> |a| != |b|)
        && (r.Err? ==> r.kind == InvalidArgument && unchanged(this, wireKeeper))
        && (r.Ok? ==> Counted(0, |a|) && wireKeeper.BatchBoolsAllocated([r.value], WireRecord(AndBits(a, b), 0, 1, 0)))
    {
      var a := wireKeeper.boolBatchWires[left].v;
      var b := wireKeeper.boolBatchWires[right].v;
      if |a| != |b| {
        return Err(InvalidArgument);
      }
      nonFreeGates := nonFreeGates + |a|;
      var rst := AndLoop(a, b);
      var w := wireKeeper.AllocateBatchBooleanValue(rst, 0, 0);
      assert [w][..0] == [];
      return Ok(w);
    }

    /** privateAndPublicBatch and publicAndPublicBatch: the free batch AND. */
    method PrivateAndPublicBatch(left: nat, right: nat) returns (r: Result<nat>)
      requires Valid() && left in wireKeeper.boolBatchWires && right in wireKeeper.boolBatchWires
      modifies this, wireKeeper
      ensures Valid()
      ensures var a, b := old(wireKeeper.boolBatchWires[left].v), old(wireKeeper.boolBatchWires[right].v);
        && (r.Err? <==> |a| != |b|)
        && (r.Err? ==> r.kind == InvalidArgument && unchanged(this, wireKeeper))
        && (r.Ok? ==> Counted(|a|, 0) && wireKeeper.BatchBoolsAllocated([r.value], WireRecord(AndBits(a, b), 0, 1, 0)))
    {
      var a := wireKeeper.boolBatchWires[left].v;
      var b := wireKeeper.boolBatchWires[right].v;
      if |a| != |b| {
        return Err(InvalidArgument);
      }
      freeGates := freeGates + |a|;
      var rst := AndLoop(a, b);
      var w := wireKeeper.AllocateBatchBooleanValue(rst, 0, 0);
      assert [w][..0] == [];
      return Ok(w);
    }

    /** privateXorPrivate, privateXorPublic and publicXorPublic: the free
        XOR. */
    method PrivateXorPrivate(left: nat, right: nat) returns (w: nat)
      requires Valid() && left in wireKeeper.boolWires && right in wireKeeper.boolWires
      modifies this, wireKeeper
      ensures Valid() && Counted(1, 0)
      ensures wireKeeper.BoolsAllocated([w],
        WireRecord(old(wireKeeper.boolWires[left].v) != old(wireKeeper.boolWires[right].v), 0, 1, 0))
    {
      freeGates := freeGates + 1;
      w := wireKeeper.AllocateBooleanValue(wireKeeper.boolWires[left].v != wireKeeper.boolWires[right].v, 0);
      assert [w][..0] == [];
    }

    /** The batch XORs: batches of different sizes throw invalid_argument. */
    method PrivateXorPrivateBatch(left: nat, right: nat) returns (r: Result<nat>)
      requires Valid() && left in wireKeeper.boolBatchWires && right in wireKeeper.boolBatchWires
      modifies this, wireKeeper
      ensures Valid()
      ensures var a, b := old(wireKeeper.boolBatchWires[left].v), old(wireKeeper.boolBatchWires[right].v);
        && (r.Err? <==> |a| != |b|)
        && (r.Err? ==> r.kind == InvalidArgument && unchanged(this, wireKeeper))
        && (r.Ok? ==> Counted(|a|, 0) && wireKeeper.BatchBoolsAllocated([r.value], WireRecord(XorBits(a, b), 0, 1, 0)))
    {
      var a := wireKeeper.boolBatchWires[left].v;
      var b := wireKeeper.boolBatchWires[right].v;
      if |a| != |b| {
        return Err(InvalidArgument);
      }
      freeGates := freeGates + |a|;
      var rst := XorLoop(a, b);
      var w := wireKeeper.AllocateBatchBooleanValue(rst, 0, 0);
      assert [w][..0] == [];
      return Ok(w);
    }

    /** notPrivate and notPublic: the free NOT. */
    method NotPrivate(src: nat) returns (w: nat)
      requires Valid() && src in wireKeeper.boolWires
      modifies this, wireKeeper
      ensures Valid() && Counted(1, 0)
      ensures wireKeeper.BoolsAllocated([w], WireRecord(!old(wireKeeper.boolWires[src].v), 0, 1, 0))
    {
      freeGates := freeGates + 1;
      w := wireKeeper.AllocateBooleanValue(!wireKeeper.boolWires[src].v, 0);
      assert [w][..0] == [];
    }

    /** notPrivateBatch and notPublicBatch. */
    method NotPrivateBatch(src: nat) returns (w: nat)
      requires Valid() && src in wireKeeper.boolBatchWires
      modifies this, wireKeeper
      ensures Valid() && Counted(|old(wireKeeper.boolBatchWires[src].v)|, 0)
      ensures wireKeeper.BatchBoolsAllocated([w], WireRecord(NotBits(old(wireKeeper.boolBatchWires[src].v)), 0, 1, 0))
    {
      var v := wireKeeper.boolBatchWires[src].v;
      freeGates := freeGates + |v|;
      var rst := NotLoop(v);
      w := wireKeeper.AllocateBatchBooleanValue(rst, 0, 0);
      assert [w][..0] == [];
    }

    /** computeCompositeAND: the counter chosen by nonFree goes up by the
        number of right wires, and each right wire gets a new wire holding
        left AND right. */
    method ComputeCompositeAnd(left: nat, rights: seq<nat>, nonFree: bool) returns (outputs: seq<nat>)
      requires Valid() && left in wireKeeper.boolWires
      requires forall i :: 0 <= i < |rights| ==> rights[i] in wireKeeper.boolWires
      modifies this, wireKeeper
      ensures Valid()
      ensures if nonFree then Counted(0, |rights|) else Counted(|rights|, 0)
      ensures wireKeeper.BoolsAllocatedAs(outputs,
        FreshRecords(AndEach(old(wireKeeper.boolWires[left].v), ValuesOf(old(wireKeeper.boolWires), rights)), 0))
    {
      if nonFree {
        nonFreeGates := nonFreeGates + |rights|;
      } else {
        freeGates := freeGates + |rights|;
      }
      outputs := AllocateAnds(wireKeeper, wireKeeper.boolWires[left].v, rights);
    }

    /** validateAndComputeBatchCompositeAND: each right batch must have the
        left batch's size, or invalid_argument is thrown (the wires
        allocated for earlier right wires stay allocated and nothing is
        counted); on success the chosen counter goes up by the left size
        times the number of right wires. */
    method ComputeBatchCompositeAnd(left: nat, rights: seq<nat>, nonFree: bool) returns (r: Result<seq<nat>>)
      requires Valid() && left in wireKeeper.boolBatchWires
      requires forall i :: 0 <= i < |rights| ==> rights[i] in wireKeeper.boolBatchWires
      modifies this, wireKeeper
      ensures Valid()
      ensures var a := old(wireKeeper.boolBatchWires[left].v);
        var bs := ValuesOf(old(wireKeeper.boolBatchWires), rights);
        && (r.Err? <==> !AllSized(bs, |a|))
        && (r.Err? ==> r.kind == InvalidArgument && Counted(0, 0) && BatchesKept(wireKeeper))
        && (r.Ok? ==> (
          && AllSized(bs, |a|)
          && (if nonFree then Counted(0, BatchGateCount(|a|, |rights|)) else Counted(BatchGateCount(|a|, |rights|), 0))
          && wireKeeper.BatchBoolsAllocatedAs(r.value, FreshRecords(AndEachBatch(a, bs), 0))))
    {
      var leftValue := wireKeeper.boolBatchWires[left].v;
      var count := BatchGateCount(|leftValue|, |rights|);
      r := AllocateBatchAnds(wireKeeper, leftValue, rights);
      if r.Ok? {
        if nonFree {
          nonFreeGates := nonFreeGates + count;
        } else {
          freeGates := freeGates + count;
        }
      }
    }

    /** batchingUp: one new batch wire holding the source batches
        concatenated in order. */
    method BatchingUp(src: seq<nat>) returns (w: nat)
      requires Valid() && forall i :: 0 <= i < |src| ==> src[i] in wireKeeper.boolBatchWires
      modifies wireKeeper
      ensures Valid()
      ensures wireKeeper.BatchBoolsAllocated([w],
        WireRecord(Concat(ValuesOf(old(wireKeeper.boolBatchWires), src)), 0, 1, 0))
    {
      var vector := Flatten(ValuesOf(wireKeeper.boolBatchWires, src));
      w := wireKeeper.AllocateBatchBooleanValue(vector, 0, 0);
      assert [w][..0] == [];
    }

    /** unbatching: consecutive slices of the source batch, slice i of
        strategy[i] values, each on a new batch wire; a strategy asking for
        more values than the batch has throws (the slices allocated before
        stay allocated). */
    method Unbatching(src: nat, strategy: seq<nat>) returns (r: Result<seq<nat>>)
      requires Valid() && src in wireKeeper.boolBatchWires
      modifies wireKeeper
      ensures Valid()
      ensures var batch := old(wireKeeper.boolBatchWires[src].v);
        && (r.Err? <==> Sum(strategy) > |batch|)
        && (r.Err? ==> r.kind == RuntimeError && BatchesKept(wireKeeper))
        && (r.Ok? ==> wireKeeper.BatchBoolsAllocatedAs(r.value, FreshRecords(Slices(batch, strategy), 0)))
    {
      var batch := wireKeeper.boolBatchWires[src].v;
      ghost var start := wireKeeper.boolBatchWires;
      var index := 0;
      var i := 0;
      var slices := [];
      while i < |strategy| && index + strategy[i] <= |batch|
        invariant i <= |strategy| && index == Sum(strategy[..i]) <= |batch|
        modifies {}
        invariant slices == Slices(batch, strategy[..i])
      {
        var v := CopySlice(batch, index, strategy[i]);
        SlicesStep(batch, strategy, i);
        slices := slices + [v];
        index := index + strategy[i];
        i := i + 1;
      }
      var outputs := AllocateBatchBooleans(wireKeeper, slices, 0);
      if i < |strategy| {
        SumStep(strategy, i);
        SumPrefix(strategy, i + 1);
        WithRecordsExtends(start, outputs, FreshRecords(slices, 0));
        return Err(RuntimeError);
      }
      assert strategy[..|strategy|] == strategy;
      return Ok(outputs);
    }
  }

  /** Every batch wire live before is live now with the same record. */
  twostate predicate BatchesKept(keeper: WireKeeper)
    reads keeper
  {
    forall k :: k in old(keeper.boolBatchWires) ==>
      k in keeper.boolBatchWires && keeper.boolBatchWires[k] == old(keeper.boolBatchWires[k])
  }

  /** The loop of computeCompositeAND: a new wire per right wire, in
      order, holding left AND the right wire's value.  The values are all
      read before the first wire is allocated, which gives the same result
      since only new wires are written. */
  method AllocateAnds(keeper: WireKeeper, left: bool, rights: seq<nat>) returns (outputs: seq<nat>)
    requires keeper.Valid() && forall i :: 0 <= i < |rights| ==> rights[i] in keeper.boolWires
    modifies keeper
    ensures keeper.Valid()
    ensures keeper.BoolsAllocatedAs(outputs, FreshRecords(AndEach(left, ValuesOf(old(keeper.boolWires), rights)), 0))
  {
    var results := AndValues(keeper, left, rights);
    outputs := AllocateBooleans(keeper, results, 0);
  }

  /** The values of the loop of computeCompositeAND, read before any wire
      is allocated. */
  method AndValues(keeper: WireKeeper, left: bool, rights: seq<nat>) returns (results: seq<bool>)
    requires forall i :: 0 <= i < |rights| ==> rights[i] in keeper.boolWires
    ensures results == AndEach(left, ValuesOf(keeper.boolWires, rights))
  {
    ghost var values := ValuesOf(keeper.boolWires, rights);
    results := [];
    for i := 0 to |rights|
      invariant results == AndEach(left, values[..i])
    {
      AndEachStep(left, values, i);
      results := results + [left && keeper.boolWires[rights[i]].v];
    }
    assert values[..|rights|] == values;
  }

  /** The loop of validateAndComputeBatchCompositeAND: a new batch wire per
      right wire, in order, holding the left batch AND the right batch; the
      first right batch of another size stops it with invalid_argument,
      after the wires of the right batches before it were allocated. */
  method AllocateBatchAnds(keeper: WireKeeper, left: seq<bool>, rights: seq<nat>) returns (r: Result<seq<nat>>)
    requires keeper.Valid() && forall i :: 0 <= i < |rights| ==> rights[i] in keeper.boolBatchWires
    modifies keeper
    ensures keeper.Valid()
    ensures var bs := ValuesOf(old(keeper.boolBatchWires), rights);
      && (r.Err? <==> !AllSized(bs, |left|))
      && (r.Err? ==> r.kind == InvalidArgument && BatchesKept(keeper))
      && (r.Ok? ==> (
        && AllSized(bs, |left|)
        && keeper.BatchBoolsAllocatedAs(r.value, FreshRecords(AndEachBatch(left, bs), 0))))
  {
    ghost var start := keeper.boolBatchWires;
    ghost var bs := ValuesOf(start, rights);
    var results, i := AndBatches(keeper, left, rights);
    var outputs := AllocateBatchBooleans(keeper, results, 0);
    if i < |rights| {
      assert |bs[i]| != |left|;
      WithRecordsExtends(start, outputs, FreshRecords(results, 0));
      return Err(InvalidArgument);
    }
    assert bs[..|rights|] == bs;
    return Ok(outputs);
  }

  /** The loop of computeBatchCompositeAND before allocation: the right
      batches are ANDed with the left one in order until one of another
      size is met, at index i. */
  method AndBatches(keeper: WireKeeper, left: seq<bool>, rights: seq<nat>) returns (results: seq<seq<bool>>, i: nat)
    requires forall i :: 0 <= i < |rights| ==> rights[i] in keeper.boolBatchWires
    ensures i <= |rights|
    ensures var bs := ValuesOf(keeper.boolBatchWires, rights);
      && AllSized(bs[..i], |left|)
      && results == AndEachBatch(left, bs[..i])
      && (i < |rights| ==> |bs[i]| != |left|)
  {
    ghost var bs := ValuesOf(keeper.boolBatchWires, rights);
    results := [];
    i := 0;
    while i < |rights| && |keeper.boolBatchWires[rights[i]].v| == |left|
      invariant i <= |rights|
      invariant AllSized(bs[..i], |left|)
      invariant results == AndEachBatch(left, bs[..i])
    {
      var rst := AndLoop(left, keeper.boolBatchWires[rights[i]].v);
      AndEachBatchStep(left, bs, i);
      results := results + [rst];
      i := i + 1;
    }
  }

  /** The two loops of batchingUp: the batch sizes are summed, then a
      buffer of that size is filled batch after batch. */
  method Flatten(batches: seq<seq<bool>>) returns (r: seq<bool>)
    ensures r == Concat(batches)
  {
    var batchSize := 0;
    for i := 0 to |batches|
      invariant batchSize == TotalLength(batches[..i])
    {
      assert batches[..i + 1][..i] == batches[..i];
      batchSize := batchSize + |batches[i]|;
    }
    assert batches[..|batches|] == batches;
    var vector := new bool[batchSize];
    var index := 0;
    for i := 0 to |batches|
      invariant index == TotalLength(batches[..i]) <= batchSize
      invariant vector[..index] == Concat(batches[..i])
    {
      var batch := batches[i];
      TotalLengthPrefix(batches, i);
      ghost var index0 := index;
      for j := 0 to |batch|
        invariant index == index0 + j
        invariant vector[..index] == Concat(batches[..i]) + batch[..j]
      {
        vector[index] := batch[j];
        assert batch[..j + 1] == batch[..j] + [batch[j]];
        index := index + 1;
      }
      assert batches[..i + 1][..i] == batches[..i];
      assert batch[..|batch|] == batch;
    }
    ConcatLength(batches);
    assert vector[..] == vector[..index];
    r := vector[..];
  }

  /** The inner loop of unbatching: the count values from position from. */
  method CopySlice(batch: seq<bool>, from: nat, count: nat) returns (r: seq<bool>)
    requires from + count <= |batch|
    ensures r == batch[from..from + count]
  {
    var v := new bool[count];
    for j := 0 to count
      invariant v[..j] == batch[from..from + j]
    {
      v[j] := batch[from + j];
      assert v[..j + 1] == v[..j] + [v[j]];
    }
    r := v[..];
  }

  lemma AndEachPush(left: bool, vs: seq<bool>, v: bool)
    ensures AndEach(left, vs + [v]) == AndEach(left, vs) + [left && v]
  {
    assert (vs + [v])[..|vs|] == vs;
  }

  lemma AndEachStep(left: bool, vs: seq<bool>, i: nat)
    requires i < |vs|
    ensures AndEach(left, vs[..i + 1]) == AndEach(left, vs[..i]) + [left && vs[i]]
  {
    assert vs[..i + 1] == vs[..i] + [vs[i]];
    AndEachPush(left, vs[..i], vs[i]);
  }

  lemma AndEachBatchPush(left: seq<bool>, bs: seq<seq<bool>>, b: seq<bool>)
    requires |b| == |left| && AllSized(bs, |left|)
    ensures AndEachBatch(left, bs + [b]) == AndEachBatch(left, bs) + [AndBits(left, b)]
  {
    assert (bs + [b])[..|bs|] == bs;
  }

  /** One more right batch of the left batch's size. */
  lemma AndEachBatchStep(left: seq<bool>, bs: seq<seq<bool>>, i: nat)
    requires i < |bs| && |bs[i]| == |left| && AllSized(bs[..i], |left|)
    ensures AllSized(bs[..i + 1], |left|)
    ensures AndEachBatch(left, bs[..i + 1]) == AndEachBatch(left, bs[..i]) + [AndBits(left, bs[i])]
  {
    assert bs[..i + 1] == bs[..i] + [bs[i]];
    AndEachBatchPush(left, bs[..i], bs[i]);
  }

  lemma SumStep(xs: seq<nat>, i: nat)
    requires i < |xs|
    ensures Sum(xs[..i + 1]) == Sum(xs[..i]) + xs[i]
  {
    assert xs[..i + 1][..i] == xs[..i];
  }

  lemma SlicesStep(batch: seq<bool>, strategy: seq<nat>, i: nat)
    requires i < |strategy| && Sum(strategy[..i]) + strategy[i] <= |batch|
    ensures Sum(strategy[..i + 1]) == Sum(strategy[..i]) + strategy[i]
    ensures Slices(batch, strategy[..i + 1])
      == Slices(batch, strategy[..i]) + [batch[Sum(strategy[..i])..Sum(strategy[..i]) + strategy[i]]]
  {
    SumStep(strategy, i);
    assert strategy[..i + 1][..i] == strategy[..i];
  }

  /** Allocating fresh wires keeps every old record. */
  lemma WithRecordsExtends<T>(s: Store<T>, ws: seq<nat>, recs: seq<WireRecord<T>>)
    requires |ws| == |recs| && forall i :: 0 <= i < |ws| ==> ws[i] !in s
    ensures forall k :: k in s ==> k in WithRecords(s, ws, recs) && WithRecords(s, ws, recs)[k] == s[k]
  {
    forall k | k in s
      ensures k in WithRecords(s, ws, recs) && WithRecords(s, ws, recs)[k] == s[k]
    {
      WithRecordsAt(s, ws, recs, k);
    }
  }

  /** The sizes of a prefix add up to at most the total. */
  lemma {:induction false} SumPrefix(xs: seq<nat>, n: nat)
    requires n <= |xs|
    ensures Sum(xs[..n]) <= Sum(xs)
    decreases |xs|
  {
    if n < |xs| {
      assert xs[..|xs| - 1][..n] == xs[..n];
      SumPrefix(xs[..|xs| - 1], n);
    } else {
      assert xs[..n] == xs;
    }
  }

  /** A prefix and the next batch fit in the total length. */
  lemma {:induction false} TotalLengthPrefix<T>(xs: seq<seq<T>>, i: nat)
    requires i < |xs|
    ensures TotalLength(xs[..i]) + |xs[i]| <= TotalLength(xs)
    decreases |xs|
  {
    if i < |xs| - 1 {
      assert xs[..|xs| - 1][..i] == xs[..i];
      TotalLengthPrefix(xs[..|xs| - 1], i);
    } else {
      assert xs[..|xs| - 1] == xs[..i];
    }
  }
}
