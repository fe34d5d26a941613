/** The rebatching gate (fbpcf/scheduler/gate_keeper/RebatchingGate.h): it
    computes nothing, only moves batched values between wires.  A batching
    gate concatenates the batches of its individual wires into its batch
    wire; an unbatching gate cuts its batch wire into consecutive slices,
    one per individual wire, of the sizes an unbatching strategy gives.
    The gate holds a reference to each of its non-empty wires from its
    construction to its destruction. */
module Rebatching {
  import opened Common
  import opened WireKeeping
  import opened GateKeeping
  import PlaintextScheduling

  datatype RebatchingType = Batching | Unbatching

  /** The reference counts after the destructor: one reference fewer to
      each non-empty wire, in order, a record being freed when its count
      drops to 0; None when a wire is no longer live when it is reached
      (the wire keeper throws). */
  function ReleaseAll<T>(s: Store<T>, ws: seq<WireId>): Option<Store<T>>
    decreases |ws|
  {
    if |ws| == 0 then Some(s)
    else
      match ReleaseAll(s, ws[..|ws| - 1])
      case None => None
      case Some(t) =>
        var w := ws[|ws| - 1];
        if w.Empty? then Some(t)
        else if w.id !in t then None
        else Some(Release(t, w.id))
  }

  /** Releasing ws from a store whose counts exceed those of u by the
      occurrences among ws gives back u. */
  lemma {:induction false} ReleaseAllCounts<T>(t: Store<T>, ws: seq<WireId>, u: Store<T>)
    requires t.Keys == u.Keys && LiveOrEmpty(u, ws)
    requires forall k :: k in u ==> t[k] == u[k].(referenceCount := u[k].referenceCount + Occurrences(ws, k))
    ensures ReleaseAll(t, ws) == Some(u)
    decreases |ws|
  {
    if |ws| > 0 {
      var init, w := ws[..|ws| - 1], ws[|ws| - 1];
      var u' := RetainOne(u, w);
      forall k | k in u'
        ensures t[k] == u'[k].(referenceCount := u'[k].referenceCount + Occurrences(init, k))
      {
        assert Occurrences(ws, k) == Occurrences(init, k) + (if w == Wire(k) then 1 else 0);
      }
      ReleaseAllCounts(t, init, u');
      assert ReleaseAll(t, init) == Some(u');
      if w.Wire? {
        var id := w.id;
        assert u'[id] == u[id].(referenceCount := u[id].referenceCount + 1);
        assert Release(u', id) == u'[id := u[id]];
        assert u'[id := u[id]] == u;
      }
    } else {
      assert forall k :: k in u ==> t[k] == u[k];
      assert t == u;
    }
  }

  /** Creating a rebatching gate and destroying it with nothing in between
      leaves every reference count as it was. */
  lemma ConstructThenDestroy<T>(s: Store<T>, ws: seq<WireId>)
    requires LiveOrEmpty(s, ws)
    ensures ReleaseAll(RetainAll(s, ws), ws) == Some(s)
  {
    forall k | k in s
      ensures RetainAll(s, ws)[k] == s[k].(referenceCount := s[k].referenceCount + Occurrences(ws, k))
    {
      RetainAllCounts(s, ws, k);
    }
    ReleaseAllCounts(RetainAll(s, ws), ws, s);
  }

  /** The ids of non-empty wires. */
  function Ids(ws: seq<WireId>): (r: seq<nat>)
    requires forall i :: 0 <= i < |ws| ==> ws[i].Wire?
    ensures |r| == |ws| && forall i :: 0 <= i < |ws| ==> r[i] == ws[i].id
    decreases |ws|
  {
    if |ws| == 0 then [] else Ids(ws[..|ws| - 1]) + [ws[|ws| - 1].id]
  }

  /** The store after setBatchBooleanValue(ids[i], vs[i]) for each i, in
      order: only the values change. */
  function SetAll<T>(s: Store<T>, ids: seq<nat>, vs: seq<T>): (r: Store<T>)
    requires |ids| == |vs| && forall i :: 0 <= i < |ids| ==> ids[i] in s
    ensures r.Keys == s.Keys
    decreases |ids|
  {
    if |ids| == 0 then s
    else
      var t := SetAll(s, ids[..|ids| - 1], vs[..|vs| - 1]);
      t[ids[|ids| - 1] := t[ids[|ids| - 1]].(v := vs[|vs| - 1])]
  }

  /** Setting values keeps every reference count and expected size, and
      the value of a wire written last is the value written. */
  lemma {:induction false} SetAllAt<T>(s: Store<T>, ids: seq<nat>, vs: seq<T>, k: nat)
    requires |ids| == |vs| && forall i :: 0 <= i < |ids| ==> ids[i] in s
    requires k in s
    ensures SetAll(s, ids, vs)[k].referenceCount == s[k].referenceCount
    ensures SetAll(s, ids, vs)[k].expectedBatchSize == s[k].expectedBatchSize
    ensures SetAll(s, ids, vs)[k].firstAvailableLevel == s[k].firstAvailableLevel
    ensures k !in ids ==> SetAll(s, ids, vs)[k] == s[k]
    ensures |ids| > 0 && ids[|ids| - 1] == k ==> SetAll(s, ids, vs)[k].v == vs[|vs| - 1]
    decreases |ids|
  {
    if |ids| > 0 {
      SetAllAt(s, ids[..|ids| - 1], vs[..|vs| - 1], k);
    }
  }

  /** Every id is live in s. */
  predicate AllLive<T>(s: Store<T>, ids: seq<nat>)
  {
    forall i :: 0 <= i < |ids| ==> ids[i] in s
  }

  class RebatchingBooleanGate {
    const gateType: RebatchingType
    const individualWireIds: seq<WireId>
    const batchWireId: WireId
    const wireKeeper: WireKeeper
    const unbatchingStrategy: seq<nat>

    ghost predicate Valid()
      reads wireKeeper
    {
      wireKeeper.Valid()
    }

    /** The wires the gate holds a reference to, in the order taken. */
    function Wires(): seq<WireId>
    {
      [batchWireId] + individualWireIds
    }

    /** None of the gate's wires is empty. */
    predicate Wired()
    {
      batchWireId.Wire? && forall i :: 0 <= i < |individualWireIds| ==> individualWireIds[i].Wire?
    }

    function IndividualIds(): (r: seq<nat>)
      requires Wired()
      ensures |r| == |individualWireIds|
    {
      Ids(individualWireIds)
    }

    /** Every wire of the gate is live; the references the gate holds keep
        them so from construction to destruction. */
    predicate Live()
      requires Wired()
      reads wireKeeper
    {
      batchWireId.id in wireKeeper.boolBatchWires && AllLive(wireKeeper.boolBatchWires, IndividualIds())
    }

    /** isBatching: which of the two constructors built the gate. */
    predicate IsBatching()
    {
      gateType == Batching
    }

    /** getNumberOfResults: a rebatching gate opens no secret. */
    function NumberOfResults(): nat
    {
      0
    }

    /** The batching constructor: a reference to the batch wire, then to
        each individual wire, empty wires skipped. */
    constructor Batch(individualWireIds: seq<WireId>, batchWireId: WireId, wireKeeper: WireKeeper)
      requires wireKeeper.Valid() && LiveOrEmpty(wireKeeper.boolBatchWires, [batchWireId] + individualWireIds)
      modifies wireKeeper
      ensures Valid() && gateType == Batching && IsBatching() && NumberOfResults() == 0
      ensures this.individualWireIds == individualWireIds && this.batchWireId == batchWireId
      ensures this.wireKeeper == wireKeeper && unbatchingStrategy == []
      ensures wireKeeper.boolBatchWires == RetainAll(old(wireKeeper.boolBatchWires), Wires())
      ensures wireKeeper.boolWires == old(wireKeeper.boolWires) && wireKeeper.intWires == old(wireKeeper.intWires)
      ensures wireKeeper.intBatchWires == old(wireKeeper.intBatchWires)
    {
      gateType := Batching;
      this.individualWireIds := individualWireIds;
      this.batchWireId := batchWireId;
      this.wireKeeper := wireKeeper;
      unbatchingStrategy := [];
      new;
      RetainBatchWires(wireKeeper, [batchWireId] + individualWireIds);
    }

    /** The unbatching constructor, taking the same references. */
    constructor Unbatch(batchWireId: WireId, individualWireIds: seq<WireId>, wireKeeper: WireKeeper,
                        unbatchingStrategy: seq<nat>)
      requires wireKeeper.Valid() && LiveOrEmpty(wireKeeper.boolBatchWires, [batchWireId] + individualWireIds)
      modifies wireKeeper
      ensures Valid() && gateType == Unbatching && !IsBatching() && NumberOfResults() == 0
      ensures this.individualWireIds == individualWireIds && this.batchWireId == batchWireId
      ensures this.wireKeeper == wireKeeper && this.unbatchingStrategy == unbatchingStrategy
      ensures wireKeeper.boolBatchWires == RetainAll(old(wireKeeper.boolBatchWires), Wires())
      ensures wireKeeper.boolWires == old(wireKeeper.boolWires) && wireKeeper.intWires == old(wireKeeper.intWires)
      ensures wireKeeper.intBatchWires == old(wireKeeper.intBatchWires)
    {
      gateType := Unbatching;
      this.individualWireIds := individualWireIds;
      this.batchWireId := batchWireId;
      this.wireKeeper := wireKeeper;
      this.unbatchingStrategy := unbatchingStrategy;
      new;
      RetainBatchWires(wireKeeper, [batchWireId] + individualWireIds);
    }

    /** The destructor: a reference fewer to each wire, in the constructor's
        order; a wire freed before it is reached makes the wire keeper
        throw, which the caller must rule out. */
    method Destroy()
      requires Valid() && ReleaseAll(wireKeeper.boolBatchWires, Wires()).Some?
      modifies wireKeeper
      ensures Valid()
      ensures Some(wireKeeper.boolBatchWires) == ReleaseAll(old(wireKeeper.boolBatchWires), Wires())
      ensures wireKeeper.boolWires == old(wireKeeper.boolWires) && wireKeeper.intWires == old(wireKeeper.intWires)
      ensures wireKeeper.intBatchWires == old(wireKeeper.intBatchWires)
    {
      ReleaseWires(wireKeeper, Wires());
    }

    /** compute: the batching or the unbatching. */
    method Compute() returns (r: Result<()>)
      requires Valid() && Wired() && Live()
      requires gateType == Unbatching ==> batchWireId.id !in IndividualIds()
      modifies wireKeeper
      ensures Valid()
      ensures gateType == Batching ==> (r.Err? <==> |individualWireIds| == 0)
      ensures gateType == Unbatching ==> (r.Err? <==>
        Sum(unbatchingStrategy) > |old(wireKeeper.boolBatchWires[batchWireId.id].v)|
        || |unbatchingStrategy| > |individualWireIds|)
      ensures wireKeeper.boolBatchWires.Keys == old(wireKeeper.boolBatchWires.Keys)
    {
      match gateType
      case Batching =>
        r := ExecuteBatchingGate();
      case Unbatching =>
        ghost var src := wireKeeper.boolBatchWires[batchWireId.id].v;
        r := ExecuteUnbatchingGate();
        UnbatchingFailsIff(src, unbatchingStrategy, |individualWireIds|);
    }

    /** executeBatchingGate: the batch wire gets the individual batches
        concatenated in order; with no individual wire, the first lookup
        throws out_of_range. */
    method ExecuteBatchingGate() returns (r: Result<()>)
      requires Valid() && Wired() && Live()
      modifies wireKeeper
      ensures Valid()
      ensures r.Err? <==> |individualWireIds| == 0
      ensures r.Err? ==> r.kind == OutOfRange && unchanged(wireKeeper)
      ensures r.Ok? ==> wireKeeper.boolBatchWires == SetAll(old(wireKeeper.boolBatchWires), [batchWireId.id],
        [Concat(ValuesOf(old(wireKeeper.boolBatchWires), IndividualIds()))])
      ensures wireKeeper.boolWires == old(wireKeeper.boolWires) && wireKeeper.intWires == old(wireKeeper.intWires)
      ensures wireKeeper.intBatchWires == old(wireKeeper.intBatchWires)
    {
      if |individualWireIds| == 0 {
        return Err(OutOfRange);
      }
      var dst := PlaintextScheduling.Flatten(ValuesOf(wireKeeper.boolBatchWires, IndividualIds()));
      var _ := wireKeeper.SetBatchBooleanValue(batchWireId.id, dst);
      return Ok(());
    }

    /** executeUnbatchingGate: slice i of the batch, of unbatchingStrategy[i]
        values, goes to individual wire i, in order.  A slice running past
        the end of the batch, or a slice without an individual wire, throws
        out_of_range; the slices written before stay written. */
    method ExecuteUnbatchingGate() returns (r: Result<()>)
      requires Valid() && Wired() && Live()
      requires batchWireId.id !in IndividualIds()
      modifies wireKeeper
      ensures Valid()
      ensures var src := old(wireKeeper.boolBatchWires[batchWireId.id].v);
        r == UnbatchingOutcome(src, unbatchingStrategy, |individualWireIds|)
      ensures var src := old(wireKeeper.boolBatchWires[batchWireId.id].v);
        var written := UnbatchedCount(src, unbatchingStrategy, |individualWireIds|);
        wireKeeper.boolBatchWires ==
          SetAll(old(wireKeeper.boolBatchWires), IndividualIds()[..written], Slices(src, unbatchingStrategy[..written]))
      ensures wireKeeper.boolWires == old(wireKeeper.boolWires) && wireKeeper.intWires == old(wireKeeper.intWires)
      ensures wireKeeper.intBatchWires == old(wireKeeper.intBatchWires)
    {
      var src := wireKeeper.boolBatchWires[batchWireId.id].v;
      var strategy := unbatchingStrategy;
      var ids := IndividualIds();
      var slices := [];
      var batchIndex := 0;
      var i := 0;
      while i < |strategy| && batchIndex + strategy[i] <= |src| && i < |ids|
        invariant i <= |strategy| && i <= |ids| && batchIndex == Sum(strategy[..i]) <= |src|
        invariant slices == Slices(src, strategy[..i])
        invariant UnbatchedCount(src, strategy, |ids|) == UnbatchedCountFrom(src, strategy, |ids|, i)
        modifies {}
      {
        PlaintextScheduling.SumStep(strategy, i);
        var dst := PlaintextScheduling.CopySlice(src, batchIndex, strategy[i]);
        PlaintextScheduling.SlicesStep(src, strategy, i);
        slices := slices + [dst];
        batchIndex := batchIndex + strategy[i];
        i := i + 1;
      }
      if i < |strategy| {
        PlaintextScheduling.SumStep(strategy, i);
      }
      SetBatchValues(wireKeeper, ids[..i], slices);
      if i < |strategy| {
        return Err(OutOfRange);
      }
      return Ok(());
    }
  }

  /** The number of slices unbatching writes before it stops: it stops at
      the first slice that runs past the end of src or has no wire. */
  function UnbatchedCount(src: seq<bool>, strategy: seq<nat>, wires: nat): (m: nat)
    ensures m <= |strategy| && m <= wires && Sum(strategy[..m]) <= |src|
  {
    UnbatchedCountFrom(src, strategy, wires, 0)
  }

  function UnbatchedCountFrom(src: seq<bool>, strategy: seq<nat>, wires: nat, i: nat): (m: nat)
    requires i <= |strategy| && i <= wires && Sum(strategy[..i]) <= |src|
    ensures i <= m <= |strategy| && m <= wires && Sum(strategy[..m]) <= |src|
    decreases |strategy| - i
  {
    if i < |strategy| && Sum(strategy[..i + 1]) <= |src| && i < wires
    then UnbatchedCountFrom(src, strategy, wires, i + 1)
    else i
  }

  /** Unbatching throws out_of_range exactly when it stops early. */
  function UnbatchingOutcome(src: seq<bool>, strategy: seq<nat>, wires: nat): Result<()>
  {
    if UnbatchedCount(src, strategy, wires) < |strategy| then Err(OutOfRange) else Ok(())
  }

  /** Unbatching stops early exactly when the strategy asks for more
      values than the batch has or for more slices than there are wires. */
  lemma UnbatchingFailsIff(src: seq<bool>, strategy: seq<nat>, wires: nat)
    ensures UnbatchingOutcome(src, strategy, wires).Err? <==> Sum(strategy) > |src| || |strategy| > wires
  {
    var m := UnbatchedCount(src, strategy, wires);
    UnbatchedCountStops(src, strategy, wires, 0);
    if m == |strategy| {
      assert strategy[..m] == strategy;
    } else if m < wires {
      PlaintextScheduling.SumPrefix(strategy, m + 1);
    }
  }

  /** Where the count stops, the next slice does not fit or has no wire. */
  lemma {:induction false} UnbatchedCountStops(src: seq<bool>, strategy: seq<nat>, wires: nat, i: nat)
    requires i <= |strategy| && i <= wires && Sum(strategy[..i]) <= |src|
    ensures var m := UnbatchedCountFrom(src, strategy, wires, i);
      m < |strategy| ==> m == wires || Sum(strategy[..m + 1]) > |src|
    decreases |strategy| - i
  {
    if i < |strategy| && Sum(strategy[..i + 1]) <= |src| && i < wires {
      UnbatchedCountStops(src, strategy, wires, i + 1);
    }
  }

  /** setBatchBooleanValue(ids[i], vs[i]) for each i, in order. */
  method SetBatchValues(keeper: WireKeeper, ids: seq<nat>, vs: seq<seq<bool>>)
    requires keeper.Valid() && |ids| == |vs| && AllLive(keeper.boolBatchWires, ids)
    modifies keeper
    ensures keeper.Valid()
    ensures keeper.boolBatchWires == SetAll(old(keeper.boolBatchWires), ids, vs)
    ensures keeper.boolWires == old(keeper.boolWires) && keeper.intWires == old(keeper.intWires)
    ensures keeper.intBatchWires == old(keeper.intBatchWires)
  {
    ghost var start := keeper.boolBatchWires;
    for i := 0 to |ids|
      invariant keeper.Valid()
      invariant keeper.boolBatchWires == SetAll(start, ids[..i], vs[..i])
      invariant keeper.boolWires == old(keeper.boolWires) && keeper.intWires == old(keeper.intWires)
      invariant keeper.intBatchWires == old(keeper.intBatchWires)
    {
      assert ids[..i + 1][..i] == ids[..i];
      assert vs[..i + 1][..i] == vs[..i];
      var _ := keeper.SetBatchBooleanValue(ids[i], vs[i]);
    }
    assert ids[..|ids|] == ids && vs[..|vs|] == vs;
  }

  /** The destructor's loop: a reference fewer to each non-empty wire. */
  method ReleaseWires(keeper: WireKeeper, ws: seq<WireId>)
    requires keeper.Valid() && ReleaseAll(keeper.boolBatchWires, ws).Some?
    modifies keeper
    ensures keeper.Valid()
    ensures Some(keeper.boolBatchWires) == ReleaseAll(old(keeper.boolBatchWires), ws)
    ensures keeper.boolWires == old(keeper.boolWires) && keeper.intWires == old(keeper.intWires)
    ensures keeper.intBatchWires == old(keeper.intBatchWires)
  {
    ghost var start := keeper.boolBatchWires;
    for i := 0 to |ws|
      invariant keeper.Valid()
      invariant Some(keeper.boolBatchWires) == ReleaseAll(start, ws[..i])
      invariant keeper.boolWires == old(keeper.boolWires) && keeper.intWires == old(keeper.intWires)
      invariant keeper.intBatchWires == old(keeper.intBatchWires)
    {
      assert ws[..i + 1][..i] == ws[..i];
      ReleaseAllPrefix(start, ws, i + 1);
      if ws[i].Wire? {
        var _ := keeper.DecreaseBatchReferenceCount(ws[i].id);
      }
    }
    assert ws[..|ws|] == ws;
  }

  /** A release sequence that succeeds succeeds on every prefix. */
  lemma {:induction false} ReleaseAllPrefix<T>(s: Store<T>, ws: seq<WireId>, n: nat)
    requires n <= |ws| && ReleaseAll(s, ws).Some?
    ensures ReleaseAll(s, ws[..n]).Some?
    decreases |ws|
  {
    if n < |ws| {
      assert ws[..|ws| - 1][..n] == ws[..n];
      ReleaseAllPrefix(s, ws[..|ws| - 1], n);
    } else {
      assert ws[..n] == ws;
    }
  }
}
