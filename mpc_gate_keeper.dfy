/** The gate keeper of the older MPC framework
    (fbpcf/mpc_framework/scheduler/gate_keeper/GateKeeper.cpp).  It keeps
    the same deque of buckets as the scheduler's gate keeper, but places a
    gate by a per-input rule: after an input on a free level a free gate
    may share the level and a non-free gate goes one up; after an input on
    a non-free level the gate goes one (free) or two (non-free) up. */
module MpcGateKeeping {
  import opened Common
  import opened WireKeeping
  import opened GateKeeping

  /** The first level a gate may take after one input on inputLevel. */
  function MinAvailable(isGateFree: bool, inputLevel: nat): nat
  {
    inputLevel +
      (if IsLevelFree(inputLevel) then (if isGateFree then 0 else 1)
       else (if isGateFree then 1 else 2))
  }

  /** The first level of the gate's parity at or after the first
      unexecuted level. */
  function MinAvailableFirstUnexecuted(isGateFree: bool, firstUnexecutedLevel: nat): nat
  {
    firstUnexecutedLevel +
      (if IsLevelFree(firstUnexecutedLevel) then (if isGateFree then 0 else 1)
       else (if isGateFree then 1 else 0))
  }

  /** getFirstAvailableLevelForNewWire: the latest of the three bounds.
      The level has the gate's parity, is admissible after both inputs and
      is not before the first unexecuted level. */
  function FirstAvailableLevel(isGateFree: bool, leftLevel: nat, rightLevel: nat,
                               firstUnexecutedLevel: nat): (r: nat)
    ensures IsLevelFree(r) == isGateFree
    ensures Admissible(isGateFree, leftLevel, r) && Admissible(isGateFree, rightLevel, r)
    ensures r >= firstUnexecutedLevel
  {
    MinAvailableAdmissible(isGateFree, leftLevel);
    MinAvailableAdmissible(isGateFree, rightLevel);
    MinAvailableFirstUnexecutedParity(isGateFree, firstUnexecutedLevel);
    var r := Max(Max(MinAvailable(isGateFree, leftLevel), MinAvailable(isGateFree, rightLevel)),
                 MinAvailableFirstUnexecuted(isGateFree, firstUnexecutedLevel));
    AdmissibleLater(isGateFree, leftLevel, MinAvailable(isGateFree, leftLevel), r);
    AdmissibleLater(isGateFree, rightLevel, MinAvailable(isGateFree, rightLevel), r);
    r
  }

  lemma MinAvailableAdmissible(isGateFree: bool, inputLevel: nat)
    ensures Admissible(isGateFree, inputLevel, MinAvailable(isGateFree, inputLevel))
  {
  }

  lemma MinAvailableFirstUnexecutedParity(isGateFree: bool, firstUnexecutedLevel: nat)
    ensures IsLevelFree(MinAvailableFirstUnexecuted(isGateFree, firstUnexecutedLevel)) == isGateFree
  {
  }

  /** A later level of the same parity stays admissible. */
  lemma AdmissibleLater(isGateFree: bool, inputLevel: nat, a: nat, b: nat)
    requires Admissible(isGateFree, inputLevel, a) && a <= b && IsLevelFree(b) == isGateFree
    ensures Admissible(isGateFree, inputLevel, b)
  {
  }

  /** No earlier level satisfies the placement rule: the chosen level is
      the least one of the gate's parity that is admissible after both
      inputs and not before the first unexecuted level. */
  lemma FirstAvailableLevelIsLeast(isGateFree: bool, leftLevel: nat, rightLevel: nat,
                                   firstUnexecutedLevel: nat, level: nat)
    requires Admissible(isGateFree, leftLevel, level) && Admissible(isGateFree, rightLevel, level)
    requires level >= firstUnexecutedLevel
    ensures FirstAvailableLevel(isGateFree, leftLevel, rightLevel, firstUnexecutedLevel) <= level
  {
    assert MinAvailable(isGateFree, leftLevel) <= level;
    assert MinAvailable(isGateFree, rightLevel) <= level;
    assert MinAvailableFirstUnexecuted(isGateFree, firstUnexecutedLevel) <= level;
  }

  /** The rule never places a gate later than the scheduler's
      getOutputLevel does for the same inputs. */
  lemma NoLaterThanOutputLevel(isGateFree: bool, leftLevel: nat, rightLevel: nat,
                               firstUnexecutedLevel: nat)
    ensures FirstAvailableLevel(isGateFree, leftLevel, rightLevel, firstUnexecutedLevel)
      <= OutputLevel(isGateFree, Max(leftLevel, rightLevel), firstUnexecutedLevel)
  {
    var o := OutputLevel(isGateFree, Max(leftLevel, rightLevel), firstUnexecutedLevel);
    OutputLevelIsLeastAdmissible(isGateFree, Max(leftLevel, rightLevel), firstUnexecutedLevel);
    FirstAvailableLevelIsLeast(isGateFree, leftLevel, rightLevel, firstUnexecutedLevel, o);
  }

  /** The two rules differ: with the first unexecuted level odd and inputs
      on level 0, a non-free gate takes that odd level here but the level
      two above it in the scheduler's gate keeper. */
  lemma RulesDifferOnOddFirstUnexecutedLevel()
    ensures FirstAvailableLevel(false, 0, 0, 1) == 1
    ensures OutputLevel(false, Max(0, 0), 1) == 3
  {
  }

  /** The latest level among the non-empty right wires of a composite
      gate, 0 when there is none. */
  function RightsMaxLevel(keeper: WireKeeper, rights: seq<WireId>, usingBatch: bool): (r: nat)
    reads keeper
    requires forall i :: 0 <= i < |rights| ==> LiveIn(keeper, rights[i], usingBatch)
    ensures forall i :: 0 <= i < |rights| ==> WireLevel(keeper, rights[i], usingBatch) <= r
    ensures r == 0 || exists i :: 0 <= i < |rights| && WireLevel(keeper, rights[i], usingBatch) == r
    decreases |rights|
  {
    if |rights| == 0 then 0
    else
      var rest := RightsMaxLevel(keeper, rights[..|rights| - 1], usingBatch);
      assert forall i :: 0 <= i < |rights| - 1 ==> rights[..|rights| - 1][i] == rights[i];
      Max(rest, WireLevel(keeper, rights[|rights| - 1], usingBatch))
  }

  class MpcGateKeeper {
    var gatesByLevelOffset: seq<seq<Gate>>
    var firstUnexecutedLevel: nat
    var numUnexecutedGates: nat
    const wireKeeper: WireKeeper

    /** The count is the number of gates in the buckets, and every bucket
        holds gates of its level's parity. */
    ghost predicate Valid()
      reads this, wireKeeper
    {
      && wireKeeper.Valid()
      && numUnexecutedGates == TotalGates(gatesByLevelOffset)
      && ParityRespected(gatesByLevelOffset, firstUnexecutedLevel)
    }

    constructor (wireKeeper: WireKeeper)
      requires wireKeeper.Valid()
      ensures Valid() && this.wireKeeper == wireKeeper
      ensures gatesByLevelOffset == [] && firstUnexecutedLevel == 0 && numUnexecutedGates == 0
    {
      this.wireKeeper := wireKeeper;
      gatesByLevelOffset := [];
      firstUnexecutedLevel := 0;
      numUnexecutedGates := 0;
    }

    /** The gate was appended to the bucket of its level, and the count
        went up by one. */
    predicate Added(gates: seq<seq<Gate>>, first: nat, count: nat, gate: Gate, level: nat)
      reads this
    {
      && level >= first
      && gatesByLevelOffset == Scheduled(gates, level - first, gate)
      && firstUnexecutedLevel == first
      && numUnexecutedGates == count + 1
    }

    /** The tail of addGate: the deque is padded with empty buckets up to
        the level, and the gate joins the bucket of its level. */
    method Place(gate: Gate, level: nat)
      requires Valid() && level >= firstUnexecutedLevel && IsFree(gate) == IsLevelFree(level)
      modifies this
      ensures Valid() && Added(old(gatesByLevelOffset), old(firstUnexecutedLevel), old(numUnexecutedGates), gate, level)
    {
      ghost var start := gatesByLevelOffset;
      PadTo(level);
      var offset := level - firstUnexecutedLevel;
      gatesByLevelOffset := gatesByLevelOffset[offset := gatesByLevelOffset[offset] + [gate]];
      numUnexecutedGates := numUnexecutedGates + 1;
      assert gatesByLevelOffset == Scheduled(start, offset, gate);
      ScheduledShape(start, offset, gate);
      ScheduledParity(start, firstUnexecutedLevel, offset, gate);
    }

    /** The padding loop of addGate: empty buckets are appended until the
        level's offset is a valid index. */
    method PadTo(level: nat)
      requires Valid() && level >= firstUnexecutedLevel
      modifies this
      ensures Valid()
      ensures firstUnexecutedLevel == old(firstUnexecutedLevel) && numUnexecutedGates == old(numUnexecutedGates)
      ensures gatesByLevelOffset == Padded(old(gatesByLevelOffset), level - firstUnexecutedLevel)
      ensures |gatesByLevelOffset| > level - firstUnexecutedLevel
    {
      var offset := level - firstUnexecutedLevel;
      ghost var start := gatesByLevelOffset;
      while |gatesByLevelOffset| <= offset
        invariant |start| <= |gatesByLevelOffset| <= Max(|start|, offset + 1)
        invariant gatesByLevelOffset == start + Empties(|gatesByLevelOffset| - |start|)
        invariant firstUnexecutedLevel == old(firstUnexecutedLevel) && numUnexecutedGates == old(numUnexecutedGates)
        decreases offset + 1 - |gatesByLevelOffset|
      {
        assert start + Empties(|gatesByLevelOffset| + 1 - |start|) == gatesByLevelOffset + [[]];
        gatesByLevelOffset := gatesByLevelOffset + [[]];
      }
      TotalGatesAppend(start, Empties(|gatesByLevelOffset| - |start|));
      EmptiesCount(|gatesByLevelOffset| - |start|);
      PaddedParity(start, firstUnexecutedLevel, offset);
    }

    /** addGate for a normal gate on single values: one new wire holding
        the initial value, on the first available level. */
    method AddNormalGate(gateType: NormalGateType, left: WireId, right: WireId,
                         initialValue: bool, partyId: int) returns (w: nat)
      requires Valid() && LiveIn(wireKeeper, left, false) && LiveIn(wireKeeper, right, false)
      modifies this, wireKeeper
      ensures Valid()
      ensures var level := FirstAvailableLevel(IsNormalGateFree(gateType),
          old(WireLevel(wireKeeper, left, false)), old(WireLevel(wireKeeper, right, false)),
          old(firstUnexecutedLevel));
        && BoolGateWired(wireKeeper, [w], WireRecord(initialValue, level, 1, 0), [], [left, right])
        && Added(old(gatesByLevelOffset), old(firstUnexecutedLevel), old(numUnexecutedGates), NormalGate(gateType, w, left, right, partyId, 0, false), level)
    {
      var level := FirstAvailableLevel(IsNormalGateFree(gateType),
        WireLevel(wireKeeper, left, false), WireLevel(wireKeeper, right, false), firstUnexecutedLevel);
      w := WireBoolGate(wireKeeper, initialValue, level, [], [left, right]);
      Place(NormalGate(gateType, w, left, right, partyId, 0, false), level);
    }

    /** addGate for a normal gate on batches: the gate's number of results
        is the size of the initial batch. */
    method AddNormalGateBatch(gateType: NormalGateType, left: WireId, right: WireId,
                              initialValue: seq<bool>, partyId: int) returns (w: nat)
      requires Valid() && LiveIn(wireKeeper, left, true) && LiveIn(wireKeeper, right, true)
      modifies this, wireKeeper
      ensures Valid()
      ensures var level := FirstAvailableLevel(IsNormalGateFree(gateType),
          old(WireLevel(wireKeeper, left, true)), old(WireLevel(wireKeeper, right, true)),
          old(firstUnexecutedLevel));
        && BatchGateWired(wireKeeper, [w], WireRecord(initialValue, level, 1, 0), [], [left, right])
        && Added(old(gatesByLevelOffset), old(firstUnexecutedLevel), old(numUnexecutedGates), NormalGate(gateType, w, left, right, partyId, |initialValue|, true), level)
    {
      var level := FirstAvailableLevel(IsNormalGateFree(gateType),
        WireLevel(wireKeeper, left, true), WireLevel(wireKeeper, right, true), firstUnexecutedLevel);
      w := WireBatchGate(wireKeeper, initialValue, level, [], [left, right]);
      Place(NormalGate(gateType, w, left, right, partyId, |initialValue|, true), level);
    }

    /** addGate for a composite gate: one new wire per right input, all on
        one level; an empty list of right inputs counts as level 0 and
        schedules a gate without outputs. */
    method AddCompositeGate(gateType: CompositeGateType, left: WireId, rights: seq<WireId>)
      returns (outputs: seq<nat>)
      requires Valid() && LiveIn(wireKeeper, left, false)
      requires forall i :: 0 <= i < |rights| ==> LiveIn(wireKeeper, rights[i], false)
      modifies this, wireKeeper
      ensures Valid()
      ensures var level := FirstAvailableLevel(IsCompositeGateFree(gateType),
          old(WireLevel(wireKeeper, left, false)), old(RightsMaxLevel(wireKeeper, rights, false)),
          old(firstUnexecutedLevel));
        && |outputs| == |rights|
        && BoolGateWired(wireKeeper, outputs, WireRecord(false, level, 1, 0), [], [left] + rights)
        && Added(old(gatesByLevelOffset), old(firstUnexecutedLevel), old(numUnexecutedGates), CompositeGate(gateType, outputs, left, rights, false), level)
    {
      var level := FirstAvailableLevel(IsCompositeGateFree(gateType),
        WireLevel(wireKeeper, left, false), RightsMaxLevel(wireKeeper, rights, false), firstUnexecutedLevel);
      outputs := WireBoolGates(wireKeeper, |rights|, level, [], [left] + rights);
      Place(CompositeGate(gateType, outputs, left, rights, false), level);
    }

    /** addGate for a composite gate on batches. */
    method AddCompositeGateBatch(gateType: CompositeGateType, left: WireId, rights: seq<WireId>)
      returns (outputs: seq<nat>)
      requires Valid() && LiveIn(wireKeeper, left, true)
      requires forall i :: 0 <= i < |rights| ==> LiveIn(wireKeeper, rights[i], true)
      modifies this, wireKeeper
      ensures Valid()
      ensures var level := FirstAvailableLevel(IsCompositeGateFree(gateType),
          old(WireLevel(wireKeeper, left, true)), old(RightsMaxLevel(wireKeeper, rights, true)),
          old(firstUnexecutedLevel));
        && |outputs| == |rights|
        && BatchGateWired(wireKeeper, outputs, WireRecord([], level, 1, 0), [], [left] + rights)
        && Added(old(gatesByLevelOffset), old(firstUnexecutedLevel), old(numUnexecutedGates), CompositeGate(gateType, outputs, left, rights, true), level)
    {
      var level := FirstAvailableLevel(IsCompositeGateFree(gateType),
        WireLevel(wireKeeper, left, true), RightsMaxLevel(wireKeeper, rights, true), firstUnexecutedLevel);
      outputs := WireBatchGates(wireKeeper, |rights|, level, [], [left] + rights);
      Place(CompositeGate(gateType, outputs, left, rights, true), level);
    }

    /** popFirstUnexecutedLevel: hands out the front bucket and moves on to
        the next level (the deque must not be empty). */
    method PopFirstUnexecutedLevel() returns (gates: seq<Gate>)
      requires Valid() && |gatesByLevelOffset| >= 1
      modifies this
      ensures Valid()
      ensures gates == old(gatesByLevelOffset[0])
      ensures forall i :: 0 <= i < |gates| ==> IsFree(gates[i]) == IsLevelFree(old(firstUnexecutedLevel))
      ensures gatesByLevelOffset == old(gatesByLevelOffset[1..])
      ensures firstUnexecutedLevel == old(firstUnexecutedLevel) + 1
      ensures numUnexecutedGates == old(numUnexecutedGates) - |gates|
    {
      gates := gatesByLevelOffset[0];
      gatesByLevelOffset := gatesByLevelOffset[1..];
      firstUnexecutedLevel := firstUnexecutedLevel + 1;
      numUnexecutedGates := numUnexecutedGates - |gates|;
    }

    /** hasReachedBatchingLimit: more than 100000 gates wait. */
    function HasReachedBatchingLimit(): (r: bool)
      requires Valid()
      reads this, wireKeeper
      ensures r <==> TotalGates(gatesByLevelOffset) > MaxUnexecutedGates
    {
      numUnexecutedGates > MaxUnexecutedGates
    }
  }
}
