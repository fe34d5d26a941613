/** The scheduler's gate keeper (fbpcf/scheduler/gate_keeper/GateKeeper.h
    and GateKeeper.cpp): it places every new gate on a level, allocates the
    gate's output wires at that level in the wire keeper, and keeps the
    unexecuted gates in a deque of buckets, one per level from the first
    unexecuted level on.  Free gates go on even levels and non-free gates
    on odd levels. */
module GateKeeping {
  import opened Common
  import opened WireKeeping

  /** IScheduler::WireId: a wire id or the empty id. */
  datatype WireId = Empty | Wire(id: nat)

  /** IGateKeeper::isLevelFree: even levels hold free gates. */
  predicate IsLevelFree(level: nat)
  {
    level % 2 == 0
  }

  datatype NormalGateType =
    FreeAnd | Input | Output | NonFreeAnd | AsymmetricNot | AsymmetricXOR | SymmetricNot | SymmetricXOR

  /** INormalGate::isFree: only the non-free AND and the output gate need
      communication. */
  predicate IsNormalGateFree(t: NormalGateType)
  {
    !(t == NonFreeAnd || t == Output)
  }

  datatype CompositeGateType = CompositeFreeAnd | CompositeNonFreeAnd

  /** ICompositeGate::isFree. */
  predicate IsCompositeGateFree(t: CompositeGateType)
  {
    t == CompositeFreeAnd
  }

  /** A scheduled gate: its type, its output wires and its input wires. */
  datatype Gate =
    | NormalGate(gateType: NormalGateType, output: nat, left: WireId, right: WireId,
                 partyId: int, numberOfResults: nat, batched: bool)
    | CompositeGate(compositeType: CompositeGateType, outputs: seq<nat>, left: WireId,
                    rights: seq<WireId>, batched: bool)
    | BatchingGate(individual: seq<nat>, batch: nat)
    | UnbatchingGate(batch: nat, individual: seq<nat>, strategy: seq<nat>)

  /** Rebatching gates are free. */
  predicate IsFree(g: Gate)
  {
    match g
    case NormalGate(t, _, _, _, _, _, _) => IsNormalGateFree(t)
    case CompositeGate(t, _, _, _, _) => IsCompositeGateFree(t)
    case _ => true
  }

  function Max(a: nat, b: nat): nat
  {
    if a >= b then a else b
  }

  /** getOutputLevel: a level of the gate's parity, at or after both the
      latest input level and the first unexecuted level. */
  function OutputLevel(isGateFree: bool, maxInputLevel: nat, firstUnexecutedLevel: nat): (r: nat)
    ensures IsLevelFree(r) == isGateFree && r >= Max(maxInputLevel, firstUnexecutedLevel)
  {
    var outputLevel := Max(maxInputLevel, firstUnexecutedLevel) + (if isGateFree then 0 else 1);
    outputLevel + (if IsLevelFree(outputLevel) != isGateFree then 1 else 0)
  }

  /** A level that a gate may take after an input on inputLevel: it has
      the gate's parity, it is not before the input, and it is after the
      input when the input is on a non-free level (a gate may only use a
      free gate's result on the same level). */
  predicate Admissible(isGateFree: bool, inputLevel: nat, level: nat)
  {
    IsLevelFree(level) == isGateFree && inputLevel <= level &&
    (level == inputLevel ==> IsLevelFree(inputLevel))
  }

  /** getOutputLevel picks the least admissible level after the later of
      the input level and the first unexecuted level. */
  lemma OutputLevelIsLeastAdmissible(isGateFree: bool, maxInputLevel: nat, firstUnexecutedLevel: nat)
    ensures var m := Max(maxInputLevel, firstUnexecutedLevel);
      var r := OutputLevel(isGateFree, maxInputLevel, firstUnexecutedLevel);
      Admissible(isGateFree, m, r) && r <= m + 2 &&
      forall level :: Admissible(isGateFree, m, level) ==> r <= level
  {
  }

  /** The levels of the gate keeper test: inputs on 0 and their AND on 1;
      with levels 0 and 1 popped, an XOR of the inputs on 2, outputs of
      the XOR (level 2) and of the AND (level 1) on 3, an AND over the AND
      and an output on 5 (level 4 stays empty), and a late input and a NOT
      of the XOR on 2. */
  lemma TestAddAndRemoveGatesLevels()
    ensures OutputLevel(IsNormalGateFree(Input), 0, 0) == 0
    ensures OutputLevel(IsNormalGateFree(NonFreeAnd), Max(0, 0), 0) == 1
    ensures OutputLevel(IsNormalGateFree(AsymmetricXOR), Max(0, 0), 2) == 2
    ensures OutputLevel(IsNormalGateFree(Output), 2, 2) == 3
    ensures OutputLevel(IsNormalGateFree(Output), 1, 2) == 3
    ensures OutputLevel(IsNormalGateFree(NonFreeAnd), Max(1, 3), 2) == 5
    ensures OutputLevel(IsNormalGateFree(Input), 2, 2) == 2
    ensures OutputLevel(IsNormalGateFree(AsymmetricNot), Max(2, 0), 2) == 2
  {
  }

  /** The number of gates in the buckets. */
  function TotalGates(buckets: seq<seq<Gate>>): nat
    decreases |buckets|
  {
    if |buckets| == 0 then 0 else |buckets[0]| + TotalGates(buckets[1..])
  }

  /** getLevel's padding: empty buckets are appended until offset is a
      valid index. */
  function Padded(buckets: seq<seq<Gate>>, offset: nat): seq<seq<Gate>>
  {
    if offset < |buckets| then buckets
    else buckets + Empties(offset + 1 - |buckets|)
  }

  /** n empty buckets. */
  function Empties(n: nat): (r: seq<seq<Gate>>)
    ensures |r| == n && forall k :: 0 <= k < n ==> r[k] == []
    decreases n
  {
    if n == 0 then [] else Empties(n - 1) + [[]]
  }

  /** addGate's effect on the buckets: the gate is appended to the bucket
      at offset. */
  function Scheduled(buckets: seq<seq<Gate>>, offset: nat, gate: Gate): seq<seq<Gate>>
  {
    var padded := Padded(buckets, offset);
    padded[offset := padded[offset] + [gate]]
  }

  /** Every gate in bucket k is free exactly when level first + k is
      (stated bucket by bucket, see ParityAt). */
  ghost predicate ParityRespected(buckets: seq<seq<Gate>>, first: nat)
    decreases |buckets|
  {
    |buckets| == 0 ||
    (AllFreeAs(buckets[0], IsLevelFree(first)) && ParityRespected(buckets[1..], first + 1))
  }

  ghost predicate ParityAt(buckets: seq<seq<Gate>>, first: nat)
  {
    forall k :: 0 <= k < |buckets| ==> AllFreeAs(buckets[k], IsLevelFree(first + k))
  }

  lemma {:induction false} ParityRespectedIff(buckets: seq<seq<Gate>>, first: nat)
    ensures ParityRespected(buckets, first) <==> ParityAt(buckets, first)
    decreases |buckets|
  {
    if |buckets| > 0 {
      ParityRespectedIff(buckets[1..], first + 1);
      if ParityAt(buckets, first) {
        forall k | 0 <= k < |buckets| - 1
          ensures AllFreeAs(buckets[1..][k], IsLevelFree(first + 1 + k))
        {
          assert buckets[1..][k] == buckets[k + 1];
        }
      }
      if ParityRespected(buckets, first) {
        forall k | 0 <= k < |buckets|
          ensures AllFreeAs(buckets[k], IsLevelFree(first + k))
        {
          if k > 0 {
            assert buckets[1..][k - 1] == buckets[k];
          }
        }
      }
    }
  }

  /** Every gate of the bucket is free exactly when free holds. */
  ghost predicate AllFreeAs(bucket: seq<Gate>, free: bool)
  {
    forall i :: 0 <= i < |bucket| ==> IsFree(bucket[i]) == free
  }

  lemma {:induction false} EmptiesCount(n: nat)
    ensures TotalGates(Empties(n)) == 0
    decreases n
  {
    if n > 0 {
      EmptiesCount(n - 1);
      TotalGatesAppend(Empties(n - 1), [[]]);
    }
  }

  /** Padding with empty buckets keeps the parity invariant. */
  lemma PaddedParity(b: seq<seq<Gate>>, first: nat, offset: nat)
    requires ParityRespected(b, first)
    ensures ParityRespected(Padded(b, offset), first)
  {
    ParityRespectedIff(b, first);
    var p := Padded(b, offset);
    forall k | 0 <= k < |p|
      ensures AllFreeAs(p[k], IsLevelFree(first + k))
    {
      if k >= |b| {
        assert p[k] == [];
      }
    }
    ParityRespectedIff(p, first);
  }

  /** Appending a gate of the level's parity to its bucket keeps the
      parity invariant. */
  lemma PushParity(p: seq<seq<Gate>>, first: nat, offset: nat, g: Gate)
    requires ParityRespected(p, first) && offset < |p| && IsFree(g) == IsLevelFree(first + offset)
    ensures ParityRespected(p[offset := p[offset] + [g]], first)
  {
    ParityRespectedIff(p, first);
    var s := p[offset := p[offset] + [g]];
    forall k | 0 <= k < |s|
      ensures AllFreeAs(s[k], IsLevelFree(first + k))
    {
      if k == offset {
        assert AllFreeAs(p[k], IsLevelFree(first + k));
      }
    }
    ParityRespectedIff(s, first);
  }

  /** Scheduling a gate of the level's parity keeps the parity invariant. */
  lemma ScheduledParity(b: seq<seq<Gate>>, first: nat, offset: nat, g: Gate)
    requires ParityRespected(b, first) && IsFree(g) == IsLevelFree(first + offset)
    ensures ParityRespected(Scheduled(b, offset, g), first)
  {
    PaddedParity(b, first, offset);
    PushParity(Padded(b, offset), first, offset, g);
  }

  lemma {:induction false} TotalGatesAppend(a: seq<seq<Gate>>, b: seq<seq<Gate>>)
    ensures TotalGates(a + b) == TotalGates(a) + TotalGates(b)
    decreases |a|
  {
    if |a| > 0 {
      assert (a + b)[1..] == a[1..] + b && (a + b)[0] == a[0];
      TotalGatesAppend(a[1..], b);
      assert TotalGates(a + b) == |a[0]| + TotalGates(a[1..] + b);
    } else {
      assert a + b == b;
    }
  }

  lemma {:induction false} TotalGatesPush(b: seq<seq<Gate>>, k: nat, g: Gate)
    requires k < |b|
    ensures TotalGates(b[k := b[k] + [g]]) == TotalGates(b) + 1
    decreases |b|
  {
    if k > 0 {
      assert b[k := b[k] + [g]][1..] == b[1..][k - 1 := b[k] + [g]];
      TotalGatesPush(b[1..], k - 1, g);
    }
  }

  /** Scheduling a gate adds exactly that gate to bucket offset, pads with
      empty buckets and leaves every other bucket as it was. */
  lemma ScheduledShape(b: seq<seq<Gate>>, offset: nat, g: Gate)
    ensures var s := Scheduled(b, offset, g);
      && TotalGates(s) == TotalGates(b) + 1
      && |s| == Max(|b|, offset + 1)
      && s[offset] == (if offset < |b| then b[offset] else []) + [g]
      && forall k :: 0 <= k < |s| && k != offset ==> s[k] == (if k < |b| then b[k] else [])
  {
    var p := Padded(b, offset);
    if offset >= |b| {
      TotalGatesAppend(b, Empties(offset + 1 - |b|));
      EmptiesCount(offset + 1 - |b|);
    }
    TotalGatesPush(p, offset, g);
  }

  /** The wire is empty or live in the allocator getMaxLevel reads. */
  ghost predicate LiveIn(keeper: WireKeeper, w: WireId, usingBatch: bool)
    reads keeper
  {
    w.Wire? ==> if usingBatch then w.id in keeper.boolBatchWires else w.id in keeper.boolWires
  }

  /** getMaxLevel of one wire: 0 for the empty wire, otherwise its first
      available level. */
  function WireLevel(keeper: WireKeeper, w: WireId, usingBatch: bool): nat
    reads keeper
    requires LiveIn(keeper, w, usingBatch)
  {
    match w
    case Empty => 0
    case Wire(id) =>
      if usingBatch then keeper.boolBatchWires[id].firstAvailableLevel
      else keeper.boolWires[id].firstAvailableLevel
  }

  /** The latest level among a non-empty list of wires. */
  function MaxLevelOf(keeper: WireKeeper, ws: seq<WireId>, usingBatch: bool): (r: nat)
    reads keeper
    requires |ws| >= 1 && forall i :: 0 <= i < |ws| ==> LiveIn(keeper, ws[i], usingBatch)
    ensures forall i :: 0 <= i < |ws| ==> WireLevel(keeper, ws[i], usingBatch) <= r
    ensures exists i :: 0 <= i < |ws| && WireLevel(keeper, ws[i], usingBatch) == r
    decreases |ws|
  {
    if |ws| == 1 then WireLevel(keeper, ws[0], usingBatch)
    else
      var rest := MaxLevelOf(keeper, ws[..|ws| - 1], usingBatch);
      assert forall i :: 0 <= i < |ws| - 1 ==> ws[..|ws| - 1][i] == ws[i];
      Max(rest, WireLevel(keeper, ws[|ws| - 1], usingBatch))
  }

  /** getMaxLevel of a list of wires: an empty list throws. */
  function MaxLevel(keeper: WireKeeper, ws: seq<WireId>, usingBatch: bool): (r: Result<nat>)
    reads keeper
    requires forall i :: 0 <= i < |ws| ==> LiveIn(keeper, ws[i], usingBatch)
    ensures r.Err? <==> |ws| == 0
    ensures r.Ok? ==> r.value == MaxLevelOf(keeper, ws, usingBatch)
  {
    if |ws| == 0 then Err(RuntimeError) else Ok(MaxLevelOf(keeper, ws, usingBatch))
  }

  /** Every non-empty wire among ws is live in s. */
  predicate LiveOrEmpty<T>(s: Store<T>, ws: seq<WireId>)
  {
    forall i :: 0 <= i < |ws| ==> ws[i].Wire? ==> ws[i].id in s
  }

  /** How often the wire id k occurs among ws. */
  function Occurrences(ws: seq<WireId>, k: nat): nat
    decreases |ws|
  {
    if |ws| == 0 then 0
    else Occurrences(ws[..|ws| - 1], k) + (if ws[|ws| - 1] == Wire(k) then 1 else 0)
  }

  /** The private increaseBatchReferenceCount: empty wires are skipped. */
  function RetainOne<T>(s: Store<T>, w: WireId): (r: Store<T>)
    requires w.Wire? ==> w.id in s
    ensures r.Keys == s.Keys
  {
    if w.Empty? then s else Retain(s, w.id)
  }

  /** The reference counts after the constructor: one more reference to
      each non-empty wire, in order. */
  function RetainAll<T>(s: Store<T>, ws: seq<WireId>): (r: Store<T>)
    requires LiveOrEmpty(s, ws)
    ensures r.Keys == s.Keys
    decreases |ws|
  {
    if |ws| == 0 then s else RetainOne(RetainAll(s, ws[..|ws| - 1]), ws[|ws| - 1])
  }

  /** Taking references to ws raises each record's count by the number of
      times its id occurs among ws, and changes nothing else. */
  lemma {:induction false} RetainAllCounts<T>(s: Store<T>, ws: seq<WireId>, k: nat)
    requires LiveOrEmpty(s, ws) && k in s
    ensures RetainAll(s, ws)[k] == s[k].(referenceCount := s[k].referenceCount + Occurrences(ws, k))
    decreases |ws|
  {
    if |ws| > 0 {
      RetainAllCounts(s, ws[..|ws| - 1], k);
    }
  }

  /** The constructors' loop over batched wires: a reference to each
      non-empty wire. */
  method RetainBatchWires(keeper: WireKeeper, ws: seq<WireId>)
    requires keeper.Valid() && LiveOrEmpty(keeper.boolBatchWires, ws)
    modifies keeper
    ensures keeper.Valid()
    ensures keeper.boolBatchWires == RetainAll(old(keeper.boolBatchWires), ws)
    ensures keeper.boolWires == old(keeper.boolWires) && keeper.intWires == old(keeper.intWires)
    ensures keeper.intBatchWires == old(keeper.intBatchWires)
    ensures keeper.wiresAllocated == old(keeper.wiresAllocated) && keeper.wiresDeallocated == old(keeper.wiresDeallocated)
  {
    ghost var start := keeper.boolBatchWires;
    for i := 0 to |ws|
      invariant keeper.Valid() && LiveOrEmpty(start, ws)
      invariant keeper.boolBatchWires == RetainAll(start, ws[..i])
      invariant keeper.boolWires == old(keeper.boolWires) && keeper.intWires == old(keeper.intWires)
      invariant keeper.intBatchWires == old(keeper.intBatchWires)
      invariant keeper.wiresAllocated == old(keeper.wiresAllocated) && keeper.wiresDeallocated == old(keeper.wiresDeallocated)
    {
      assert ws[..i + 1][..i] == ws[..i];
      if ws[i].Wire? {
        var _ := keeper.IncreaseBatchReferenceCount(ws[i].id);
      }
    }
    assert ws[..|ws|] == ws;
  }

  /** The wires a gate holds a reference to, in the order its constructor
      takes them: the wires of before, the gate's own outputs ws, the wires
      of after. */
  function GateWires(before: seq<WireId>, ws: seq<nat>, after: seq<WireId>): (r: seq<WireId>)
    ensures |r| == |before| + |ws| + |after|
    ensures forall i :: 0 <= i < |ws| ==> r[|before| + i] == Wire(ws[i])
  {
    before + Wires(ws) + after
  }

  /** How often k occurs in a concatenation is the sum over the parts. */
  lemma {:induction false} OccurrencesAppend(a: seq<WireId>, b: seq<WireId>, k: nat)
    ensures Occurrences(a + b, k) == Occurrences(a, k) + Occurrences(b, k)
    decreases |b|
  {
    if |b| == 0 {
      assert a + b == a;
    } else {
      assert (a + b)[..|a + b| - 1] == a + b[..|b| - 1];
      OccurrencesAppend(a, b[..|b| - 1], k);
    }
  }

  /** Distinct ids: k occurs once among Wires(ws) if it is one of them and
      not at all otherwise. */
  lemma {:induction false} OccurrencesOfWires(ws: seq<nat>, k: nat)
    requires forall i, j :: 0 <= i < j < |ws| ==> ws[i] != ws[j]
    ensures Occurrences(Wires(ws), k) == if k in ws then 1 else 0
    decreases |ws|
  {
    if |ws| > 0 {
      var front := ws[..|ws| - 1];
      assert Wires(ws)[..|ws| - 1] == Wires(front);
      OccurrencesOfWires(front, k);
      assert ws == front + [ws[|ws| - 1]];
      assert ws[|ws| - 1] !in front;
    }
  }

  /** A wire that is not live in s does not occur among wires live in s. */
  lemma {:induction false} OccurrencesOfDead<T>(s: Store<T>, ws: seq<WireId>, k: nat)
    requires LiveOrEmpty(s, ws) && k !in s
    ensures Occurrences(ws, k) == 0
    decreases |ws|
  {
    if |ws| > 0 {
      OccurrencesOfDead(s, ws[..|ws| - 1], k);
    }
  }

  /** The record WithFresh holds for k: rec for a new id, the old one
      otherwise. */
  lemma {:induction false} WithFreshAt<T>(s: Store<T>, ws: seq<nat>, rec: WireRecord<T>, k: nat)
    requires k in s || k in ws
    ensures k in WithFresh(s, ws, rec)
    ensures WithFresh(s, ws, rec)[k] == if k in ws then rec else s[k]
    decreases |ws|
  {
    WithFreshKeys(s, ws, rec, k);
    if |ws| > 0 {
      var front := ws[..|ws| - 1];
      assert ws == front + [ws[|ws| - 1]];
      if k != ws[|ws| - 1] {
        WithFreshAt(s, front, rec, k);
      }
    }
  }

  /** Allocating the outputs keeps the gate's other wires live, and makes
      the outputs live. */
  lemma GateWiresLive<T>(s: Store<T>, ws: seq<nat>, rec: WireRecord<T>, before: seq<WireId>, after: seq<WireId>)
    requires LiveOrEmpty(s, before + after)
    ensures LiveOrEmpty(WithFresh(s, ws, rec), GateWires(before, ws, after))
  {
    var all := GateWires(before, ws, after);
    forall i | 0 <= i < |all| && all[i].Wire?
      ensures all[i].id in WithFresh(s, ws, rec)
    {
      if i < |before| {
        assert all[i] == (before + after)[i];
        WithFreshKeys(s, ws, rec, all[i].id);
      } else if i < |before| + |ws| {
        WithFreshKeys(s, ws, rec, ws[i - |before|]);
      } else {
        assert all[i] == (before + after)[i - |ws|];
        WithFreshKeys(s, ws, rec, all[i].id);
      }
    }
  }

  /** The wire keeper's store once a gate is built: its outputs ws
      allocated with record rec, then one reference taken to every
      non-empty wire the gate holds. */
  function GateStore<T>(s: Store<T>, ws: seq<nat>, rec: WireRecord<T>, before: seq<WireId>, after: seq<WireId>): Store<T>
    requires LiveOrEmpty(s, before + after)
  {
    GateWiresLive(s, ws, rec, before, after);
    RetainAll(WithFresh(s, ws, rec), GateWires(before, ws, after))
  }

  /** Building a gate adds its outputs, each referenced by the wire keeper
      and by the gate (a count one above rec's), and raises every other
      wire's count by the number of times the gate takes it as an input. */
  lemma GateStoreCounts<T>(s: Store<T>, ws: seq<nat>, rec: WireRecord<T>, before: seq<WireId>, after: seq<WireId>, k: nat)
    requires FreshIds(s, ws) && LiveOrEmpty(s, before + after)
    ensures k in GateStore(s, ws, rec, before, after) <==> k in s || k in ws
    ensures k in ws ==> GateStore(s, ws, rec, before, after)[k] == rec.(referenceCount := rec.referenceCount + 1)
    ensures k in s ==>
      GateStore(s, ws, rec, before, after)[k] == s[k].(referenceCount := s[k].referenceCount + Occurrences(before + after, k))
  {
    WithFreshKeys(s, ws, rec, k);
    GateWiresLive(s, ws, rec, before, after);
    if k in s || k in ws {
      var all := GateWires(before, ws, after);
      WithFreshAt(s, ws, rec, k);
      RetainAllCounts(WithFresh(s, ws, rec), all, k);
      OccurrencesAppend(before + Wires(ws), after, k);
      OccurrencesAppend(before, Wires(ws), k);
      OccurrencesAppend(before, after, k);
      OccurrencesOfWires(ws, k);
      if k in ws {
        OccurrencesOfDead(s, before + after, k);
      }
    }
  }

  /** Once a gate over the Boolean wires is built: the outputs ws, fresh,
      got record rec and the wire keeper holds GateStore; the other stores
      are as they were and the outputs were counted as allocated. */
  twostate predicate BoolGateWired(keeper: WireKeeper, ws: seq<nat>, rec: WireRecord<bool>, before: seq<WireId>, after: seq<WireId>)
    reads keeper
  {
    && FreshIds(old(keeper.boolWires), ws)
    && LiveOrEmpty(old(keeper.boolWires), before + after)
    && keeper.boolWires == GateStore(old(keeper.boolWires), ws, rec, before, after)
    && keeper.intWires == old(keeper.intWires) && keeper.boolBatchWires == old(keeper.boolBatchWires)
    && keeper.intBatchWires == old(keeper.intBatchWires)
    && keeper.wiresAllocated == old(keeper.wiresAllocated) + |ws| && keeper.wiresDeallocated == old(keeper.wiresDeallocated)
  }

  /** BoolGateWired for a gate over batched Boolean wires. */
  twostate predicate BatchGateWired(keeper: WireKeeper, ws: seq<nat>, rec: WireRecord<seq<bool>>, before: seq<WireId>, after: seq<WireId>)
    reads keeper
  {
    && FreshIds(old(keeper.boolBatchWires), ws)
    && LiveOrEmpty(old(keeper.boolBatchWires), before + after)
    && keeper.boolBatchWires == GateStore(old(keeper.boolBatchWires), ws, rec, before, after)
    && keeper.boolWires == old(keeper.boolWires) && keeper.intWires == old(keeper.intWires)
    && keeper.intBatchWires == old(keeper.intBatchWires)
    && keeper.wiresAllocated == old(keeper.wiresAllocated) + |ws| && keeper.wiresDeallocated == old(keeper.wiresDeallocated)
  }

  /** The gate constructors' increaseReferenceCount calls: a reference to
      each non-empty wire. */
  method RetainWires(keeper: WireKeeper, ws: seq<WireId>)
    requires keeper.Valid() && LiveOrEmpty(keeper.boolWires, ws)
    modifies keeper
    ensures keeper.Valid()
    ensures keeper.boolWires == RetainAll(old(keeper.boolWires), ws)
    ensures keeper.intWires == old(keeper.intWires) && keeper.boolBatchWires == old(keeper.boolBatchWires)
    ensures keeper.intBatchWires == old(keeper.intBatchWires)
    ensures keeper.wiresAllocated == old(keeper.wiresAllocated) && keeper.wiresDeallocated == old(keeper.wiresDeallocated)
  {
    ghost var start := keeper.boolWires;
    for i := 0 to |ws|
      invariant keeper.Valid() && LiveOrEmpty(start, ws)
      invariant keeper.boolWires == RetainAll(start, ws[..i])
      invariant keeper.intWires == old(keeper.intWires) && keeper.boolBatchWires == old(keeper.boolBatchWires)
      invariant keeper.intBatchWires == old(keeper.intBatchWires)
      invariant keeper.wiresAllocated == old(keeper.wiresAllocated) && keeper.wiresDeallocated == old(keeper.wiresDeallocated)
    {
      assert ws[..i + 1][..i] == ws[..i];
      if ws[i].Wire? {
        var _ := keeper.IncreaseReferenceCount(ws[i].id);
      }
    }
    assert ws[..|ws|] == ws;
  }

  /** The batching limit of GateKeeper.h. */
  const MaxUnexecutedGates: nat := 100000

  class GateKeeper {
    var gatesByLevelOffset: seq<seq<Gate>>
    var firstUnexecutedLevel: nat
    var numUnexecutedGates: nat
    const wireKeeper: WireKeeper

    /** The count is the number of gates in the buckets, and every bucket
        holds gates of its level's parity. */
    ghost predicate Valid()
      reads this, wireKeeper
    {
      && wireKeeper.Valid()
      && numUnexecutedGates == TotalGates(gatesByLevelOffset)
      && ParityRespected(gatesByLevelOffset, firstUnexecutedLevel)
    }

    constructor (wireKeeper: WireKeeper)
      requires wireKeeper.Valid()
      ensures Valid() && this.wireKeeper == wireKeeper
      ensures gatesByLevelOffset == [] && firstUnexecutedLevel == 0 && numUnexecutedGates == 0
    {
      this.wireKeeper := wireKeeper;
      gatesByLevelOffset := [];
      firstUnexecutedLevel := 0;
      numUnexecutedGates := 0;
    }

    /** The gate was appended to the bucket of its level, and the count
        went up by one. */
    predicate Added(gates: seq<seq<Gate>>, first: nat, count: nat, gate: Gate, level: nat)
      reads this
    {
      && level >= first
      && gatesByLevelOffset == Scheduled(gates, level - first, gate)
      && firstUnexecutedLevel == first
      && numUnexecutedGates == count + 1
    }

    /** getLevel: pads the deque with empty buckets so that the level's
        offset is a valid index. */
    method GetLevel(level: nat)
      requires Valid() && level >= firstUnexecutedLevel
      modifies this
      ensures Valid()
      ensures firstUnexecutedLevel == old(firstUnexecutedLevel) && numUnexecutedGates == old(numUnexecutedGates)
      ensures gatesByLevelOffset == Padded(old(gatesByLevelOffset), level - firstUnexecutedLevel)
      ensures |gatesByLevelOffset| > level - firstUnexecutedLevel
    {
      var offset := level - firstUnexecutedLevel;
      ghost var start := gatesByLevelOffset;
      while |gatesByLevelOffset| <= offset
        invariant |start| <= |gatesByLevelOffset| <= Max(|start|, offset + 1)
        invariant gatesByLevelOffset == start + Empties(|gatesByLevelOffset| - |start|)
        invariant firstUnexecutedLevel == old(firstUnexecutedLevel) && numUnexecutedGates == old(numUnexecutedGates)
        decreases offset + 1 - |gatesByLevelOffset|
      {
        assert start + Empties(|gatesByLevelOffset| + 1 - |start|) == gatesByLevelOffset + [[]];
        gatesByLevelOffset := gatesByLevelOffset + [[]];
      }
      TotalGatesAppend(start, Empties(|gatesByLevelOffset| - |start|));
      EmptiesCount(|gatesByLevelOffset| - |start|);
      PaddedParity(start, firstUnexecutedLevel, offset);
    }

    /** addGate: the gate joins the bucket of its level. */
    method AddGate(gate: Gate, level: nat)
      requires Valid() && level >= firstUnexecutedLevel && IsFree(gate) == IsLevelFree(level)
      modifies this
      ensures Valid() && Added(old(gatesByLevelOffset), old(firstUnexecutedLevel), old(numUnexecutedGates), gate, level)
    {
      ghost var start := gatesByLevelOffset;
      GetLevel(level);
      var offset := level - firstUnexecutedLevel;
      gatesByLevelOffset := gatesByLevelOffset[offset := gatesByLevelOffset[offset] + [gate]];
      numUnexecutedGates := numUnexecutedGates + 1;
      assert gatesByLevelOffset == Scheduled(start, offset, gate);
      ScheduledShape(start, offset, gate);
      ScheduledParity(start, firstUnexecutedLevel, offset, gate);
    }

    method InputGate(v: bool) returns (w: nat)
      requires Valid()
      modifies this, wireKeeper
      ensures Valid()
      ensures var level := OutputLevel(true, old(firstUnexecutedLevel), old(firstUnexecutedLevel));
        && BoolGateWired(wireKeeper, [w], WireRecord(v, level, 1, 0), [], [Empty, Empty])
        && Added(old(gatesByLevelOffset), old(firstUnexecutedLevel), old(numUnexecutedGates), NormalGate(Input, w, Empty, Empty, 0, 0, false), level)
    {
      var level := OutputLevel(IsNormalGateFree(Input), firstUnexecutedLevel, firstUnexecutedLevel);
      w := WireBoolGate(wireKeeper, v, level, [], [Empty, Empty]);
      AddGate(NormalGate(Input, w, Empty, Empty, 0, 0, false), level);
    }

    method InputGateBatch(v: seq<bool>) returns (w: nat)
      requires Valid()
      modifies this, wireKeeper
      ensures Valid()
      ensures var level := OutputLevel(true, old(firstUnexecutedLevel), old(firstUnexecutedLevel));
        && BatchGateWired(wireKeeper, [w], WireRecord(v, level, 1, 0), [], [Empty, Empty])
        && Added(old(gatesByLevelOffset), old(firstUnexecutedLevel), old(numUnexecutedGates), NormalGate(Input, w, Empty, Empty, 0, |v|, true), level)
    {
      var level := OutputLevel(IsNormalGateFree(Input), firstUnexecutedLevel, firstUnexecutedLevel);
      w := WireBatchGate(wireKeeper, v, level, [], [Empty, Empty]);
      AddGate(NormalGate(Input, w, Empty, Empty, 0, |v|, true), level);
    }

    method OutputGate(src: WireId, partyId: int) returns (w: nat)
      requires Valid() && LiveIn(wireKeeper, src, false)
      modifies this, wireKeeper
      ensures Valid()
      ensures var level := OutputLevel(false, old(WireLevel(wireKeeper, src, false)), old(firstUnexecutedLevel));
        && BoolGateWired(wireKeeper, [w], WireRecord(false, level, 1, 0), [], [src, Empty])
        && Added(old(gatesByLevelOffset), old(firstUnexecutedLevel), old(numUnexecutedGates), NormalGate(Output, w, src, Empty, partyId, 0, false), level)
    {
      var level := OutputLevel(IsNormalGateFree(Output), WireLevel(wireKeeper, src, false), firstUnexecutedLevel);
      w := WireBoolGate(wireKeeper, false, level, [], [src, Empty]);
      AddGate(NormalGate(Output, w, src, Empty, partyId, 0, false), level);
    }

    method OutputGateBatch(src: WireId, partyId: int) returns (w: nat)
      requires Valid() && LiveIn(wireKeeper, src, true)
      modifies this, wireKeeper
      ensures Valid()
      ensures var level := OutputLevel(false, old(WireLevel(wireKeeper, src, true)), old(firstUnexecutedLevel));
        && BatchGateWired(wireKeeper, [w], WireRecord([], level, 1, 0), [], [src, Empty])
        && Added(old(gatesByLevelOffset), old(firstUnexecutedLevel), old(numUnexecutedGates), NormalGate(Output, w, src, Empty, partyId, 0, true), level)
    {
      var level := OutputLevel(IsNormalGateFree(Output), WireLevel(wireKeeper, src, true), firstUnexecutedLevel);
      w := WireBatchGate(wireKeeper, [], level, [], [src, Empty]);
      AddGate(NormalGate(Output, w, src, Empty, partyId, 0, true), level);
    }

    /** normalGate: the level follows the later of the two inputs (an
        empty right input counts as level 0). */
    method NormalGateOf(gateType: NormalGateType, left: WireId, right: WireId) returns (w: nat)
      requires Valid() && LiveIn(wireKeeper, left, false) && LiveIn(wireKeeper, right, false)
      modifies this, wireKeeper
      ensures Valid()
      ensures var level := OutputLevel(IsNormalGateFree(gateType),
          Max(old(WireLevel(wireKeeper, left, false)), old(WireLevel(wireKeeper, right, false))), old(firstUnexecutedLevel));
        && BoolGateWired(wireKeeper, [w], WireRecord(false, level, 1, 0), [], [left, right])
        && Added(old(gatesByLevelOffset), old(firstUnexecutedLevel), old(numUnexecutedGates), NormalGate(gateType, w, left, right, 0, 0, false), level)
    {
      var level := OutputLevel(IsNormalGateFree(gateType),
        Max(WireLevel(wireKeeper, left, false), WireLevel(wireKeeper, right, false)), firstUnexecutedLevel);
      w := WireBoolGate(wireKeeper, false, level, [], [left, right]);
      AddGate(NormalGate(gateType, w, left, right, 0, 0, false), level);
    }

    method NormalGateBatch(gateType: NormalGateType, left: WireId, right: WireId) returns (w: nat)
      requires Valid() && LiveIn(wireKeeper, left, true) && LiveIn(wireKeeper, right, true)
      modifies this, wireKeeper
      ensures Valid()
      ensures var level := OutputLevel(IsNormalGateFree(gateType),
          Max(old(WireLevel(wireKeeper, left, true)), old(WireLevel(wireKeeper, right, true))), old(firstUnexecutedLevel));
        && BatchGateWired(wireKeeper, [w], WireRecord([], level, 1, 0), [], [left, right])
        && Added(old(gatesByLevelOffset), old(firstUnexecutedLevel), old(numUnexecutedGates), NormalGate(gateType, w, left, right, 0, 0, true), level)
    {
      var level := OutputLevel(IsNormalGateFree(gateType),
        Max(WireLevel(wireKeeper, left, true), WireLevel(wireKeeper, right, true)), firstUnexecutedLevel);
      w := WireBatchGate(wireKeeper, [], level, [], [left, right]);
      AddGate(NormalGate(gateType, w, left, right, 0, 0, true), level);
    }

    /** compositeGate: one output wire per right input, all on the same
        level; an empty list of right inputs throws in getMaxLevel. */
    method CompositeGateOf(gateType: CompositeGateType, left: WireId, rights: seq<WireId>)
      returns (r: Result<seq<nat>>)
      requires Valid() && LiveIn(wireKeeper, left, false) && forall i :: 0 <= i < |rights| ==> LiveIn(wireKeeper, rights[i], false)
      modifies this, wireKeeper
      ensures Valid()
      ensures r.Err? <==> |rights| == 0
      ensures r.Err? ==> unchanged(this, wireKeeper)
      ensures r.Ok? ==> (
        var level := OutputLevel(IsCompositeGateFree(gateType),
          Max(old(WireLevel(wireKeeper, left, false)), old(MaxLevelOf(wireKeeper, rights, false))), old(firstUnexecutedLevel));
        && |r.value| == |rights|
        && BoolGateWired(wireKeeper, r.value, WireRecord(false, level, 1, 0), [], [left] + rights)
        && Added(old(gatesByLevelOffset), old(firstUnexecutedLevel), old(numUnexecutedGates), CompositeGate(gateType, r.value, left, rights, false), level))
    {
      if |rights| == 0 {
        return Err(RuntimeError);
      }
      var level := OutputLevel(IsCompositeGateFree(gateType),
        Max(WireLevel(wireKeeper, left, false), MaxLevelOf(wireKeeper, rights, false)), firstUnexecutedLevel);
      var outputs := WireBoolGates(wireKeeper, |rights|, level, [], [left] + rights);
      AddGate(CompositeGate(gateType, outputs, left, rights, false), level);
      return Ok(outputs);
    }

    method CompositeGateBatch(gateType: CompositeGateType, left: WireId, rights: seq<WireId>)
      returns (r: Result<seq<nat>>)
      requires Valid() && LiveIn(wireKeeper, left, true) && forall i :: 0 <= i < |rights| ==> LiveIn(wireKeeper, rights[i], true)
      modifies this, wireKeeper
      ensures Valid()
      ensures r.Err? <==> |rights| == 0
      ensures r.Err? ==> unchanged(this, wireKeeper)
      ensures r.Ok? ==> (
        var level := OutputLevel(IsCompositeGateFree(gateType),
          Max(old(WireLevel(wireKeeper, left, true)), old(MaxLevelOf(wireKeeper, rights, true))), old(firstUnexecutedLevel));
        && |r.value| == |rights|
        && BatchGateWired(wireKeeper, r.value, WireRecord([], level, 1, 0), [], [left] + rights)
        && Added(old(gatesByLevelOffset), old(firstUnexecutedLevel), old(numUnexecutedGates), CompositeGate(gateType, r.value, left, rights, true), level))
    {
      if |rights| == 0 {
        return Err(RuntimeError);
      }
      var level := OutputLevel(IsCompositeGateFree(gateType),
        Max(WireLevel(wireKeeper, left, true), MaxLevelOf(wireKeeper, rights, true)), firstUnexecutedLevel);
      var outputs := WireBatchGates(wireKeeper, |rights|, level, [], [left] + rights);
      AddGate(CompositeGate(gateType, outputs, left, rights, true), level);
      return Ok(outputs);
    }

    /** batchingUp: one new batch wire on the free level after the inputs;
        an empty input list throws in getMaxLevel. The batching gate holds
        the new batch wire, then each input. */
    method BatchingUp(src: seq<nat>) returns (r: Result<nat>)
      requires Valid() && forall i :: 0 <= i < |src| ==> src[i] in wireKeeper.boolBatchWires
      modifies this, wireKeeper
      ensures Valid()
      ensures r.Err? <==> |src| == 0
      ensures r.Err? ==> unchanged(this, wireKeeper)
      ensures r.Ok? ==> (
        var level := OutputLevel(true, old(MaxLevelOf(wireKeeper, Wires(src), true)), old(firstUnexecutedLevel));
        && BatchGateWired(wireKeeper, [r.value], WireRecord([], level, 1, 0), [], Wires(src))
        && Added(old(gatesByLevelOffset), old(firstUnexecutedLevel), old(numUnexecutedGates), BatchingGate(src, r.value), level))
    {
      if |src| == 0 {
        return Err(RuntimeError);
      }
      var level := OutputLevel(true, MaxLevelOf(wireKeeper, Wires(src), true), firstUnexecutedLevel);
      LiveWires(wireKeeper.boolBatchWires, src);
      var w := WireBatchGate(wireKeeper, [], level, [], Wires(src));
      AddGate(BatchingGate(src, w), level);
      return Ok(w);
    }

    /** unbatching: one new batch wire per strategy entry, all on the free
        level after the source wire. The unbatching gate holds the source
        wire, then each output. */
    method Unbatching(src: nat, strategy: seq<nat>) returns (outputs: seq<nat>)
      requires Valid() && src in wireKeeper.boolBatchWires
      modifies this, wireKeeper
      ensures Valid()
      ensures var level := OutputLevel(true, old(wireKeeper.boolBatchWires[src].firstAvailableLevel), old(firstUnexecutedLevel));
        && |outputs| == |strategy|
        && BatchGateWired(wireKeeper, outputs, WireRecord([], level, 1, 0), [Wire(src)], [])
        && Added(old(gatesByLevelOffset), old(firstUnexecutedLevel), old(numUnexecutedGates), UnbatchingGate(src, outputs, strategy), level)
    {
      var level := OutputLevel(true, wireKeeper.boolBatchWires[src].firstAvailableLevel, firstUnexecutedLevel);
      assert [Wire(src)] + [] == [Wire(src)];
      outputs := WireBatchGates(wireKeeper, |strategy|, level, [Wire(src)], []);
      AddGate(UnbatchingGate(src, outputs, strategy), level);
    }

    function GetFirstUnexecutedLevel(): nat
      reads this
    {
      firstUnexecutedLevel
    }

    /** popFirstUnexecutedLevel: hands out the front bucket and moves on to
        the next level (the deque must not be empty). */
    method PopFirstUnexecutedLevel() returns (gates: seq<Gate>)
      requires Valid() && |gatesByLevelOffset| >= 1
      modifies this
      ensures Valid()
      ensures gates == old(gatesByLevelOffset[0])
      ensures forall i :: 0 <= i < |gates| ==> IsFree(gates[i]) == IsLevelFree(old(firstUnexecutedLevel))
      ensures gatesByLevelOffset == old(gatesByLevelOffset[1..])
      ensures firstUnexecutedLevel == old(firstUnexecutedLevel) + 1
      ensures numUnexecutedGates == old(numUnexecutedGates) - |gates|
    {
      gates := gatesByLevelOffset[0];
      gatesByLevelOffset := gatesByLevelOffset[1..];
      firstUnexecutedLevel := firstUnexecutedLevel + 1;
      numUnexecutedGates := numUnexecutedGates - |gates|;
    }

    /** hasReachedBatchingLimit: more than 100000 gates wait. */
    function HasReachedBatchingLimit(): (r: bool)
      requires Valid()
      reads this, wireKeeper
      ensures r <==> TotalGates(gatesByLevelOffset) > MaxUnexecutedGates
    {
      numUnexecutedGates > MaxUnexecutedGates
    }
  }

  /** Wire ids as non-empty WireIds. */
  function Wires(ids: seq<nat>): (r: seq<WireId>)
    ensures |r| == |ids| && forall i :: 0 <= i < |ids| ==> r[i] == Wire(ids[i])
  {
    seq(|ids|, i requires 0 <= i < |ids| => Wire(ids[i]))
  }

  /** The allocation loop of compositeGate. */
  method AllocateWires(keeper: WireKeeper, n: nat, level: nat) returns (ws: seq<nat>)
    requires keeper.Valid()
    modifies keeper
    ensures keeper.Valid() && |ws| == n
    ensures keeper.BoolsAllocated(ws, WireRecord(false, level, 1, 0))
  {
    ws := [];
    var rec := WireRecord(false, level, 1, 0);
    for i := 0 to n
      invariant keeper.Valid() && |ws| == i
      invariant keeper.BoolsAllocated(ws, rec)
    {
      var w := keeper.AllocateBooleanValue(false, level);
      WithFreshKeys(old(keeper.boolWires), ws, rec, w);
      assert (ws + [w])[..|ws|] == ws;
      ws := ws + [w];
    }
  }

  /** The allocation loop of compositeGateBatch and unbatching. */
  method AllocateBatchWires(keeper: WireKeeper, n: nat, level: nat) returns (ws: seq<nat>)
    requires keeper.Valid()
    modifies keeper
    ensures keeper.Valid() && |ws| == n
    ensures keeper.BatchBoolsAllocated(ws, WireRecord([], level, 1, 0))
  {
    ws := [];
    var rec: WireRecord<seq<bool>> := WireRecord([], level, 1, 0);
    for i := 0 to n
      invariant keeper.Valid() && |ws| == i
      invariant keeper.BatchBoolsAllocated(ws, rec)
    {
      var w := keeper.AllocateBatchBooleanValue([], 0, level);
      WithFreshKeys(old(keeper.boolBatchWires), ws, rec, w);
      assert (ws + [w])[..|ws|] == ws;
      ws := ws + [w];
    }
  }

  /** Live ids make live wires. */
  lemma LiveWires<T>(s: Store<T>, ids: seq<nat>)
    requires forall i :: 0 <= i < |ids| ==> ids[i] in s
    ensures LiveOrEmpty(s, [] + Wires(ids))
  {
    assert [] + Wires(ids) == Wires(ids);
  }

  /** Allocating one wire: WithFresh of a single id is one update. */
  lemma WithFreshOne<T>(s: Store<T>, w: nat, rec: WireRecord<T>)
    ensures WithFresh(s, [w], rec) == s[w := rec]
  {
    assert [w][..0] == [];
  }

  /** A gate over Boolean wires with one output: the output wire holding v
      is allocated on the level, then the gate's constructor takes a
      reference to each non-empty wire it holds. */
  method WireBoolGate(keeper: WireKeeper, v: bool, level: nat, before: seq<WireId>, after: seq<WireId>)
    returns (w: nat)
    requires keeper.Valid() && LiveOrEmpty(keeper.boolWires, before + after)
    modifies keeper
    ensures keeper.Valid() && BoolGateWired(keeper, [w], WireRecord(v, level, 1, 0), before, after)
  {
    w := keeper.AllocateBooleanValue(v, level);
    WithFreshOne(old(keeper.boolWires), w, WireRecord(v, level, 1, 0));
    GateWiresLive(old(keeper.boolWires), [w], WireRecord(v, level, 1, 0), before, after);
    RetainWires(keeper, GateWires(before, [w], after));
  }

  /** WireBoolGate for a gate over batched Boolean wires. */
  method WireBatchGate(keeper: WireKeeper, v: seq<bool>, level: nat, before: seq<WireId>, after: seq<WireId>)
    returns (w: nat)
    requires keeper.Valid() && LiveOrEmpty(keeper.boolBatchWires, before + after)
    modifies keeper
    ensures keeper.Valid() && BatchGateWired(keeper, [w], WireRecord(v, level, 1, 0), before, after)
  {
    w := keeper.AllocateBatchBooleanValue(v, 0, level);
    WithFreshOne(old(keeper.boolBatchWires), w, WireRecord(v, level, 1, 0));
    GateWiresLive(old(keeper.boolBatchWires), [w], WireRecord(v, level, 1, 0), before, after);
    RetainBatchWires(keeper, GateWires(before, [w], after));
  }

  /** A gate over Boolean wires with n outputs, all on the level. */
  method WireBoolGates(keeper: WireKeeper, n: nat, level: nat, before: seq<WireId>, after: seq<WireId>)
    returns (ws: seq<nat>)
    requires keeper.Valid() && LiveOrEmpty(keeper.boolWires, before + after)
    modifies keeper
    ensures keeper.Valid() && |ws| == n
    ensures BoolGateWired(keeper, ws, WireRecord(false, level, 1, 0), before, after)
  {
    ws := AllocateWires(keeper, n, level);
    GateWiresLive(old(keeper.boolWires), ws, WireRecord(false, level, 1, 0), before, after);
    RetainWires(keeper, GateWires(before, ws, after));
  }

  /** WireBoolGates for a gate over batched Boolean wires. */
  method WireBatchGates(keeper: WireKeeper, n: nat, level: nat, before: seq<WireId>, after: seq<WireId>)
    returns (ws: seq<nat>)
    requires keeper.Valid() && LiveOrEmpty(keeper.boolBatchWires, before + after)
    modifies keeper
    ensures keeper.Valid() && |ws| == n
    ensures BatchGateWired(keeper, ws, WireRecord([], level, 1, 0), before, after)
  {
    ws := AllocateBatchWires(keeper, n, level);
    GateWiresLive(old(keeper.boolBatchWires), ws, WireRecord([], level, 1, 0), before, after);
    RetainBatchWires(keeper, GateWires(before, ws, after));
  }
}
