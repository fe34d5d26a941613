/** The scheduler's wire store (fbpcf/scheduler/WireKeeper.cpp): four
    allocators of wire records (Boolean, integer, batched Boolean, batched
    integer), each record holding a value, the first level at which the
    value is available and a reference count, plus the two allocation
    counters reported by getWireStatistics. */
module WireKeeping {
  import opened Common

  /** A wire record.  expectedBatchSize is meaningful for batch wires
      only; the non-batch allocators store 0 there. */
  datatype WireRecord<T> = WireRecord(v: T, firstAvailableLevel: nat, referenceCount: Positive, expectedBatchSize: nat)

  /** A live record is referenced at least once: the record is freed when
      its count would reach 0. */
  type Positive = n: nat | n >= 1 witness 1

  /** One allocator: the live records by wire id. */
  type Store<T> = map<nat, WireRecord<T>>

  /** Every live id is below the bound. */
  ghost predicate Below<T>(s: Store<T>, bound: nat)
  {
    forall id :: id in s ==> id < bound
  }

  /** The store with a record rec added for each of the ids ws, in order. */
  function WithFresh<T>(s: Store<T>, ws: seq<nat>, rec: WireRecord<T>): Store<T>
    decreases |ws|
  {
    if |ws| == 0 then s else WithFresh(s, ws[..|ws| - 1], rec)[ws[|ws| - 1] := rec]
  }

  /** The keys of WithFresh are the old keys and the new ids. */
  lemma {:induction false} WithFreshKeys<T>(s: Store<T>, ws: seq<nat>, rec: WireRecord<T>, k: nat)
    ensures k in WithFresh(s, ws, rec) <==> k in s || k in ws
    decreases |ws|
  {
    if |ws| > 0 {
      WithFreshKeys(s, ws[..|ws| - 1], rec, k);
      assert ws == ws[..|ws| - 1] + [ws[|ws| - 1]];
    }
  }

  /** The store with record recs[i] added for id ws[i], in order. */
  function WithRecords<T>(s: Store<T>, ws: seq<nat>, recs: seq<WireRecord<T>>): Store<T>
    requires |ws| == |recs|
    decreases |ws|
  {
    if |ws| == 0 then s
    else WithRecords(s, ws[..|ws| - 1], recs[..|recs| - 1])[ws[|ws| - 1] := recs[|recs| - 1]]
  }

  /** The keys of WithRecords are the old keys and the new ids, and the
      records of other ids are the old ones. */
  lemma {:induction false} WithRecordsAt<T>(s: Store<T>, ws: seq<nat>, recs: seq<WireRecord<T>>, k: nat)
    requires |ws| == |recs|
    ensures k in WithRecords(s, ws, recs) <==> k in s || k in ws
    ensures k in s && k !in ws ==> WithRecords(s, ws, recs)[k] == s[k]
    decreases |ws|
  {
    if |ws| > 0 {
      WithRecordsAt(s, ws[..|ws| - 1], recs[..|recs| - 1], k);
      assert ws == ws[..|ws| - 1] + [ws[|ws| - 1]];
    }
  }

  /** The ids ws are distinct and none of them is a key of s. */
  predicate FreshIds<T>(s: Store<T>, ws: seq<nat>)
  {
    && (forall i, j :: 0 <= i < j < |ws| ==> ws[i] != ws[j])
    && (forall i :: 0 <= i < |ws| ==> ws[i] !in s)
  }

  /** One more allocation of an id new to the store extends WithRecords
      by its record and keeps the ids distinct and new. */
  lemma WithRecordsPush<T>(s: Store<T>, ws: seq<nat>, recs: seq<WireRecord<T>>, w: nat, rec: WireRecord<T>)
    requires |ws| == |recs| && FreshIds(s, ws) && w !in WithRecords(s, ws, recs)
    ensures FreshIds(s, ws + [w])
    ensures WithRecords(s, ws + [w], recs + [rec]) == WithRecords(s, ws, recs)[w := rec]
  {
    WithRecordsAt(s, ws, recs, w);
    assert (ws + [w])[..|ws|] == ws;
    assert (recs + [rec])[..|recs|] == recs;
  }

  /** Fresh records for the values vs at the given level: referenced once,
      with no expected batch size. */
  function FreshRecords<T>(vs: seq<T>, level: nat): (r: seq<WireRecord<T>>)
    ensures |r| == |vs| && forall i :: 0 <= i < |vs| ==> r[i] == WireRecord(vs[i], level, 1, 0)
    decreases |vs|
  {
    if |vs| == 0 then [] else FreshRecords(vs[..|vs| - 1], level) + [WireRecord(vs[|vs| - 1], level, 1, 0)]
  }

  lemma FreshRecordsPush<T>(vs: seq<T>, v: T, level: nat)
    ensures FreshRecords(vs + [v], level) == FreshRecords(vs, level) + [WireRecord(v, level, 1, 0)]
  {
    assert (vs + [v])[..|vs|] == vs;
  }

  /** The values stored for the ids. */
  function ValuesOf<T>(s: Store<T>, ids: seq<nat>): (r: seq<T>)
    requires forall i :: 0 <= i < |ids| ==> ids[i] in s
    ensures |r| == |ids| && forall i :: 0 <= i < |ids| ==> r[i] == s[ids[i]].v
    decreases |ids|
  {
    if |ids| == 0 then [] else ValuesOf(s, ids[..|ids| - 1]) + [s[ids[|ids| - 1]].v]
  }

  /** Allocating at the bound adds one fresh record and raises the bound. */
  lemma AllocateFresh<T>(s: Store<T>, id: nat, r: WireRecord<T>)
    requires Below(s, id)
    ensures id !in s && |s[id := r]| == |s| + 1 && Below(s[id := r], id + 1)
  {
  }

  lemma BelowRaise<T>(s: Store<T>, bound: nat)
    requires Below(s, bound)
    ensures Below(s, bound + 1)
  {
  }

  /** increaseReferenceCount on one record. */
  function Retain<T>(s: Store<T>, id: nat): Store<T>
    requires id in s
  {
    s[id := s[id].(referenceCount := s[id].referenceCount + 1)]
  }

  /** decreaseReferenceCount on one record: the record is freed when the
      decremented count is 0. */
  function Release<T>(s: Store<T>, id: nat): Store<T>
    requires id in s
  {
    if s[id].referenceCount - 1 == 0 then s - {id}
    else s[id := s[id].(referenceCount := s[id].referenceCount - 1)]
  }

  /** n calls of increaseReferenceCount raise the count by n. */
  function RetainTimes<T>(s: Store<T>, id: nat, n: nat): (r: Store<T>)
    requires id in s
    ensures r == s[id := s[id].(referenceCount := s[id].referenceCount + n)]
    decreases n
  {
    if n == 0 then s
    else Retain(RetainTimes(s, id, n - 1), id)
  }

  /** n calls of decreaseReferenceCount, on a record referenced more than
      n times, lower the count by n and free nothing. */
  function ReleaseTimes<T>(s: Store<T>, id: nat, n: nat): (r: Store<T>)
    requires id in s && s[id].referenceCount > n
    ensures r == s[id := s[id].(referenceCount := s[id].referenceCount - n)]
    decreases n
  {
    if n == 0 then s
    else Release(ReleaseTimes(s, id, n - 1), id)
  }

  /** n increases followed by n decreases give back the same store, so the
      wire is still live; one further decrease of a wire referenced once
      frees it and leaves every other wire as it was. */
  lemma BalancedReferenceCounting<T>(s: Store<T>, id: nat, n: nat)
    requires id in s && s[id].referenceCount == 1
    ensures var t := RetainTimes(s, id, n);
      t[id].referenceCount > n && ReleaseTimes(t, id, n) == s
    ensures Release(s, id) == s - {id} && id !in Release(s, id)
  {
    var t := RetainTimes(s, id, n);
    assert t[id := t[id].(referenceCount := t[id].referenceCount - n)] == s;
  }

  /** A decrease frees exactly the wires referenced once, and nothing
      else. */
  lemma ReleaseFreesAtZero<T>(s: Store<T>, id: nat)
    requires id in s
    ensures id !in Release(s, id) <==> s[id].referenceCount == 1
    ensures forall k :: k != id ==> (k in Release(s, id) <==> k in s)
    ensures id in Release(s, id) ==> Release(s, id)[id].referenceCount == s[id].referenceCount - 1
  {
  }

  /** A decrease removes at most the one record it frees. */
  lemma ReleaseSize<T>(s: Store<T>, id: nat)
    requires id in s
    ensures |Release(s, id)| == if id in Release(s, id) then |s| else |s| - 1
    ensures forall k :: k in Release(s, id) ==> k in s
  {
  }

  class WireKeeper {
    var boolWires: Store<bool>
    var intWires: Store<U64>
    var boolBatchWires: Store<seq<bool>>
    var intBatchWires: Store<seq<U64>>
    /** A bound on every id handed out so far; the allocators themselves
        are not part of this model, only that they return unused ids. */
    var nextId: nat
    var wiresAllocated: nat
    var wiresDeallocated: nat

    /** Live ids are below nextId, and the counters differ by the number
        of live wires. */
    ghost predicate Valid()
      reads this
    {
      && Below(boolWires, nextId) && Below(intWires, nextId)
      && Below(boolBatchWires, nextId) && Below(intBatchWires, nextId)
      && wiresAllocated == wiresDeallocated + LiveWires()
    }

    /** The number of live wires over the four allocators. */
    function LiveWires(): nat
      reads this
    {
      |boolWires| + |intWires| + |boolBatchWires| + |intBatchWires|
    }

    constructor ()
      ensures Valid()
      ensures boolWires == map[] && intWires == map[] && boolBatchWires == map[] && intBatchWires == map[]
      ensures wiresAllocated == 0 && wiresDeallocated == 0
    {
      boolWires, intWires, boolBatchWires, intBatchWires := map[], map[], map[], map[];
      nextId, wiresAllocated, wiresDeallocated := 0, 0, 0;
    }

    /** The Boolean wires ws were allocated, distinct and fresh, all with
        record rec; nothing else changed. */
    twostate predicate BoolsAllocated(ws: seq<nat>, rec: WireRecord<bool>)
      reads this
    {
      && (forall i, j :: 0 <= i < j < |ws| ==> ws[i] != ws[j])
      && (forall i :: 0 <= i < |ws| ==> ws[i] !in old(boolWires))
      && boolWires == WithFresh(old(boolWires), ws, rec)
      && intWires == old(intWires) && boolBatchWires == old(boolBatchWires) && intBatchWires == old(intBatchWires)
      && wiresAllocated == old(wiresAllocated) + |ws| && wiresDeallocated == old(wiresDeallocated)
    }

    /** The batched Boolean wires ws were allocated, distinct and fresh,
        all with record rec; nothing else changed. */
    twostate predicate BatchBoolsAllocated(ws: seq<nat>, rec: WireRecord<seq<bool>>)
      reads this
    {
      && (forall i, j :: 0 <= i < j < |ws| ==> ws[i] != ws[j])
      && (forall i :: 0 <= i < |ws| ==> ws[i] !in old(boolBatchWires))
      && boolBatchWires == WithFresh(old(boolBatchWires), ws, rec)
      && boolWires == old(boolWires) && intWires == old(intWires) && intBatchWires == old(intBatchWires)
      && wiresAllocated == old(wiresAllocated) + |ws| && wiresDeallocated == old(wiresDeallocated)
    }

    /** The Boolean wires ws were allocated, distinct and fresh, ws[i]
        with record recs[i]; nothing else changed. */
    twostate predicate BoolsAllocatedAs(ws: seq<nat>, recs: seq<WireRecord<bool>>)
      reads this
    {
      && |ws| == |recs| && FreshIds(old(boolWires), ws)
      && boolWires == WithRecords(old(boolWires), ws, recs)
      && intWires == old(intWires) && boolBatchWires == old(boolBatchWires) && intBatchWires == old(intBatchWires)
      && wiresAllocated == old(wiresAllocated) + |ws| && wiresDeallocated == old(wiresDeallocated)
    }

    /** The batched Boolean wires ws were allocated, distinct and fresh,
        ws[i] with record recs[i]; nothing else changed. */
    twostate predicate BatchBoolsAllocatedAs(ws: seq<nat>, recs: seq<WireRecord<seq<bool>>>)
      reads this
    {
      && |ws| == |recs| && FreshIds(old(boolBatchWires), ws)
      && boolBatchWires == WithRecords(old(boolBatchWires), ws, recs)
      && boolWires == old(boolWires) && intWires == old(intWires) && intBatchWires == old(intBatchWires)
      && wiresAllocated == old(wiresAllocated) + |ws| && wiresDeallocated == old(wiresDeallocated)
    }

    /** getWireStatistics: (wires allocated, wires deallocated). */
    function GetWireStatistics(): (r: (nat, nat))
      requires Valid()
      reads this
      ensures r.0 == r.1 + LiveWires()
    {
      (wiresAllocated, wiresDeallocated)
    }

    method AllocateBooleanValue(v: bool, level: nat) returns (id: nat)
      requires Valid()
      modifies this
      ensures Valid()
      ensures id !in old(boolWires)
      ensures boolWires == old(boolWires)[id := WireRecord(v, level, 1, 0)]
      ensures intWires == old(intWires) && boolBatchWires == old(boolBatchWires) && intBatchWires == old(intBatchWires)
      ensures wiresAllocated == old(wiresAllocated) + 1 && wiresDeallocated == old(wiresDeallocated)
    {
      id := nextId;
      AllocateFresh(boolWires, id, WireRecord(v, level, 1, 0));
      BelowRaise(intWires, nextId);
      BelowRaise(boolBatchWires, nextId);
      BelowRaise(intBatchWires, nextId);
      nextId := nextId + 1;
      boolWires := boolWires[id := WireRecord(v, level, 1, 0)];
      wiresAllocated := wiresAllocated + 1;
    }

    method AllocateIntegerValue(v: U64, level: nat) returns (id: nat)
      requires Valid()
      modifies this
      ensures Valid()
      ensures id !in old(intWires)
      ensures intWires == old(intWires)[id := WireRecord(v, level, 1, 0)]
      ensures boolWires == old(boolWires) && boolBatchWires == old(boolBatchWires) && intBatchWires == old(intBatchWires)
      ensures wiresAllocated == old(wiresAllocated) + 1 && wiresDeallocated == old(wiresDeallocated)
    {
      id := nextId;
      AllocateFresh(intWires, id, WireRecord(v, level, 1, 0));
      BelowRaise(boolWires, nextId);
      BelowRaise(boolBatchWires, nextId);
      BelowRaise(intBatchWires, nextId);
      nextId := nextId + 1;
      intWires := intWires[id := WireRecord(v, level, 1, 0)];
      wiresAllocated := wiresAllocated + 1;
    }

    method AllocateBatchBooleanValue(v: seq<bool>, expectedBatchSize: nat, level: nat) returns (id: nat)
      requires Valid()
      modifies this
      ensures Valid()
      ensures id !in old(boolBatchWires)
      ensures boolBatchWires == old(boolBatchWires)[id := WireRecord(v, level, 1, expectedBatchSize)]
      ensures boolWires == old(boolWires) && intWires == old(intWires) && intBatchWires == old(intBatchWires)
      ensures wiresAllocated == old(wiresAllocated) + 1 && wiresDeallocated == old(wiresDeallocated)
    {
      id := nextId;
      AllocateFresh(boolBatchWires, id, WireRecord(v, level, 1, expectedBatchSize));
      BelowRaise(boolWires, nextId);
      BelowRaise(intWires, nextId);
      BelowRaise(intBatchWires, nextId);
      nextId := nextId + 1;
      boolBatchWires := boolBatchWires[id := WireRecord(v, level, 1, expectedBatchSize)];
      wiresAllocated := wiresAllocated + 1;
    }

    method AllocateBatchIntegerValue(v: seq<U64>, expectedBatchSize: nat, level: nat) returns (id: nat)
      requires Valid()
      modifies this
      ensures Valid()
      ensures id !in old(intBatchWires)
      ensures intBatchWires == old(intBatchWires)[id := WireRecord(v, level, 1, expectedBatchSize)]
      ensures boolWires == old(boolWires) && intWires == old(intWires) && boolBatchWires == old(boolBatchWires)
      ensures wiresAllocated == old(wiresAllocated) + 1 && wiresDeallocated == old(wiresDeallocated)
    {
      id := nextId;
      AllocateFresh(intBatchWires, id, WireRecord(v, level, 1, expectedBatchSize));
      BelowRaise(boolWires, nextId);
      BelowRaise(intWires, nextId);
      BelowRaise(boolBatchWires, nextId);
      nextId := nextId + 1;
      intBatchWires := intBatchWires[id := WireRecord(v, level, 1, expectedBatchSize)];
      wiresAllocated := wiresAllocated + 1;
    }

    /** The getters read a live record; a freed or unknown id throws
        runtime_error, as the safe allocators do. */
    function GetBooleanValue(id: nat): (r: Result<bool>)
      reads this
      ensures r.Err? <==> id !in boolWires
    {
      if id in boolWires then Ok(boolWires[id].v) else Err(RuntimeError)
    }

    function GetIntegerValue(id: nat): (r: Result<U64>)
      reads this
      ensures r.Err? <==> id !in intWires
    {
      if id in intWires then Ok(intWires[id].v) else Err(RuntimeError)
    }

    function GetBatchBooleanValue(id: nat): (r: Result<seq<bool>>)
      reads this
      ensures r.Err? <==> id !in boolBatchWires
    {
      if id in boolBatchWires then Ok(boolBatchWires[id].v) else Err(RuntimeError)
    }

    function GetBatchIntegerValue(id: nat): (r: Result<seq<U64>>)
      reads this
      ensures r.Err? <==> id !in intBatchWires
    {
      if id in intBatchWires then Ok(intBatchWires[id].v) else Err(RuntimeError)
    }

    function GetFirstAvailableLevel(id: nat): (r: Result<nat>)
      reads this
      ensures r.Err? <==> id !in boolWires
    {
      if id in boolWires then Ok(boolWires[id].firstAvailableLevel) else Err(RuntimeError)
    }

    function GetIntegerFirstAvailableLevel(id: nat): (r: Result<nat>)
      reads this
      ensures r.Err? <==> id !in intWires
    {
      if id in intWires then Ok(intWires[id].firstAvailableLevel) else Err(RuntimeError)
    }

    function GetBatchFirstAvailableLevel(id: nat): (r: Result<nat>)
      reads this
      ensures r.Err? <==> id !in boolBatchWires
    {
      if id in boolBatchWires then Ok(boolBatchWires[id].firstAvailableLevel) else Err(RuntimeError)
    }

    function GetBatchIntegerFirstAvailableLevel(id: nat): (r: Result<nat>)
      reads this
      ensures r.Err? <==> id !in intBatchWires
    {
      if id in intBatchWires then Ok(intBatchWires[id].firstAvailableLevel) else Err(RuntimeError)
    }

    function GetBatchSize(id: nat): (r: Result<nat>)
      reads this
      ensures r.Err? <==> id !in boolBatchWires
    {
      if id in boolBatchWires then Ok(boolBatchWires[id].expectedBatchSize) else Err(RuntimeError)
    }

    function GetIntegerBatchSize(id: nat): (r: Result<nat>)
      reads this
      ensures r.Err? <==> id !in intBatchWires
    {
      if id in intBatchWires then Ok(intBatchWires[id].expectedBatchSize) else Err(RuntimeError)
    }

    /** The setters overwrite one field of a live record: a get afterwards
        returns the new value and every other record is unchanged. */
    method SetBooleanValue(id: nat, v: bool) returns (r: Result<()>)
      requires Valid()
      modifies this
      ensures Valid()
      ensures r.Err? <==> id !in old(boolWires)
      ensures r.Ok? ==> GetBooleanValue(id) == Ok(v) && GetFirstAvailableLevel(id) == old(GetFirstAvailableLevel(id))
      ensures boolWires == if id in old(boolWires) then old(boolWires)[id := old(boolWires)[id].(v := v)] else old(boolWires)
      ensures intWires == old(intWires) && boolBatchWires == old(boolBatchWires) && intBatchWires == old(intBatchWires)
      ensures wiresAllocated == old(wiresAllocated) && wiresDeallocated == old(wiresDeallocated)
    {
      if id !in boolWires {
        return Err(RuntimeError);
      }
      boolWires := boolWires[id := boolWires[id].(v := v)];
      return Ok(());
    }

    method SetIntegerValue(id: nat, v: U64) returns (r: Result<()>)
      requires Valid()
      modifies this
      ensures Valid()
      ensures r.Err? <==> id !in old(intWires)
      ensures r.Ok? ==> GetIntegerValue(id) == Ok(v) && GetIntegerFirstAvailableLevel(id) == old(GetIntegerFirstAvailableLevel(id))
      ensures intWires == if id in old(intWires) then old(intWires)[id := old(intWires)[id].(v := v)] else old(intWires)
      ensures boolWires == old(boolWires) && boolBatchWires == old(boolBatchWires) && intBatchWires == old(intBatchWires)
      ensures wiresAllocated == old(wiresAllocated) && wiresDeallocated == old(wiresDeallocated)
    {
      if id !in intWires {
        return Err(RuntimeError);
      }
      intWires := intWires[id := intWires[id].(v := v)];
      return Ok(());
    }

    method SetBatchBooleanValue(id: nat, v: seq<bool>) returns (r: Result<()>)
      requires Valid()
      modifies this
      ensures Valid()
      ensures r.Err? <==> id !in old(boolBatchWires)
      ensures r.Ok? ==> GetBatchBooleanValue(id) == Ok(v) && GetBatchSize(id) == old(GetBatchSize(id))
      ensures boolBatchWires == if id in old(boolBatchWires) then old(boolBatchWires)[id := old(boolBatchWires)[id].(v := v)] else old(boolBatchWires)
      ensures boolWires == old(boolWires) && intWires == old(intWires) && intBatchWires == old(intBatchWires)
      ensures wiresAllocated == old(wiresAllocated) && wiresDeallocated == old(wiresDeallocated)
    {
      if id !in boolBatchWires {
        return Err(RuntimeError);
      }
      boolBatchWires := boolBatchWires[id := boolBatchWires[id].(v := v)];
      return Ok(());
    }

    /** setBatchIntegerValue only logs a size different from the expected
        batch size: the value is stored either way. */
    method SetBatchIntegerValue(id: nat, v: seq<U64>) returns (r: Result<()>)
      requires Valid()
      modifies this
      ensures Valid()
      ensures r.Err? <==> id !in old(intBatchWires)
      ensures r.Ok? ==> GetBatchIntegerValue(id) == Ok(v) && GetIntegerBatchSize(id) == old(GetIntegerBatchSize(id))
      ensures intBatchWires == if id in old(intBatchWires) then old(intBatchWires)[id := old(intBatchWires)[id].(v := v)] else old(intBatchWires)
      ensures boolWires == old(boolWires) && intWires == old(intWires) && boolBatchWires == old(boolBatchWires)
      ensures wiresAllocated == old(wiresAllocated) && wiresDeallocated == old(wiresDeallocated)
    {
      if id !in intBatchWires {
        return Err(RuntimeError);
      }
      intBatchWires := intBatchWires[id := intBatchWires[id].(v := v)];
      return Ok(());
    }

    method SetFirstAvailableLevel(id: nat, level: nat) returns (r: Result<()>)
      requires Valid()
      modifies this
      ensures Valid()
      ensures r.Err? <==> id !in old(boolWires)
      ensures r.Ok? ==> GetFirstAvailableLevel(id) == Ok(level) && GetBooleanValue(id) == old(GetBooleanValue(id))
      ensures boolWires == if id in old(boolWires) then old(boolWires)[id := old(boolWires)[id].(firstAvailableLevel := level)] else old(boolWires)
      ensures intWires == old(intWires) && boolBatchWires == old(boolBatchWires) && intBatchWires == old(intBatchWires)
      ensures wiresAllocated == old(wiresAllocated) && wiresDeallocated == old(wiresDeallocated)
    {
      if id !in boolWires {
        return Err(RuntimeError);
      }
      boolWires := boolWires[id := boolWires[id].(firstAvailableLevel := level)];
      return Ok(());
    }

    method SetIntegerFirstAvailableLevel(id: nat, level: nat) returns (r: Result<()>)
      requires Valid()
      modifies this
      ensures Valid()
      ensures r.Err? <==> id !in old(intWires)
      ensures r.Ok? ==> GetIntegerFirstAvailableLevel(id) == Ok(level) && GetIntegerValue(id) == old(GetIntegerValue(id))
      ensures intWires == if id in old(intWires) then old(intWires)[id := old(intWires)[id].(firstAvailableLevel := level)] else old(intWires)
      ensures boolWires == old(boolWires) && boolBatchWires == old(boolBatchWires) && intBatchWires == old(intBatchWires)
      ensures wiresAllocated == old(wiresAllocated) && wiresDeallocated == old(wiresDeallocated)
    {
      if id !in intWires {
        return Err(RuntimeError);
      }
      intWires := intWires[id := intWires[id].(firstAvailableLevel := level)];
      return Ok(());
    }

    method SetBatchFirstAvailableLevel(id: nat, level: nat) returns (r: Result<()>)
      requires Valid()
      modifies this
      ensures Valid()
      ensures r.Err? <==> id !in old(boolBatchWires)
      ensures r.Ok? ==> GetBatchFirstAvailableLevel(id) == Ok(level) && GetBatchBooleanValue(id) == old(GetBatchBooleanValue(id))
      ensures boolBatchWires == if id in old(boolBatchWires) then old(boolBatchWires)[id := old(boolBatchWires)[id].(firstAvailableLevel := level)] else old(boolBatchWires)
      ensures boolWires == old(boolWires) && intWires == old(intWires) && intBatchWires == old(intBatchWires)
      ensures wiresAllocated == old(wiresAllocated) && wiresDeallocated == old(wiresDeallocated)
    {
      if id !in boolBatchWires {
        return Err(RuntimeError);
      }
      boolBatchWires := boolBatchWires[id := boolBatchWires[id].(firstAvailableLevel := level)];
      return Ok(());
    }

    method SetBatchIntegerFirstAvailableLevel(id: nat, level: nat) returns (r: Result<()>)
      requires Valid()
      modifies this
      ensures Valid()
      ensures r.Err? <==> id !in old(intBatchWires)
      ensures r.Ok? ==> GetBatchIntegerFirstAvailableLevel(id) == Ok(level) && GetBatchIntegerValue(id) == old(GetBatchIntegerValue(id))
      ensures intBatchWires == if id in old(intBatchWires) then old(intBatchWires)[id := old(intBatchWires)[id].(firstAvailableLevel := level)] else old(intBatchWires)
      ensures boolWires == old(boolWires) && intWires == old(intWires) && boolBatchWires == old(boolBatchWires)
      ensures wiresAllocated == old(wiresAllocated) && wiresDeallocated == old(wiresDeallocated)
    {
      if id !in intBatchWires {
        return Err(RuntimeError);
      }
      intBatchWires := intBatchWires[id := intBatchWires[id].(firstAvailableLevel := level)];
      return Ok(());
    }

    method IncreaseReferenceCount(id: nat) returns (r: Result<()>)
      requires Valid()
      modifies this
      ensures Valid()
      ensures r.Err? <==> id !in old(boolWires)
      ensures boolWires == if id in old(boolWires) then Retain(old(boolWires), id) else old(boolWires)
      ensures intWires == old(intWires) && boolBatchWires == old(boolBatchWires) && intBatchWires == old(intBatchWires)
      ensures wiresAllocated == old(wiresAllocated) && wiresDeallocated == old(wiresDeallocated)
    {
      if id !in boolWires {
        return Err(RuntimeError);
      }
      boolWires := Retain(boolWires, id);
      return Ok(());
    }

    method IncreaseIntegerReferenceCount(id: nat) returns (r: Result<()>)
      requires Valid()
      modifies this
      ensures Valid()
      ensures r.Err? <==> id !in old(intWires)
      ensures intWires == if id in old(intWires) then Retain(old(intWires), id) else old(intWires)
      ensures boolWires == old(boolWires) && boolBatchWires == old(boolBatchWires) && intBatchWires == old(intBatchWires)
      ensures wiresAllocated == old(wiresAllocated) && wiresDeallocated == old(wiresDeallocated)
    {
      if id !in intWires {
        return Err(RuntimeError);
      }
      intWires := Retain(intWires, id);
      return Ok(());
    }

    method IncreaseBatchReferenceCount(id: nat) returns (r: Result<()>)
      requires Valid()
      modifies this
      ensures Valid()
      ensures r.Err? <==> id !in old(boolBatchWires)
      ensures boolBatchWires == if id in old(boolBatchWires) then Retain(old(boolBatchWires), id) else old(boolBatchWires)
      ensures boolWires == old(boolWires) && intWires == old(intWires) && intBatchWires == old(intBatchWires)
      ensures wiresAllocated == old(wiresAllocated) && wiresDeallocated == old(wiresDeallocated)
    {
      if id !in boolBatchWires {
        return Err(RuntimeError);
      }
      boolBatchWires := Retain(boolBatchWires, id);
      return Ok(());
    }

    method IncreaseBatchIntegerReferenceCount(id: nat) returns (r: Result<()>)
      requires Valid()
      modifies this
      ensures Valid()
      ensures r.Err? <==> id !in old(intBatchWires)
      ensures intBatchWires == if id in old(intBatchWires) then Retain(old(intBatchWires), id) else old(intBatchWires)
      ensures boolWires == old(boolWires) && intWires == old(intWires) && boolBatchWires == old(boolBatchWires)
      ensures wiresAllocated == old(wiresAllocated) && wiresDeallocated == old(wiresDeallocated)
    {
      if id !in intBatchWires {
        return Err(RuntimeError);
      }
      intBatchWires := Retain(intBatchWires, id);
      return Ok(());
    }

    /** The decreases count a deallocation exactly when the record is
        freed. */
    method DecreaseReferenceCount(id: nat) returns (r: Result<()>)
      requires Valid()
      modifies this
      ensures Valid()
      ensures r.Err? <==> id !in old(boolWires)
      ensures boolWires == if id in old(boolWires) then Release(old(boolWires), id) else old(boolWires)
      ensures intWires == old(intWires) && boolBatchWires == old(boolBatchWires) && intBatchWires == old(intBatchWires)
      ensures wiresAllocated == old(wiresAllocated)
      ensures wiresDeallocated == old(wiresDeallocated) + if id in old(boolWires) && id !in boolWires then 1 else 0
    {
      if id !in boolWires {
        return Err(RuntimeError);
      }
      var freed := boolWires[id].referenceCount - 1 == 0;
      ReleaseSize(boolWires, id);
      boolWires := Release(boolWires, id);
      if freed {
        wiresDeallocated := wiresDeallocated + 1;
      }
      return Ok(());
    }

    method DecreaseIntegerReferenceCount(id: nat) returns (r: Result<()>)
      requires Valid()
      modifies this
      ensures Valid()
      ensures r.Err? <==> id !in old(intWires)
      ensures intWires == if id in old(intWires) then Release(old(intWires), id) else old(intWires)
      ensures boolWires == old(boolWires) && boolBatchWires == old(boolBatchWires) && intBatchWires == old(intBatchWires)
      ensures wiresAllocated == old(wiresAllocated)
      ensures wiresDeallocated == old(wiresDeallocated) + if id in old(intWires) && id !in intWires then 1 else 0
    {
      if id !in intWires {
        return Err(RuntimeError);
      }
      var freed := intWires[id].referenceCount - 1 == 0;
      ReleaseSize(intWires, id);
      intWires := Release(intWires, id);
      if freed {
        wiresDeallocated := wiresDeallocated + 1;
      }
      return Ok(());
    }

    method DecreaseBatchReferenceCount(id: nat) returns (r: Result<()>)
      requires Valid()
      modifies this
      ensures Valid()
      ensures r.Err? <==> id !in old(boolBatchWires)
      ensures boolBatchWires == if id in old(boolBatchWires) then Release(old(boolBatchWires), id) else old(boolBatchWires)
      ensures boolWires == old(boolWires) && intWires == old(intWires) && intBatchWires == old(intBatchWires)
      ensures wiresAllocated == old(wiresAllocated)
      ensures wiresDeallocated == old(wiresDeallocated) + if id in old(boolBatchWires) && id !in boolBatchWires then 1 else 0
    {
      if id !in boolBatchWires {
        return Err(RuntimeError);
      }
      var freed := boolBatchWires[id].referenceCount - 1 == 0;
      ReleaseSize(boolBatchWires, id);
      boolBatchWires := Release(boolBatchWires, id);
      if freed {
        wiresDeallocated := wiresDeallocated + 1;
      }
      return Ok(());
    }

    method DecreaseBatchIntegerReferenceCount(id: nat) returns (r: Result<()>)
      requires Valid()
      modifies this
      ensures Valid()
      ensures r.Err? <==> id !in old(intBatchWires)
      ensures intBatchWires == if id in old(intBatchWires) then Release(old(intBatchWires), id) else old(intBatchWires)
      ensures boolWires == old(boolWires) && intWires == old(intWires) && boolBatchWires == old(boolBatchWires)
      ensures wiresAllocated == old(wiresAllocated)
      ensures wiresDeallocated == old(wiresDeallocated) + if id in old(intBatchWires) && id !in intBatchWires then 1 else 0
    {
      if id !in intBatchWires {
        return Err(RuntimeError);
      }
      var freed := intBatchWires[id].referenceCount - 1 == 0;
      ReleaseSize(intBatchWires, id);
      intBatchWires := Release(intBatchWires, id);
      if freed {
        wiresDeallocated := wiresDeallocated + 1;
      }
      return Ok(());
    }
  }

  lemma RetainSingle<T>(id: nat, r: WireRecord<T>)
    ensures Retain(map[id := r], id) == map[id := r.(referenceCount := r.referenceCount + 1)]
  {
  }

  lemma ReleaseSingle<T>(id: nat, r: WireRecord<T>)
    requires r.referenceCount >= 2
    ensures Release(map[id := r], id) == map[id := r.(referenceCount := r.referenceCount - 1)]
  {
  }

  /** n increases of a wire referenced once. */
  method RaiseTimes(keeper: WireKeeper, id: nat, v: bool, n: nat)
    requires keeper.Valid() && keeper.boolWires == map[id := WireRecord(v, 0, 1, 0)]
    modifies keeper
    ensures keeper.Valid() && keeper.boolWires == map[id := WireRecord(v, 0, 1 + n, 0)]
    ensures keeper.wiresAllocated == old(keeper.wiresAllocated) && keeper.wiresDeallocated == old(keeper.wiresDeallocated)
  {
    for i := 0 to n
      invariant keeper.Valid() && keeper.boolWires == map[id := WireRecord(v, 0, 1 + i, 0)]
      invariant keeper.wiresAllocated == old(keeper.wiresAllocated) && keeper.wiresDeallocated == old(keeper.wiresDeallocated)
    {
      RetainSingle(id, WireRecord(v, 0, 1 + i, 0));
      var _ := keeper.IncreaseReferenceCount(id);
    }
  }

  /** n decreases of a wire referenced n + 1 times. */
  method LowerTimes(keeper: WireKeeper, id: nat, v: bool, n: nat)
    requires keeper.Valid() && keeper.boolWires == map[id := WireRecord(v, 0, 1 + n, 0)]
    modifies keeper
    ensures keeper.Valid() && keeper.boolWires == map[id := WireRecord(v, 0, 1, 0)]
    ensures keeper.wiresAllocated == old(keeper.wiresAllocated) && keeper.wiresDeallocated == old(keeper.wiresDeallocated)
  {
    for i := 0 to n
      invariant keeper.Valid() && keeper.boolWires == map[id := WireRecord(v, 0, 1 + n - i, 0)]
      invariant keeper.wiresAllocated == old(keeper.wiresAllocated) && keeper.wiresDeallocated == old(keeper.wiresDeallocated)
    {
      ReleaseSingle(id, WireRecord(v, 0, 1 + n - i, 0));
      var _ := keeper.DecreaseReferenceCount(id);
    }
  }

  /** A fresh wire keeper: a Boolean wire allocated with value v, raised n
      times and lowered n times, still reads v; one more decrease frees it
      (a get then throws) and the statistics are (1, 1). */
  method BalancedReferenceScenario(v: bool, n: nat) returns (before: Result<bool>, after: Result<bool>, stats: (nat, nat))
    ensures before == Ok(v) && after == Err(RuntimeError) && stats == (1, 1)
  {
    var keeper := new WireKeeper();
    var id := keeper.AllocateBooleanValue(v, 0);
    RaiseTimes(keeper, id, v, n);
    LowerTimes(keeper, id, v, n);
    before := keeper.GetBooleanValue(id);
    var _ := keeper.DecreaseReferenceCount(id);
    after := keeper.GetBooleanValue(id);
    stats := keeper.GetWireStatistics();
  }

  /** Allocates a Boolean wire for each value, in order. */
  method AllocateBooleans(keeper: WireKeeper, vs: seq<bool>, level: nat) returns (ws: seq<nat>)
    requires keeper.Valid()
    modifies keeper
    ensures keeper.Valid()
    ensures keeper.BoolsAllocatedAs(ws, FreshRecords(vs, level))
  {
    ghost var start := keeper.boolWires;
    ws := [];
    for i := 0 to |vs|
      invariant keeper.Valid()
      invariant keeper.BoolsAllocatedAs(ws, FreshRecords(vs[..i], level))
    {
      var w := keeper.AllocateBooleanValue(vs[i], level);
      WithRecordsPush(start, ws, FreshRecords(vs[..i], level), w, WireRecord(vs[i], level, 1, 0));
      assert vs[..i + 1] == vs[..i] + [vs[i]];
      FreshRecordsPush(vs[..i], vs[i], level);
      ws := ws + [w];
    }
    assert vs[..|vs|] == vs;
  }

  /** Allocates a batched Boolean wire for each batch, in order. */
  method AllocateBatchBooleans(keeper: WireKeeper, vs: seq<seq<bool>>, level: nat) returns (ws: seq<nat>)
    requires keeper.Valid()
    modifies keeper
    ensures keeper.Valid()
    ensures keeper.BatchBoolsAllocatedAs(ws, FreshRecords(vs, level))
  {
    ghost var start := keeper.boolBatchWires;
    ws := [];
    for i := 0 to |vs|
      invariant keeper.Valid()
      invariant keeper.BatchBoolsAllocatedAs(ws, FreshRecords(vs[..i], level))
    {
      var w := keeper.AllocateBatchBooleanValue(vs[i], 0, level);
      WithRecordsPush(start, ws, FreshRecords(vs[..i], level), w, WireRecord(vs[i], level, 1, 0));
      assert vs[..i + 1] == vs[..i] + [vs[i]];
      FreshRecordsPush(vs[..i], vs[i], level);
      ws := ws + [w];
    }
    assert vs[..|vs|] == vs;
  }
}
