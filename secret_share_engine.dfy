/** The two-party XOR secret-share engine (fbpcf/engine/SecretShareEngine.cpp)
    as seen by one party with id myId.  Every secret bit x is held as shares
    x0 and x1 with x = x0 ^ x1.  XOR, NOT and AND with a public value are
    local; AND of two secrets is scheduled, and all scheduled ANDs are then
    evaluated together with Beaver triples: each party opens x ^ a and
    y ^ b, and combines the opened bits with its triple share.

    The tuple generator's output and the communication agent's opening of
    the masked bits are calls into code this model does not contain: the
    triples are a parameter, and the opening is a function parameter from
    the bits a party sends to the bits it receives. */
module ShareEngine {
  import opened Common
  import opened TupleGeneration
  import PS = PlaintextScheduling

  // ---------------------------------------------------------------
  // Local gates on one party's shares
  // ---------------------------------------------------------------

  function SymmetricXor(left: bool, right: bool): bool
  {
    left != right
  }

  /** XOR with a public value: only party 0 folds the public value in. */
  function AsymmetricXor(myId: int, left: bool, right: bool): bool
  {
    if myId == 0 then left != right else left
  }

  function SymmetricNot(input: bool): bool
  {
    !input
  }

  /** NOT of a secret: only party 0 flips its share. */
  function AsymmetricNot(myId: int, input: bool): bool
  {
    if myId == 0 then !input else input
  }

  /** AND with a public value, share by share. */
  function FreeAnd(left: bool, right: bool): bool
  {
    left && right
  }

  /** Symmetric XOR of the shares of two secrets shares their XOR. */
  lemma SymmetricXorShares(l0: bool, l1: bool, r0: bool, r1: bool)
    ensures (SymmetricXor(l0, r0) != SymmetricXor(l1, r1)) == ((l0 != l1) != (r0 != r1))
  {
  }

  /** Asymmetric XOR of a secret with a public value p shares x ^ p. */
  lemma AsymmetricXorShares(other: int, l0: bool, l1: bool, p: bool)
    requires other != 0
    ensures (AsymmetricXor(0, l0, p) != AsymmetricXor(other, l1, p)) == ((l0 != l1) != p)
  {
  }

  /** Symmetric NOT negates a public value held by every party, and leaves
      a two-party secret unchanged. */
  lemma SymmetricNotShares(p: bool, x0: bool, x1: bool)
    ensures SymmetricNot(p) == !p
    ensures (SymmetricNot(x0) != SymmetricNot(x1)) == (x0 != x1)
  {
  }

  /** Asymmetric NOT of the shares of x shares !x. */
  lemma AsymmetricNotShares(other: int, x0: bool, x1: bool)
    requires other != 0
    ensures (AsymmetricNot(0, x0) != AsymmetricNot(other, x1)) == !(x0 != x1)
  {
  }

  /** AND of the shares of x with a public p shares x & p. */
  lemma FreeAndShares(l0: bool, l1: bool, p: bool)
    ensures (FreeAnd(l0, p) != FreeAnd(l1, p)) == ((l0 != l1) && p)
  {
  }

  // ---------------------------------------------------------------
  // Inputs
  // ---------------------------------------------------------------

  /** The XOR of a sequence of bits. */
  function XorAll(bits: seq<bool>): bool
    decreases |bits|
  {
    if |bits| == 0 then false else XorAll(bits[..|bits| - 1]) != bits[|bits| - 1]
  }

  /** setInput.  The owner of the input masks it with one bit from each
      of its own generators (ownMasks, one per other party); every other
      party takes its share from the generator seeded by the owner's key
      (peerMask).  The owner must supply a value. */
  function SetInput(myId: int, id: int, v: Option<bool>, ownMasks: seq<bool>, peerMask: bool): (r: Result<bool>)
    ensures id == myId ==> (r.Err? <==> v.None?)
    ensures r.Err? ==> r.kind == InvalidArgument
    ensures id == myId && v.Some? ==> r.value == (v.value != XorAll(ownMasks))
    ensures id != myId ==> r == Ok(peerMask)
  {
    if id == myId then
      if v.None? then Err(InvalidArgument) else Ok(v.value != XorAll(ownMasks))
    else Ok(peerMask)
  }

  /** With two parties, both generators of the pair are seeded with the
      same key, so the owner's mask and the peer's share are equal bits,
      and the two shares reconstruct the input. */
  lemma InputShares(owner: int, peer: int, v: bool, mask: bool)
    requires owner != peer
    ensures SetInput(owner, owner, Some(v), [mask], false).Ok?
    ensures SetInput(peer, owner, None, [], mask).Ok?
    ensures (SetInput(owner, owner, Some(v), [mask], false).value != SetInput(peer, owner, None, [], mask).value) == v
  {
    assert XorAll([mask]) == mask by {
      assert [mask][..0] == [];
    }
  }

  /** Bit i of each of the masks, XORed together. */
  function XorColumn(masks: seq<seq<bool>>, i: nat): bool
    requires forall m :: 0 <= m < |masks| ==> i < |masks[m]|
    decreases |masks|
  {
    if |masks| == 0 then false else XorColumn(masks[..|masks| - 1], i) != masks[|masks| - 1][i]
  }

  /** setBatchInput: the batch form of setInput.  The owner's input must
      not be empty; it is XORed with one mask batch per other party. */
  method SetBatchInput(myId: int, id: int, v: seq<bool>, ownMasks: seq<seq<bool>>, peerMask: seq<bool>) returns (r: Result<seq<bool>>)
    requires forall m :: 0 <= m < |ownMasks| ==> |ownMasks[m]| == |v|
    requires |peerMask| == |v|
    ensures id == myId ==> (r.Err? <==> |v| == 0)
    ensures r.Err? ==> r.kind == InvalidArgument
    ensures id == myId && r.Ok? ==> |r.value| == |v| && forall i :: 0 <= i < |v| ==> r.value[i] == (v[i] != XorColumn(ownMasks, i))
    ensures id != myId ==> r == Ok(peerMask)
  {
    if id != myId {
      return Ok(peerMask);
    }
    if |v| == 0 {
      return Err(InvalidArgument);
    }
    var rst := new bool[|v|];
    for i := 0 to |v|
      invariant forall j :: 0 <= j < i ==> rst[j] == v[j]
    {
      rst[i] := v[i];
    }
    for m := 0 to |ownMasks|
      invariant forall j :: 0 <= j < |v| ==> rst[j] == (v[j] != XorColumn(ownMasks[..m], j))
    {
      var mask := ownMasks[m];
      assert ownMasks[..m + 1][..m] == ownMasks[..m];
      for i := 0 to |v|
        invariant forall j :: 0 <= j < i ==> rst[j] == (v[j] != XorColumn(ownMasks[..m + 1], j))
        invariant forall j :: i <= j < |v| ==> rst[j] == (v[j] != XorColumn(ownMasks[..m], j))
      {
        rst[i] := rst[i] != mask[i];
      }
    }
    assert ownMasks[..|ownMasks|] == ownMasks;
    return Ok(rst[..]);
  }

  // ---------------------------------------------------------------
  // Scheduled ANDs and the triples they use
  // ---------------------------------------------------------------

  datatype ScheduledAnd = ScheduledAnd(left: bool, right: bool)
  datatype ScheduledBatchAnd = ScheduledBatchAnd(left: seq<bool>, right: seq<bool>)
  datatype ScheduledCompositeAnd = ScheduledCompositeAnd(left: bool, rights: seq<bool>)
  datatype ScheduledBatchCompositeAnd = ScheduledBatchCompositeAnd(left: seq<bool>, rights: seq<seq<bool>>)

  /** The four queues of scheduled ANDs. */
  datatype Schedule = Schedule(
    ands: seq<ScheduledAnd>,
    batchAnds: seq<ScheduledBatchAnd>,
    compositeAnds: seq<ScheduledCompositeAnd>,
    batchCompositeAnds: seq<ScheduledBatchCompositeAnd>)

  /** The results of one execution, one entry per scheduled AND. */
  datatype ExecutionResults = ExecutionResults(
    andResults: seq<bool>,
    batchAndResults: seq<seq<bool>>,
    compositeAndResults: seq<seq<bool>>,
    batchCompositeAndResults: seq<seq<seq<bool>>>)

  const NoResults := ExecutionResults([], [], [], [])

  /** What scheduling guarantees: a batch AND's two sides have one length,
      and every right batch of a batched composite AND has the left's. */
  predicate WellSized(s: Schedule)
  {
    && (forall i :: 0 <= i < |s.batchAnds| ==> |s.batchAnds[i].right| == |s.batchAnds[i].left|)
    && (forall i :: 0 <= i < |s.batchCompositeAnds| ==> PS.AllSized(s.batchCompositeAnds[i].rights, |s.batchCompositeAnds[i].left|))
  }

  /** The triples each batch AND uses: one per element. */
  function BatchAndSizes(bs: seq<ScheduledBatchAnd>): (r: seq<nat>)
    ensures |r| == |bs| && forall i :: 0 <= i < |bs| ==> r[i] == |bs[i].left|
    decreases |bs|
  {
    if |bs| == 0 then [] else BatchAndSizes(bs[..|bs| - 1]) + [|bs[|bs| - 1].left|]
  }

  /** The triples each composite AND uses: one per right value. */
  function CompositeAndSizes(cs: seq<ScheduledCompositeAnd>): (r: seq<nat>)
    ensures |r| == |cs| && forall i :: 0 <= i < |cs| ==> r[i] == |cs[i].rights|
    decreases |cs|
  {
    if |cs| == 0 then [] else CompositeAndSizes(cs[..|cs| - 1]) + [|cs[|cs| - 1].rights|]
  }

  /** The triples each batched composite AND uses: left size times the
      number of right batches. */
  function BatchCompositeAndSizes(bcs: seq<ScheduledBatchCompositeAnd>): (r: seq<nat>)
    ensures |r| == |bcs| && forall i :: 0 <= i < |bcs| ==> r[i] == PS.BatchGateCount(|bcs[i].left|, |bcs[i].rights|)
    decreases |bcs|
  {
    if |bcs| == 0 then []
    else BatchCompositeAndSizes(bcs[..|bcs| - 1]) + [PS.BatchGateCount(|bcs[|bcs| - 1].left|, |bcs[|bcs| - 1].rights|)]
  }

  /** The number of triples an execution uses: one per AND, per batch
      element, per composite right value, and left size times right count
      per batched composite AND. */
  function TupleCount(s: Schedule): nat
  {
    |s.ands| + Sum(BatchAndSizes(s.batchAnds)) + Sum(CompositeAndSizes(s.compositeAnds))
      + Sum(BatchCompositeAndSizes(s.batchCompositeAnds))
  }

  /** The first triple of batch AND i: triples are used in queue order,
      plain ANDs first. */
  function BatchAndOffset(s: Schedule, i: nat): nat
    requires i <= |s.batchAnds|
  {
    |s.ands| + Sum(BatchAndSizes(s.batchAnds)[..i])
  }

  function CompositeAndOffset(s: Schedule, i: nat): nat
    requires i <= |s.compositeAnds|
  {
    |s.ands| + Sum(BatchAndSizes(s.batchAnds)) + Sum(CompositeAndSizes(s.compositeAnds)[..i])
  }

  function BatchCompositeAndOffset(s: Schedule, i: nat): nat
    requires i <= |s.batchCompositeAnds|
  {
    |s.ands| + Sum(BatchAndSizes(s.batchAnds)) + Sum(CompositeAndSizes(s.compositeAnds))
      + Sum(BatchCompositeAndSizes(s.batchCompositeAnds)[..i])
  }

  /** Triple idx masks the pair (x, y): the opened bits 2·idx and 2·idx+1
      are x ^ a and y ^ b. */
  predicate Masked(secrets: seq<bool>, tuples: seq<BooleanTuple>, idx: nat, x: bool, y: bool)
  {
    && idx < |tuples| && 2 * idx + 1 < |secrets|
    && secrets[2 * idx] == (x != tuples[idx].A())
    && secrets[2 * idx + 1] == (y != tuples[idx].B())
  }

  /** The plain ANDs before n are masked with triples 0, 1, ... */
  predicate AndsOpened(s: Schedule, tuples: seq<BooleanTuple>, secrets: seq<bool>, n: nat)
    requires n <= |s.ands|
  {
    forall k :: 0 <= k < n ==> Masked(secrets, tuples, k, s.ands[k].left, s.ands[k].right)
  }

  /** Element k of batch AND i (i < n) is masked with triple
      BatchAndOffset(i) + k. */
  predicate BatchAndsOpened(s: Schedule, tuples: seq<BooleanTuple>, secrets: seq<bool>, n: nat)
    requires WellSized(s) && n <= |s.batchAnds|
  {
    forall i, k :: 0 <= i < n && 0 <= k < |s.batchAnds[i].left| ==>
      Masked(secrets, tuples, BatchAndOffset(s, i) + k, s.batchAnds[i].left[k], s.batchAnds[i].right[k])
  }

  /** Right value k of composite AND i (i < n) is masked, with the left
      value, by triple CompositeAndOffset(i) + k. */
  predicate CompositeAndsOpened(s: Schedule, tuples: seq<BooleanTuple>, secrets: seq<bool>, n: nat)
    requires n <= |s.compositeAnds|
  {
    forall i, k :: 0 <= i < n && 0 <= k < |s.compositeAnds[i].rights| ==>
      Masked(secrets, tuples, CompositeAndOffset(s, i) + k, s.compositeAnds[i].left, s.compositeAnds[i].rights[k])
  }

  /** Element k of right batch j of batched composite AND i (i < n) is
      masked, with left element k, by triple offset + j·|left| + k. */
  predicate BatchCompositeAndsOpened(s: Schedule, tuples: seq<BooleanTuple>, secrets: seq<bool>, n: nat)
    requires WellSized(s) && n <= |s.batchCompositeAnds|
  {
    forall i, j, k :: 0 <= i < n && 0 <= j < |s.batchCompositeAnds[i].rights| && 0 <= k < |s.batchCompositeAnds[i].left| ==>
      Masked(secrets, tuples, BatchCompositeAndOffset(s, i) + PS.BatchGateCount(|s.batchCompositeAnds[i].left|, j) + k,
             s.batchCompositeAnds[i].left[k], s.batchCompositeAnds[i].rights[j][k])
  }

  /** secretsToOpen: two bits per triple, every scheduled AND masked with
      its own triple in queue order. */
  ghost predicate OpensAs(s: Schedule, tuples: seq<BooleanTuple>, secrets: seq<bool>)
    requires WellSized(s)
  {
    && |secrets| == 2 * |tuples|
    && AndsOpened(s, tuples, secrets, |s.ands|)
    && BatchAndsOpened(s, tuples, secrets, |s.batchAnds|)
    && CompositeAndsOpened(s, tuples, secrets, |s.compositeAnds|)
    && BatchCompositeAndsOpened(s, tuples, secrets, |s.batchCompositeAnds|)
  }

  /** One party's share of x & y, from the opened d = x ^ a and e = y ^ b
      and its triple share: c ^ (d & b) ^ (e & a), and party 0 also XORs
      in d & e. */
  function AndShare(myId: int, d: bool, e: bool, t: BooleanTuple): bool
  {
    var share := (t.C() != (d && t.B())) != (e && t.A());
    if myId == 0 then share != (d && e) else share
  }

  /** The share computed with triple idx, or false past the end. */
  function AndShareAt(myId: int, openedBits: seq<bool>, tuples: seq<BooleanTuple>, idx: nat): bool
  {
    if idx < |tuples| && 2 * idx + 1 < |openedBits| then AndShare(myId, openedBits[2 * idx], openedBits[2 * idx + 1], tuples[idx])
    else false
  }

  /** Beaver's identity: if the two parties' triples share (a, b, c) with
      c = a & b, and d and e are the opened x ^ a and y ^ b, the two
      parties' shares XOR to x & y. */
  lemma BeaverTriple(other: int, x0: bool, x1: bool, y0: bool, y1: bool, t0: BooleanTuple, t1: BooleanTuple)
    requires other != 0
    requires (t0.C() != t1.C()) == ((t0.A() != t1.A()) && (t0.B() != t1.B()))
    ensures
      var d := (x0 != t0.A()) != (x1 != t1.A());
      var e := (y0 != t0.B()) != (y1 != t1.B());
      (AndShare(0, d, e, t0) != AndShare(other, d, e, t1)) == ((x0 != x1) && (y0 != y1))
  {
  }

  /** rs holds n shares, share k computed with triple base + k. */
  predicate RowShares(myId: int, openedBits: seq<bool>, tuples: seq<BooleanTuple>, base: nat, rs: seq<bool>, n: nat)
  {
    |rs| == n && forall k :: 0 <= k < n ==> rs[k] == AndShareAt(myId, openedBits, tuples, base + k)
  }

  /** The plain AND results: share k computed with triple k. */
  predicate AndResultsAs(myId: int, s: Schedule, openedBits: seq<bool>, tuples: seq<BooleanTuple>, r: ExecutionResults)
  {
    RowShares(myId, openedBits, tuples, 0, r.andResults, |s.ands|)
  }

  /** Batch AND result i: one share per element, from the batch's triples. */
  predicate BatchAndResultsAs(myId: int, s: Schedule, openedBits: seq<bool>, tuples: seq<BooleanTuple>, r: ExecutionResults)
  {
    && |r.batchAndResults| == |s.batchAnds|
    && (forall i :: 0 <= i < |s.batchAnds| ==>
          RowShares(myId, openedBits, tuples, BatchAndOffset(s, i), r.batchAndResults[i], |s.batchAnds[i].left|))
  }

  /** Composite AND result i: one share per right value. */
  predicate CompositeAndResultsAs(myId: int, s: Schedule, openedBits: seq<bool>, tuples: seq<BooleanTuple>, r: ExecutionResults)
  {
    && |r.compositeAndResults| == |s.compositeAnds|
    && (forall i :: 0 <= i < |s.compositeAnds| ==>
          RowShares(myId, openedBits, tuples, CompositeAndOffset(s, i), r.compositeAndResults[i], |s.compositeAnds[i].rights|))
  }

  /** Batched composite AND result i: one row of shares per right batch. */
  predicate BatchCompositeAndResultsAs(myId: int, s: Schedule, openedBits: seq<bool>, tuples: seq<BooleanTuple>, r: ExecutionResults)
  {
    && |r.batchCompositeAndResults| == |s.batchCompositeAnds|
    && (forall i :: 0 <= i < |s.batchCompositeAnds| ==>
          |r.batchCompositeAndResults[i]| == |s.batchCompositeAnds[i].rights|)
    && (forall i, j :: 0 <= i < |s.batchCompositeAnds| && 0 <= j < |s.batchCompositeAnds[i].rights| ==>
          RowShares(myId, openedBits, tuples, BatchCompositeAndOffset(s, i) + PS.BatchGateCount(|s.batchCompositeAnds[i].left|, j),
                    r.batchCompositeAndResults[i][j], |s.batchCompositeAnds[i].left|))
  }

  /** The execution results match the schedule's shape, and each result
      bit is the share computed with the triple that masked its pair. */
  ghost predicate ResultsAs(myId: int, s: Schedule, openedBits: seq<bool>, tuples: seq<BooleanTuple>, r: ExecutionResults)
  {
    && AndResultsAs(myId, s, openedBits, tuples, r)
    && BatchAndResultsAs(myId, s, openedBits, tuples, r)
    && CompositeAndResultsAs(myId, s, openedBits, tuples, r)
    && BatchCompositeAndResultsAs(myId, s, openedBits, tuples, r)
  }

  // ---------------------------------------------------------------
  // Triple offsets
  // ---------------------------------------------------------------

  lemma SumEnds(xs: seq<nat>)
    ensures Sum(xs[..0]) == 0 && Sum(xs[..|xs|]) == Sum(xs)
  {
    assert xs[..0] == [];
    assert xs[..|xs|] == xs;
  }

  /** The next offset of a queue is the previous one plus the gate's
      triples, and no offset runs past the queue's end. */
  lemma OffsetStep(xs: seq<nat>, i: nat)
    requires i < |xs|
    ensures Sum(xs[..i + 1]) == Sum(xs[..i]) + xs[i]
    ensures Sum(xs[..i]) + xs[i] <= Sum(xs)
  {
    PS.SumStep(xs, i);
    PS.SumPrefix(xs, i + 1);
  }

  /** Where each queue's triples start and end. */
  lemma OffsetEnds(s: Schedule)
    ensures BatchAndOffset(s, 0) == |s.ands|
    ensures BatchAndOffset(s, |s.batchAnds|) == CompositeAndOffset(s, 0)
    ensures CompositeAndOffset(s, |s.compositeAnds|) == BatchCompositeAndOffset(s, 0)
    ensures BatchCompositeAndOffset(s, |s.batchCompositeAnds|) == TupleCount(s)
  {
    SumEnds(BatchAndSizes(s.batchAnds));
    SumEnds(CompositeAndSizes(s.compositeAnds));
    SumEnds(BatchCompositeAndSizes(s.batchCompositeAnds));
  }

  /** Row j + 1 of a block of rows of n starts n after row j. */
  lemma RowStep(j: nat, n: nat)
    ensures PS.BatchGateCount(n, j + 1) == PS.BatchGateCount(n, j) + n
  {
    PS.MulSucc(n, j);
  }

  /** Row j of an m-row block of rows of n ends inside the block. */
  lemma {:induction false} RowEnd(j: nat, n: nat, m: nat)
    requires j < m
    ensures PS.BatchGateCount(n, j) + n <= PS.BatchGateCount(n, m)
    decreases m - j
  {
    RowStep(j, n);
    if j + 1 < m {
      RowEnd(j + 1, n, m);
    }
  }

  /** The number of triples, by the loops of
      computeAllANDsFromScheduledANDs. */
  method CountTuples(s: Schedule) returns (count: nat)
    ensures count == TupleCount(s)
  {
    count := |s.ands|;
    for i := 0 to |s.batchAnds|
      invariant count == |s.ands| + Sum(BatchAndSizes(s.batchAnds)[..i])
    {
      PS.SumStep(BatchAndSizes(s.batchAnds), i);
      count := count + |s.batchAnds[i].left|;
    }
    SumEnds(BatchAndSizes(s.batchAnds));
    for i := 0 to |s.compositeAnds|
      invariant count == |s.ands| + Sum(BatchAndSizes(s.batchAnds)) + Sum(CompositeAndSizes(s.compositeAnds)[..i])
    {
      PS.SumStep(CompositeAndSizes(s.compositeAnds), i);
      count := count + |s.compositeAnds[i].rights|;
    }
    SumEnds(CompositeAndSizes(s.compositeAnds));
    for i := 0 to |s.batchCompositeAnds|
      invariant count == BatchCompositeAndOffset(s, i)
    {
      PS.SumStep(BatchCompositeAndSizes(s.batchCompositeAnds), i);
      count := count + |s.batchCompositeAnds[i].left| * |s.batchCompositeAnds[i].rights|;
    }
    OffsetEnds(s);
  }

  // ---------------------------------------------------------------
  // computeSecretSharesToOpen
  // ---------------------------------------------------------------

  lemma MaskedExtends(a: seq<bool>, b: seq<bool>, tuples: seq<BooleanTuple>, idx: nat, x: bool, y: bool)
    requires Masked(a, tuples, idx, x, y) && |a| <= |b| && b[..|a|] == a
    ensures Masked(b, tuples, idx, x, y)
  {
    assert b[2 * idx] == b[..|a|][2 * idx];
    assert b[2 * idx + 1] == b[..|a|][2 * idx + 1];
  }

  lemma AndsOpenedExtends(s: Schedule, tuples: seq<BooleanTuple>, a: seq<bool>, b: seq<bool>, n: nat)
    requires n <= |s.ands| && AndsOpened(s, tuples, a, n) && |a| <= |b| && b[..|a|] == a
    ensures AndsOpened(s, tuples, b, n)
  {
    forall k | 0 <= k < n
      ensures Masked(b, tuples, k, s.ands[k].left, s.ands[k].right)
    {
      MaskedExtends(a, b, tuples, k, s.ands[k].left, s.ands[k].right);
    }
  }

  lemma BatchAndsOpenedExtends(s: Schedule, tuples: seq<BooleanTuple>, a: seq<bool>, b: seq<bool>, n: nat)
    requires WellSized(s) && n <= |s.batchAnds| && BatchAndsOpened(s, tuples, a, n) && |a| <= |b| && b[..|a|] == a
    ensures BatchAndsOpened(s, tuples, b, n)
  {
    forall i, k | 0 <= i < n && 0 <= k < |s.batchAnds[i].left|
      ensures Masked(b, tuples, BatchAndOffset(s, i) + k, s.batchAnds[i].left[k], s.batchAnds[i].right[k])
    {
      MaskedExtends(a, b, tuples, BatchAndOffset(s, i) + k, s.batchAnds[i].left[k], s.batchAnds[i].right[k]);
    }
  }

  lemma CompositeAndsOpenedExtends(s: Schedule, tuples: seq<BooleanTuple>, a: seq<bool>, b: seq<bool>, n: nat)
    requires n <= |s.compositeAnds| && CompositeAndsOpened(s, tuples, a, n) && |a| <= |b| && b[..|a|] == a
    ensures CompositeAndsOpened(s, tuples, b, n)
  {
    forall i, k | 0 <= i < n && 0 <= k < |s.compositeAnds[i].rights|
      ensures Masked(b, tuples, CompositeAndOffset(s, i) + k, s.compositeAnds[i].left, s.compositeAnds[i].rights[k])
    {
      MaskedExtends(a, b, tuples, CompositeAndOffset(s, i) + k, s.compositeAnds[i].left, s.compositeAnds[i].rights[k]);
    }
  }

  lemma BatchCompositeAndsOpenedExtends(s: Schedule, tuples: seq<BooleanTuple>, a: seq<bool>, b: seq<bool>, n: nat)
    requires WellSized(s) && n <= |s.batchCompositeAnds| && BatchCompositeAndsOpened(s, tuples, a, n)
    requires |a| <= |b| && b[..|a|] == a
    ensures BatchCompositeAndsOpened(s, tuples, b, n)
  {
    forall i, j, k | 0 <= i < n && 0 <= j < |s.batchCompositeAnds[i].rights| && 0 <= k < |s.batchCompositeAnds[i].left|
      ensures Masked(b, tuples, BatchCompositeAndOffset(s, i) + PS.BatchGateCount(|s.batchCompositeAnds[i].left|, j) + k,
                     s.batchCompositeAnds[i].left[k], s.batchCompositeAnds[i].rights[j][k])
    {
      MaskedExtends(a, b, tuples, BatchCompositeAndOffset(s, i) + PS.BatchGateCount(|s.batchCompositeAnds[i].left|, j) + k,
                    s.batchCompositeAnds[i].left[k], s.batchCompositeAnds[i].rights[j][k]);
    }
  }

  /** The plain ANDs' loop: pair k masked with triple k. */
  method OpenAnds(s: Schedule, tuples: seq<BooleanTuple>) returns (secrets: seq<bool>)
    requires |tuples| == TupleCount(s)
    ensures |secrets| == 2 * |s.ands| && AndsOpened(s, tuples, secrets, |s.ands|)
  {
    secrets := [];
    var index := 0;
    for i := 0 to |s.ands|
      invariant index == i && |secrets| == 2 * index
      invariant AndsOpened(s, tuples, secrets, i)
    {
      var before := secrets;
      secrets := secrets + [s.ands[i].left != tuples[index].A(), s.ands[i].right != tuples[index].B()];
      AndsOpenedExtends(s, tuples, before, secrets, i);
      index := index + 1;
    }
  }

  /** Pairs (xs[k], ys[k]) are masked with triples base, base + 1, ... */
  predicate RowMasked(secrets: seq<bool>, tuples: seq<BooleanTuple>, base: nat, xs: seq<bool>, ys: seq<bool>)
    requires |xs| == |ys|
  {
    forall k :: 0 <= k < |xs| ==> Masked(secrets, tuples, base + k, xs[k], ys[k])
  }

  /** Pairs (x, ys[k]) are masked with triples base, base + 1, ... */
  predicate CompositeRowMasked(secrets: seq<bool>, tuples: seq<BooleanTuple>, base: nat, x: bool, ys: seq<bool>)
  {
    forall k :: 0 <= k < |ys| ==> Masked(secrets, tuples, base + k, x, ys[k])
  }

  lemma RowMaskedExtends(a: seq<bool>, b: seq<bool>, tuples: seq<BooleanTuple>, base: nat, xs: seq<bool>, ys: seq<bool>)
    requires |xs| == |ys| && RowMasked(a, tuples, base, xs, ys) && |a| <= |b| && b[..|a|] == a
    ensures RowMasked(b, tuples, base, xs, ys)
  {
    forall k | 0 <= k < |xs|
      ensures Masked(b, tuples, base + k, xs[k], ys[k])
    {
      MaskedExtends(a, b, tuples, base + k, xs[k], ys[k]);
    }
  }

  /** The inner loop over one batch: append the masked pairs
      (xs[k], ys[k]), using triples from base on. */
  method MaskRow(tuples: seq<BooleanTuple>, base: nat, xs: seq<bool>, ys: seq<bool>, prefix: seq<bool>) returns (secrets: seq<bool>)
    requires |xs| == |ys| && |prefix| == 2 * base && base + |xs| <= |tuples|
    ensures |secrets| == 2 * (base + |xs|) && secrets[..|prefix|] == prefix
    ensures RowMasked(secrets, tuples, base, xs, ys)
  {
    secrets := prefix;
    var index := base;
    for k := 0 to |xs|
      invariant index == base + k && |secrets| == 2 * index && secrets[..|prefix|] == prefix
      invariant RowMasked(secrets, tuples, base, xs[..k], ys[..k])
    {
      var before := secrets;
      secrets := secrets + [xs[k] != tuples[index].A(), ys[k] != tuples[index].B()];
      RowMaskedExtends(before, secrets, tuples, base, xs[..k], ys[..k]);
      assert xs[..k + 1] == xs[..k] + [xs[k]] && ys[..k + 1] == ys[..k] + [ys[k]];
      index := index + 1;
    }
    assert xs[..|xs|] == xs && ys[..|ys|] == ys;
  }

  /** The inner loop of a composite AND: append the masked pairs
      (x, ys[k]), using triples from base on. */
  method MaskCompositeRow(tuples: seq<BooleanTuple>, base: nat, x: bool, ys: seq<bool>, prefix: seq<bool>) returns (secrets: seq<bool>)
    requires |prefix| == 2 * base && base + |ys| <= |tuples|
    ensures |secrets| == 2 * (base + |ys|) && secrets[..|prefix|] == prefix
    ensures CompositeRowMasked(secrets, tuples, base, x, ys)
  {
    secrets := prefix;
    var index := base;
    for k := 0 to |ys|
      invariant index == base + k && |secrets| == 2 * index && secrets[..|prefix|] == prefix
      invariant CompositeRowMasked(secrets, tuples, base, x, ys[..k])
    {
      var before := secrets;
      secrets := secrets + [x != tuples[index].A(), ys[k] != tuples[index].B()];
      forall k' | 0 <= k' < k
        ensures Masked(secrets, tuples, base + k', x, ys[k'])
      {
        MaskedExtends(before, secrets, tuples, base + k', x, ys[k']);
      }
      index := index + 1;
    }
    assert ys[..|ys|] == ys;
  }

  lemma BatchAndsOpenedStep(s: Schedule, tuples: seq<BooleanTuple>, secrets: seq<bool>, i: nat)
    requires WellSized(s) && i < |s.batchAnds| && BatchAndsOpened(s, tuples, secrets, i)
    requires RowMasked(secrets, tuples, BatchAndOffset(s, i), s.batchAnds[i].left, s.batchAnds[i].right)
    ensures BatchAndsOpened(s, tuples, secrets, i + 1)
  {
  }

  /** The batch ANDs' loops, continuing after the plain ANDs. */
  method OpenBatchAnds(s: Schedule, tuples: seq<BooleanTuple>, prefix: seq<bool>) returns (secrets: seq<bool>)
    requires WellSized(s) && |tuples| == TupleCount(s) && |prefix| == 2 * |s.ands|
    ensures |secrets| == 2 * CompositeAndOffset(s, 0) && secrets[..|prefix|] == prefix
    ensures BatchAndsOpened(s, tuples, secrets, |s.batchAnds|)
  {
    OffsetEnds(s);
    secrets := prefix;
    for i := 0 to |s.batchAnds|
      invariant |secrets| == 2 * BatchAndOffset(s, i) && secrets[..|prefix|] == prefix
      invariant BatchAndsOpened(s, tuples, secrets, i)
    {
      OffsetStep(BatchAndSizes(s.batchAnds), i);
      var before := secrets;
      secrets := MaskRow(tuples, BatchAndOffset(s, i), s.batchAnds[i].left, s.batchAnds[i].right, secrets);
      BatchAndsOpenedExtends(s, tuples, before, secrets, i);
      BatchAndsOpenedStep(s, tuples, secrets, i);
    }
  }

  lemma CompositeAndsOpenedStep(s: Schedule, tuples: seq<BooleanTuple>, secrets: seq<bool>, i: nat)
    requires i < |s.compositeAnds| && CompositeAndsOpened(s, tuples, secrets, i)
    requires CompositeRowMasked(secrets, tuples, CompositeAndOffset(s, i), s.compositeAnds[i].left, s.compositeAnds[i].rights)
    ensures CompositeAndsOpened(s, tuples, secrets, i + 1)
  {
  }

  /** The composite ANDs' loops, continuing after the batch ANDs. */
  method OpenCompositeAnds(s: Schedule, tuples: seq<BooleanTuple>, prefix: seq<bool>) returns (secrets: seq<bool>)
    requires |tuples| == TupleCount(s) && |prefix| == 2 * CompositeAndOffset(s, 0)
    ensures |secrets| == 2 * BatchCompositeAndOffset(s, 0) && secrets[..|prefix|] == prefix
    ensures CompositeAndsOpened(s, tuples, secrets, |s.compositeAnds|)
  {
    OffsetEnds(s);
    secrets := prefix;
    for i := 0 to |s.compositeAnds|
      invariant |secrets| == 2 * CompositeAndOffset(s, i) && secrets[..|prefix|] == prefix
      invariant CompositeAndsOpened(s, tuples, secrets, i)
    {
      OffsetStep(CompositeAndSizes(s.compositeAnds), i);
      var before := secrets;
      secrets := MaskCompositeRow(tuples, CompositeAndOffset(s, i), s.compositeAnds[i].left, s.compositeAnds[i].rights, secrets);
      CompositeAndsOpenedExtends(s, tuples, before, secrets, i);
      CompositeAndsOpenedStep(s, tuples, secrets, i);
    }
  }

  /** Row j' < n of a batched composite AND with left batch `left` and
      right batches `rights` is masked from triple base + j'·|left| on. */
  predicate RowsMasked(secrets: seq<bool>, tuples: seq<BooleanTuple>, base: nat, left: seq<bool>, rights: seq<seq<bool>>, n: nat)
    requires n <= |rights| && PS.AllSized(rights, |left|)
  {
    forall j :: 0 <= j < n ==> RowMasked(secrets, tuples, base + PS.BatchGateCount(|left|, j), left, rights[j])
  }

  lemma BatchCompositeAndsOpenedStep(s: Schedule, tuples: seq<BooleanTuple>, secrets: seq<bool>, i: nat)
    requires WellSized(s) && i < |s.batchCompositeAnds| && BatchCompositeAndsOpened(s, tuples, secrets, i)
    requires RowsMasked(secrets, tuples, BatchCompositeAndOffset(s, i), s.batchCompositeAnds[i].left,
                        s.batchCompositeAnds[i].rights, |s.batchCompositeAnds[i].rights|)
    ensures BatchCompositeAndsOpened(s, tuples, secrets, i + 1)
  {
    var g := s.batchCompositeAnds;
    forall i', j, k | 0 <= i' < i + 1 && 0 <= j < |g[i'].rights| && 0 <= k < |g[i'].left|
      ensures Masked(secrets, tuples, BatchCompositeAndOffset(s, i') + PS.BatchGateCount(|g[i'].left|, j) + k, g[i'].left[k], g[i'].rights[j][k])
    {
      if i' == i {
        assert RowMasked(secrets, tuples, BatchCompositeAndOffset(s, i) + PS.BatchGateCount(|g[i].left|, j), g[i].left, g[i].rights[j]);
      }
    }
  }

  /** One batched composite AND: one inner loop per right batch. */
  method MaskRows(tuples: seq<BooleanTuple>, base: nat, left: seq<bool>, rights: seq<seq<bool>>, prefix: seq<bool>) returns (secrets: seq<bool>)
    requires PS.AllSized(rights, |left|) && |prefix| == 2 * base && base + PS.BatchGateCount(|left|, |rights|) <= |tuples|
    ensures |secrets| == 2 * (base + PS.BatchGateCount(|left|, |rights|)) && secrets[..|prefix|] == prefix
    ensures RowsMasked(secrets, tuples, base, left, rights, |rights|)
  {
    secrets := prefix;
    for j := 0 to |rights|
      invariant |secrets| == 2 * (base + PS.BatchGateCount(|left|, j)) && secrets[..|prefix|] == prefix
      invariant RowsMasked(secrets, tuples, base, left, rights, j)
    {
      RowStep(j, |left|);
      RowEnd(j, |left|, |rights|);
      var before := secrets;
      secrets := MaskRow(tuples, base + PS.BatchGateCount(|left|, j), left, rights[j], secrets);
      forall j' | 0 <= j' < j
        ensures RowMasked(secrets, tuples, base + PS.BatchGateCount(|left|, j'), left, rights[j'])
      {
        RowMaskedExtends(before, secrets, tuples, base + PS.BatchGateCount(|left|, j'), left, rights[j']);
      }
    }
  }

  /** The batched composite ANDs' loops, continuing after the composite
      ANDs. */
  method OpenBatchCompositeAnds(s: Schedule, tuples: seq<BooleanTuple>, prefix: seq<bool>) returns (secrets: seq<bool>)
    requires WellSized(s) && |tuples| == TupleCount(s) && |prefix| == 2 * BatchCompositeAndOffset(s, 0)
    ensures |secrets| == 2 * |tuples| && secrets[..|prefix|] == prefix
    ensures BatchCompositeAndsOpened(s, tuples, secrets, |s.batchCompositeAnds|)
  {
    OffsetEnds(s);
    secrets := prefix;
    for i := 0 to |s.batchCompositeAnds|
      invariant |secrets| == 2 * BatchCompositeAndOffset(s, i) && secrets[..|prefix|] == prefix
      invariant BatchCompositeAndsOpened(s, tuples, secrets, i)
    {
      OffsetStep(BatchCompositeAndSizes(s.batchCompositeAnds), i);
      var before := secrets;
      secrets := MaskRows(tuples, BatchCompositeAndOffset(s, i), s.batchCompositeAnds[i].left, s.batchCompositeAnds[i].rights, secrets);
      BatchCompositeAndsOpenedExtends(s, tuples, before, secrets, i);
      BatchCompositeAndsOpenedStep(s, tuples, secrets, i);
    }
  }

  /** computeSecretSharesToOpen: 2·|tuples| bits, each scheduled AND's
      pair masked with its own triple, in queue order. */
  method ComputeSecretSharesToOpen(s: Schedule, tuples: seq<BooleanTuple>) returns (secrets: seq<bool>)
    requires WellSized(s) && |tuples| == TupleCount(s)
    ensures OpensAs(s, tuples, secrets)
  {
    OffsetEnds(s);
    var a := OpenAnds(s, tuples);
    var b := OpenBatchAnds(s, tuples, a);
    AndsOpenedExtends(s, tuples, a, b, |s.ands|);
    var c := OpenCompositeAnds(s, tuples, b);
    AndsOpenedExtends(s, tuples, b, c, |s.ands|);
    BatchAndsOpenedExtends(s, tuples, b, c, |s.batchAnds|);
    secrets := OpenBatchCompositeAnds(s, tuples, c);
    AndsOpenedExtends(s, tuples, c, secrets, |s.ands|);
    BatchAndsOpenedExtends(s, tuples, c, secrets, |s.batchAnds|);
    CompositeAndsOpenedExtends(s, tuples, c, secrets, |s.compositeAnds|);
  }

  // ---------------------------------------------------------------
  // computeExecutionResultsFromOpenedShares
  // ---------------------------------------------------------------

  /** One result loop: n shares from triples base, base + 1, ... */
  method ShareRow(myId: int, openedBits: seq<bool>, tuples: seq<BooleanTuple>, base: nat, n: nat) returns (rs: seq<bool>)
    requires base + n <= |tuples| && 2 * (base + n) <= |openedBits|
    ensures RowShares(myId, openedBits, tuples, base, rs, n)
  {
    rs := [];
    var index := base;
    for k := 0 to n
      invariant index == base + k && RowShares(myId, openedBits, tuples, base, rs, k)
    {
      var t := tuples[index];
      var val := (t.C() != (openedBits[2 * index] && t.B())) != (openedBits[2 * index + 1] && t.A());
      if myId == 0 {
        val := val != (openedBits[2 * index] && openedBits[2 * index + 1]);
      }
      rs := rs + [val];
      index := index + 1;
    }
  }

  method BatchAndResults(myId: int, s: Schedule, openedBits: seq<bool>, tuples: seq<BooleanTuple>) returns (rs: seq<seq<bool>>)
    requires |tuples| == TupleCount(s) && |openedBits| == 2 * TupleCount(s)
    ensures |rs| == |s.batchAnds|
    ensures forall i :: 0 <= i < |s.batchAnds| ==>
      RowShares(myId, openedBits, tuples, BatchAndOffset(s, i), rs[i], |s.batchAnds[i].left|)
  {
    OffsetEnds(s);
    rs := [];
    var index := |s.ands|;
    for i := 0 to |s.batchAnds|
      invariant index == BatchAndOffset(s, i) && |rs| == i
      invariant forall i' :: 0 <= i' < i ==>
        RowShares(myId, openedBits, tuples, BatchAndOffset(s, i'), rs[i'], |s.batchAnds[i'].left|)
    {
      OffsetStep(BatchAndSizes(s.batchAnds), i);
      var rst := ShareRow(myId, openedBits, tuples, index, |s.batchAnds[i].left|);
      rs := rs + [rst];
      index := index + |s.batchAnds[i].left|;
    }
  }

  method CompositeAndResults(myId: int, s: Schedule, openedBits: seq<bool>, tuples: seq<BooleanTuple>) returns (rs: seq<seq<bool>>)
    requires |tuples| == TupleCount(s) && |openedBits| == 2 * TupleCount(s)
    ensures |rs| == |s.compositeAnds|
    ensures forall i :: 0 <= i < |s.compositeAnds| ==>
      RowShares(myId, openedBits, tuples, CompositeAndOffset(s, i), rs[i], |s.compositeAnds[i].rights|)
  {
    OffsetEnds(s);
    rs := [];
    var index := CompositeAndOffset(s, 0);
    for i := 0 to |s.compositeAnds|
      invariant index == CompositeAndOffset(s, i) && |rs| == i
      invariant forall i' :: 0 <= i' < i ==>
        RowShares(myId, openedBits, tuples, CompositeAndOffset(s, i'), rs[i'], |s.compositeAnds[i'].rights|)
    {
      OffsetStep(CompositeAndSizes(s.compositeAnds), i);
      var rst := ShareRow(myId, openedBits, tuples, index, |s.compositeAnds[i].rights|);
      rs := rs + [rst];
      index := index + |s.compositeAnds[i].rights|;
    }
  }

  /** The result rows of one batched composite AND: m rows of n shares,
      from triple base on. */
  method ShareRows(myId: int, openedBits: seq<bool>, tuples: seq<BooleanTuple>, base: nat, n: nat, m: nat) returns (rows: seq<seq<bool>>)
    requires base + PS.BatchGateCount(n, m) <= |tuples| && 2 * (base + PS.BatchGateCount(n, m)) <= |openedBits|
    ensures |rows| == m
    ensures forall j :: 0 <= j < m ==> RowShares(myId, openedBits, tuples, base + PS.BatchGateCount(n, j), rows[j], n)
  {
    rows := [];
    var index := base;
    for j := 0 to m
      invariant index == base + PS.BatchGateCount(n, j) && |rows| == j
      invariant forall j' :: 0 <= j' < j ==> RowShares(myId, openedBits, tuples, base + PS.BatchGateCount(n, j'), rows[j'], n)
    {
      RowStep(j, n);
      RowEnd(j, n, m);
      var innerBatchResult := ShareRow(myId, openedBits, tuples, index, n);
      rows := rows + [innerBatchResult];
      index := index + n;
    }
  }

  method BatchCompositeAndResults(myId: int, s: Schedule, openedBits: seq<bool>, tuples: seq<BooleanTuple>)
    returns (rs: seq<seq<seq<bool>>>)
    requires |tuples| == TupleCount(s) && |openedBits| == 2 * TupleCount(s)
    ensures |rs| == |s.batchCompositeAnds|
    ensures forall i :: 0 <= i < |s.batchCompositeAnds| ==> |rs[i]| == |s.batchCompositeAnds[i].rights|
    ensures forall i, j :: 0 <= i < |s.batchCompositeAnds| && 0 <= j < |s.batchCompositeAnds[i].rights| ==>
      RowShares(myId, openedBits, tuples, BatchCompositeAndOffset(s, i) + PS.BatchGateCount(|s.batchCompositeAnds[i].left|, j),
                rs[i][j], |s.batchCompositeAnds[i].left|)
  {
    OffsetEnds(s);
    rs := [];
    var index := BatchCompositeAndOffset(s, 0);
    for i := 0 to |s.batchCompositeAnds|
      invariant index == BatchCompositeAndOffset(s, i) && |rs| == i
      invariant forall i' :: 0 <= i' < i ==> |rs[i']| == |s.batchCompositeAnds[i'].rights|
      invariant forall i', j :: 0 <= i' < i && 0 <= j < |s.batchCompositeAnds[i'].rights| ==>
        RowShares(myId, openedBits, tuples, BatchCompositeAndOffset(s, i') + PS.BatchGateCount(|s.batchCompositeAnds[i'].left|, j),
                  rs[i'][j], |s.batchCompositeAnds[i'].left|)
    {
      var g := s.batchCompositeAnds[i];
      OffsetStep(BatchCompositeAndSizes(s.batchCompositeAnds), i);
      var compositeResult := ShareRows(myId, openedBits, tuples, index, |g.left|, |g.rights|);
      rs := rs + [compositeResult];
      index := index + PS.BatchGateCount(|g.left|, |g.rights|);
    }
  }

  /** computeExecutionResultsFromOpenedShares: every scheduled AND's
      result, share by share, from its own triple and opened pair. */
  method ComputeExecutionResults(myId: int, s: Schedule, openedBits: seq<bool>, tuples: seq<BooleanTuple>)
    returns (r: ExecutionResults)
    requires |tuples| == TupleCount(s) && |openedBits| == 2 * TupleCount(s)
    ensures ResultsAs(myId, s, openedBits, tuples, r)
  {
    var andResults := ShareRow(myId, openedBits, tuples, 0, |s.ands|);
    var batchAndResults := BatchAndResults(myId, s, openedBits, tuples);
    var compositeAndResults := CompositeAndResults(myId, s, openedBits, tuples);
    var batchCompositeAndResults := BatchCompositeAndResults(myId, s, openedBits, tuples);
    r := ExecutionResults(andResults, batchAndResults, compositeAndResults, batchCompositeAndResults);
  }

  /** computeAllANDsFromScheduledANDs.  Without any triple to use it
      returns empty results (even for scheduled batches of size 0) and
      sends nothing.  Otherwise it sends the masked pairs, and fails with
      runtime_error unless it receives two bits per triple back. */
  method ComputeAllAnds(myId: int, s: Schedule, tuples: seq<BooleanTuple>, open: seq<bool> -> seq<bool>)
    returns (sent: seq<bool>, r: Result<ExecutionResults>)
    requires WellSized(s) && |tuples| == TupleCount(s)
    ensures TupleCount(s) == 0 ==> sent == [] && r == Ok(NoResults)
    ensures TupleCount(s) > 0 ==> OpensAs(s, tuples, sent)
    ensures r.Err? <==> TupleCount(s) > 0 && |open(sent)| != 2 * TupleCount(s)
    ensures r.Err? ==> r.kind == RuntimeError
    ensures r.Ok? && TupleCount(s) > 0 ==> ResultsAs(myId, s, open(sent), tuples, r.value)
  {
    var tupleCount := CountTuples(s);
    if tupleCount == 0 {
      return [], Ok(NoResults);
    }
    sent := ComputeSecretSharesToOpen(s, tuples);
    var openedSecrets := open(sent);
    if |openedSecrets| != tupleCount * 2 {
      return sent, Err(RuntimeError);
    }
    var results := ComputeExecutionResults(myId, s, openedSecrets, tuples);
    r := Ok(results);
  }

  // ---------------------------------------------------------------
  // Two parties together
  // ---------------------------------------------------------------

  /** Two parties' schedules line up: the same number of ANDs of each
      kind, and the same sizes inside each. */
  predicate SameShape(s0: Schedule, s1: Schedule)
  {
    && |s0.ands| == |s1.ands|
    && |s0.batchAnds| == |s1.batchAnds|
    && (forall i :: 0 <= i < |s0.batchAnds| ==> |s0.batchAnds[i].left| == |s1.batchAnds[i].left|)
    && |s0.compositeAnds| == |s1.compositeAnds|
    && (forall i :: 0 <= i < |s0.compositeAnds| ==> |s0.compositeAnds[i].rights| == |s1.compositeAnds[i].rights|)
    && |s0.batchCompositeAnds| == |s1.batchCompositeAnds|
    && (forall i :: 0 <= i < |s0.batchCompositeAnds| ==>
          |s0.batchCompositeAnds[i].left| == |s1.batchCompositeAnds[i].left|
          && |s0.batchCompositeAnds[i].rights| == |s1.batchCompositeAnds[i].rights|)
  }

  /** The two parties' triple shares, position by position, share triples
      (a, b, a & b). */
  predicate ValidTriples(t0: seq<BooleanTuple>, t1: seq<BooleanTuple>)
  {
    |t0| == |t1| && forall i :: 0 <= i < |t0| ==>
      (t0[i].C() != t1[i].C()) == ((t0[i].A() != t1[i].A()) && (t0[i].B() != t1[i].B()))
  }

  /** Schedules of the same shape use the same number of triples for
      each AND. */
  lemma SameShapeSizes(s0: Schedule, s1: Schedule)
    requires SameShape(s0, s1)
    ensures BatchAndSizes(s0.batchAnds) == BatchAndSizes(s1.batchAnds)
    ensures CompositeAndSizes(s0.compositeAnds) == CompositeAndSizes(s1.compositeAnds)
    ensures BatchCompositeAndSizes(s0.batchCompositeAnds) == BatchCompositeAndSizes(s1.batchCompositeAnds)
  {
    var a0, a1 := BatchAndSizes(s0.batchAnds), BatchAndSizes(s1.batchAnds);
    assert forall i :: 0 <= i < |a0| ==> a0[i] == a1[i];
    var c0, c1 := CompositeAndSizes(s0.compositeAnds), CompositeAndSizes(s1.compositeAnds);
    assert forall i :: 0 <= i < |c0| ==> c0[i] == c1[i];
    var b0, b1 := BatchCompositeAndSizes(s0.batchCompositeAnds), BatchCompositeAndSizes(s1.batchCompositeAnds);
    assert forall i :: 0 <= i < |b0| ==> b0[i] == b1[i];
  }

  /** ... and so the same number of triples in all ... */
  lemma SameShapeTupleCount(s0: Schedule, s1: Schedule)
    requires SameShape(s0, s1)
    ensures TupleCount(s0) == TupleCount(s1)
  {
    SameShapeSizes(s0, s1);
  }

  /** ... and the same first triple for each AND. */
  lemma BatchAndOffsetsAgree(s0: Schedule, s1: Schedule, i: nat)
    requires SameShape(s0, s1) && i <= |s0.batchAnds|
    ensures BatchAndOffset(s0, i) == BatchAndOffset(s1, i)
  {
    SameShapeSizes(s0, s1);
  }

  lemma CompositeAndOffsetsAgree(s0: Schedule, s1: Schedule, i: nat)
    requires SameShape(s0, s1) && i <= |s0.compositeAnds|
    ensures CompositeAndOffset(s0, i) == CompositeAndOffset(s1, i)
  {
    SameShapeSizes(s0, s1);
  }

  lemma BatchCompositeAndOffsetsAgree(s0: Schedule, s1: Schedule, i: nat)
    requires SameShape(s0, s1) && i <= |s0.batchCompositeAnds|
    ensures BatchCompositeAndOffset(s0, i) == BatchCompositeAndOffset(s1, i)
  {
    SameShapeSizes(s0, s1);
  }

  /** One triple, both parties: when triple idx masked (x0, y0) on party 0
      and (x1, y1) on the other party, and the opened bits are the XOR of
      what the two sent, the shares they compute with it XOR to
      (x0 ^ x1) & (y0 ^ y1). */
  lemma BeaverAt(other: int, sec0: seq<bool>, sec1: seq<bool>, t0: seq<BooleanTuple>, t1: seq<BooleanTuple>,
                 idx: nat, x0: bool, y0: bool, x1: bool, y1: bool)
    requires other != 0 && |sec0| == |sec1| && ValidTriples(t0, t1)
    requires Masked(sec0, t0, idx, x0, y0) && Masked(sec1, t1, idx, x1, y1)
    ensures (AndShareAt(0, PS.XorBits(sec0, sec1), t0, idx) != AndShareAt(other, PS.XorBits(sec0, sec1), t1, idx))
            == ((x0 != x1) && (y0 != y1))
  {
    BeaverTriple(other, x0, x1, y0, y1, t0[idx], t1[idx]);
  }

  /** One row of ANDs, both parties: when party 0 masked (xs0[k], ys0[k])
      and the other party (xs1[k], ys1[k]) with triple base + k, the shares
      they computed for the row XOR, position by position, to the AND of
      the XOR-shared inputs. */
  lemma RowCorrect(other: int, sec0: seq<bool>, sec1: seq<bool>, t0: seq<BooleanTuple>, t1: seq<BooleanTuple>, base: nat,
                   xs0: seq<bool>, ys0: seq<bool>, xs1: seq<bool>, ys1: seq<bool>, rs0: seq<bool>, rs1: seq<bool>)
    requires other != 0 && |sec0| == |sec1| && ValidTriples(t0, t1)
    requires |ys0| == |xs0| && |xs1| == |xs0| && |ys1| == |xs0|
    requires forall k :: 0 <= k < |xs0| ==> Masked(sec0, t0, base + k, xs0[k], ys0[k])
    requires forall k :: 0 <= k < |xs1| ==> Masked(sec1, t1, base + k, xs1[k], ys1[k])
    requires RowShares(0, PS.XorBits(sec0, sec1), t0, base, rs0, |xs0|)
    requires RowShares(other, PS.XorBits(sec0, sec1), t1, base, rs1, |xs1|)
    ensures |rs0| == |rs1| == |xs0|
    ensures forall k :: 0 <= k < |xs0| ==> (rs0[k] != rs1[k]) == ((xs0[k] != xs1[k]) && (ys0[k] != ys1[k]))
  {
    forall k | 0 <= k < |xs0|
      ensures (rs0[k] != rs1[k]) == ((xs0[k] != xs1[k]) && (ys0[k] != ys1[k]))
    {
      BeaverAt(other, sec0, sec1, t0, t1, base + k, xs0[k], ys0[k], xs1[k], ys1[k]);
    }
  }

  /** The same for a composite row: one left value against many right
      values. */
  lemma CompositeRowCorrect(other: int, sec0: seq<bool>, sec1: seq<bool>, t0: seq<BooleanTuple>, t1: seq<BooleanTuple>, base: nat,
                            x0: bool, ys0: seq<bool>, x1: bool, ys1: seq<bool>, rs0: seq<bool>, rs1: seq<bool>)
    requires other != 0 && |sec0| == |sec1| && ValidTriples(t0, t1) && |ys1| == |ys0|
    requires forall k :: 0 <= k < |ys0| ==> Masked(sec0, t0, base + k, x0, ys0[k])
    requires forall k :: 0 <= k < |ys1| ==> Masked(sec1, t1, base + k, x1, ys1[k])
    requires RowShares(0, PS.XorBits(sec0, sec1), t0, base, rs0, |ys0|)
    requires RowShares(other, PS.XorBits(sec0, sec1), t1, base, rs1, |ys1|)
    ensures |rs0| == |rs1| == |ys0|
    ensures forall k :: 0 <= k < |ys0| ==> (rs0[k] != rs1[k]) == ((x0 != x1) && (ys0[k] != ys1[k]))
  {
    forall k | 0 <= k < |ys0|
      ensures (rs0[k] != rs1[k]) == ((x0 != x1) && (ys0[k] != ys1[k]))
    {
      BeaverAt(other, sec0, sec1, t0, t1, base + k, x0, ys0[k], x1, ys1[k]);
    }
  }

  /** What one party's opened bits and results say about batch AND i,
      with the batch's first triple named base. */
  lemma BatchAndRowOf(myId: int, s: Schedule, t: seq<BooleanTuple>, sec: seq<bool>, openedBits: seq<bool>,
                      r: ExecutionResults, i: nat, base: nat)
    requires WellSized(s) && BatchAndsOpened(s, t, sec, |s.batchAnds|) && BatchAndResultsAs(myId, s, openedBits, t, r)
    requires i < |s.batchAnds| && base == BatchAndOffset(s, i)
    ensures forall k :: 0 <= k < |s.batchAnds[i].left| ==>
      Masked(sec, t, base + k, s.batchAnds[i].left[k], s.batchAnds[i].right[k])
    ensures RowShares(myId, openedBits, t, base, r.batchAndResults[i], |s.batchAnds[i].left|)
  {
  }

  /** The same for composite AND i. */
  lemma CompositeAndRowOf(myId: int, s: Schedule, t: seq<BooleanTuple>, sec: seq<bool>, openedBits: seq<bool>,
                          r: ExecutionResults, i: nat, base: nat)
    requires CompositeAndsOpened(s, t, sec, |s.compositeAnds|) && CompositeAndResultsAs(myId, s, openedBits, t, r)
    requires i < |s.compositeAnds| && base == CompositeAndOffset(s, i)
    ensures forall k :: 0 <= k < |s.compositeAnds[i].rights| ==>
      Masked(sec, t, base + k, s.compositeAnds[i].left, s.compositeAnds[i].rights[k])
    ensures RowShares(myId, openedBits, t, base, r.compositeAndResults[i], |s.compositeAnds[i].rights|)
  {
  }

  /** The same for right batch j of batched composite AND i. */
  lemma BatchCompositeAndRowOf(myId: int, s: Schedule, t: seq<BooleanTuple>, sec: seq<bool>, openedBits: seq<bool>,
                               r: ExecutionResults, i: nat, j: nat, base: nat)
    requires WellSized(s) && BatchCompositeAndsOpened(s, t, sec, |s.batchCompositeAnds|)
    requires BatchCompositeAndResultsAs(myId, s, openedBits, t, r)
    requires i < |s.batchCompositeAnds| && j < |s.batchCompositeAnds[i].rights|
    requires base == BatchCompositeAndOffset(s, i) + PS.BatchGateCount(|s.batchCompositeAnds[i].left|, j)
    ensures forall k :: 0 <= k < |s.batchCompositeAnds[i].left| ==>
      Masked(sec, t, base + k, s.batchCompositeAnds[i].left[k], s.batchCompositeAnds[i].rights[j][k])
    ensures RowShares(myId, openedBits, t, base, r.batchCompositeAndResults[i][j], |s.batchCompositeAnds[i].left|)
  {
  }

  /** The plain ANDs are correct.  Party 0 and another party ran one
      execution: same-shaped schedules, matching triples, each sent the
      bits OpensAs describes, both received their XOR, and each computed
      the results ResultsAs describes.  Then the two parties' result
      shares XOR to the AND of the XOR-shared inputs.  The lemmas below
      state the same for the other three kinds of AND. */
  lemma TwoPartyAnds(other: int, s0: Schedule, s1: Schedule, t0: seq<BooleanTuple>, t1: seq<BooleanTuple>,
                     sec0: seq<bool>, sec1: seq<bool>, r0: ExecutionResults, r1: ExecutionResults)
    requires other != 0 && |sec0| == |sec1| && WellSized(s0) && WellSized(s1) && SameShape(s0, s1) && ValidTriples(t0, t1)
    requires AndsOpened(s0, t0, sec0, |s0.ands|) && AndsOpened(s1, t1, sec1, |s1.ands|)
    requires AndResultsAs(0, s0, PS.XorBits(sec0, sec1), t0, r0) && AndResultsAs(other, s1, PS.XorBits(sec0, sec1), t1, r1)
    ensures forall k :: 0 <= k < |s0.ands| ==>
      (r0.andResults[k] != r1.andResults[k])
        == ((s0.ands[k].left != s1.ands[k].left) && (s0.ands[k].right != s1.ands[k].right))
  {
    forall k | 0 <= k < |s0.ands|
      ensures (r0.andResults[k] != r1.andResults[k])
        == ((s0.ands[k].left != s1.ands[k].left) && (s0.ands[k].right != s1.ands[k].right))
    {
      BeaverAt(other, sec0, sec1, t0, t1, k, s0.ands[k].left, s0.ands[k].right, s1.ands[k].left, s1.ands[k].right);
    }
  }

  /** Batch AND i is correct, element by element. */
  lemma TwoPartyBatchAnd(other: int, s0: Schedule, s1: Schedule, t0: seq<BooleanTuple>, t1: seq<BooleanTuple>,
                         sec0: seq<bool>, sec1: seq<bool>, r0: ExecutionResults, r1: ExecutionResults, i: nat)
    requires other != 0 && |sec0| == |sec1| && WellSized(s0) && WellSized(s1) && SameShape(s0, s1) && ValidTriples(t0, t1)
    requires BatchAndsOpened(s0, t0, sec0, |s0.batchAnds|) && BatchAndsOpened(s1, t1, sec1, |s1.batchAnds|)
    requires BatchAndResultsAs(0, s0, PS.XorBits(sec0, sec1), t0, r0) && BatchAndResultsAs(other, s1, PS.XorBits(sec0, sec1), t1, r1)
    requires i < |s0.batchAnds|
    ensures forall k :: 0 <= k < |s0.batchAnds[i].left| ==>
      (r0.batchAndResults[i][k] != r1.batchAndResults[i][k])
        == ((s0.batchAnds[i].left[k] != s1.batchAnds[i].left[k]) && (s0.batchAnds[i].right[k] != s1.batchAnds[i].right[k]))
  {
    var base := BatchAndOffset(s0, i);
    BatchAndOffsetsAgree(s0, s1, i);
    BatchAndRowOf(0, s0, t0, sec0, PS.XorBits(sec0, sec1), r0, i, base);
    BatchAndRowOf(other, s1, t1, sec1, PS.XorBits(sec0, sec1), r1, i, base);
    RowCorrect(other, sec0, sec1, t0, t1, base,
               s0.batchAnds[i].left, s0.batchAnds[i].right, s1.batchAnds[i].left, s1.batchAnds[i].right,
               r0.batchAndResults[i], r1.batchAndResults[i]);
  }

  /** Composite AND i is correct, right value by right value. */
  lemma TwoPartyCompositeAnd(other: int, s0: Schedule, s1: Schedule, t0: seq<BooleanTuple>, t1: seq<BooleanTuple>,
                             sec0: seq<bool>, sec1: seq<bool>, r0: ExecutionResults, r1: ExecutionResults, i: nat)
    requires other != 0 && |sec0| == |sec1| && WellSized(s0) && WellSized(s1) && SameShape(s0, s1) && ValidTriples(t0, t1)
    requires CompositeAndsOpened(s0, t0, sec0, |s0.compositeAnds|) && CompositeAndsOpened(s1, t1, sec1, |s1.compositeAnds|)
    requires CompositeAndResultsAs(0, s0, PS.XorBits(sec0, sec1), t0, r0) && CompositeAndResultsAs(other, s1, PS.XorBits(sec0, sec1), t1, r1)
    requires i < |s0.compositeAnds|
    ensures forall k :: 0 <= k < |s0.compositeAnds[i].rights| ==>
      (r0.compositeAndResults[i][k] != r1.compositeAndResults[i][k])
        == ((s0.compositeAnds[i].left != s1.compositeAnds[i].left) && (s0.compositeAnds[i].rights[k] != s1.compositeAnds[i].rights[k]))
  {
    var base := CompositeAndOffset(s0, i);
    CompositeAndOffsetsAgree(s0, s1, i);
    CompositeAndRowOf(0, s0, t0, sec0, PS.XorBits(sec0, sec1), r0, i, base);
    CompositeAndRowOf(other, s1, t1, sec1, PS.XorBits(sec0, sec1), r1, i, base);
    CompositeRowCorrect(other, sec0, sec1, t0, t1, base,
                        s0.compositeAnds[i].left, s0.compositeAnds[i].rights, s1.compositeAnds[i].left, s1.compositeAnds[i].rights,
                        r0.compositeAndResults[i], r1.compositeAndResults[i]);
  }

  /** Right batch j of batched composite AND i is correct, element by
      element. */
  lemma TwoPartyBatchCompositeAnd(other: int, s0: Schedule, s1: Schedule, t0: seq<BooleanTuple>, t1: seq<BooleanTuple>,
                                  sec0: seq<bool>, sec1: seq<bool>, r0: ExecutionResults, r1: ExecutionResults, i: nat, j: nat)
    requires other != 0 && |sec0| == |sec1| && WellSized(s0) && WellSized(s1) && SameShape(s0, s1) && ValidTriples(t0, t1)
    requires BatchCompositeAndsOpened(s0, t0, sec0, |s0.batchCompositeAnds|) && BatchCompositeAndsOpened(s1, t1, sec1, |s1.batchCompositeAnds|)
    requires BatchCompositeAndResultsAs(0, s0, PS.XorBits(sec0, sec1), t0, r0) && BatchCompositeAndResultsAs(other, s1, PS.XorBits(sec0, sec1), t1, r1)
    requires i < |s0.batchCompositeAnds| && j < |s0.batchCompositeAnds[i].rights|
    ensures forall k :: 0 <= k < |s0.batchCompositeAnds[i].left| ==>
      (r0.batchCompositeAndResults[i][j][k] != r1.batchCompositeAndResults[i][j][k])
        == ((s0.batchCompositeAnds[i].left[k] != s1.batchCompositeAnds[i].left[k])
            && (s0.batchCompositeAnds[i].rights[j][k] != s1.batchCompositeAnds[i].rights[j][k]))
  {
    var base := BatchCompositeAndOffset(s0, i) + PS.BatchGateCount(|s0.batchCompositeAnds[i].left|, j);
    BatchCompositeAndOffsetsAgree(s0, s1, i);
    BatchCompositeAndRowOf(0, s0, t0, sec0, PS.XorBits(sec0, sec1), r0, i, j, base);
    BatchCompositeAndRowOf(other, s1, t1, sec1, PS.XorBits(sec0, sec1), r1, i, j, base);
    RowCorrect(other, sec0, sec1, t0, t1, base,
               s0.batchCompositeAnds[i].left, s0.batchCompositeAnds[i].rights[j],
               s1.batchCompositeAnds[i].left, s1.batchCompositeAnds[i].rights[j],
               r0.batchCompositeAndResults[i][j], r1.batchCompositeAndResults[i][j]);
  }

  /** The plain ANDs that computeBatchANDImmediately schedules: one per
      position of the two batches. */
  function PairUp(left: seq<bool>, right: seq<bool>): (r: seq<ScheduledAnd>)
    requires |left| == |right|
    ensures |r| == |left| && forall i :: 0 <= i < |left| ==> r[i] == ScheduledAnd(left[i], right[i])
    decreases |left|
  {
    if |left| == 0 then [] else PairUp(left[..|left| - 1], right[..|right| - 1]) + [ScheduledAnd(left[|left| - 1], right[|right| - 1])]
  }

  // ---------------------------------------------------------------
  // The engine of one party
  // ---------------------------------------------------------------

  class SecretShareEngine {
    const myId: int
    var scheduledAnds: seq<ScheduledAnd>
    var scheduledBatchAnds: seq<ScheduledBatchAnd>
    var scheduledCompositeAnds: seq<ScheduledCompositeAnd>
    var scheduledBatchCompositeAnds: seq<ScheduledBatchCompositeAnd>
    var executionResults: ExecutionResults

    /** The four queues, as one value. */
    function Scheduled(): Schedule
      reads this
    {
      Schedule(scheduledAnds, scheduledBatchAnds, scheduledCompositeAnds, scheduledBatchCompositeAnds)
    }

    /** Every queued batch AND is well sized: scheduling refuses the rest. */
    ghost predicate Valid()
      reads this
    {
      WellSized(Scheduled())
    }

    /** The engine after construction, with nothing scheduled or executed
        (the exchange of generator keys with the other parties is not
        part of this model). */
    constructor (myId: int)
      ensures this.myId == myId && Valid()
      ensures Scheduled() == Schedule([], [], [], []) && executionResults == NoResults
    {
      this.myId := myId;
      scheduledAnds, scheduledBatchAnds, scheduledCompositeAnds, scheduledBatchCompositeAnds := [], [], [], [];
      executionResults := NoResults;
    }

    /** computeBatchSymmetricXOR: invalid_argument on a length mismatch,
        else the per-position symmetric XOR. */
    method BatchSymmetricXor(left: seq<bool>, right: seq<bool>) returns (r: Result<seq<bool>>)
      ensures r.Err? <==> |left| != |right|
      ensures r.Err? ==> r.kind == InvalidArgument
      ensures r.Ok? ==> |r.value| == |left| && forall i :: 0 <= i < |left| ==> r.value[i] == SymmetricXor(left[i], right[i])
    {
      if |left| != |right| {
        return Err(InvalidArgument);
      }
      if |left| == 0 {
        return Ok([]);
      }
      var rst := new bool[|left|];
      for i := 0 to |left|
        invariant forall j :: 0 <= j < i ==> rst[j] == SymmetricXor(left[j], right[j])
      {
        rst[i] := left[i] != right[i];
      }
      return Ok(rst[..]);
    }

    /** computeBatchAsymmetricXOR: party 0 XORs position by position, the
        others return the left batch. */
    method BatchAsymmetricXor(left: seq<bool>, right: seq<bool>) returns (r: Result<seq<bool>>)
      ensures r.Err? <==> |left| != |right|
      ensures r.Err? ==> r.kind == InvalidArgument
      ensures r.Ok? ==> |r.value| == |left| && forall i :: 0 <= i < |left| ==> r.value[i] == AsymmetricXor(myId, left[i], right[i])
    {
      if |left| != |right| {
        return Err(InvalidArgument);
      }
      if |left| == 0 {
        return Ok([]);
      }
      if myId == 0 {
        var rst := new bool[|left|];
        for i := 0 to |left|
          invariant forall j :: 0 <= j < i ==> rst[j] == AsymmetricXor(myId, left[j], right[j])
        {
          rst[i] := left[i] != right[i];
        }
        return Ok(rst[..]);
      } else {
        return Ok(left);
      }
    }

    /** computeBatchSymmetricNOT: the per-position negation. */
    method BatchSymmetricNot(input: seq<bool>) returns (r: seq<bool>)
      ensures |r| == |input| && forall i :: 0 <= i < |input| ==> r[i] == SymmetricNot(input[i])
    {
      if |input| == 0 {
        return [];
      }
      var rst := new bool[|input|];
      for i := 0 to |input|
        invariant forall j :: 0 <= j < i ==> rst[j] == SymmetricNot(input[j])
      {
        rst[i] := !input[i];
      }
      return rst[..];
    }

    /** computeBatchAsymmetricNOT: party 0 negates, the others return the
        input. */
    method BatchAsymmetricNot(input: seq<bool>) returns (r: seq<bool>)
      ensures |r| == |input| && forall i :: 0 <= i < |input| ==> r[i] == AsymmetricNot(myId, input[i])
    {
      if |input| == 0 {
        return [];
      }
      if myId != 0 {
        return input;
      }
      var rst := new bool[|input|];
      for i := 0 to |input|
        invariant forall j :: 0 <= j < i ==> rst[j] == AsymmetricNot(myId, input[j])
      {
        rst[i] := !input[i];
      }
      return rst[..];
    }

    /** computeBatchFreeAND: invalid_argument on a length mismatch, else
        the per-position AND. */
    method BatchFreeAnd(left: seq<bool>, right: seq<bool>) returns (r: Result<seq<bool>>)
      ensures r.Err? <==> |left| != |right|
      ensures r.Err? ==> r.kind == InvalidArgument
      ensures r.Ok? ==> |r.value| == |left| && forall i :: 0 <= i < |left| ==> r.value[i] == FreeAnd(left[i], right[i])
    {
      if |left| != |right| {
        return Err(InvalidArgument);
      }
      if |left| == 0 {
        return Ok([]);
      }
      var rst := new bool[|left|];
      for i := 0 to |left|
        invariant forall j :: 0 <= j < i ==> rst[j] == FreeAnd(left[j], right[j])
      {
        rst[i] := left[i] && right[i];
      }
      return Ok(rst[..]);
    }

    /** scheduleAND: queue the pair; its index is the number queued
        before it. */
    method ScheduleAnd(left: bool, right: bool) returns (index: nat)
      requires Valid()
      modifies this
      ensures Valid()
      ensures scheduledAnds == old(scheduledAnds) + [ScheduledAnd(left, right)] && index == |old(scheduledAnds)|
      ensures scheduledBatchAnds == old(scheduledBatchAnds) && scheduledCompositeAnds == old(scheduledCompositeAnds)
      ensures scheduledBatchCompositeAnds == old(scheduledBatchCompositeAnds) && executionResults == old(executionResults)
    {
      scheduledAnds := scheduledAnds + [ScheduledAnd(left, right)];
      index := |scheduledAnds| - 1;
    }

    /** scheduleBatchAND: runtime_error when the batches differ in length,
        else queue them. */
    method ScheduleBatchAnd(left: seq<bool>, right: seq<bool>) returns (r: Result<nat>)
      requires Valid()
      modifies this
      ensures Valid()
      ensures r.Err? <==> |left| != |right|
      ensures r.Err? ==> r.kind == RuntimeError && unchanged(this)
      ensures r.Ok? ==> scheduledBatchAnds == old(scheduledBatchAnds) + [ScheduledBatchAnd(left, right)]
      ensures r.Ok? ==> r.value == |old(scheduledBatchAnds)|
      ensures scheduledAnds == old(scheduledAnds) && scheduledCompositeAnds == old(scheduledCompositeAnds)
      ensures scheduledBatchCompositeAnds == old(scheduledBatchCompositeAnds) && executionResults == old(executionResults)
    {
      if |left| != |right| {
        return Err(RuntimeError);
      }
      scheduledBatchAnds := scheduledBatchAnds + [ScheduledBatchAnd(left, right)];
      r := Ok(|scheduledBatchAnds| - 1);
    }

    /** scheduleCompositeAND: queue the left value with its right values. */
    method ScheduleCompositeAnd(left: bool, rights: seq<bool>) returns (index: nat)
      requires Valid()
      modifies this
      ensures Valid()
      ensures scheduledCompositeAnds == old(scheduledCompositeAnds) + [ScheduledCompositeAnd(left, rights)]
      ensures index == |old(scheduledCompositeAnds)|
      ensures scheduledAnds == old(scheduledAnds) && scheduledBatchAnds == old(scheduledBatchAnds)
      ensures scheduledBatchCompositeAnds == old(scheduledBatchCompositeAnds) && executionResults == old(executionResults)
    {
      scheduledCompositeAnds := scheduledCompositeAnds + [ScheduledCompositeAnd(left, rights)];
      index := |scheduledCompositeAnds| - 1;
    }

    /** scheduleBatchCompositeAND: runtime_error as soon as a right batch
        differs in length from the left one, else queue them. */
    method ScheduleBatchCompositeAnd(left: seq<bool>, rights: seq<seq<bool>>) returns (r: Result<nat>)
      requires Valid()
      modifies this
      ensures Valid()
      ensures r.Err? <==> !PS.AllSized(rights, |left|)
      ensures r.Err? ==> r.kind == RuntimeError && unchanged(this)
      ensures r.Ok? ==> scheduledBatchCompositeAnds == old(scheduledBatchCompositeAnds) + [ScheduledBatchCompositeAnd(left, rights)]
      ensures r.Ok? ==> r.value == |old(scheduledBatchCompositeAnds)|
      ensures scheduledAnds == old(scheduledAnds) && scheduledBatchAnds == old(scheduledBatchAnds)
      ensures scheduledCompositeAnds == old(scheduledCompositeAnds) && executionResults == old(executionResults)
    {
      var batchSize := |left|;
      for i := 0 to |rights|
        invariant PS.AllSized(rights[..i], batchSize)
      {
        if |rights[i]| != batchSize {
          return Err(RuntimeError);
        }
      }
      assert rights[..|rights|] == rights;
      scheduledBatchCompositeAnds := scheduledBatchCompositeAnds + [ScheduledBatchCompositeAnd(left, rights)];
      r := Ok(|scheduledBatchCompositeAnds| - 1);
    }

    /** executeScheduledAND: evaluate every queued AND with the triples
        (tupleCount of them, from the generator), keep the results and
        empty the queues.  When the opening fails, the queues and the
        previous results are kept. */
    method ExecuteScheduledAnd(tuples: seq<BooleanTuple>, open: seq<bool> -> seq<bool>) returns (sent: seq<bool>, r: Result<()>)
      requires Valid() && |tuples| == TupleCount(Scheduled())
      modifies this
      ensures Valid()
      ensures r.Err? <==> TupleCount(old(Scheduled())) > 0 && |open(sent)| != 2 * TupleCount(old(Scheduled()))
      ensures r.Err? ==> r.kind == RuntimeError && unchanged(this)
      ensures TupleCount(old(Scheduled())) > 0 ==> OpensAs(old(Scheduled()), tuples, sent)
      ensures r.Ok? ==> Scheduled() == Schedule([], [], [], [])
      ensures r.Ok? && TupleCount(old(Scheduled())) == 0 ==> executionResults == NoResults
      ensures r.Ok? && TupleCount(old(Scheduled())) > 0 ==>
        ResultsAs(myId, old(Scheduled()), open(sent), tuples, executionResults)
    {
      var results;
      sent, results := ComputeAllAnds(myId, Scheduled(), tuples, open);
      if results.Err? {
        return sent, Err(results.kind);
      }
      executionResults := results.value;
      scheduledAnds, scheduledBatchAnds, scheduledCompositeAnds, scheduledBatchCompositeAnds := [], [], [], [];
      r := Ok(());
    }

    /** computeBatchANDImmediately: runtime_error on a length mismatch;
        otherwise the two batches are evaluated at once as plain ANDs
        (one triple per position), without touching the queues. */
    method ComputeBatchAndImmediately(left: seq<bool>, right: seq<bool>, tuples: seq<BooleanTuple>, open: seq<bool> -> seq<bool>)
      returns (sent: seq<bool>, r: Result<seq<bool>>)
      requires |left| == |right| ==> |tuples| == |left|
      ensures r.Err? <==> |left| != |right| || (|left| > 0 && |open(sent)| != 2 * |left|)
      ensures r.Err? ==> r.kind == RuntimeError
      ensures |left| == |right| && |left| > 0 ==> OpensAs(Schedule(PairUp(left, right), [], [], []), tuples, sent)
      ensures r.Ok? ==> RowShares(myId, open(sent), tuples, 0, r.value, |left|)
    {
      if |left| != |right| {
        return [], Err(RuntimeError);
      }
      var scheduledAnds: seq<ScheduledAnd> := [];
      for i := 0 to |left|
        invariant |scheduledAnds| == i && forall j :: 0 <= j < i ==> scheduledAnds[j] == ScheduledAnd(left[j], right[j])
      {
        scheduledAnds := scheduledAnds + [ScheduledAnd(left[i], right[i])];
      }
      assert scheduledAnds == PairUp(left, right);
      var s := Schedule(scheduledAnds, [], [], []);
      assert TupleCount(s) == |left|;
      var results;
      sent, results := ComputeAllAnds(myId, s, tuples, open);
      if results.Err? {
        return sent, Err(results.kind);
      }
      r := Ok(results.value.andResults);
    }

    /** getANDExecutionResult: out_of_range past the end. */
    function GetAndExecutionResult(index: nat): (r: Result<bool>)
      reads this
      ensures r.Ok? <==> index < |executionResults.andResults|
      ensures r.Ok? ==> r.value == executionResults.andResults[index]
      ensures r.Err? ==> r.kind == OutOfRange
    {
      if index < |executionResults.andResults| then Ok(executionResults.andResults[index]) else Err(OutOfRange)
    }

    function GetBatchAndExecutionResult(index: nat): (r: Result<seq<bool>>)
      reads this
      ensures r.Ok? <==> index < |executionResults.batchAndResults|
      ensures r.Ok? ==> r.value == executionResults.batchAndResults[index]
      ensures r.Err? ==> r.kind == OutOfRange
    {
      if index < |executionResults.batchAndResults| then Ok(executionResults.batchAndResults[index]) else Err(OutOfRange)
    }

    function GetCompositeAndExecutionResult(index: nat): (r: Result<seq<bool>>)
      reads this
      ensures r.Ok? <==> index < |executionResults.compositeAndResults|
      ensures r.Ok? ==> r.value == executionResults.compositeAndResults[index]
      ensures r.Err? ==> r.kind == OutOfRange
    {
      if index < |executionResults.compositeAndResults| then Ok(executionResults.compositeAndResults[index]) else Err(OutOfRange)
    }

    function GetBatchCompositeAndExecutionResult(index: nat): (r: Result<seq<seq<bool>>>)
      reads this
      ensures r.Ok? <==> index < |executionResults.batchCompositeAndResults|
      ensures r.Ok? ==> r.value == executionResults.batchCompositeAndResults[index]
      ensures r.Err? ==> r.kind == OutOfRange
    {
      if index < |executionResults.batchCompositeAndResults| then Ok(executionResults.batchCompositeAndResults[index])
      else Err(OutOfRange)
    }
  }
}