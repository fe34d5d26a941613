/** UdpEncryption: the encryption step of the unified data process.  One
    party encrypts its rows in batches and sends them; the other receives
    the peer's encrypted rows and cherry-picks those whose row index it
    asked for, each into the slot its position in the request gives.  Two
    status machines (idle / inProgress), one per side, guard the calls. */
module UdpEncryptions {
  import opened Common
  import opened ColumnDefinition

  datatype Status = Idle | InProgress

  /** kBlockSize: the bytes of the nonce that opens each peer batch. */
  const BlockSize: nat := 16

  /** A 128-bit block, as its sixteen bytes. */
  function ZeroBlock(): (b: seq<Byte>)
    ensures |b| == BlockSize && forall i :: 0 <= i < |b| ==> b[i] == 0
  {
    seq(BlockSize, _ => 0)
  }

  /** The peer side's cherry-pick state: the index-to-order map and the
      three result vectors. */
  datatype Picks = Picks(order: map<int, nat>, encryption: seq<seq<Byte>>, nonces: seq<seq<Byte>>, indexes: seq<int>)

  /** The three result vectors have one slot per requested row. */
  predicate SameSizes(p: Picks)
  {
    |p.encryption| == |p.nonces| == |p.indexes|
  }

  /** Every order the map holds names a slot of the result vectors. */
  predicate OrdersInRange(p: Picks)
  {
    forall k :: k in p.order ==> p.order[k] < |p.encryption|
  }

  /** No two row indexes are sent to the same slot. */
  predicate Injective(order: map<int, nat>)
  {
    forall k1, k2 :: k1 in order && k2 in order && k1 != k2 ==> order[k1] != order[k2]
  }

  /** The map after emplacing (indexes[i], i) for i < n: an index already
      present keeps its order. */
  function Emplaced(order: map<int, nat>, indexes: seq<int>, n: nat): map<int, nat>
    requires n <= |indexes|
  {
    if n == 0 then order
    else
      var m := Emplaced(order, indexes, n - 1);
      if indexes[n - 1] in m then m else m[indexes[n - 1] := n - 1]
  }

  /** indexes[j] does not occur before position j. */
  predicate FirstAt(indexes: seq<int>, j: nat)
    requires j < |indexes|
  {
    forall i :: 0 <= i < j ==> indexes[i] != indexes[j]
  }

  /** From an empty map, emplacing gives each requested index the
      position of its first occurrence, and nothing else. */
  lemma {:induction false} EmplacedFromEmpty(indexes: seq<int>, n: nat)
    requires n <= |indexes|
    ensures forall k :: k in Emplaced(map[], indexes, n) ==>
      Emplaced(map[], indexes, n)[k] < n && indexes[Emplaced(map[], indexes, n)[k]] == k
    ensures forall j :: 0 <= j < n ==> indexes[j] in Emplaced(map[], indexes, n)
    ensures forall j :: 0 <= j < n && FirstAt(indexes, j) ==> Emplaced(map[], indexes, n)[indexes[j]] == j
  {
    if n > 0 {
      EmplacedFromEmpty(indexes, n - 1);
      var m := Emplaced(map[], indexes, n - 1);
      if indexes[n - 1] in m {
        var i := m[indexes[n - 1]];
        assert i < n - 1 && indexes[i] == indexes[n - 1];
        assert !FirstAt(indexes, n - 1);
      }
    }
  }

  /** Orders that name a position of the request are one-to-one. */
  lemma EmplacedInjective(order: map<int, nat>, indexes: seq<int>)
    requires forall k :: k in order ==> order[k] < |indexes| && indexes[order[k]] == k
    ensures Injective(order)
  {
  }

  /** One received row with index idx: a row the map holds goes to its
      slot with the batch's nonce and its index, and leaves the map; a
      slot outside the vectors throws out_of_range before anything is
      written.  The second component says whether it threw. */
  function PickOne(p: Picks, nonce: seq<Byte>, ciphertext: seq<Byte>, idx: nat): (r: (Picks, bool))
    ensures SameSizes(p) ==> SameSizes(r.0)
  {
    if idx in p.order then
      var o := p.order[idx];
      if o < |p.encryption| && o < |p.nonces| && o < |p.indexes| then
        (Picks(p.order - {idx}, p.encryption[o := ciphertext], p.nonces[o := nonce], p.indexes[o := idx]), false)
      else (p, true)
    else (p, false)
  }

  /** The first n rows of a peer batch whose first row has index offset,
      processed in order; processing stops at the first throw. */
  function Picking(p: Picks, nonce: seq<Byte>, ciphertexts: seq<seq<Byte>>, offset: nat, n: nat): (r: (Picks, bool))
    requires n <= |ciphertexts|
    ensures SameSizes(p) ==> SameSizes(r.0)
  {
    if n == 0 then (p, false)
    else
      var prev := Picking(p, nonce, ciphertexts, offset, n - 1);
      if prev.1 then prev else PickOne(prev.0, nonce, ciphertexts[n - 1], offset + n - 1)
  }

  /** Rows picked so far leave the map; the rest keep their orders. */
  lemma {:induction false} PickingOrder(p: Picks, nonce: seq<Byte>, ciphertexts: seq<seq<Byte>>, offset: nat, n: nat)
    requires n <= |ciphertexts|
    ensures forall k :: k in Picking(p, nonce, ciphertexts, offset, n).0.order ==>
      k in p.order && Picking(p, nonce, ciphertexts, offset, n).0.order[k] == p.order[k]
    ensures !Picking(p, nonce, ciphertexts, offset, n).1 ==>
      forall k :: k in p.order ==> (k in Picking(p, nonce, ciphertexts, offset, n).0.order <==> !(offset <= k < offset + n))
  {
    if n > 0 {
      PickingOrder(p, nonce, ciphertexts, offset, n - 1);
    }
  }

  /** With every order inside the vectors, no row throws. */
  lemma {:induction false} PickingNoThrow(p: Picks, nonce: seq<Byte>, ciphertexts: seq<seq<Byte>>, offset: nat, n: nat)
    requires n <= |ciphertexts| && SameSizes(p) && OrdersInRange(p)
    ensures !Picking(p, nonce, ciphertexts, offset, n).1
    ensures OrdersInRange(Picking(p, nonce, ciphertexts, offset, n).0)
  {
    if n > 0 {
      PickingNoThrow(p, nonce, ciphertexts, offset, n - 1);
      PickingSizes(p, nonce, ciphertexts, offset, n - 1);
    }
  }

  /** Picking only overwrites slots; the vectors keep their lengths. */
  lemma {:induction false} PickingSizes(p: Picks, nonce: seq<Byte>, ciphertexts: seq<seq<Byte>>, offset: nat, n: nat)
    requires n <= |ciphertexts|
    ensures |Picking(p, nonce, ciphertexts, offset, n).0.encryption| == |p.encryption|
    ensures |Picking(p, nonce, ciphertexts, offset, n).0.nonces| == |p.nonces|
    ensures |Picking(p, nonce, ciphertexts, offset, n).0.indexes| == |p.indexes|
  {
    if n > 0 {
      PickingSizes(p, nonce, ciphertexts, offset, n - 1);
    }
  }

  /** Slot o holds row k of the batch: its ciphertext, the batch's
      nonce and its index. */
  predicate Placed(q: Picks, o: nat, nonce: seq<Byte>, ciphertexts: seq<seq<Byte>>, offset: nat, k: int)
    requires offset <= k < offset + |ciphertexts|
  {
    o < |q.encryption| && o < |q.nonces| && o < |q.indexes|
    && q.encryption[o] == ciphertexts[k - offset] && q.nonces[o] == nonce && q.indexes[o] == k
  }

  /** Slot o is as it was in p. */
  predicate Untouched(p: Picks, q: Picks, o: nat)
    requires o < |p.encryption| && SameSizes(p)
  {
    o < |q.encryption| && o < |q.nonces| && o < |q.indexes|
    && q.encryption[o] == p.encryption[o] && q.nonces[o] == p.nonces[o] && q.indexes[o] == p.indexes[o]
  }

  /** Every requested row among the first n is in its slot, when the
      orders are in range and one-to-one. */
  lemma {:induction false} PickingPlaces(p: Picks, nonce: seq<Byte>, ciphertexts: seq<seq<Byte>>, offset: nat, n: nat)
    requires n <= |ciphertexts| && SameSizes(p) && OrdersInRange(p) && Injective(p.order)
    ensures forall k :: k in p.order && offset <= k < offset + n ==>
      Placed(Picking(p, nonce, ciphertexts, offset, n).0, p.order[k], nonce, ciphertexts, offset, k)
  {
    if n > 0 {
      PickingPlaces(p, nonce, ciphertexts, offset, n - 1);
      PickingNoThrow(p, nonce, ciphertexts, offset, n - 1);
      PickingOrder(p, nonce, ciphertexts, offset, n - 1);
      PickingSizes(p, nonce, ciphertexts, offset, n - 1);
      var prev := Picking(p, nonce, ciphertexts, offset, n - 1).0;
      var q := Picking(p, nonce, ciphertexts, offset, n).0;
      var idx := offset + n - 1;
      assert q == PickOne(prev, nonce, ciphertexts[n - 1], idx).0;
      forall k | k in p.order && offset <= k < offset + n
        ensures Placed(q, p.order[k], nonce, ciphertexts, offset, k)
      {
        if k == idx {
          assert idx in prev.order && prev.order[idx] == p.order[idx];
        } else {
          assert Placed(prev, p.order[k], nonce, ciphertexts, offset, k);
          if idx in prev.order {
            assert prev.order[idx] == p.order[idx] != p.order[k];
          }
        }
      }
    }
  }

  /** Every slot that no requested row among the first n is sent to is
      left as it was. */
  lemma {:induction false} PickingUntouched(p: Picks, nonce: seq<Byte>, ciphertexts: seq<seq<Byte>>, offset: nat, n: nat, o: nat)
    requires n <= |ciphertexts| && SameSizes(p) && o < |p.encryption|
    requires forall k :: k in p.order && offset <= k < offset + n ==> p.order[k] != o
    ensures Untouched(p, Picking(p, nonce, ciphertexts, offset, n).0, o)
  {
    PickingSizes(p, nonce, ciphertexts, offset, n);
    if n > 0 {
      PickingUntouched(p, nonce, ciphertexts, offset, n - 1, o);
      PickingOrder(p, nonce, ciphertexts, offset, n - 1);
      var prev := Picking(p, nonce, ciphertexts, offset, n - 1);
      var idx := offset + n - 1;
      if !prev.1 && idx in prev.0.order {
        assert prev.0.order[idx] == p.order[idx];
      }
    }
  }

  /** The request's index → order map, built from nothing, sends every
      row asked for to the position it was first asked at: a whole batch
      starting at index 0 fills each such slot with that row. */
  lemma CherryPickedRows(indexes: seq<int>, nonce: seq<Byte>, ciphertexts: seq<seq<Byte>>, j: nat)
    requires j < |indexes| && FirstAt(indexes, j) && 0 <= indexes[j] < |ciphertexts|
    ensures var p := Picks(Emplaced(map[], indexes, |indexes|), seq(|indexes|, _ => []), seq(|indexes|, _ => ZeroBlock()), seq(|indexes|, _ => 0));
      !Picking(p, nonce, ciphertexts, 0, |ciphertexts|).1 && Placed(Picking(p, nonce, ciphertexts, 0, |ciphertexts|).0, j, nonce, ciphertexts, 0, indexes[j])
  {
    var p := Picks(Emplaced(map[], indexes, |indexes|), seq(|indexes|, _ => []), seq(|indexes|, _ => ZeroBlock()), seq(|indexes|, _ => 0));
    EmplacedFromEmpty(indexes, |indexes|);
    EmplacedInjective(p.order, indexes);
    PickingNoThrow(p, nonce, ciphertexts, 0, |ciphertexts|);
    PickingPlaces(p, nonce, ciphertexts, 0, |ciphertexts|);
    assert p.order[indexes[j]] == j;
  }

  /** What getProcessedData hands back. */
  datatype EncryptionResults = EncryptionResults(ciphertexts: seq<seq<Byte>>, nonces: seq<seq<Byte>>, indexes: seq<int>)

  /** localEncryption: a batch of rows, the PRG key and the index of the
      batch's first row give the ciphertexts and the batch's nonce. */
  type Encryptor = (seq<seq<Byte>>, seq<Byte>, nat) -> (seq<seq<Byte>>, seq<Byte>)

  class UdpEncryption {
    var myStatus: Status
    var peerStatus: Status
    var myDataWidth: nat
    var prgKey: seq<Byte>
    var peerDataWidth: nat
    /** One row counter, shared by both sides. */
    var indexOffset: nat
    var indexToOrder: map<int, nat>
    var cherryPickedEncryption: seq<seq<Byte>>
    var cherryPickedNonce: seq<seq<Byte>>
    var cherryPickedIndex: seq<int>
    /** The messages sent to the peer, in order. */
    var sent: seq<seq<Byte>>

    function PickState(): Picks
      reads this
    {
      Picks(indexToOrder, cherryPickedEncryption, cherryPickedNonce, cherryPickedIndex)
    }

    predicate Valid()
      reads this
    {
      SameSizes(PickState())
    }

    /** Both sides start idle. */
    constructor()
      ensures Valid() && myStatus == Idle && peerStatus == Idle
      ensures indexToOrder == map[] && cherryPickedEncryption == [] && cherryPickedNonce == [] && cherryPickedIndex == []
      ensures sent == [] && indexOffset == 0
    {
      myStatus := Idle;
      peerStatus := Idle;
      myDataWidth := 0;
      prgKey := ZeroBlock();
      peerDataWidth := 0;
      indexOffset := 0;
      indexToOrder := map[];
      cherryPickedEncryption := [];
      cherryPickedNonce := [];
      cherryPickedIndex := [];
      sent := [];
    }

    /** Starts a run over my data with a fresh PRG key; only from idle. */
    method PrepareToProcessMyData(width: nat, key: seq<Byte>) returns (r: Result<()>)
      requires Valid()
      modifies this
      ensures Valid()
      ensures r.Err? <==> old(myStatus) != Idle
      ensures r.Err? ==> r.kind == RuntimeError && myStatus == old(myStatus) && myDataWidth == old(myDataWidth) && prgKey == old(prgKey) && indexOffset == old(indexOffset)
      ensures r.Ok? ==> myStatus == InProgress && myDataWidth == width && prgKey == key && indexOffset == 0
      ensures peerStatus == old(peerStatus) && peerDataWidth == old(peerDataWidth) && PickState() == old(PickState()) && sent == old(sent)
    {
      if myStatus != Idle {
        return Err(RuntimeError);
      }
      myStatus := InProgress;
      myDataWidth := width;
      prgKey := key;
      indexOffset := 0;
      return Ok(());
    }

    /** Encrypts one batch of my rows and sends the nonce, then each
        ciphertext; the row counter moves past the batch.  Throws before
        preparation, on an empty batch, or when the first row is not
        myDataWidth bytes wide. */
    method ProcessMyData(plaintextData: seq<seq<Byte>>, localEncryption: Encryptor) returns (r: Result<()>)
      requires Valid()
      modifies this
      ensures Valid()
      ensures r.Err? <==> old(myStatus) != InProgress || |plaintextData| == 0 || |plaintextData[0]| != old(myDataWidth)
      ensures r.Err? ==> r.kind == (if old(myStatus) != InProgress then RuntimeError else InvalidArgument)
      ensures r.Err? ==> sent == old(sent) && indexOffset == old(indexOffset)
      ensures r.Ok? ==>
        var (ciphertext, nonce) := localEncryption(plaintextData, old(prgKey), old(indexOffset));
        sent == old(sent) + [nonce] + ciphertext && indexOffset == old(indexOffset) + |plaintextData|
      ensures myStatus == old(myStatus) && myDataWidth == old(myDataWidth) && prgKey == old(prgKey)
      ensures peerStatus == old(peerStatus) && peerDataWidth == old(peerDataWidth) && PickState() == old(PickState())
    {
      if myStatus != InProgress {
        return Err(RuntimeError);
      }
      if |plaintextData| == 0 || |plaintextData[0]| != myDataWidth {
        return Err(InvalidArgument);
      }
      var (ciphertext, nonce) := localEncryption(plaintextData, prgKey, indexOffset);
      sent := sent + [nonce];
      for i := 0 to |ciphertext|
        invariant sent == old(sent) + [nonce] + ciphertext[..i]
        invariant myStatus == old(myStatus) && myDataWidth == old(myDataWidth) && prgKey == old(prgKey) && indexOffset == old(indexOffset)
        invariant peerStatus == old(peerStatus) && peerDataWidth == old(peerDataWidth) && PickState() == old(PickState())
      {
        sent := sent + [ciphertext[i]];
        assert ciphertext[..i + 1] == ciphertext[..i] + [ciphertext[i]];
      }
      assert ciphertext[..|ciphertext|] == ciphertext;
      indexOffset := indexOffset + |plaintextData|;
      return Ok(());
    }

    /** Starts a run over the peer's data: each requested index is
        emplaced with its position (an index already in the map keeps
        its order), and the three result vectors get one zeroed slot per
        request.  Only from idle. */
    method PrepareToProcessPeerData(width: nat, indexes: seq<int>) returns (r: Result<()>)
      requires Valid()
      modifies this
      ensures Valid()
      ensures r.Err? <==> old(peerStatus) != Idle
      ensures r.Err? ==> r.kind == RuntimeError && peerStatus == old(peerStatus) && peerDataWidth == old(peerDataWidth) && PickState() == old(PickState()) && indexOffset == old(indexOffset)
      ensures r.Ok? ==> peerStatus == InProgress && peerDataWidth == width && indexOffset == 0
      ensures r.Ok? ==> PickState() == Picks(Emplaced(old(indexToOrder), indexes, |indexes|), seq(|indexes|, _ => []), seq(|indexes|, _ => ZeroBlock()), seq(|indexes|, _ => 0))
      ensures myStatus == old(myStatus) && myDataWidth == old(myDataWidth) && prgKey == old(prgKey) && sent == old(sent)
    {
      if peerStatus != Idle {
        return Err(RuntimeError);
      }
      peerStatus := InProgress;
      for i := 0 to |indexes|
        invariant indexToOrder == Emplaced(old(indexToOrder), indexes, i)
        invariant myStatus == old(myStatus) && peerStatus == InProgress && myDataWidth == old(myDataWidth)
        invariant prgKey == old(prgKey) && sent == old(sent)
      {
        if indexes[i] !in indexToOrder {
          indexToOrder := indexToOrder[indexes[i] := i];
        }
      }
      peerDataWidth := width;
      indexOffset := 0;
      cherryPickedEncryption := seq(|indexes|, _ => []);
      cherryPickedNonce := seq(|indexes|, _ => ZeroBlock());
      cherryPickedIndex := seq(|indexes|, _ => 0);
      return Ok(());
    }

    /** Receives one peer batch (a nonce, then dataSize ciphertexts) and
        files each requested row; the row counter moves past the batch.
        Throws before preparation, or out_of_range when a stale order
        falls outside the result vectors, keeping what was filed. */
    method ProcessPeerData(dataSize: nat, nonce: seq<Byte>, ciphertexts: seq<seq<Byte>>) returns (r: Result<()>)
      requires Valid() && |nonce| == BlockSize && |ciphertexts| == dataSize
      modifies this
      ensures Valid()
      ensures old(peerStatus) != InProgress ==> r == Err(RuntimeError) && PickState() == old(PickState()) && indexOffset == old(indexOffset)
      ensures old(peerStatus) == InProgress ==>
        var (q, threw) := Picking(old(PickState()), nonce, ciphertexts, old(indexOffset), dataSize);
        PickState() == q && (r.Err? <==> threw) && (threw ==> r.kind == OutOfRange)
        && indexOffset == if threw then old(indexOffset) else old(indexOffset) + dataSize
      ensures myStatus == old(myStatus) && peerStatus == old(peerStatus) && myDataWidth == old(myDataWidth) && prgKey == old(prgKey)
      ensures peerDataWidth == old(peerDataWidth) && sent == old(sent)
    {
      if peerStatus != InProgress {
        return Err(RuntimeError);
      }
      ghost var p0 := PickState();
      for i := 0 to dataSize
        invariant Picking(p0, nonce, ciphertexts, indexOffset, i) == (PickState(), false)
        invariant myStatus == old(myStatus) && peerStatus == old(peerStatus) && indexOffset == old(indexOffset)
        invariant myDataWidth == old(myDataWidth) && prgKey == old(prgKey) && peerDataWidth == old(peerDataWidth) && sent == old(sent)
      {
        var idx := i + indexOffset;
        if idx in indexToOrder {
          var o := indexToOrder[idx];
          if !(o < |cherryPickedEncryption| && o < |cherryPickedNonce| && o < |cherryPickedIndex|) {
            PickingStops(p0, nonce, ciphertexts, indexOffset, i + 1, dataSize);
            return Err(OutOfRange);
          }
          cherryPickedEncryption := cherryPickedEncryption[o := ciphertexts[i]];
          cherryPickedNonce := cherryPickedNonce[o := nonce];
          cherryPickedIndex := cherryPickedIndex[o := idx];
          indexToOrder := indexToOrder - {idx};
        }
      }
      indexOffset := indexOffset + dataSize;
      return Ok(());
    }

    /** Hands out the PRG key for decryption and ends my run.  The AES key
        expansion applied to it is not part of this model. */
    method GetExpandedKey() returns (r: Result<seq<Byte>>)
      requires Valid()
      modifies this
      ensures Valid()
      ensures r.Err? <==> old(myStatus) != InProgress
      ensures r.Err? ==> r.kind == RuntimeError
      ensures r.Ok? ==> r.value == old(prgKey)
      ensures myStatus == Idle
      ensures peerStatus == old(peerStatus) && PickState() == old(PickState()) && indexOffset == old(indexOffset) && sent == old(sent)
      ensures myDataWidth == old(myDataWidth) && prgKey == old(prgKey) && peerDataWidth == old(peerDataWidth)
    {
      if myStatus != InProgress {
        return Err(RuntimeError);
      }
      myStatus := Idle;
      return Ok(prgKey);
    }

    /** Hands out the cherry-picked rows and ends the peer run; the
        vectors are moved out and left empty.  The index map is not
        cleared. */
    method GetProcessedData() returns (r: Result<EncryptionResults>)
      requires Valid()
      modifies this
      ensures Valid()
      ensures r.Err? <==> old(peerStatus) != InProgress
      ensures r.Err? ==> r.kind == RuntimeError && PickState() == old(PickState()) && peerStatus == old(peerStatus)
      ensures r.Ok? ==> r.value == EncryptionResults(old(cherryPickedEncryption), old(cherryPickedNonce), old(cherryPickedIndex))
      ensures r.Ok? ==> peerStatus == Idle && PickState() == Picks(old(indexToOrder), [], [], [])
      ensures myStatus == old(myStatus) && indexOffset == old(indexOffset) && sent == old(sent)
      ensures myDataWidth == old(myDataWidth) && prgKey == old(prgKey) && peerDataWidth == old(peerDataWidth)
    {
      if peerStatus != InProgress {
        return Err(RuntimeError);
      }
      peerStatus := Idle;
      r := Ok(EncryptionResults(cherryPickedEncryption, cherryPickedNonce, cherryPickedIndex));
      cherryPickedEncryption := [];
      cherryPickedNonce := [];
      cherryPickedIndex := [];
    }
  }

  /** Once a row throws, the later rows are not processed. */
  lemma {:induction false} PickingStops(p: Picks, nonce: seq<Byte>, ciphertexts: seq<seq<Byte>>, offset: nat, m: nat, n: nat)
    requires 0 < m <= n <= |ciphertexts| && Picking(p, nonce, ciphertexts, offset, m).1
    ensures Picking(p, nonce, ciphertexts, offset, n) == Picking(p, nonce, ciphertexts, offset, m)
    decreases n - m
  {
    if m < n {
      PickingStops(p, nonce, ciphertexts, offset, m, n - 1);
    }
  }
}
