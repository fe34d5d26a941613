/** The BitString frontend type (fbpcf/frontend/BitString_impl.h) on
    plaintext Bits.  An unbatched BitString is its sequence of Bits; a
    batched one holds, for every bit position, the batch of values of that
    position, so its data is the transpose of the per-entry inputs. */
module BitStrings {
  import opened Common

  /** All inner sequences have the length of the first. */
  predicate Rectangular(src: seq<seq<bool>>)
    requires |src| >= 1
  {
    forall i :: 0 <= i < |src| ==> |src[i]| == |src[0]|
  }

  /** The reference transpose: entry [j][i] is src[i][j]. */
  function Transposed(src: seq<seq<bool>>): seq<seq<bool>>
    requires |src| >= 1 && Rectangular(src)
  {
    seq(|src[0]|, j requires 0 <= j < |src[0]| =>
      seq(|src|, i requires 0 <= i < |src| => src[i][j]))
  }

  /** transposeVector: `src.at(0)` throws out_of_range on an empty input,
      and a batch whose size differs from the first throws. */
  method TransposeVector(src: seq<seq<bool>>) returns (r: Result<seq<seq<bool>>>)
    ensures |src| == 0 ==> r == Err(OutOfRange)
    ensures |src| >= 1 && !Rectangular(src) ==> r == Err(RuntimeError)
    ensures |src| >= 1 && Rectangular(src) ==> r == Ok(Transposed(src))
  {
    if |src| == 0 {
      return Err(OutOfRange);
    }
    var outer := |src|;
    var inner := |src[0]|;
    var rst := seq(inner, _ => seq(outer, _ => false));
    for i := 0 to outer
      invariant |rst| == inner && forall j :: 0 <= j < inner ==> |rst[j]| == outer
      invariant forall k :: 0 <= k < i ==> |src[k]| == inner
      invariant forall j, k :: 0 <= j < inner && 0 <= k < i ==> rst[j][k] == src[k][j]
    {
      if |src[i]| != inner {
        return Err(RuntimeError);
      }
      for j := 0 to inner
        invariant |rst| == inner && forall j2 :: 0 <= j2 < inner ==> |rst[j2]| == outer
        invariant forall j2, k :: 0 <= j2 < inner && 0 <= k < i ==> rst[j2][k] == src[k][j2]
        invariant forall j2 :: 0 <= j2 < j ==> rst[j2][i] == src[i][j2]
      {
        rst := rst[j := rst[j][i := src[i][j]]];
      }
    }
    forall j | 0 <= j < inner
      ensures rst[j] == Transposed(src)[j]
    {
      assert forall k :: 0 <= k < outer ==> rst[j][k] == Transposed(src)[j][k];
    }
    assert rst == Transposed(src);
    return Ok(rst);
  }

  /** The transpose of a rectangular input is rectangular, with the sizes
      swapped. */
  lemma TransposedShape(src: seq<seq<bool>>)
    requires |src| >= 1 && Rectangular(src)
    ensures |Transposed(src)| == |src[0]|
    ensures |src[0]| >= 1 ==> Rectangular(Transposed(src)) && |Transposed(src)[0]| == |src|
  {
  }

  /** Transposing twice gives back a rectangular input with non-empty
      batches. */
  lemma TransposeTwice(src: seq<seq<bool>>)
    requires |src| >= 1 && Rectangular(src) && |src[0]| >= 1
    ensures |Transposed(src)| >= 1 && Rectangular(Transposed(src)) && Transposed(Transposed(src)) == src
  {
    TransposedShape(src);
    var t := Transposed(Transposed(src));
    assert |t| == |src|;
    forall i | 0 <= i < |src|
      ensures t[i] == src[i]
    {
    }
  }

  /** The batched constructor: one Bit per position of the first input,
      holding the transposed batch values. */
  method NewBatch(data: seq<seq<bool>>) returns (r: Result<seq<seq<bool>>>)
    ensures r.Err? <==> |data| == 0 || !Rectangular(data)
    ensures r.Ok? ==> r.value == Transposed(data)
  {
    if |data| == 0 {
      return Err(OutOfRange);
    }
    r := TransposeVector(data);
  }

  /** getValue on a batched BitString: the Bits' values, transposed back
      into one sequence per batch entry. */
  method GetBatchValue(bits: seq<seq<bool>>) returns (r: Result<seq<seq<bool>>>)
    ensures r.Err? <==> |bits| == 0 || !Rectangular(bits)
    ensures r.Ok? ==> r.value == Transposed(bits)
  {
    r := TransposeVector(bits);
  }

  /** A batched BitString built from entries of at least one bit returns
      those entries. */
  lemma BatchRoundTrip(data: seq<seq<bool>>)
    requires |data| >= 1 && Rectangular(data) && |data[0]| >= 1
    ensures var bits := Transposed(data);
      |bits| >= 1 && Rectangular(bits) && Transposed(bits) == data
  {
    TransposeTwice(data);
  }

  /** Entries of zero bits give a BitString without Bits, whose getValue
      throws: the round trip needs at least one bit. */
  lemma EmptyEntriesDoNotRoundTrip(n: nat)
    requires n >= 1
    ensures var data := seq(n, _ => []);
      Rectangular(data) && Transposed(data) == []
  {
  }

  /** operator!: bitwise negation. */
  method Not(a: seq<bool>) returns (r: seq<bool>)
    ensures |r| == |a| && forall i :: 0 <= i < |a| ==> r[i] == !a[i]
  {
    r := [];
    for i := 0 to |a|
      invariant |r| == i && forall k :: 0 <= k < i ==> r[k] == !a[k]
    {
      r := r + [!a[i]];
    }
  }

  /** operator&: bitwise AND; different lengths throw. */
  method And(a: seq<bool>, b: seq<bool>) returns (r: Result<seq<bool>>)
    ensures r.Err? <==> |a| != |b|
    ensures r.Ok? ==> |r.value| == |a| && forall i :: 0 <= i < |a| ==> r.value[i] == (a[i] && b[i])
  {
    if |b| != |a| {
      return Err(RuntimeError);
    }
    var rst := [];
    for i := 0 to |a|
      invariant |rst| == i && forall k :: 0 <= k < i ==> rst[k] == (a[k] && b[k])
    {
      rst := rst + [a[i] && b[i]];
    }
    return Ok(rst);
  }

  /** operator^: bitwise XOR; different lengths throw. */
  method Xor(a: seq<bool>, b: seq<bool>) returns (r: Result<seq<bool>>)
    ensures r.Err? <==> |a| != |b|
    ensures r.Ok? ==> |r.value| == |a| && forall i :: 0 <= i < |a| ==> r.value[i] == (a[i] != b[i])
  {
    if |b| != |a| {
      return Err(RuntimeError);
    }
    var rst := [];
    for i := 0 to |a|
      invariant |rst| == i && forall k :: 0 <= k < i ==> rst[k] == (a[k] != b[k])
    {
      rst := rst + [a[i] != b[i]];
    }
    return Ok(rst);
  }

  /** slowMux: bit i is a_i ^ (choice & (b_i ^ a_i)), which selects the
      other string when the choice is set; different lengths throw. */
  method SlowMux(a: seq<bool>, choice: bool, b: seq<bool>) returns (r: Result<seq<bool>>)
    ensures r.Err? <==> |a| != |b|
    ensures r.Ok? ==> r.value == if choice then b else a
  {
    if |b| != |a| {
      return Err(RuntimeError);
    }
    var rst := [];
    for i := 0 to |a|
      invariant |rst| == i && forall k :: 0 <= k < i ==> rst[k] == if choice then b[k] else a[k]
    {
      rst := rst + [a[i] != (choice && (b[i] != a[i]))];
    }
    return Ok(rst);
  }

  /** fastMux: the XOR of the two strings, ANDed with the choice in one
      composite gate, then XORed back into this string. */
  method FastMux(a: seq<bool>, choice: bool, b: seq<bool>) returns (r: Result<seq<bool>>)
    ensures r.Err? <==> |a| != |b|
    ensures r.Ok? ==> r.value == if choice then b else a
  {
    if |b| != |a| {
      return Err(RuntimeError);
    }
    var sum := [];
    for i := 0 to |a|
      invariant |sum| == i && forall k :: 0 <= k < i ==> sum[k] == (b[k] != a[k])
    {
      sum := sum + [b[i] != a[i]];
    }
    var rst := seq(|a|, k requires 0 <= k < |a| => choice && sum[k]);
    for i := 0 to |a|
      invariant |rst| == |a|
      invariant forall k :: 0 <= k < i ==> rst[k] == if choice then b[k] else a[k]
      invariant forall k :: i <= k < |a| ==> rst[k] == (choice && sum[k])
    {
      rst := rst[i := a[i] != rst[i]];
    }
    return Ok(rst);
  }

  /** Column i of a list of batched BitStrings: the batches of bit i. */
  function BitColumn(others: seq<seq<seq<bool>>>, i: nat): seq<seq<bool>>
    requires forall j :: 0 <= j < |others| ==> i < |others[j]|
  {
    seq(|others|, j requires 0 <= j < |others| => others[j][i])
  }

  /** batchingWith: every other string must have this string's length;
      bit i of the result batches bit i of this string with bit i of each
      other string, in order. */
  method BatchingWith(data: seq<seq<bool>>, others: seq<seq<seq<bool>>>) returns (r: Result<seq<seq<bool>>>)
    ensures r.Err? <==> exists j :: 0 <= j < |others| && |others[j]| != |data|
    ensures r.Ok? ==> (|r.value| == |data| &&
      forall i :: 0 <= i < |data| ==> r.value[i] == data[i] + Concat(BitColumn(others, i)))
  {
    for j := 0 to |others|
      invariant forall k :: 0 <= k < j ==> |others[k]| == |data|
    {
      if |others[j]| != |data| {
        return Err(RuntimeError);
      }
    }
    var rst := [];
    for i := 0 to |data|
      invariant |rst| == i
      invariant forall k :: 0 <= k < i ==> rst[k] == data[k] + Concat(BitColumn(others, k))
    {
      var bits := [];
      for j := 0 to |others|
        invariant bits == BitColumn(others[..j], i)
      {
        assert BitColumn(others[..j + 1], i) == bits + [others[j][i]];
        bits := bits + [others[j][i]];
      }
      assert others[..|others|] == others;
      rst := rst + [data[i] + Concat(bits)];
    }
    return Ok(rst);
  }
}
