/** Fixed-width strings of the edit-distance example
    (example/edit_distance/AsciiString_impl.h).  A string holds exactly
    maxWidth signed 8-bit characters; positions past the text are 0.  The
    public constructor and openToParty record the string's length
    (knownSize); every other operation leaves it unrecorded (None).  Only the plaintext values are modelled: the
    secret-sharing of each character is left to the scheduler model. */
module AsciiStrings {
  import opened Common

  /** A C++ `char`: a signed 8-bit value. */
  type Char8 = x: int | -128 <= x < 128

  datatype AsciiString = AsciiString(data: seq<Char8>, isSecret: bool, knownSize: Option<nat>)

  /** A batch of strings, stored character by character as the source
      does: columns[i][j] is character i of string j. */
  datatype AsciiBatch = AsciiBatch(columns: seq<seq<Char8>>, isSecret: bool, knownSizes: Option<seq<nat>>)

  predicate NullFree(s: seq<Char8>)
  {
    forall i :: 0 <= i < |s| ==> s[i] != 0
  }

  function Zeros(n: nat): (z: seq<Char8>)
    ensures |z| == n && forall i :: 0 <= i < n ==> z[i] == 0
  {
    seq(n, _ => 0)
  }

  /** The characters of `s` followed by zeros up to `width`. */
  function Padded(s: seq<Char8>, width: nat): seq<Char8>
    requires |s| <= width
  {
    s + Zeros(width - |s|)
  }

  lemma PaddedAt(s: seq<Char8>, width: nat, i: nat)
    requires |s| <= width && i < width
    ensures |Padded(s, width)| == width
    ensures Padded(s, width)[i] == if i < |s| then s[i] else 0
  {
  }

  /** The characters of `data` with every 0 dropped. */
  function NonZero(data: seq<Char8>): (r: seq<Char8>)
    ensures |r| <= |data| && NullFree(r)
  {
    if |data| == 0 then []
    else if data[|data| - 1] == 0 then NonZero(data[..|data| - 1])
    else NonZero(data[..|data| - 1]) + [data[|data| - 1]]
  }

  lemma {:induction false} NonZeroAppendZeros(s: seq<Char8>, n: nat)
    ensures NonZero(s + Zeros(n)) == NonZero(s)
    decreases n
  {
    if n > 0 {
      assert (s + Zeros(n))[..|s| + n - 1] == s + Zeros(n - 1);
      assert (s + Zeros(n))[|s| + n - 1] == 0;
      NonZeroAppendZeros(s, n - 1);
    } else {
      assert s + Zeros(n) == s;
    }
  }

  lemma {:induction false} NonZeroOfNullFree(s: seq<Char8>)
    requires NullFree(s)
    ensures NonZero(s) == s
    decreases |s|
  {
    if |s| > 0 {
      NonZeroOfNullFree(s[..|s| - 1]);
    }
  }

  /** The constructors' fill loop: the text, then zeros. */
  method Fill(s: seq<Char8>, maxWidth: nat) returns (data: seq<Char8>)
    requires |s| <= maxWidth
    ensures data == Padded(s, maxWidth)
  {
    data := [];
    var i := 0;
    while i < |s|
      invariant 0 <= i <= |s|
      invariant data == s[..i]
    {
      data := data + [s[i]];
      i := i + 1;
    }
    while i < maxWidth
      invariant |s| <= i <= maxWidth
      invariant data == s + Zeros(i - |s|)
    {
      data := data + [0];
      i := i + 1;
    }
  }

  /** Public constructor: throws when the text is wider than maxWidth. */
  method NewPublic(s: seq<Char8>, maxWidth: nat) returns (r: Result<AsciiString>)
    ensures r.Err? <==> |s| > maxWidth
    ensures r.Err? ==> r.kind == RuntimeError
    ensures r.Ok? ==> r.value.data == Padded(s, maxWidth) && !r.value.isSecret && r.value.knownSize == Some(|s|)
  {
    if |s| > maxWidth {
      return Err(RuntimeError);
    }
    var data := Fill(s, maxWidth);
    return Ok(AsciiString(data, false, Some(|s|)));
  }

  /** Secret constructor (the owning party's input): same check and
      padding, no known size. */
  method NewSecret(s: seq<Char8>, maxWidth: nat) returns (r: Result<AsciiString>)
    ensures r.Err? <==> |s| > maxWidth
    ensures r.Err? ==> r.kind == RuntimeError
    ensures r.Ok? ==> r.value.data == Padded(s, maxWidth) && r.value.isSecret && r.value.knownSize == None
  {
    if |s| > maxWidth {
      return Err(RuntimeError);
    }
    var data := Fill(s, maxWidth);
    return Ok(AsciiString(data, true, None));
  }

  /** Column i of a batch built from `strs`. */
  function PaddedColumn(strs: seq<seq<Char8>>, i: nat): (col: seq<Char8>)
    ensures |col| == |strs|
  {
    seq(|strs|, j requires 0 <= j < |strs| => if i < |strs[j]| then strs[j][i] else 0)
  }

  function Lengths(strs: seq<seq<Char8>>): (n: seq<nat>)
    ensures |n| == |strs| && forall j :: 0 <= j < |strs| ==> n[j] == |strs[j]|
  {
    seq(|strs|, j requires 0 <= j < |strs| => |strs[j]|)
  }

  /** Batch constructor: throws if any string is wider than maxWidth;
      otherwise column i holds character i of every string, 0 past its end. */
  method NewBatch(strs: seq<seq<Char8>>, maxWidth: nat, isPublic: bool) returns (r: Result<AsciiBatch>)
    ensures r.Err? <==> exists j :: 0 <= j < |strs| && |strs[j]| > maxWidth
    ensures r.Err? ==> r.kind == RuntimeError
    ensures r.Ok? ==> r.value.columns == PaddedColumns(strs, maxWidth)
    ensures r.Ok? ==> r.value.isSecret == !isPublic
    ensures r.Ok? ==> r.value.knownSizes == if isPublic then Some(Lengths(strs)) else None
  {
    var sizes: seq<nat> := [];
    var j := 0;
    while j < |strs|
      invariant 0 <= j <= |strs|
      invariant sizes == Lengths(strs[..j])
      invariant forall k :: 0 <= k < j ==> |strs[k]| <= maxWidth
    {
      if |strs[j]| > maxWidth {
        return Err(RuntimeError);
      }
      sizes := sizes + [|strs[j]|];
      j := j + 1;
    }
    assert strs[..j] == strs;
    var columns: seq<seq<Char8>> := [];
    var i := 0;
    while i < maxWidth
      invariant 0 <= i <= maxWidth
      invariant |columns| == i
      invariant forall k :: 0 <= k < i ==> columns[k] == PaddedColumn(strs, k)
    {
      var chars: seq<Char8> := [];
      j := 0;
      while j < |strs|
        invariant 0 <= j <= |strs|
        invariant chars == PaddedColumn(strs, i)[..j]
      {
        chars := chars + [if i < |strs[j]| then strs[j][i] else 0];
        j := j + 1;
      }
      columns := columns + [chars];
      i := i + 1;
    }
    return Ok(AsciiBatch(columns, !isPublic, if isPublic then Some(sizes) else None));
  }

  /** Index of the first 0 character, or the width when there is none. */
  method FirstZero(data: seq<Char8>) returns (k: nat)
    ensures k <= |data|
    ensures forall i :: 0 <= i < k ==> data[i] != 0
    ensures k < |data| ==> data[k] == 0
  {
    k := 0;
    while k < |data| && data[k] != 0
      invariant k <= |data|
      invariant forall i :: 0 <= i < k ==> data[i] != 0
    {
      k := k + 1;
    }
  }

  /** openToParty: the opened string keeps the characters and learns its
      size as the position of the first 0. */
  method OpenToParty(s: AsciiString) returns (r: AsciiString)
    requires s.isSecret
    ensures r.data == s.data && !r.isSecret && r.knownSize.Some?
    ensures r.knownSize.value <= |s.data|
    ensures forall i :: 0 <= i < r.knownSize.value ==> s.data[i] != 0
    ensures r.knownSize.value < |s.data| ==> s.data[r.knownSize.value] == 0
  {
    var k := FirstZero(s.data);
    r := AsciiString(s.data, false, Some(k));
  }

  /** getValue: the characters, with every 0 dropped. */
  method GetValue(s: AsciiString) returns (text: seq<Char8>)
    requires !s.isSecret
    ensures text == NonZero(s.data)
  {
    text := [];
    var i := 0;
    while i < |s.data|
      invariant 0 <= i <= |s.data|
      invariant text == NonZero(s.data[..i])
    {
      assert s.data[..i + 1][..i] == s.data[..i];
      if s.data[i] != 0 {
        text := text + [s.data[i]];
      }
      i := i + 1;
    }
    assert s.data[..i] == s.data;
  }

  /** Word j of a batch: character j of every column. */
  function Word(columns: seq<seq<Char8>>, j: nat): (w: seq<Char8>)
    requires forall i :: 0 <= i < |columns| ==> j < |columns[i]|
    ensures |w| == |columns|
  {
    seq(|columns|, i requires 0 <= i < |columns| => columns[i][j])
  }

  /** Batch getValue: string j collects the non-zero characters of word j. */
  method GetBatchValue(b: AsciiBatch, batchSize: nat) returns (texts: seq<seq<Char8>>)
    requires !b.isSecret
    requires forall i :: 0 <= i < |b.columns| ==> |b.columns[i]| == batchSize
    ensures |texts| == batchSize
    ensures forall j :: 0 <= j < batchSize ==> texts[j] == NonZero(Word(b.columns, j))
  {
    texts := seq(batchSize, _ => []);
    var i := 0;
    while i < |b.columns|
      invariant 0 <= i <= |b.columns|
      invariant |texts| == batchSize
      invariant forall j :: 0 <= j < batchSize ==> texts[j] == NonZero(Word(b.columns[..i], j))
    {
      var next := texts;
      var j := 0;
      while j < batchSize
        invariant 0 <= j <= batchSize && |next| == batchSize
        invariant forall k :: 0 <= k < j ==> next[k] == NonZero(Word(b.columns[..i + 1], k))
        invariant forall k :: j <= k < batchSize ==> next[k] == texts[k]
      {
        assert Word(b.columns[..i + 1], j)[..i] == Word(b.columns[..i], j);
        if b.columns[i][j] != 0 {
          next := next[j := texts[j] + [b.columns[i][j]]];
        }
        j := j + 1;
      }
      texts := next;
      i := i + 1;
    }
    assert b.columns[..i] == b.columns;
  }

  /** privateSize: the number of non-zero characters. */
  function PrivateSize(data: seq<Char8>): (n: nat)
    requires |data| > 0
    ensures n <= |data|
  {
    if |data| == 1 then (if data[0] == 0 then 0 else 1)
    else PrivateSize(data[..|data| - 1]) + (if data[|data| - 1] == 0 then 0 else 1)
  }

  lemma {:induction false} PrivateSizeIsNonZeroLength(data: seq<Char8>)
    requires |data| > 0
    ensures PrivateSize(data) == |NonZero(data)|
    decreases |data|
  {
    if |data| > 1 {
      PrivateSizeIsNonZeroLength(data[..|data| - 1]);
    } else {
      assert data[..0] == [];
    }
  }

  /** A string built from null-free text reads back that text, and its
      private size is the text's length. */
  lemma PaddedRoundTrip(s: seq<Char8>, width: nat)
    requires NullFree(s) && |s| <= width && width > 0
    ensures NonZero(Padded(s, width)) == s
    ensures PrivateSize(Padded(s, width)) == |s|
  {
    NonZeroAppendZeros(s, width - |s|);
    NonZeroOfNullFree(s);
    PrivateSizeIsNonZeroLength(Padded(s, width));
  }

  /** A batch built from null-free texts reads back those texts. */
  function PaddedColumns(strs: seq<seq<Char8>>, maxWidth: nat): (cols: seq<seq<Char8>>)
    ensures |cols| == maxWidth && forall i :: 0 <= i < maxWidth ==> cols[i] == PaddedColumn(strs, i)
  {
    seq(maxWidth, i requires 0 <= i => PaddedColumn(strs, i))
  }

  lemma BatchRoundTrip(strs: seq<seq<Char8>>, maxWidth: nat, j: nat)
    requires j < |strs| && NullFree(strs[j]) && |strs[j]| <= maxWidth
    ensures Word(PaddedColumns(strs, maxWidth), j) == Padded(strs[j], maxWidth)
    ensures NonZero(Word(PaddedColumns(strs, maxWidth), j)) == strs[j]
  {
    assert Word(PaddedColumns(strs, maxWidth), j) == Padded(strs[j], maxWidth);
    NonZeroAppendZeros(strs[j], maxWidth - |strs[j]|);
    NonZeroOfNullFree(strs[j]);
  }

  function ToUpperChar(c: Char8): Char8
  {
    c + (if 'a' as int <= c <= 'z' as int then 'A' as int - 'a' as int else 0)
  }

  /** toUpperCase: exactly the characters in ['a', 'z'] move by 'A' - 'a'. */
  function ToUpperCase(s: AsciiString): (r: AsciiString)
    ensures |r.data| == |s.data| && r.isSecret == s.isSecret && r.knownSize == None
    ensures forall i :: 0 <= i < |s.data| && 'a' as int <= s.data[i] <= 'z' as int ==>
      r.data[i] == s.data[i] - 32 && 'A' as int <= r.data[i] <= 'Z' as int
    ensures forall i :: 0 <= i < |s.data| && !('a' as int <= s.data[i] <= 'z' as int) ==>
      r.data[i] == s.data[i]
  {
    AsciiString(seq(|s.data|, i requires 0 <= i < |s.data| => ToUpperChar(s.data[i])), s.isSecret, None)
  }

  /** Upper-casing twice is upper-casing once, and it keeps the size. */
  lemma ToUpperCaseIdempotent(s: AsciiString)
    requires |s.data| > 0
    ensures ToUpperCase(ToUpperCase(s)) == ToUpperCase(s)
    ensures PrivateSize(ToUpperCase(s).data) == PrivateSize(s.data)
  {
    var u := ToUpperCase(s);
    assert ToUpperCase(u).data == u.data;
    ZeroPatternSize(s.data, u.data);
  }

  lemma {:induction false} ZeroPatternSize(a: seq<Char8>, b: seq<Char8>)
    requires |a| == |b| > 0
    requires forall i :: 0 <= i < |a| ==> (a[i] == 0 <==> b[i] == 0)
    ensures PrivateSize(a) == PrivateSize(b)
    decreases |a|
  {
    if |a| > 1 {
      ZeroPatternSize(a[..|a| - 1], b[..|b| - 1]);
    }
  }

  /** toLowerCase is not implemented: it always throws. */
  function ToLowerCase(s: AsciiString): (r: Result<AsciiString>)
    ensures r == Err(RuntimeError)
  {
    Err(RuntimeError)
  }

  /** concat is not implemented: it always throws. */
  function Concat(s: AsciiString, other: AsciiString): (r: Result<AsciiString>)
    ensures r == Err(RuntimeError)
  {
    Err(RuntimeError)
  }

  /** mux: character-wise choice, this string on 0 and `other` on 1.
      The result is secret when the string, the choice or the other string is. */
  function Mux(s: AsciiString, choice: bool, choiceIsSecret: bool, other: AsciiString): (r: AsciiString)
    requires |s.data| == |other.data|
    ensures |r.data| == |s.data| && r.knownSize == None
    ensures r.isSecret == (s.isSecret || choiceIsSecret || other.isSecret)
    ensures !choice ==> r.data == s.data
    ensures choice ==> r.data == other.data
  {
    AsciiString(seq(|s.data|, i requires 0 <= i < |s.data| => if choice then other.data[i] else s.data[i]),
                s.isSecret || choiceIsSecret || other.isSecret, None)
  }
}
