/** The edit-distance example (example/edit_distance/EditDistanceCalculator_impl.h).
    Both strings are fixed-width AsciiStrings of width N; the table has
    (N + 1) x (N + 1) cells and masks out the cells past each string's
    private size, so that the last cell holds the weighted Levenshtein
    distance of the two texts.  All values are plaintext integers; the
    32-bit secret integers of the source are not wrapped here. */
module EditDistance {
  import opened Common
  import opened AsciiStrings

  /** `a.mux(c, b)` of the frontend: `b` when `c` holds, otherwise `a`. */
  function Mux(a: int, c: bool, b: int): int
  {
    if c then b else a
  }

  /** The same choice on whole strings. */
  function MuxText(a: seq<Char8>, c: bool, b: seq<Char8>): seq<Char8>
  {
    if c then b else a
  }

  function Min(a: int, b: int): int
  {
    if a <= b then a else b
  }

  /** The substitution cost as the calculator computes it: the two 8-bit
      differences are formed in signed 8-bit arithmetic and the
      non-negative one is picked, then widened to 32 bits. */
  function AsciiDist(w: Char8, g: Char8): int
  {
    Mux(WrapS(w - g, 8), w < g, WrapS(g - w, 8))
  }

  /** The intended substitution cost: the distance of the two character codes. */
  function SubstitutionCost(w: int, g: int): (r: nat)
    ensures r == w - g || r == g - w
    ensures r == 0 <==> w == g
  {
    if w < g then g - w else w - g
  }

  predicate IsAscii(c: int)
  {
    0 <= c < 128
  }

  lemma AsciiDistIsSubstitutionCost(w: Char8, g: Char8)
    requires IsAscii(w) && IsAscii(g)
    ensures AsciiDist(w, g) == SubstitutionCost(w, g)
  {
    assert Pow2(8) == 256 && Pow2(7) == 128;
  }

  /** A non-ASCII byte (0xC3, the first byte of a UTF-8 'é') against 'z':
      the 8-bit difference wraps and the cost comes out negative. */
  lemma AsciiDistWrapsOnNonAscii()
    ensures AsciiDist(-61, 'z' as int) == -73
    ensures SubstitutionCost(-61, 'z' as int) == 183
  {
    assert Pow2(8) == 256 && Pow2(7) == 128;
  }

  /** Reference definition: cell (i, j) is the cheapest way to match the
      first i characters of `w` with the first j characters of `g`, where
      advancing through `w` alone costs `ins`, through `g` alone costs
      `del`, and through both costs the substitution cost. */
  function Classic(w: seq<int>, g: seq<int>, ins: int, del: int, i: nat, j: nat): int
    requires i <= |w| && j <= |g|
    decreases i + j
  {
    if i == 0 then j * del
    else if j == 0 then i * ins
    else Min(Min(Classic(w, g, ins, del, i - 1, j - 1) + SubstitutionCost(w[i - 1], g[j - 1]),
                 Classic(w, g, ins, del, i - 1, j) + ins),
             Classic(w, g, ins, del, i, j - 1) + del)
  }

  /** The weighted edit distance of two texts. */
  function Distance(w: seq<int>, g: seq<int>, ins: int, del: int): int
  {
    Classic(w, g, ins, del, |w|, |g|)
  }

  /** One interior cell of the calculator's table from its three
      neighbours: the minimum of the three moves when both positions are
      inside the strings; otherwise a copy of the upper neighbour (word
      exhausted), of the left neighbour (guess exhausted) or of the
      diagonal one (both exhausted). */
  function CellStep(diag: int, up: int, left: int, cost: int, inWord: bool, inGuess: bool, ins: int, del: int): int
  {
    var minSol := Min(Min(diag + cost, up + ins), left + del);
    Mux(Mux(diag, inWord, left), inGuess, Mux(up, inWord && inGuess, minSol))
  }

  /** The calculator's table cell (i, j), as the source fills it:
      wn and gn are the private sizes of the two strings. */
  function Cell(w: seq<Char8>, g: seq<Char8>, wn: nat, gn: nat, ins: int, del: int, i: nat, j: nat): int
    requires i <= |w| && j <= |g|
    decreases i + j
  {
    if i == 0 && j == 0 then 0
    else if i == 0 then Cell(w, g, wn, gn, ins, del, 0, j - 1) + Mux(0, j - 1 < gn, del)
    else if j == 0 then Cell(w, g, wn, gn, ins, del, i - 1, 0) + Mux(0, i - 1 < wn, ins)
    else CellStep(Cell(w, g, wn, gn, ins, del, i - 1, j - 1), Cell(w, g, wn, gn, ins, del, i - 1, j),
                  Cell(w, g, wn, gn, ins, del, i, j - 1), AsciiDist(w[i - 1], g[j - 1]),
                  i - 1 < wn, j - 1 < gn, ins, del)
  }

  function MinNat(a: nat, b: nat): nat
  {
    if a <= b then a else b
  }

  predicate AsciiPrefix(s: seq<Char8>, n: nat)
  {
    n <= |s| && forall k :: 0 <= k < n ==> IsAscii(s[k])
  }

  lemma {:induction false} CellFirstRow(w: seq<Char8>, g: seq<Char8>, wn: nat, gn: nat, ins: int, del: int, j: nat)
    requires j <= |g|
    ensures Cell(w, g, wn, gn, ins, del, 0, j) == MinNat(j, gn) * del
    decreases j
  {
    if j > 0 {
      CellFirstRow(w, g, wn, gn, ins, del, j - 1);
      if j - 1 < gn {
        assert MinNat(j, gn) * del == MinNat(j - 1, gn) * del + del;
      }
    }
  }

  lemma {:induction false} CellFirstColumn(w: seq<Char8>, g: seq<Char8>, wn: nat, gn: nat, ins: int, del: int, i: nat)
    requires i <= |w|
    ensures Cell(w, g, wn, gn, ins, del, i, 0) == MinNat(i, wn) * ins
    decreases i
  {
    if i > 0 {
      CellFirstColumn(w, g, wn, gn, ins, del, i - 1);
      if i - 1 < wn {
        assert MinNat(i, wn) * ins == MinNat(i - 1, wn) * ins + ins;
      }
    }
  }

  /** Every cell of the masked table is the reference cell of the clipped
      indices: row 0 and column 0 stop growing past the sizes, and an
      out-of-bounds cell copies its in-bounds neighbour. */
  lemma {:induction false} CellIsClassic(w: seq<Char8>, g: seq<Char8>, wn: nat, gn: nat, ins: int, del: int, i: nat, j: nat)
    requires i <= |w| && j <= |g|
    requires AsciiPrefix(w, wn) && AsciiPrefix(g, gn)
    ensures Cell(w, g, wn, gn, ins, del, i, j) == Classic(w, g, ins, del, MinNat(i, wn), MinNat(j, gn))
    decreases i + j
  {
    if i == 0 || j == 0 {
      CellIsClassicEdge(w, g, wn, gn, ins, del, i, j);
    } else {
      CellIsClassic(w, g, wn, gn, ins, del, i - 1, j - 1);
      assert Cell(w, g, wn, gn, ins, del, i - 1, j - 1) == Classic(w, g, ins, del, MinNat(i - 1, wn), MinNat(j - 1, gn));
      CellIsClassic(w, g, wn, gn, ins, del, i - 1, j);
      assert Cell(w, g, wn, gn, ins, del, i - 1, j) == Classic(w, g, ins, del, MinNat(i - 1, wn), MinNat(j, gn));
      CellIsClassic(w, g, wn, gn, ins, del, i, j - 1);
      assert Cell(w, g, wn, gn, ins, del, i, j - 1) == Classic(w, g, ins, del, MinNat(i, wn), MinNat(j - 1, gn));
      CellIsClassicStep(w, g, wn, gn, ins, del, i, j);
    }
  }

  lemma CellIsClassicEdge(w: seq<Char8>, g: seq<Char8>, wn: nat, gn: nat, ins: int, del: int, i: nat, j: nat)
    requires i <= |w| && j <= |g| && (i == 0 || j == 0)
    ensures Cell(w, g, wn, gn, ins, del, i, j) == Classic(w, g, ins, del, MinNat(i, wn), MinNat(j, gn))
  {
    if i == 0 {
      CellFirstRow(w, g, wn, gn, ins, del, j);
    } else {
      CellFirstColumn(w, g, wn, gn, ins, del, i);
    }
  }

  lemma CellIsClassicStep(w: seq<Char8>, g: seq<Char8>, wn: nat, gn: nat, ins: int, del: int, i: nat, j: nat)
    requires 0 < i <= |w| && 0 < j <= |g|
    requires AsciiPrefix(w, wn) && AsciiPrefix(g, gn)
    requires Cell(w, g, wn, gn, ins, del, i - 1, j - 1) == Classic(w, g, ins, del, MinNat(i - 1, wn), MinNat(j - 1, gn))
    requires Cell(w, g, wn, gn, ins, del, i - 1, j) == Classic(w, g, ins, del, MinNat(i - 1, wn), MinNat(j, gn))
    requires Cell(w, g, wn, gn, ins, del, i, j - 1) == Classic(w, g, ins, del, MinNat(i, wn), MinNat(j - 1, gn))
    ensures Cell(w, g, wn, gn, ins, del, i, j) == Classic(w, g, ins, del, MinNat(i, wn), MinNat(j, gn))
  {
    CellUnfold(w, g, wn, gn, ins, del, i, j);
    if i - 1 < wn && j - 1 < gn {
      CellIsClassicInside(w, g, wn, gn, ins, del, i, j);
    } else if i - 1 < wn {
      assert MinNat(j, gn) == MinNat(j - 1, gn);
    } else if j - 1 < gn {
      assert MinNat(i, wn) == MinNat(i - 1, wn);
    } else {
      assert MinNat(i, wn) == MinNat(i - 1, wn) && MinNat(j, gn) == MinNat(j - 1, gn);
    }
  }

  lemma CellIsClassicInside(w: seq<Char8>, g: seq<Char8>, wn: nat, gn: nat, ins: int, del: int, i: nat, j: nat)
    requires 0 < i <= |w| && 0 < j <= |g| && i - 1 < wn && j - 1 < gn
    requires AsciiPrefix(w, wn) && AsciiPrefix(g, gn)
    requires Cell(w, g, wn, gn, ins, del, i - 1, j - 1) == Classic(w, g, ins, del, i - 1, j - 1)
    requires Cell(w, g, wn, gn, ins, del, i - 1, j) == Classic(w, g, ins, del, i - 1, j)
    requires Cell(w, g, wn, gn, ins, del, i, j - 1) == Classic(w, g, ins, del, i, j - 1)
    ensures Cell(w, g, wn, gn, ins, del, i, j) == Classic(w, g, ins, del, i, j)
  {
    CellUnfold(w, g, wn, gn, ins, del, i, j);
    AsciiDistIsSubstitutionCost(w[i - 1], g[j - 1]);
    ClassicUnfold(w, g, ins, del, i, j);
  }

  lemma ClassicUnfold(w: seq<int>, g: seq<int>, ins: int, del: int, i: nat, j: nat)
    requires 0 < i <= |w| && 0 < j <= |g|
    ensures Classic(w, g, ins, del, i, j) ==
      Min(Min(Classic(w, g, ins, del, i - 1, j - 1) + SubstitutionCost(w[i - 1], g[j - 1]),
              Classic(w, g, ins, del, i - 1, j) + ins),
          Classic(w, g, ins, del, i, j - 1) + del)
  {
  }

  lemma CellUnfold(w: seq<Char8>, g: seq<Char8>, wn: nat, gn: nat, ins: int, del: int, i: nat, j: nat)
    requires 0 < i <= |w| && 0 < j <= |g|
    ensures Cell(w, g, wn, gn, ins, del, i, j) ==
      CellStep(Cell(w, g, wn, gn, ins, del, i - 1, j - 1), Cell(w, g, wn, gn, ins, del, i - 1, j),
               Cell(w, g, wn, gn, ins, del, i, j - 1), AsciiDist(w[i - 1], g[j - 1]), i - 1 < wn, j - 1 < gn, ins, del)
  {
  }

  /** The reference table only reads characters inside the prefixes. */
  lemma {:induction false} ClassicPrefix(w: seq<int>, g: seq<int>, a: nat, b: nat, ins: int, del: int, i: nat, j: nat)
    requires i <= a <= |w| && j <= b <= |g|
    ensures Classic(w, g, ins, del, i, j) == Classic(w[..a], g[..b], ins, del, i, j)
    decreases i + j
  {
    if i == 0 || j == 0 {
      ClassicPrefixEdge(w, g, a, b, ins, del, i, j);
    } else {
      ClassicPrefix(w, g, a, b, ins, del, i - 1, j - 1);
      ClassicPrefix(w, g, a, b, ins, del, i - 1, j);
      ClassicPrefix(w, g, a, b, ins, del, i, j - 1);
      ClassicPrefixStep(w, g, a, b, ins, del, i, j);
    }
  }

  lemma ClassicPrefixEdge(w: seq<int>, g: seq<int>, a: nat, b: nat, ins: int, del: int, i: nat, j: nat)
    requires i <= a <= |w| && j <= b <= |g| && (i == 0 || j == 0)
    ensures Classic(w, g, ins, del, i, j) == Classic(w[..a], g[..b], ins, del, i, j)
  {
  }

  lemma ClassicPrefixStep(w: seq<int>, g: seq<int>, a: nat, b: nat, ins: int, del: int, i: nat, j: nat)
    requires 0 < i <= a <= |w| && 0 < j <= b <= |g|
    requires Classic(w, g, ins, del, i - 1, j - 1) == Classic(w[..a], g[..b], ins, del, i - 1, j - 1)
    requires Classic(w, g, ins, del, i - 1, j) == Classic(w[..a], g[..b], ins, del, i - 1, j)
    requires Classic(w, g, ins, del, i, j - 1) == Classic(w[..a], g[..b], ins, del, i, j - 1)
    ensures Classic(w, g, ins, del, i, j) == Classic(w[..a], g[..b], ins, del, i, j)
  {
    ClassicUnfold(w, g, ins, del, i, j);
    ClassicUnfold(w[..a], g[..b], ins, del, i, j);
    assert w[..a][i - 1] == w[i - 1] && g[..b][j - 1] == g[j - 1];
  }

  /** The last cell of the table built from two null-free ASCII texts is
      their weighted edit distance. */
  lemma EditDistanceCorrect(word: seq<Char8>, guess: seq<Char8>, n: nat, ins: int, del: int)
    requires |word| <= n && |guess| <= n && n > 0
    requires NullFree(word) && NullFree(guess)
    requires forall k :: 0 <= k < |word| ==> IsAscii(word[k])
    requires forall k :: 0 <= k < |guess| ==> IsAscii(guess[k])
    ensures PrivateSize(Padded(word, n)) == |word| && PrivateSize(Padded(guess, n)) == |guess|
    ensures Cell(Padded(word, n), Padded(guess, n), |word|, |guess|, ins, del, n, n) == Distance(word, guess, ins, del)
  {
    PaddedRoundTrip(word, n);
    PaddedRoundTrip(guess, n);
    var w, g := Padded(word, n), Padded(guess, n);
    CellIsClassic(w, g, |word|, |guess|, ins, del, n, n);
    ClassicPrefix(w, g, |word|, |guess|, ins, del, |word|, |guess|);
    assert w[..|word|] == word && g[..|guess|] == guess;
  }

  /** Row 0 and column 0 of the table: prefix sums of the deletion cost
      over the guess's positions and of the insertion cost over the
      word's positions, counting only in-bounds positions. */
  method FillEdges(d: array2<int>, word: seq<Char8>, guess: seq<Char8>, wn: nat, gn: nat, ins: int, del: int,
                   inBoundsWord: seq<bool>, inBoundsGuess: seq<bool>)
    requires d.Length0 == d.Length1 == |word| + 1 && |guess| == |word|
    requires |inBoundsWord| == |inBoundsGuess| == |word|
    requires forall k :: 0 <= k < |word| ==> inBoundsWord[k] == (k < wn) && inBoundsGuess[k] == (k < gn)
    modifies d
    ensures forall k {:trigger d[0, k]} :: 0 <= k <= |word| ==> d[0, k] == Cell(word, guess, wn, gn, ins, del, 0, k)
    ensures forall k {:trigger d[k, 0]} :: 0 <= k <= |word| ==> d[k, 0] == Cell(word, guess, wn, gn, ins, del, k, 0)
  {
    var n := |word|;
    d[0, 0] := 0;
    for i := 1 to n + 1
      invariant forall k {:trigger d[0, k]} :: 0 <= k < i ==> d[0, k] == Cell(word, guess, wn, gn, ins, del, 0, k)
      invariant forall k {:trigger d[k, 0]} :: 0 <= k < i ==> d[k, 0] == Cell(word, guess, wn, gn, ins, del, k, 0)
    {
      d[0, i] := d[0, i - 1] + Mux(0, inBoundsGuess[i - 1], del);
      d[i, 0] := d[i - 1, 0] + Mux(0, inBoundsWord[i - 1], ins);
    }
  }

  /** One row i >= 1 of the table, left to right; every other row is kept. */
  method FillRow(d: array2<int>, i: nat, word: seq<Char8>, guess: seq<Char8>, wn: nat, gn: nat, ins: int, del: int,
                 inBoundsWord: seq<bool>, inBoundsGuess: seq<bool>)
    requires d.Length0 == d.Length1 == |word| + 1 && |guess| == |word|
    requires 1 <= i <= |word|
    requires |inBoundsWord| == |inBoundsGuess| == |word|
    requires forall k :: 0 <= k < |word| ==> inBoundsWord[k] == (k < wn) && inBoundsGuess[k] == (k < gn)
    requires forall a, b {:trigger d[a, b]} :: 0 <= a < i && 0 <= b <= |word| ==> d[a, b] == Cell(word, guess, wn, gn, ins, del, a, b)
    requires d[i, 0] == Cell(word, guess, wn, gn, ins, del, i, 0)
    modifies d
    ensures forall b {:trigger d[i, b]} :: 0 <= b <= |word| ==> d[i, b] == Cell(word, guess, wn, gn, ins, del, i, b)
    ensures forall a, b :: 0 <= a <= |word| && 0 <= b <= |word| && a != i ==> d[a, b] == old(d[a, b])
  {
    var n := |word|;
    for j := 1 to n + 1
      invariant forall b {:trigger d[i, b]} :: 0 <= b < j ==> d[i, b] == Cell(word, guess, wn, gn, ins, del, i, b)
      invariant forall a, b :: 0 <= a <= n && 0 <= b <= n && a != i ==> d[a, b] == old(d[a, b])
    {
      var asciiDist := AsciiDist(word[i - 1], guess[j - 1]);
      var replaceSol := d[i - 1, j - 1] + asciiDist;
      var insertSol := d[i - 1, j] + ins;
      var deleteSol := d[i, j - 1] + del;
      var minSol := Min(Min(replaceSol, insertSol), deleteSol);
      CellUnfold(word, guess, wn, gn, ins, del, i, j);
      d[i, j] := Mux(Mux(d[i - 1, j - 1], inBoundsWord[i - 1], d[i, j - 1]),
                     inBoundsGuess[j - 1],
                     Mux(d[i - 1, j], inBoundsWord[i - 1] && inBoundsGuess[j - 1], minSol));
    }
  }

  /** calculateEditDistances: the bounds flags, row 0 and column 0, then
      the table row by row; the result is the last cell. */
  method CalculateEditDistance(word: seq<Char8>, guess: seq<Char8>, n: nat, ins: int, del: int) returns (distance: int)
    requires |word| == n && |guess| == n && n > 0
    ensures distance == Cell(word, guess, PrivateSize(word), PrivateSize(guess), ins, del, n, n)
  {
    var wn := PrivateSize(word);
    var gn := PrivateSize(guess);
    var inBoundsWord: seq<bool> := [];
    var inBoundsGuess: seq<bool> := [];
    for i := 0 to n
      invariant |inBoundsWord| == i && |inBoundsGuess| == i
      invariant forall k :: 0 <= k < i ==> inBoundsWord[k] == (k < wn) && inBoundsGuess[k] == (k < gn)
    {
      inBoundsWord := inBoundsWord + [i < wn];
      inBoundsGuess := inBoundsGuess + [i < gn];
    }
    var d := new int[n + 1, n + 1];
    FillEdges(d, word, guess, wn, gn, ins, del, inBoundsWord, inBoundsGuess);
    for i := 1 to n + 1
      invariant forall a, b {:trigger d[a, b]} :: 0 <= a < i && 0 <= b <= n ==> d[a, b] == Cell(word, guess, wn, gn, ins, del, a, b)
      invariant forall a {:trigger d[a, 0]} :: i <= a <= n ==> d[a, 0] == Cell(word, guess, wn, gn, ins, del, a, 0)
    {
      FillRow(d, i, word, guess, wn, gn, ins, del, inBoundsWord, inBoundsGuess);
    }
    distance := d[n, n];
  }

  /** The half message: character i survives when 2i + 1 < the message's
      private size, every other position becomes 0. */
  function HalfMessage(msg: seq<Char8>): (h: seq<Char8>)
    requires |msg| > 0
    ensures |h| == |msg|
  {
    seq(|msg|, i requires 0 <= i < |msg| => Mux(0, 2 * i + 1 < PrivateSize(msg), msg[i]))
  }

  /** threshold + threshold on the 32-bit public threshold: the sum
      wraps to a negative number once the threshold reaches 2^30. */
  function DoubledThreshold(threshold: int): (d: int)
    requires Int32Min <= threshold <= Int32Max
    ensures Int32Min <= d <= Int32Max
    ensures -0x4000_0000 <= threshold < 0x4000_0000 ==> d == threshold + threshold
    ensures threshold >= 0x4000_0000 ==> d < 0
  {
    WrapS32Facts(threshold + threshold);
    WrapS(threshold + threshold, 32)
  }

  const Int32Min: int := -0x8000_0000
  const Int32Max: int := 0x7fff_ffff

  lemma WrapS32Facts(x: int)
    requires 2 * Int32Min <= x <= 2 * Int32Max
    ensures Int32Min <= x <= Int32Max ==> WrapS(x, 32) == x
    ensures x > Int32Max ==> WrapS(x, 32) == x - 0x1_0000_0000
    ensures x < Int32Min ==> WrapS(x, 32) == x + 0x1_0000_0000
  {
    Pow2Natives();
    assert Pow2(32) == 2 * Pow2(31);
  }

  /** calculateMessages: the whole message below the threshold, the half
      message up to twice the threshold (a 32-bit sum), the empty string
      beyond it. */
  method CalculateMessage(distance: int, threshold: int, msg: seq<Char8>) returns (r: seq<Char8>)
    requires |msg| > 0 && Int32Min <= threshold <= Int32Max
    ensures |r| == |msg|
    ensures distance < threshold ==> r == msg
    ensures threshold <= distance <= DoubledThreshold(threshold) ==>
      forall i :: 0 <= i < |msg| ==> r[i] == if 2 * i + 1 < PrivateSize(msg) then msg[i] else 0
    ensures distance >= threshold && distance > DoubledThreshold(threshold) ==> r == Zeros(|msg|)
  {
    var messageLength := PrivateSize(msg);
    var emptyMessage := Zeros(|msg|);
    var halfMessage: seq<Char8> := [];
    for i := 0 to |msg|
      invariant halfMessage == HalfMessage(msg)[..i]
    {
      halfMessage := halfMessage + [Mux(0, i + i + 1 < messageLength, msg[i])];
    }
    r := MuxText(MuxText(emptyMessage, distance <= DoubledThreshold(threshold), halfMessage), distance < threshold, msg);
  }

  /** Read back as text, the half message of a null-free message is its
      first |s| / 2 characters, the policy of the data generator. */
  lemma {:induction false} HalfMessageText(s: seq<Char8>, n: nat)
    requires NullFree(s) && |s| <= n && n > 0
    ensures NonZero(HalfMessage(Padded(s, n))) == s[..|s| / 2]
  {
    PaddedRoundTrip(s, n);
    var h := HalfMessage(Padded(s, n));
    assert h == Padded(s[..|s| / 2], n);
    PaddedRoundTrip(s[..|s| / 2], n);
  }

  /** The three outcomes of the message rule, read back as text. */
  lemma ReceiverMessageText(distance: int, threshold: int, s: seq<Char8>, n: nat, r: seq<Char8>)
    requires NullFree(s) && |s| <= n && n > 0 && |r| == n && Int32Min <= threshold <= Int32Max
    requires distance < threshold ==> r == Padded(s, n)
    requires threshold <= distance <= DoubledThreshold(threshold) ==> r == HalfMessage(Padded(s, n))
    requires distance >= threshold && distance > DoubledThreshold(threshold) ==> r == Zeros(n)
    ensures distance < threshold ==> NonZero(r) == s
    ensures threshold <= distance <= DoubledThreshold(threshold) ==> NonZero(r) == s[..|s| / 2]
    ensures distance >= threshold && distance > DoubledThreshold(threshold) ==> NonZero(r) == []
  {
    PaddedRoundTrip(s, n);
    HalfMessageText(s, n);
    NonZeroAppendZeros([], n);
    assert [] + Zeros(n) == Zeros(n);
  }

  /** Properties of the reference distance with non-negative costs. */
  lemma {:induction false} ClassicNonNegative(w: seq<int>, g: seq<int>, ins: int, del: int, i: nat, j: nat)
    requires ins >= 0 && del >= 0 && i <= |w| && j <= |g|
    ensures Classic(w, g, ins, del, i, j) >= 0
    decreases i + j
  {
    if i == 0 {
      assert j * del >= 0;
    } else if j == 0 {
      assert i * ins >= 0;
    } else {
      ClassicNonNegative(w, g, ins, del, i - 1, j - 1);
      ClassicNonNegative(w, g, ins, del, i - 1, j);
      ClassicNonNegative(w, g, ins, del, i, j - 1);
      assert SubstitutionCost(w[i - 1], g[j - 1]) >= 0;
    }
  }

  lemma {:induction false} ClassicDiagonalZero(w: seq<int>, ins: int, del: int, i: nat)
    requires ins >= 0 && del >= 0 && i <= |w|
    ensures Classic(w, w, ins, del, i, i) == 0
    decreases i
  {
    if i > 0 {
      ClassicDiagonalZero(w, ins, del, i - 1);
      ClassicNonNegative(w, w, ins, del, i - 1, i);
      ClassicNonNegative(w, w, ins, del, i, i - 1);
    }
  }

  /** Identical texts are at distance 0; a text against the empty text
      costs one insertion or one deletion per character. */
  lemma DistanceBasics(a: seq<int>, ins: int, del: int)
    requires ins >= 0 && del >= 0
    ensures Distance(a, a, ins, del) == 0
    ensures Distance(a, [], ins, del) == |a| * ins
    ensures Distance([], a, ins, del) == |a| * del
    ensures Distance(a, a, ins, del) <= Distance(a, [], ins, del)
  {
    ClassicDiagonalZero(a, ins, del, |a|);
  }

  function SubstitutionSum(w: seq<int>, g: seq<int>, i: nat): int
    requires i <= |w| && i <= |g|
  {
    if i == 0 then 0 else SubstitutionSum(w, g, i - 1) + SubstitutionCost(w[i - 1], g[i - 1])
  }

  /** Substituting position by position is always an option. */
  lemma {:induction false} DistanceAtMostSubstitutions(w: seq<int>, g: seq<int>, ins: int, del: int, i: nat)
    requires i <= |w| && i <= |g|
    ensures Classic(w, g, ins, del, i, i) <= SubstitutionSum(w, g, i)
    decreases i
  {
    if i > 0 {
      DistanceAtMostSubstitutions(w, g, ins, del, i - 1);
    }
  }

  /** Reference values: the distance table of "thank" and "think"
      with unit costs, then with insertion 30 and deletion 35, and of
      "trail" and "toil" with insertion 30 and deletion 35. */
  lemma ThankThinkUnitCosts()
    ensures Distance([116,104,97,110,107], [116,104,105,110,107], 1, 1) == 2
  {
    var w, g := [116,104,97,110,107], [116,104,105,110,107];
    assert Classic(w, g, 1, 1, 1, 1) == 0;
    assert Classic(w, g, 1, 1, 1, 2) == 1;
    assert Classic(w, g, 1, 1, 1, 3) == 2;
    assert Classic(w, g, 1, 1, 1, 4) == 3;
    assert Classic(w, g, 1, 1, 1, 5) == 4;
    assert Classic(w, g, 1, 1, 2, 1) == 1;
    assert Classic(w, g, 1, 1, 2, 2) == 0;
    assert Classic(w, g, 1, 1, 2, 3) == 1;
    assert Classic(w, g, 1, 1, 2, 4) == 2;
    assert Classic(w, g, 1, 1, 2, 5) == 3;
    assert Classic(w, g, 1, 1, 3, 1) == 2;
    assert Classic(w, g, 1, 1, 3, 2) == 1;
    assert Classic(w, g, 1, 1, 3, 3) == 2;
    assert Classic(w, g, 1, 1, 3, 4) == 3;
    assert Classic(w, g, 1, 1, 3, 5) == 4;
    assert Classic(w, g, 1, 1, 4, 1) == 3;
    assert Classic(w, g, 1, 1, 4, 2) == 2;
    assert Classic(w, g, 1, 1, 4, 3) == 3;
    assert Classic(w, g, 1, 1, 4, 4) == 2;
    assert Classic(w, g, 1, 1, 4, 5) == 3;
    assert Classic(w, g, 1, 1, 5, 1) == 4;
    assert Classic(w, g, 1, 1, 5, 2) == 3;
    assert Classic(w, g, 1, 1, 5, 3) == 4;
    assert Classic(w, g, 1, 1, 5, 4) == 3;
    assert Classic(w, g, 1, 1, 5, 5) == 2;
  }
  lemma ThankThink()
    ensures Distance([116,104,97,110,107], [116,104,105,110,107], 30, 35) == 8
  {
    var w, g := [116,104,97,110,107], [116,104,105,110,107];
    assert Classic(w, g, 30, 35, 1, 1) == 0;
    assert Classic(w, g, 30, 35, 1, 2) == 35;
    assert Classic(w, g, 30, 35, 1, 3) == 70;
    assert Classic(w, g, 30, 35, 1, 4) == 105;
    assert Classic(w, g, 30, 35, 1, 5) == 140;
    assert Classic(w, g, 30, 35, 2, 1) == 30;
    assert Classic(w, g, 30, 35, 2, 2) == 0;
    assert Classic(w, g, 30, 35, 2, 3) == 35;
    assert Classic(w, g, 30, 35, 2, 4) == 70;
    assert Classic(w, g, 30, 35, 2, 5) == 105;
    assert Classic(w, g, 30, 35, 3, 1) == 60;
    assert Classic(w, g, 30, 35, 3, 2) == 30;
    assert Classic(w, g, 30, 35, 3, 3) == 8;
    assert Classic(w, g, 30, 35, 3, 4) == 43;
    assert Classic(w, g, 30, 35, 3, 5) == 78;
    assert Classic(w, g, 30, 35, 4, 1) == 90;
    assert Classic(w, g, 30, 35, 4, 2) == 60;
    assert Classic(w, g, 30, 35, 4, 3) == 35;
    assert Classic(w, g, 30, 35, 4, 4) == 8;
    assert Classic(w, g, 30, 35, 4, 5) == 43;
    assert Classic(w, g, 30, 35, 5, 1) == 120;
    assert Classic(w, g, 30, 35, 5, 2) == 90;
    assert Classic(w, g, 30, 35, 5, 3) == 62;
    assert Classic(w, g, 30, 35, 5, 4) == 38;
    assert Classic(w, g, 30, 35, 5, 5) == 8;
  }
  lemma TrailToil()
    ensures Distance([116,114,97,105,108], [116,111,105,108], 30, 35) == 33
  {
    var w, g := [116,114,97,105,108], [116,111,105,108];
    assert Classic(w, g, 30, 35, 1, 1) == 0;
    assert Classic(w, g, 30, 35, 1, 2) == 35;
    assert Classic(w, g, 30, 35, 1, 3) == 70;
    assert Classic(w, g, 30, 35, 1, 4) == 105;
    assert Classic(w, g, 30, 35, 2, 1) == 30;
    assert Classic(w, g, 30, 35, 2, 2) == 3;
    assert Classic(w, g, 30, 35, 2, 3) == 38;
    assert Classic(w, g, 30, 35, 2, 4) == 73;
    assert Classic(w, g, 30, 35, 3, 1) == 60;
    assert Classic(w, g, 30, 35, 3, 2) == 33;
    assert Classic(w, g, 30, 35, 3, 3) == 11;
    assert Classic(w, g, 30, 35, 3, 4) == 46;
    assert Classic(w, g, 30, 35, 4, 1) == 90;
    assert Classic(w, g, 30, 35, 4, 2) == 63;
    assert Classic(w, g, 30, 35, 4, 3) == 33;
    assert Classic(w, g, 30, 35, 4, 4) == 14;
    assert Classic(w, g, 30, 35, 5, 1) == 120;
    assert Classic(w, g, 30, 35, 5, 2) == 93;
    assert Classic(w, g, 30, 35, 5, 3) == 63;
    assert Classic(w, g, 30, 35, 5, 4) == 33;
  }
}
