/** The counter-mode interface over the AES circuit: encrypt and decrypt
    check the sizes of their three bit vectors and then hand them to the
    implementation's encrypt_impl, which this module takes as a parameter
    (no implementation of it is part of this model). */
module AesCtr {
  import opened Common

  /** The expanded key holds 11 round keys of 16 bytes: 11 * 16 * 8 bits. */
  const ExpandedKeyWidth: nat := 1408

  /** The implementation's encrypt_impl(text, expandedKey, mask). */
  type EncryptImpl = (seq<bool>, seq<bool>, seq<bool>) -> seq<bool>

  /** The three checks shared by encrypt and decrypt, in their order; the
      result names the first that fails (all three are runtime_errors). */
  datatype SizeCheck = TextNotBlocks | KeyNotExpanded | MaskMismatch

  function FirstFailedCheck(text: seq<bool>, key: seq<bool>, mask: seq<bool>): (c: Option<SizeCheck>)
    ensures c == Some(TextNotBlocks) <==> |text| % 128 != 0
    ensures c == Some(KeyNotExpanded) <==> |text| % 128 == 0 && |key| != ExpandedKeyWidth
    ensures c == Some(MaskMismatch) <==> |text| % 128 == 0 && |key| == ExpandedKeyWidth && |text| != |mask|
    ensures c == None <==> |text| % 128 == 0 && |key| == ExpandedKeyWidth && |text| == |mask|
  {
    if |text| % 128 != 0 then Some(TextNotBlocks)
    else if |key| != ExpandedKeyWidth then Some(KeyNotExpanded)
    else if |text| != |mask| then Some(MaskMismatch)
    else None
  }

  /** encrypt: the checks, then encrypt_impl on the plaintext. */
  function Encrypt(impl: EncryptImpl, plaintext: seq<bool>, expandedEncKey: seq<bool>, mask: seq<bool>): (r: Result<seq<bool>>)
    ensures r.Err? <==> |plaintext| % 128 != 0 || |expandedEncKey| != ExpandedKeyWidth || |plaintext| != |mask|
    ensures r.Err? ==> r.kind == RuntimeError
    ensures r.Ok? ==> r.value == impl(plaintext, expandedEncKey, mask)
  {
    if FirstFailedCheck(plaintext, expandedEncKey, mask).Some? then Err(RuntimeError)
    else Ok(impl(plaintext, expandedEncKey, mask))
  }

  /** decrypt: the same checks on the ciphertext, then the same
      encrypt_impl (counter mode is its own inverse). */
  function Decrypt(impl: EncryptImpl, ciphertext: seq<bool>, expandedDecKey: seq<bool>, mask: seq<bool>): (r: Result<seq<bool>>)
    ensures r.Err? <==> |ciphertext| % 128 != 0 || |expandedDecKey| != ExpandedKeyWidth || |ciphertext| != |mask|
    ensures r.Err? ==> r.kind == RuntimeError
    ensures r.Ok? ==> r.value == impl(ciphertext, expandedDecKey, mask)
  {
    if FirstFailedCheck(ciphertext, expandedDecKey, mask).Some? then Err(RuntimeError)
    else Ok(impl(ciphertext, expandedDecKey, mask))
  }

  /** Decryption is encryption with the decryption key. */
  lemma DecryptIsEncrypt(impl: EncryptImpl, text: seq<bool>, key: seq<bool>, mask: seq<bool>)
    ensures Decrypt(impl, text, key, mask) == Encrypt(impl, text, key, mask)
  {
  }

  /** Counter mode: the text exclusive-or'ed with a key stream that
      depends only on the key and the mask (the counters). */
  function XorBits(x: seq<bool>, pad: seq<bool>): (r: seq<bool>)
    requires |pad| >= |x|
    ensures |r| == |x|
    ensures forall i :: 0 <= i < |x| ==> (r[i] <==> x[i] != pad[i])
  {
    seq(|x|, i requires 0 <= i < |x| => x[i] != pad[i])
  }

  lemma {:induction false} XorBitsInvolution(x: seq<bool>, pad: seq<bool>)
    requires |pad| >= |x|
    ensures XorBits(XorBits(x, pad), pad) == x
  {
    var y := XorBits(XorBits(x, pad), pad);
    forall i | 0 <= i < |x|
      ensures y[i] == x[i]
    {
      assert XorBits(x, pad)[i] == (x[i] != pad[i]);
    }
  }

  /** An encrypt_impl in counter mode: the mask's key stream under the key,
      of the mask's length, exclusive-or'ed with the text. */
  function CounterImpl(keyStream: (seq<bool>, seq<bool>) -> seq<bool>): (impl: EncryptImpl)
    ensures forall x, k, m :: |keyStream(k, m)| >= |x| ==> impl(x, k, m) == XorBits(x, keyStream(k, m))
  {
    (x: seq<bool>, k: seq<bool>, m: seq<bool>) =>
      if |keyStream(k, m)| >= |x| then XorBits(x, keyStream(k, m)) else x
  }

  /** Decrypting with the same key and mask recovers the plaintext, for
      any counter-mode encrypt_impl whose key stream covers the mask. */
  lemma {:induction false} DecryptEncrypt(keyStream: (seq<bool>, seq<bool>) -> seq<bool>,
                                          plaintext: seq<bool>, key: seq<bool>, mask: seq<bool>)
    requires Encrypt(CounterImpl(keyStream), plaintext, key, mask).Ok?
    requires |keyStream(key, mask)| >= |mask|
    ensures Decrypt(CounterImpl(keyStream), Encrypt(CounterImpl(keyStream), plaintext, key, mask).value, key, mask)
            == Ok(plaintext)
  {
    var impl := CounterImpl(keyStream);
    var c := Encrypt(impl, plaintext, key, mask).value;
    assert c == XorBits(plaintext, keyStream(key, mask));
    XorBitsInvolution(plaintext, keyStream(key, mask));
  }
}
