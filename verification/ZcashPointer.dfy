// Which output of a transaction receives the funds that a pointer directs: transparent outputs only, with fallbacks.
module ZcashPointer {
  import opened Common
  import opened Bytes
  import opened ZcashFormat

  const U32 := 0x1_0000_0000

  // OP_DUP OP_HASH160, 20 bytes, OP_EQUALVERIFY OP_CHECKSIG.
  predicate IsP2pkh(script: Bytes) {
    |script| == 25 && script[..3] == [0x76, 0xA9, 0x14] && script[23..] == [0x88, 0xAC]
  }

  // OP_HASH160, 20 bytes, OP_EQUAL.
  predicate IsP2sh(script: Bytes) {
    |script| == 23 && script[..2] == [0xA9, 0x14] && script[22] == 0x87
  }

  predicate IsOpReturn(script: Bytes) {
    |script| > 0 && script[0] == 0x6A
  }

  predicate IsTAddress(script: Bytes) {
    IsP2pkh(script) || IsP2sh(script)
  }

  // These are all scripts of the two forms, with any 20 bytes of hash.
  lemma TAddressIff(script: Bytes)
    ensures IsTAddress(script) <==>
      || (exists hash: Bytes :: |hash| == 20 && script == [0x76, 0xA9, 0x14] + hash + [0x88, 0xAC])
      || (exists hash: Bytes :: |hash| == 20 && script == [0xA9, 0x14] + hash + [0x87])
  {
    if IsP2pkh(script) {
      assert script == script[..3] + script[3..23] + script[23..];
    } else if IsP2sh(script) {
      assert script == script[..2] + script[2..22] + [script[22]];
    }
  }

  // An in-range output that is paid to a transparent address.
  predicate Transparent(outputs: seq<TxOut>, i: nat) {
    i < |outputs| && IsTAddress(outputs[i].script)
  }

  ghost predicate LeastTransparent(outputs: seq<TxOut>, i: nat) {
    Transparent(outputs, i) && forall j: nat :: j < i ==> !Transparent(outputs, j)
  }

  // The first transparent output, its index cut to 32 bits.
  method FindDefaultTAddressOutput(outputs: seq<TxOut>) returns (r: Option<nat>)
    ensures r.None? <==> forall i: nat :: !Transparent(outputs, i)
    ensures r.Some? ==> exists i: nat :: LeastTransparent(outputs, i) && r.value == i % U32
  {
    for i := 0 to |outputs|
      invariant forall j: nat :: j < i ==> !Transparent(outputs, j)
    {
      if !IsOpReturn(outputs[i].script) && IsTAddress(outputs[i].script) {
        assert LeastTransparent(outputs, i);
        return Some(i % U32);
      }
    }
    return None;
  }

  method RequireTAddressOutput(outputs: seq<TxOut>) returns (ok: bool)
    ensures ok <==> exists i: nat :: Transparent(outputs, i)
  {
    var found := FindDefaultTAddressOutput(outputs);
    ok := found.Some?;
  }

  // The rule: the pointer if it names a transparent output, else the refund pointer if it does, else the least
  // transparent output, its index cut to 32 bits, else nothing.
  ghost predicate Resolves(outputs: seq<TxOut>, pointer: Option<nat>, refund: Option<nat>, r: Option<nat>) {
    if Named(outputs, pointer) then r == pointer
    else if Named(outputs, refund) then r == refund
    else if exists i: nat :: Transparent(outputs, i) then
      exists i: nat :: LeastTransparent(outputs, i) && r == Some(i % U32)
    else r == None
  }

  predicate Named(outputs: seq<TxOut>, pointer: Option<nat>) {
    pointer.Some? && Transparent(outputs, pointer.value)
  }

  method ResolvePointerWithFallback(outputs: seq<TxOut>, pointer: Option<nat>, refund: Option<nat>)
    returns (r: Option<nat>)
    ensures Resolves(outputs, pointer, refund, r)
    ensures r == None <==> forall i: nat :: !Transparent(outputs, i)
    ensures r.Some? ==>
      (Transparent(outputs, r.value) <==>
        Named(outputs, pointer) || Named(outputs, refund) || exists i: nat :: i < U32 && Transparent(outputs, i))
  {
    if pointer.Some? && pointer.value < |outputs| {
      if IsTAddress(outputs[pointer.value].script) {
        assert Transparent(outputs, pointer.value);
        return pointer;
      }
    }
    if refund.Some? && refund.value < |outputs| {
      if IsTAddress(outputs[refund.value].script) {
        assert Transparent(outputs, refund.value);
        return refund;
      }
    }
    r := FindDefaultTAddressOutput(outputs);
  }
}
