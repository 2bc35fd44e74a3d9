// The Merkle distributor: leaves of a fixed tree are claimed, each once, until an end height.
module MerkleDistributor {
  import opened Common
  import opened Bytes
  import opened MerkleTree
  import opened Parcels
  import opened Utf8

  datatype Error =
    | AlreadyInitialized | BalanceTooSmall | RootMalformed | BadProtostone | NoPayload | ProofInvalid
    | Expired | LeafUsed | LeafMalformed | NoOutput | AddressMismatch | AlkaneMissing

  datatype Proof = Proof(leaf: Bytes, proofs: seq<Bytes>)

  datatype Payout = Payout(address: Bytes, amount: nat)

  datatype Storage = Storage(root: Bytes, endHeight: nat, alkane: Option<AlkaneId>, used: set<Bytes>, initialized: bool)

  const EMPTY := Storage([], 0, None, {}, false)

  // A claim transaction as the contract sees it: whether its protostone passes, the proof found in its
  // witness, the address that its first output pays to, and the parcel that comes with it.
  datatype Claim = Claim(height: nat, protostoneOk: bool, payload: Option<Proof>, address: Option<Bytes>,
                         incoming: Parcel)

  // A leaf in Borsh form: an address with its length, then a 128-bit amount. Bytes that follow are ignored.
  function DecodeLeaf(leaf: Bytes): Option<Payout> {
    if |leaf| < 4 then None
    else
      var n := FromLE(leaf[..4]);
      if |leaf| < 4 + n + 16 || !ValidUtf8(leaf[4..4 + n]) then None
      else Some(Payout(leaf[4..4 + n], FromLE(leaf[4 + n..4 + n + 16])))
  }

  function EncodeLeaf(p: Payout): Bytes {
    ToLE(|p.address|, 4) + p.address + ToLE(p.amount, 16)
  }

  lemma DecodeEncodedLeaf(p: Payout, trailing: Bytes)
    requires |p.address| < Power256(4) && ValidUtf8(p.address) && p.amount < Power256(16)
    ensures DecodeLeaf(EncodeLeaf(p) + trailing) == Some(p)
  {
    var leaf := EncodeLeaf(p) + trailing;
    var n := |p.address|;
    LERoundTrip(n, 4);
    LERoundTrip(p.amount, 16);
    Slices(ToLE(n, 4), p.address, ToLE(p.amount, 16), trailing);
  }

  // What decodes is exactly what begins with an encoded leaf, whose address is a text and whose amount fits 128
  // bits.
  lemma DecodesIff(leaf: Bytes, p: Payout)
    ensures DecodeLeaf(leaf) == Some(p) <==>
      && |p.address| < Power256(4) && ValidUtf8(p.address) && p.amount < Power256(16)
      && exists trailing: Bytes :: leaf == EncodeLeaf(p) + trailing
  {
    if DecodeLeaf(leaf) == Some(p) {
      var n := FromLE(leaf[..4]);
      var amount, trailing := leaf[4 + n..4 + n + 16], leaf[4 + n + 16..];
      LEInverse(leaf[..4]);
      LEBelow(leaf[..4]);
      LEInverse(amount);
      LEBelow(amount);
      assert leaf == leaf[..4] + p.address + amount + trailing;
    }
    if |p.address| < Power256(4) && ValidUtf8(p.address) && p.amount < Power256(16) {
      if trailing: Bytes :| leaf == EncodeLeaf(p) + trailing {
        DecodeEncodedLeaf(p, trailing);
      }
    }
  }

  lemma Slices(a: Bytes, b: Bytes, c: Bytes, d: Bytes)
    ensures var whole := a + b + c + d; var i, j := |a|, |a| + |b|;
      whole[..i] == a && whole[i..j] == b && whole[j..j + |c|] == c
  {
  }

  // The check of a proof, then of the leaf: its first failure, or the payout it entitles to.
  function Verify(H: Hash, s: Storage, c: Claim): Outcome<Payout, Error> {
    if !c.protostoneOk then Threw(BadProtostone)
    else if c.payload.None? then Threw(NoPayload)
    else if |s.root| != 32 then Threw(RootMalformed)
    else
      var proof := c.payload.value;
      if s.root != Fold(H, proof.leaf, proof.proofs) then Threw(ProofInvalid)
      else if c.height > s.endHeight then Threw(Expired)
      else if proof.leaf in s.used then Threw(LeafUsed)
      else if DecodeLeaf(proof.leaf).None? then Threw(LeafMalformed)
      else if c.address.None? then Threw(NoOutput)
      else if c.address.value != DecodeLeaf(proof.leaf).value.address then Threw(AddressMismatch)
      else Returned(DecodeLeaf(proof.leaf).value)
  }

  datatype Effect = Effect(storage: Storage, result: Outcome<Parcel, Error>)

  // A claim hands back what came in and, on top, the amount of its leaf, which is used up; a claim that fails
  // leaves no trace.
  function Step(H: Hash, s: Storage, c: Claim): Effect {
    var v := Verify(H, s, c);
    if v.Threw? then Effect(s, Threw(v.error))
    else if s.alkane.None? then Effect(s, Threw(AlkaneMissing))
    else Effect(s.(used := s.used + {c.payload.value.leaf}),
                Returned(c.incoming + [Transfer(s.alkane.value, v.value.amount)]))
  }

  // What initialization hands back: everything that came in, each transfer of the token to distribute less the
  // amount. The subtraction is not checked and wraps around.
  function Leftover(id: AlkaneId, amount: nat, t: Transfer): Transfer {
    if t.id == id then Transfer(id, (t.value - amount) % U128) else t
  }

  function Leftovers(id: AlkaneId, amount: nat, incoming: Parcel): (r: Parcel)
    ensures |r| == |incoming|
  {
    seq(|incoming|, i requires 0 <= i < |incoming| => Leftover(id, amount, incoming[i]))
  }

  lemma LeftoversSplit(id: AlkaneId, amount: nat, incoming: Parcel)
    requires incoming != []
    ensures Leftovers(id, amount, incoming) ==
      Leftovers(id, amount, incoming[..|incoming| - 1]) + [Leftover(id, amount, incoming[|incoming| - 1])]
  {
  }

  predicate Fits(parcel: Parcel) {
    forall i :: 0 <= i < |parcel| ==> parcel[i].value < U128
  }

  // The amount is kept once for every transfer of the token, not once in all, and every transfer below the
  // amount is handed back with 2^128 units too many. Other tokens come back in full.
  lemma {:induction false} LeftoversAre(id: AlkaneId, amount: nat, incoming: Parcel, other: AlkaneId)
    requires Fits(incoming) && amount < U128
    ensures AmountOf(id, Leftovers(id, amount, incoming)) + PerTransferOf(id, amount, incoming)
         == AmountOf(id, incoming) + U128 * ShortOf(id, amount, incoming)
    ensures other != id ==> AmountOf(other, Leftovers(id, amount, incoming)) == AmountOf(other, incoming)
    decreases |incoming|
  {
    if incoming != [] {
      var front, last := incoming[..|incoming| - 1], incoming[|incoming| - 1];
      LeftoversAre(id, amount, front, other);
      var back := Leftover(id, amount, last);
      LeftoversSplit(id, amount, incoming);
      hide Leftovers;
      AppendTransfer(id, Leftovers(id, amount, front), back);
      AppendTransfer(other, Leftovers(id, amount, front), back);
      Wraps(last.value, amount);
    }
  }

  lemma Wraps(value: nat, amount: nat)
    requires value < U128 && amount < U128
    ensures (value - amount) % U128 == value - amount + if value < amount then U128 else 0
  {
  }

  // Units of its own token that a distributor hands out as the auth token.
  const AUTH_UNITS := 5

  // Initialization stores the root as two 128-bit halves in little-endian order. Nothing else sets the auth
  // token, so setting it here cannot fail.
  function Initialize(s: Storage, id: AlkaneId, balance: nat, amount: nat, incoming: Parcel, endHeight: nat,
                      first: nat, second: nat): Effect
  {
    if s.initialized then Effect(s, Threw(AlreadyInitialized))
    else if balance < amount then Effect(s, Threw(BalanceTooSmall))
    else
      Effect(s.(initialized := true, alkane := Some(id), endHeight := endHeight,
                root := ToLE(first, 16) + ToLE(second, 16)),
             Returned(Leftovers(id, amount, incoming) + [Transfer(MYSELF, AUTH_UNITS)]))
  }

  // What comes back is what came in less the amount exactly under this condition on the number of transfers. As
  // long as the token fits 128 bits in all, that means: nothing is to be distributed, or it all came in one
  // transfer that covers it.
  lemma LeftoversRightIff(id: AlkaneId, amount: nat, incoming: Parcel)
    requires Fits(incoming) && amount < U128
    ensures AmountOf(id, Leftovers(id, amount, incoming)) + amount == AmountOf(id, incoming)
      <==> amount * (CountOf(id, incoming) - 1) == U128 * ShortOf(id, amount, incoming)
    ensures AmountOf(id, incoming) < U128 ==>
      (AmountOf(id, Leftovers(id, amount, incoming)) + amount == AmountOf(id, incoming)
       <==> amount == 0 || (CountOf(id, incoming) == 1 && ShortOf(id, amount, incoming) == 0))
  {
    LeftoversAre(id, amount, incoming, id);
    CountsAre(id, amount, incoming);
    hide AmountOf, CountOf, ShortOf, PerTransferOf, Leftovers;
    RightIff(amount, CountOf(id, incoming), ShortOf(id, amount, incoming), AmountOf(id, incoming));
  }

  lemma RightIff(amount: nat, count: nat, short: nat, whole: nat)
    requires amount < U128 && short <= count && (amount == 0 ==> short == 0)
    requires whole >= amount * (count - short)
    ensures amount * (count - 1) == amount * count - amount
    ensures whole < U128 ==> (amount * (count - 1) == U128 * short <==> amount == 0 || (count == 1 && short == 0))
  {
    var rest := U128 - amount;
    Distribute(amount, count, 1);
    Distribute(amount, count, short);
    Distribute(short, U128, amount);
    if whole < U128 && amount * (count - 1) == U128 * short {
      assert short * rest < rest;
      AtLeastOnce(short, rest);
    }
    NoProduct(amount, count - 1);
  }

  lemma Distribute(a: int, b: int, c: int)
    ensures a * (b - c) == a * b - a * c
    ensures a * c == c * a
  {
  }

  lemma AtLeastOnce(n: nat, d: nat)
    ensures n >= 1 ==> n * d >= d
  {
  }

  lemma NoProduct(a: int, b: int)
    ensures a * b == 0 <==> a == 0 || b == 0
  {
  }

  // Inputs on which it goes wrong: with two transfers that cover the amount each, it is kept twice; a single
  // transfer that does not cover it comes back as almost 2^128 units.
  lemma LeftoversCanBeWrong(id: AlkaneId, balance: nat, amount: nat, a: nat, b: nat, end: nat, first: nat, second: nat)
    requires 0 < amount <= a < U128 && amount <= b < U128 && amount <= balance
    ensures Initialize(EMPTY, id, balance, amount, [Transfer(id, a), Transfer(id, b)], end, first, second).result ==
      Returned([Transfer(id, a - amount), Transfer(id, b - amount), Transfer(MYSELF, AUTH_UNITS)])
    ensures forall short: nat | short < amount ::
      Initialize(EMPTY, id, balance, amount, [Transfer(id, short)], end, first, second).result ==
      Returned([Transfer(id, short + (U128 - amount)), Transfer(MYSELF, AUTH_UNITS)])
  {
    Wraps(a, amount);
    Wraps(b, amount);
    assert Leftovers(id, amount, [Transfer(id, a), Transfer(id, b)]) + [Transfer(MYSELF, AUTH_UNITS)] ==
      [Transfer(id, a - amount), Transfer(id, b - amount), Transfer(MYSELF, AUTH_UNITS)];
    forall short: nat | short < amount
      ensures Initialize(EMPTY, id, balance, amount, [Transfer(id, short)], end, first, second).result ==
        Returned([Transfer(id, short + (U128 - amount)), Transfer(MYSELF, AUTH_UNITS)])
    {
      Wraps(short, amount);
      assert Leftovers(id, amount, [Transfer(id, short)]) + [Transfer(MYSELF, AUTH_UNITS)] ==
        [Transfer(id, short + (U128 - amount)), Transfer(MYSELF, AUTH_UNITS)];
    }
  }

  // Every 32-byte root can be given as two halves, and these are the only ones that store it.
  lemma RootHalves(root: Digest, first: nat, second: nat)
    requires first < Power256(16) && second < Power256(16)
    ensures ToLE(first, 16) + ToLE(second, 16) == root <==> first == FromLE(root[..16]) && second == FromLE(root[16..])
  {
    LERoundTrip(first, 16);
    LERoundTrip(second, 16);
    LEInverse(root[..16]);
    LEInverse(root[16..]);
    var stored := ToLE(first, 16) + ToLE(second, 16);
    assert stored[..16] == ToLE(first, 16) && stored[16..] == ToLE(second, 16);
    assert root == root[..16] + root[16..];
  }

  // The contract as the program runs it, with the runtime's rollback around a claim.
  class Contract {
    var root: Bytes
    var endHeight: nat
    var alkane: Option<AlkaneId>
    var used: set<Bytes>
    var initialized: bool

    ghost function Value(): Storage
      reads this
    {
      Storage(root, endHeight, alkane, used, initialized)
    }

    constructor ()
      ensures Value() == EMPTY
    {
      root, endHeight, alkane, used, initialized := [], 0, None, {}, false;
    }

    method ValidateProof(H: Hash, proof: Proof, height: nat) returns (failure: Option<Error>)
      ensures failure ==
        if |root| != 32 then Some(RootMalformed)
        else if root != Fold(H, proof.leaf, proof.proofs) then Some(ProofInvalid)
        else if height > endHeight then Some(Expired)
        else None
    {
      if |root| != 32 {
        return Some(RootMalformed);
      }
      var folded := CalcMerkleRoot(H, proof.leaf, proof.proofs);
      if root != folded {
        return Some(ProofInvalid);
      }
      return if height <= endHeight then None else Some(Expired);
    }

    method VerifyOutput(H: Hash, c: Claim) returns (r: Outcome<nat, Error>)
      modifies this`used
      ensures var v := Verify(H, old(Value()), c);
        if v.Threw? then r == Threw(v.error) && Value() == old(Value())
        else r == Returned(v.value.amount) && used == old(used) + {c.payload.value.leaf}
    {
      if !c.protostoneOk {
        return Threw(BadProtostone);
      }
      if c.payload.None? {
        return Threw(NoPayload);
      }
      var proof := c.payload.value;
      var failure := ValidateProof(H, proof, c.height);
      if failure.Some? {
        return Threw(failure.value);
      }
      if proof.leaf in used {
        return Threw(LeafUsed);
      }
      var leaf := DecodeLeaf(proof.leaf);
      if leaf.None? {
        return Threw(LeafMalformed);
      }
      if c.address.None? {
        return Threw(NoOutput);
      }
      if c.address.value != leaf.value.address {
        return Threw(AddressMismatch);
      }
      used := used + {proof.leaf};
      return Returned(leaf.value.amount);
    }

    method Execute(H: Hash, c: Claim) returns (r: Outcome<Parcel, Error>)
      modifies this`used
      ensures Effect(Value(), r) == Step(H, old(Value()), c)
    {
      var before := used;
      var response := c.incoming;
      var verified := VerifyOutput(H, c);
      if verified.Threw? {
        used := before;
        return Threw(verified.error);
      }
      if alkane.None? {
        used := before;
        return Threw(AlkaneMissing);
      }
      return Returned(response + [Transfer(alkane.value, verified.value)]);
    }

    method ReturnLeftovers(id: AlkaneId, amount: nat, incoming: Parcel) returns (response: Parcel)
      ensures response == Leftovers(id, amount, incoming)
    {
      response := [];
      for i := 0 to |incoming|
        invariant response == Leftovers(id, amount, incoming)[..i]
      {
        var transfer := incoming[i];
        var value := if transfer.id == id then (transfer.value - amount) % U128 else transfer.value;
        response := response + [Transfer(transfer.id, value)];
      }
    }

    method InitializeWith(id: AlkaneId, balance: nat, amount: nat, incoming: Parcel, end: nat, first: nat, second: nat)
      returns (r: Outcome<Parcel, Error>)
      modifies this
      ensures Effect(Value(), r) == Initialize(old(Value()), id, balance, amount, incoming, end, first, second)
    {
      if initialized {
        return Threw(AlreadyInitialized);
      }
      if balance < amount {
        return Threw(BalanceTooSmall);
      }
      initialized := true;
      alkane := Some(id);
      endHeight := end;
      root := ToLE(first, 16) + ToLE(second, 16);
      var response := ReturnLeftovers(id, amount, incoming);
      return Returned(response + [Transfer(MYSELF, AUTH_UNITS)]);
    }
  }
}
