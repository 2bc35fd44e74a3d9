// Runs of claims against one tree: what a distributor pays out, and when that is more than its tree promises.
module MerklePayout {
  import opened Common
  import opened Bytes
  import opened MerkleTree
  import opened MerkleDistributor
  import opened Parcels
  import opened Utf8

  // What the paid leaves were paid so far, and the total, both seen from outside: the tokens to distribute that
  // a claim gets back beyond those it brought.
  datatype Ledger = Ledger(storage: Storage, paid: map<Bytes, int>, total: int)

  function Start(s: Storage): Ledger {
    Ledger(s, map[], 0)
  }

  function Gain(s: Storage, incoming: Parcel, back: Parcel): int {
    if s.alkane.None? then 0 else AmountOf(s.alkane.value, back) - AmountOf(s.alkane.value, incoming)
  }

  function Observe(H: Hash, l: Ledger, c: Claim): Ledger {
    var e := Step(H, l.storage, c);
    if e.result.Threw? then l
    else
      var leaf, gain := c.payload.value.leaf, Gain(l.storage, c.incoming, e.result.value);
      Ledger(e.storage, l.paid[leaf := (if leaf in l.paid then l.paid[leaf] else 0) + gain], l.total + gain)
  }

  function Run(H: Hash, l: Ledger, claims: seq<Claim>): Ledger {
    if claims == [] then l else Observe(H, Run(H, l, claims[..|claims| - 1]), claims[|claims| - 1])
  }

  // The hash has no collisions among the messages of the tree and of the claim's fold.
  ghost predicate NoCollision(H: Hash, t: Tree, c: Claim) {
    c.payload.Some? ==>
      CollisionFree(H, TreeMessages(H, t) + FoldMessages(H, c.payload.value.leaf, c.payload.value.proofs))
  }

  // A claim of a string that is no leaf, whose fold meets the tree all the same.
  ghost predicate Strays(H: Hash, t: Tree, c: Claim) {
    && c.payload.Some?
    && c.payload.value.leaf !in Leaves(t)
    && exists j, sub :: MeetsElsewhere(H, t, c.payload.value.leaf, c.payload.value.proofs, j, sub)
  }

  // A claim that is not 64 bytes long and of which no leaf of the tree spells a step.
  ghost predicate Ordinary(H: Hash, t: Tree, c: Claim) {
    c.payload.Some? ==>
      && |c.payload.value.leaf| != 64
      && forall j: nat :: !Spells(H, t, c.payload.value.leaf, c.payload.value.proofs, j)
  }

  lemma OrdinaryStaysOn(H: Hash, t: Tree, c: Claim)
    requires Ordinary(H, t, c)
    ensures !Strays(H, t, c)
  {
    if Strays(H, t, c) {
      var proof := c.payload.value;
      var j, sub :| MeetsElsewhere(H, t, proof.leaf, proof.proofs, j, sub);
      ElsewhereTakes(H, t, proof.leaf, proof.proofs, j, sub);
    }
  }

  function Amount(leaf: Bytes): nat {
    if DecodeLeaf(leaf).Some? then DecodeLeaf(leaf).value.amount else 0
  }

  // What a set of leaves promises: the amount of every one of them.
  function Promised(leaves: set<Bytes>): map<Bytes, nat> {
    map leaf | leaf in leaves :: Amount(leaf)
  }

  lemma PromisedMore(leaves: set<Bytes>, leaf: Bytes)
    requires leaf !in leaves
    ensures Sum(Promised(leaves + {leaf})) == Sum(Promised(leaves)) + Amount(leaf)
  {
    SumInsert(Promised(leaves), leaf, Amount(leaf));
    assert Promised(leaves + {leaf}) == Promised(leaves)[leaf := Amount(leaf)];
  }

  ghost predicate LedgerOk(l: Ledger) {
    && l.paid.Keys == l.storage.used
    && (forall leaf :: leaf in l.paid ==> l.paid[leaf] == Amount(leaf))
    && l.total == Sum(Promised(l.storage.used))
  }

  lemma ObserveKeeps(H: Hash, l: Ledger, c: Claim)
    requires LedgerOk(l)
    ensures LedgerOk(Observe(H, l, c))
    ensures Observe(H, l, c).storage == l.storage.(used := Observe(H, l, c).storage.used)
  {
    if Step(H, l.storage, c).result.Returned? {
      var leaf := c.payload.value.leaf;
      PromisedMore(l.storage.used, leaf);
      AppendTransfer(l.storage.alkane.value, c.incoming, Transfer(l.storage.alkane.value, Amount(leaf)));
    }
  }

  // Whether the claim at position i of a run is paid.
  ghost predicate PaidAt(H: Hash, l: Ledger, claims: seq<Claim>, i: nat) {
    i < |claims| && Step(H, Run(H, l, claims[..i]).storage, claims[i]).result.Returned?
  }

  // The used leaves are those of the paid claims.
  lemma {:induction false} RunKeeps(H: Hash, l: Ledger, claims: seq<Claim>)
    requires LedgerOk(l) && l.storage.used == {}
    ensures LedgerOk(Run(H, l, claims))
    ensures Run(H, l, claims).storage == l.storage.(used := Run(H, l, claims).storage.used)
    ensures forall leaf :: leaf in Run(H, l, claims).storage.used <==>
      exists i: nat :: PaidAt(H, l, claims, i) && claims[i].payload.value.leaf == leaf
    decreases |claims|
  {
    if claims != [] {
      var front, last, n := claims[..|claims| - 1], claims[|claims| - 1], |claims| - 1;
      RunKeeps(H, l, front);
      ObserveKeeps(H, Run(H, l, front), last);
      hide LedgerOk, Step;
      forall leaf
        ensures leaf in Run(H, l, claims).storage.used <==>
          exists i: nat :: PaidAt(H, l, claims, i) && claims[i].payload.value.leaf == leaf
      {
        PaidInFront(H, l, claims, leaf);
        UsedByLast(H, Run(H, l, front), last, leaf);
      }
    }
  }

  lemma PaidInFront(H: Hash, l: Ledger, claims: seq<Claim>, leaf: Bytes)
    requires claims != []
    ensures var n := |claims| - 1;
      (exists i: nat :: PaidAt(H, l, claims, i) && claims[i].payload.value.leaf == leaf)
      <==> (exists i: nat :: PaidAt(H, l, claims[..n], i) && claims[..n][i].payload.value.leaf == leaf)
           || (Step(H, Run(H, l, claims[..n]).storage, claims[n]).result.Returned?
               && claims[n].payload.value.leaf == leaf)
  {
    hide Step;
    var n := |claims| - 1;
    var front := claims[..n];
    forall i: nat | i < n ensures PaidAt(H, l, claims, i) <==> PaidAt(H, l, front, i) {
      assert claims[..i] == front[..i];
    }
    assert PaidAt(H, l, claims, n) <==> Step(H, Run(H, l, front).storage, claims[n]).result.Returned?;
  }

  lemma UsedByLast(H: Hash, l: Ledger, c: Claim, leaf: Bytes)
    ensures leaf in Observe(H, l, c).storage.used <==>
      leaf in l.storage.used || (Step(H, l.storage, c).result.Returned? && c.payload.value.leaf == leaf)
  {
  }

  // What a fold that reaches the root entitles to: a leaf of the tree, or a stray claim.
  lemma AcceptedIs(H: Hash, t: Tree, s: Storage, c: Claim)
    requires s.root == Root(H, t) && NoCollision(H, t, c) && Step(H, s, c).result.Returned?
    ensures c.payload.Some? && (c.payload.value.leaf in Leaves(t) <==> !Strays(H, t, c))
  {
    FoldSound(H, t, c.payload.value.leaf, c.payload.value.proofs);
  }

  lemma StartOk(s: Storage)
    requires s.used == {}
    ensures LedgerOk(Start(s))
  {
    assert Promised({}) == map[];
  }

  lemma PaidIs(H: Hash, t: Tree, s: Storage, claims: seq<Claim>, i: nat)
    requires s.used == {} && s.root == Root(H, t) && forall c :: c in claims ==> NoCollision(H, t, c)
    requires PaidAt(H, Start(s), claims, i)
    ensures i < |claims| && claims[i].payload.Some?
    ensures claims[i].payload.value.leaf in Leaves(t) <==> !Strays(H, t, claims[i])
  {
    hide Step, Strays, NoCollision, Run, Root;
    StartOk(s);
    RunKeeps(H, Start(s), claims[..i]);
    AcceptedIs(H, t, Run(H, Start(s), claims[..i]).storage, claims[i]);
  }

  // Worthless leaves promise nothing.
  lemma {:induction false} NothingPromised(leaves: set<Bytes>)
    requires forall leaf :: leaf in leaves ==> Amount(leaf) == 0
    ensures Sum(Promised(leaves)) == 0
    decreases leaves
  {
    if leaves == {} {
      assert Promised(leaves) == map[];
    } else {
      var leaf :| leaf in leaves;
      NothingPromised(leaves - {leaf});
      PromisedMore(leaves - {leaf}, leaf);
      assert leaves - {leaf} + {leaf} == leaves;
    }
  }

  lemma {:induction false} PromisedTogether(a: set<Bytes>, b: set<Bytes>)
    requires a !! b
    ensures Sum(Promised(a + b)) == Sum(Promised(a)) + Sum(Promised(b))
    decreases b
  {
    if b == {} {
      NothingPromised(b);
      assert a + b == a;
    } else {
      var leaf :| leaf in b;
      PromisedTogether(a, b - {leaf});
      PromisedMore(b - {leaf}, leaf);
      PromisedMore(a + (b - {leaf}), leaf);
      assert b - {leaf} + {leaf} == b;
      assert a + (b - {leaf}) + {leaf} == a + b;
    }
  }

  // Two sets of leaves promise the same but for what is in one of them only.
  lemma PromisedApart(a: set<Bytes>, b: set<Bytes>)
    ensures Sum(Promised(a)) + Sum(Promised(b - a)) == Sum(Promised(b)) + Sum(Promised(a - b))
  {
    PromisedTogether(a * b, a - b);
    PromisedTogether(a * b, b - a);
    assert a * b + (a - b) == a && a * b + (b - a) == b;
  }

  // Over any run of claims on an initialized distributor: every used leaf has been paid its amount once and the
  // total is their sum, whatever the claims are. So the total is what the tree promises, less the leaves not yet
  // claimed, plus the used strings that are no leaves; there are such strings exactly when a paid claim strays.
  lemma PayoutBound(H: Hash, t: Tree, s: Storage, claims: seq<Claim>)
    requires s.used == {} && s.root == Root(H, t) && forall c :: c in claims ==> NoCollision(H, t, c)
    ensures var l := Run(H, Start(s), claims);
      && l.paid.Keys == l.storage.used && (forall leaf :: leaf in l.paid ==> l.paid[leaf] == Amount(leaf))
      && l.total == Sum(Promised(l.storage.used))
      && l.total + Sum(Promised(Leaves(t) - l.storage.used))
           == Sum(Promised(Leaves(t))) + Sum(Promised(l.storage.used - Leaves(t)))
      && (l.storage.used <= Leaves(t) <==>
            forall i: nat :: PaidAt(H, Start(s), claims, i) ==> !Strays(H, t, claims[i]))
  {
    hide Step, Strays, NoCollision, Run, PaidAt, Root, Promised;
    var start := Start(s);
    var used := Run(H, start, claims).storage.used;
    StartOk(s);
    RunKeeps(H, start, claims);
    forall i: nat | PaidAt(H, start, claims, i)
      ensures i < |claims| && claims[i].payload.Some?
      ensures claims[i].payload.value.leaf in Leaves(t) <==> !Strays(H, t, claims[i])
    {
      PaidIs(H, t, s, claims, i);
    }
    PromisedApart(used, Leaves(t));
  }

  // ---- When a tree can be overdrawn ----

  // Some run of claims is paid more than the tree promises in all.
  ghost predicate Overdrawable(H: Hash, t: Tree, s: Storage) {
    exists claims :: (forall c :: c in claims ==> NoCollision(H, t, c))
      && Run(H, Start(s), claims).total > Sum(Promised(Leaves(t)))
  }

  // A stray claim that passes the other checks on an unused distributor and is worth something.
  ghost predicate Overdraws(H: Hash, t: Tree, s: Storage, c: Claim) {
    && NoCollision(H, t, c) && Strays(H, t, c)
    && c.protostoneOk && c.height <= s.endHeight
    && Amount(c.payload.value.leaf) > 0
    && c.address == Some(DecodeLeaf(c.payload.value.leaf).value.address)
  }

  lemma RunAppend(H: Hash, l: Ledger, claims: seq<Claim>, c: Claim)
    ensures Run(H, l, claims + [c]) == Observe(H, Run(H, l, claims), c)
  {
    assert (claims + [c])[..|claims|] == claims;
  }

  // A claim that passes all checks adds its amount.
  lemma PayNext(H: Hash, s: Storage, claims: seq<Claim>, c: Claim)
    requires s.used == {} && s.alkane.Some? && |s.root| == 32
    requires c.protostoneOk && c.height <= s.endHeight && c.payload.Some?
    requires var proof := c.payload.value;
      && Fold(H, proof.leaf, proof.proofs) == s.root
      && proof.leaf !in Run(H, Start(s), claims).storage.used
      && DecodeLeaf(proof.leaf).Some? && c.address == Some(DecodeLeaf(proof.leaf).value.address)
    ensures Run(H, Start(s), claims + [c]).total == Run(H, Start(s), claims).total + Amount(c.payload.value.leaf)
    ensures Run(H, Start(s), claims + [c]).storage.used ==
      Run(H, Start(s), claims).storage.used + {c.payload.value.leaf}
  {
    StartOk(s);
    RunKeeps(H, Start(s), claims);
    RunAppend(H, Start(s), claims, c);
    hide Run, Fold, DecodeLeaf, LedgerOk;
    AppendTransfer(s.alkane.value, c.incoming, Transfer(s.alkane.value, Amount(c.payload.value.leaf)));
  }

  // Any set of leaves can be claimed, all in time and each to its own address.
  lemma {:induction false} ClaimLeaves(H: Hash, t: Tree, s: Storage, leaves: set<Bytes>) returns (claims: seq<Claim>)
    requires s.used == {} && s.root == Root(H, t) && s.alkane.Some?
    requires leaves <= Leaves(t) && CollisionFree(H, TreeMessages(H, t))
    ensures forall c :: c in claims ==> NoCollision(H, t, c)
    ensures Run(H, Start(s), claims).storage.used <= leaves
    ensures Run(H, Start(s), claims).total == Sum(Promised(leaves))
    decreases leaves
  {
    if leaves == {} {
      claims := [];
      NothingPromised(leaves);
    } else {
      var leaf :| leaf in leaves;
      var rest := leaves - {leaf};
      claims := ClaimLeaves(H, t, s, rest);
      PromisedMore(rest, leaf);
      assert rest + {leaf} == leaves;
      if DecodeLeaf(leaf).Some? {
        var path := PathOf(H, t, leaf);
        var c := Claim(s.endHeight, true, Some(Proof(leaf, path)), Some(DecodeLeaf(leaf).value.address), []);
        assert TreeMessages(H, t) + FoldMessages(H, leaf, path) == TreeMessages(H, t);
        PayNext(H, s, claims, c);
        claims := claims + [c];
      }
    }
  }

  // A tree can be overdrawn exactly when some claim overdraws it.
  lemma OverdrawableIff(H: Hash, t: Tree, s: Storage)
    requires s.used == {} && s.root == Root(H, t) && s.alkane.Some?
    ensures Overdrawable(H, t, s) <==> exists c :: Overdraws(H, t, s, c)
  {
    if Overdrawable(H, t, s) {
      var claims :| (forall c :: c in claims ==> NoCollision(H, t, c))
        && Run(H, Start(s), claims).total > Sum(Promised(Leaves(t)));
      var i := OverdrawnBy(H, t, s, claims);
      assert Overdraws(H, t, s, claims[i]);
    }
    if c :| Overdraws(H, t, s, c) {
      OverdrawAfterAll(H, t, s, c);
    }
  }

  lemma OverdrawAfterAll(H: Hash, t: Tree, s: Storage, c: Claim)
    requires s.used == {} && s.root == Root(H, t) && s.alkane.Some? && Overdraws(H, t, s, c)
    ensures Overdrawable(H, t, s)
  {
    hide Run, Promised, Root, Spells;
    var proof := c.payload.value;
    var claims := ClaimLeaves(H, t, s, Leaves(t));
    FoldSound(H, t, proof.leaf, proof.proofs);
    PayNext(H, s, claims, c);
    assert Run(H, Start(s), claims + [c]).total > Sum(Promised(Leaves(t)));
  }

  lemma PositiveLeaf(leaves: set<Bytes>) returns (leaf: Bytes)
    requires Sum(Promised(leaves)) > 0
    ensures leaf in leaves && Amount(leaf) > 0
  {
    if forall x :: x in leaves ==> Amount(x) == 0 {
      NothingPromised(leaves);
    }
    leaf :| leaf in leaves && Amount(leaf) > 0;
  }

  lemma PaidFor(H: Hash, s: Storage, claims: seq<Claim>, leaf: Bytes) returns (i: nat)
    requires s.used == {} && leaf in Run(H, Start(s), claims).storage.used
    ensures PaidAt(H, Start(s), claims, i) && claims[i].payload.Some? && claims[i].payload.value.leaf == leaf
  {
    StartOk(s);
    RunKeeps(H, Start(s), claims);
    i :| PaidAt(H, Start(s), claims, i) && claims[i].payload.value.leaf == leaf;
  }

  // The claim of a run that overdraws.
  lemma OverdrawnBy(H: Hash, t: Tree, s: Storage, claims: seq<Claim>) returns (i: nat)
    requires s.used == {} && s.root == Root(H, t) && forall c :: c in claims ==> NoCollision(H, t, c)
    requires Run(H, Start(s), claims).total > Sum(Promised(Leaves(t)))
    ensures i < |claims| && Overdraws(H, t, s, claims[i])
  {
    hide Step, Run, Promised, Root, Strays, NoCollision, Amount, DecodeLeaf;
    var used := Run(H, Start(s), claims).storage.used;
    PayoutBound(H, t, s, claims);
    var leaf := PositiveLeaf(used - Leaves(t));
    i := PaidFor(H, s, claims, leaf);
    PaidIs(H, t, s, claims, i);
    StartOk(s);
    RunKeeps(H, Start(s), claims[..i]);
    PaidPasses(H, Run(H, Start(s), claims[..i]).storage, claims[i]);
  }

  lemma PaidPasses(H: Hash, s: Storage, c: Claim)
    requires Step(H, s, c).result.Returned?
    ensures c.protostoneOk && c.height <= s.endHeight && c.payload.Some? && DecodeLeaf(c.payload.value.leaf).Some?
    ensures c.address == Some(DecodeLeaf(c.payload.value.leaf).value.address)
  {
  }

  // ---- From initialization on ----

  // Initialization with the halves that store the given root; by RootHalves there are no others.
  function Open(root: Digest, id: AlkaneId, balance: nat, amount: nat, incoming: Parcel, end: nat): Effect {
    Initialize(EMPTY, id, balance, amount, incoming, end, FromLE(root[..16]), FromLE(root[16..]))
  }

  lemma OpenStores(root: Digest, id: AlkaneId, balance: nat, amount: nat, incoming: Parcel, end: nat)
    requires amount <= balance
    ensures Open(root, id, balance, amount, incoming, end).result.Returned?
    ensures Open(root, id, balance, amount, incoming, end).storage == Storage(root, end, Some(id), {}, true)
  {
    LEBelow(root[..16]);
    LEBelow(root[16..]);
    RootHalves(root, FromLE(root[..16]), FromLE(root[16..]));
  }

  // A claim whose lengths, and those of the tree's leaves, are safe.
  predicate Measured(t: Tree, c: Claim) {
    c.payload.Some? ==> SafeLengths(t, c.payload.value.leaf, c.payload.value.proofs)
  }

  lemma MeasuredIsOrdinary(H: Hash, t: Tree, c: Claim)
    requires Measured(t, c)
    ensures Ordinary(H, t, c)
  {
    if c.payload.Some? {
      NothingSpelled(H, t, c.payload.value.leaf, c.payload.value.proofs);
    }
  }

  // A distributor that has been initialized with a tree's root never pays more than the tree promises, as long
  // as siblings are 32 bytes long and no leaf, in the tree or claimed, has 64.
  lemma MeasuredPayout(H: Hash, t: Tree, id: AlkaneId, balance: nat, amount: nat, incoming: Parcel, end: nat,
                       claims: seq<Claim>)
    requires amount <= balance
    requires forall c :: c in claims ==> NoCollision(H, t, c) && Measured(t, c)
    ensures var open := Open(Root(H, t), id, balance, amount, incoming, end);
      && open.result.Returned?
      && Run(H, Start(open.storage), claims).storage.used <= Leaves(t)
      && Run(H, Start(open.storage), claims).total <= Sum(Promised(Leaves(t)))
  {
    hide Root, Open, Run, Measured, Ordinary, NoCollision, Promised;
    OpenStores(Root(H, t), id, balance, amount, incoming, end);
    forall c | c in claims ensures Ordinary(H, t, c) {
      MeasuredIsOrdinary(H, t, c);
    }
    OrdinaryPayout(H, t, Open(Root(H, t), id, balance, amount, incoming, end).storage, claims);
  }

  // So ordinary claims never overdraw the tree.
  lemma OrdinaryPayout(H: Hash, t: Tree, s: Storage, claims: seq<Claim>)
    requires s.used == {} && s.root == Root(H, t)
    requires forall c :: c in claims ==> NoCollision(H, t, c) && Ordinary(H, t, c)
    ensures var l := Run(H, Start(s), claims);
      l.storage.used <= Leaves(t) && l.total <= Sum(Promised(Leaves(t)))
  {
    hide Run, Strays, NoCollision, Ordinary;
    forall c | c in claims ensures !Strays(H, t, c) {
      OrdinaryStaysOn(H, t, c);
    }
    PayoutBound(H, t, s, claims);
    NothingPromised({});
    assert Run(H, Start(s), claims).storage.used - Leaves(t) == {};
  }

  // A claim that is no leaf of the spelling tree is paid by it.
  lemma SpelledClaimIsPaid(H: Hash, s: Storage, c: Claim, sibling: Bytes, other: Bytes)
    requires c.payload.Some? && c.protostoneOk && c.height <= s.endHeight
    requires DecodeLeaf(c.payload.value.leaf).Some?
    requires c.address == Some(DecodeLeaf(c.payload.value.leaf).value.address)
    requires c.payload.value.proofs == [sibling, H(other)]
    requires s.root == Root(H, SpellingTree(H, c.payload.value.leaf, sibling, other))
    requires s.used == {} && s.alkane.Some?
    ensures Run(H, Start(s), [c]).total == Amount(c.payload.value.leaf)
  {
    hide Fold, Root, DecodeLeaf;
    SpellingTreeAccepts(H, c.payload.value.leaf, sibling, other);
    assert Run(H, Start(s), []) == Start(s);
    PayNext(H, s, [], c);
    assert [] + [c] == [c];
  }

  // Twenty zero bytes: before any digest in byte order, and, in front of one, a leaf for an empty address that
  // is worth nothing.
  const ZEROS: Bytes := seq(20, i => 0)

  lemma ZerosFirst(zeros: Bytes, other: Bytes)
    requires (forall b :: b in zeros ==> b == 0) && |zeros| < |other|
    ensures Join(other, zeros) == zeros + other
  {
    NotBeforeZeros(zeros, other);
  }

  lemma {:induction false} NotBeforeZeros(zeros: Bytes, other: Bytes)
    requires (forall b :: b in zeros ==> b == 0) && |zeros| < |other|
    ensures !LexLe(other, zeros)
    decreases |zeros|
  {
    if zeros != [] {
      assert zeros[0] in zeros && forall b :: b in zeros[1..] ==> b in zeros;
      NotBeforeZeros(zeros[1..], other[1..]);
    }
  }

  lemma {:induction false} ZeroIs(zeros: Bytes)
    requires forall b :: b in zeros ==> b == 0
    ensures FromLE(zeros) == 0
  {
    if zeros != [] {
      assert zeros[0] in zeros && forall b :: b in zeros[1..] ==> b in zeros;
      ZeroIs(zeros[1..]);
    }
  }

  lemma ZerosAreWorthless(digest: Digest)
    ensures Amount(ZEROS + digest) == 0
  {
    var leaf := ZEROS + digest;
    ZeroIs(leaf[..4]);
    ZeroIs(leaf[4..20]);
  }

  // Whatever the hash, there are trees that pay more than they promise: one of their two leaves is worth nothing
  // and spells the digest of an encoded leaf after twenty zero bytes, the other is empty. They promise nothing
  // and pay the encoded amount, to its address, although neither a leaf of the tree nor the claim has 64 bytes.
  lemma PayoutCanExceed(H: Hash, p: Payout, id: AlkaneId, balance: nat, amount: nat, incoming: Parcel, end: nat,
                        height: nat, brought: Parcel)
    requires |p.address| < Power256(4) && |p.address| != 32 && |p.address| != 44 && ValidUtf8(p.address)
    requires 0 < p.amount < Power256(16) && amount <= balance && height <= end
    ensures var t := SpellingTree(H, EncodeLeaf(p), ZEROS, []);
      var open := Open(Root(H, t), id, balance, amount, incoming, end);
      var c := Claim(height, true, Some(Proof(EncodeLeaf(p), [ZEROS, H([])])), Some(p.address), brought);
      && (forall b :: b in Leaves(t) ==> |b| != 64) && |EncodeLeaf(p)| != 64 && EncodeLeaf(p) !in Leaves(t)
      && Sum(Promised(Leaves(t))) == 0
      && Run(H, Start(open.storage), [c]).total == p.amount
  {
    hide Root, Fold, Join, Promised, Run, Open;
    var leaf := EncodeLeaf(p);
    var t := SpellingTree(H, leaf, ZEROS, []);
    ZerosFirst(ZEROS, H(leaf));
    ZerosAreWorthless(H(leaf));
    assert Leaves(t) == {ZEROS + H(leaf), []};
    NothingPromised(Leaves(t));
    DecodeEncodedLeaf(p, []);
    assert leaf + [] == leaf;
    OpenStores(Root(H, t), id, balance, amount, incoming, end);
    var c := Claim(height, true, Some(Proof(leaf, [ZEROS, H([])])), Some(p.address), brought);
    SpelledClaimIsPaid(H, Open(Root(H, t), id, balance, amount, incoming, end).storage, c, ZEROS, []);
  }

  // Why a claim is refused: the first check that fails, in this order, and nothing is used up.
  lemma ClaimRefused(H: Hash, s: Storage, c: Claim)
    requires Step(H, s, c).result.Threw?
    ensures Step(H, s, c).storage == s
    ensures Step(H, s, c).result.error ==
      if !c.protostoneOk then BadProtostone
      else if c.payload.None? then NoPayload
      else if |s.root| != 32 then RootMalformed
      else if Fold(H, c.payload.value.leaf, c.payload.value.proofs) != s.root then ProofInvalid
      else if s.endHeight < c.height then Expired
      else if c.payload.value.leaf in s.used then LeafUsed
      else if DecodeLeaf(c.payload.value.leaf).None? then LeafMalformed
      else if c.address.None? then NoOutput
      else if c.address != Some(DecodeLeaf(c.payload.value.leaf).value.address) then AddressMismatch
      else AlkaneMissing
  {
    hide Fold, DecodeLeaf;
  }

  // After any run: a leaf that has been paid, or any claim past the end height, is refused; in time, to its own
  // address, exactly an unpaid string whose fold meets the tree is paid, and it is paid its amount. For an
  // ordinary claim, meeting the tree means to be a leaf of it with its sibling path.
  lemma ClaimOutcome(H: Hash, t: Tree, s: Storage, claims: seq<Claim>, c: Claim)
    requires s.used == {} && s.root == Root(H, t) && s.alkane.Some? && NoCollision(H, t, c)
    ensures var after := Run(H, Start(s), claims).storage;
      Step(H, after, c).result.Returned? <==>
        && c.protostoneOk && c.payload.Some? && c.height <= s.endHeight
        && var proof := c.payload.value;
        && (exists j, sub :: Meets(H, t, proof.leaf, proof.proofs, j, sub))
        && proof.leaf !in after.used
        && DecodeLeaf(proof.leaf).Some?
        && c.address == Some(DecodeLeaf(proof.leaf).value.address)
    ensures var after := Run(H, Start(s), claims).storage;
      Step(H, after, c).result.Returned? ==>
        Step(H, after, c).result.value == c.incoming + [Transfer(s.alkane.value, Amount(c.payload.value.leaf))]
    ensures c.payload.Some? && Ordinary(H, t, c) ==>
      var proof := c.payload.value;
      ((exists j, sub :: Meets(H, t, proof.leaf, proof.proofs, j, sub)) <==>
        Below(H, t, Leaf(proof.leaf), proof.proofs))
  {
    RunKeeps(H, Start(s), claims);
    hide Meets, Spells, Below, Fold, Root, Run, LedgerOk, PaidAt;
    if c.payload.Some? {
      FoldIffMeets(H, t, c.payload.value.leaf, c.payload.value.proofs);
      FoldSound(H, t, c.payload.value.leaf, c.payload.value.proofs);
    }
  }
}
