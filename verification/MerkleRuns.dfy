// Whole lives of a distributor: initializations and claims in any order, sent by anybody.
module MerkleRuns {
  import opened Common
  import opened Bytes
  import opened MerkleTree
  import opened MerkleDistributor
  import opened MerklePayout
  import opened Parcels

  datatype Call =
    | Init(id: AlkaneId, balance: nat, amount: nat, incoming: Parcel, end: nat, first: nat, second: nat)
    | Claiming(claim: Claim)

  function Initialized(s: Storage, call: Call): Effect
    requires call.Init?
  {
    Initialize(s, call.id, call.balance, call.amount, call.incoming, call.end, call.first, call.second)
  }

  // The ledger after a call; initializations pay nothing out of what the tree promises.
  function After(H: Hash, l: Ledger, call: Call): Ledger {
    match call
    case Init(_, _, _, _, _, _, _) => l.(storage := Initialized(l.storage, call).storage)
    case Claiming(c) => Observe(H, l, c)
  }

  function Life(H: Hash, calls: seq<Call>): Ledger {
    if calls == [] then Start(EMPTY) else After(H, Life(H, calls[..|calls| - 1]), calls[|calls| - 1])
  }

  // The claims among the calls, in order.
  function Claims(calls: seq<Call>): seq<Claim> {
    if calls == [] then []
    else
      var front, last := Claims(calls[..|calls| - 1]), calls[|calls| - 1];
      if last.Claiming? then front + [last.claim] else front
  }

  // Call i is an initialization that succeeds.
  predicate OpensAt(H: Hash, calls: seq<Call>, i: nat) {
    i < |calls| && calls[i].Init? && Initialized(Life(H, calls[..i]).storage, calls[i]).result.Returned?
  }

  // What the initialization fixes.
  function Terms(call: Call): Storage
    requires call.Init?
  {
    Storage(ToLE(call.first, 16) + ToLE(call.second, 16), call.end, Some(call.id), {}, true)
  }

  lemma LifeSplits(H: Hash, calls: seq<Call>, call: Call)
    ensures Life(H, calls + [call]) == After(H, Life(H, calls), call)
  {
    assert (calls + [call])[..|calls|] == calls;
  }

  // Before any initialization has succeeded, nothing is stored and nothing is paid.
  lemma {:induction false} NothingBefore(H: Hash, calls: seq<Call>)
    requires forall i: nat :: !OpensAt(H, calls, i)
    ensures Life(H, calls) == Start(EMPTY)
    decreases |calls|
  {
    if calls != [] {
      var front, n := calls[..|calls| - 1], |calls| - 1;
      forall i: nat ensures !OpensAt(H, front, i) {
        if i < n {
          assert front[..i] == calls[..i];
          assert !OpensAt(H, calls, i);
        }
      }
      NothingBefore(H, front);
      assert !OpensAt(H, calls, n);
    }
  }

  lemma {:induction false} FirstOpening(H: Hash, calls: seq<Call>, i: nat) returns (j: nat)
    requires OpensAt(H, calls, i)
    ensures j <= i && OpensAt(H, calls, j) && Life(H, calls[..j]) == Start(EMPTY)
    decreases i
  {
    if k: nat :| k < i && OpensAt(H, calls, k) {
      j := FirstOpening(H, calls, k);
    } else {
      j := i;
      forall k: nat ensures !OpensAt(H, calls[..i], k) {
        if k < i {
          assert calls[..i][..k] == calls[..k];
          assert !OpensAt(H, calls, k);
        }
      }
      NothingBefore(H, calls[..i]);
    }
  }

  // One more call after an initialization: a claim continues the run of claims, and nothing else does anything.
  lemma LifeNext(H: Hash, s: Storage, tail: seq<Call>, last: Call)
    requires s.used == {} && s.initialized
    ensures After(H, Run(H, Start(s), Claims(tail)), last) == Run(H, Start(s), Claims(tail + [last]))
    ensures var u := Run(H, Start(s), Claims(tail)).storage; u == s.(used := u.used)
  {
    hide Step, Observe, LedgerOk, Initialize, Claims, PaidAt, Run;
    StartOk(s);
    RunKeeps(H, Start(s), Claims(tail));
    ClaimsSplit(tail, last);
    if last.Init? {
      SecondInit(H, Run(H, Start(s), Claims(tail)), last);
    } else {
      RunAppend(H, Start(s), Claims(tail), last.claim);
    }
  }

  lemma ClaimsSplit(calls: seq<Call>, call: Call)
    ensures Claims(calls + [call]) == if call.Claiming? then Claims(calls) + [call.claim] else Claims(calls)
  {
    assert (calls + [call])[..|calls|] == calls;
  }

  // After the call at j that opened an empty distributor, the life is that of its claims from its terms on.
  lemma {:induction false} LifeAfter(H: Hash, calls: seq<Call>, j: nat, n: nat)
    requires OpensAt(H, calls, j) && Life(H, calls[..j]) == Start(EMPTY) && j < n <= |calls|
    ensures Life(H, calls[..n]) == Run(H, Start(Terms(calls[j])), Claims(calls[j + 1..n]))
    ensures Life(H, calls[..n]).storage == Terms(calls[j]).(used := Life(H, calls[..n]).storage.used)
    decreases n
  {
    var s := Terms(calls[j]);
    if n == j + 1 {
      hide Step, Observe, Leftovers;
      assert calls[..n] == calls[..j] + [calls[j]];
      LifeSplits(H, calls[..j], calls[j]);
      assert calls[j + 1..n] == [];
    } else {
      LifeAfter(H, calls, j, n - 1);
      hide Step, Observe, Life, Claims, Run, Initialize, After, OpensAt;
      assert calls[..n] == calls[..n - 1] + [calls[n - 1]];
      assert calls[j + 1..n] == calls[j + 1..n - 1] + [calls[n - 1]];
      LifeSplits(H, calls[..n - 1], calls[n - 1]);
      LifeNext(H, s, calls[j + 1..n - 1], calls[n - 1]);
      LifeNext(H, s, calls[j + 1..n], calls[n - 1]);
    }
  }

  lemma SecondInit(H: Hash, l: Ledger, call: Call)
    requires call.Init? && l.storage.initialized
    ensures After(H, l, call) == l
  {
  }

  // A distributor is initialized at most once, whatever is called by whom: the first initialization whose amount
  // the balance covers fixes root, end height and token for good, every later one is refused and leaves no trace,
  // and only claims use leaves up.
  lemma InitializedOnce(H: Hash, calls: seq<Call>, i: nat, n: nat)
    requires OpensAt(H, calls, i) && i < n <= |calls|
    ensures calls[i].amount <= calls[i].balance && Life(H, calls[..i]) == Start(EMPTY)
    ensures var s := Life(H, calls[..n]).storage;
      && s.initialized && s.endHeight == calls[i].end && s.alkane == Some(calls[i].id)
      && s.root == ToLE(calls[i].first, 16) + ToLE(calls[i].second, 16)
    ensures n < |calls| && calls[n].Init? ==>
      Initialized(Life(H, calls[..n]).storage, calls[n])
      == Effect(Life(H, calls[..n]).storage, Threw(AlreadyInitialized))
    ensures n < |calls| && calls[n].Init? ==> Life(H, calls[..n + 1]) == Life(H, calls[..n])
    ensures !OpensAt(H, calls, n)
  {
    var j := FirstOpening(H, calls, i);
    if j < i {
      LifeAfter(H, calls, j, i);
    }
    LifeAfter(H, calls, i, n);
    if n < |calls| {
      assert calls[..n + 1] == calls[..n] + [calls[n]];
      LifeSplits(H, calls[..n], calls[n]);
    }
  }

  // While none has succeeded, an initialization succeeds exactly if the balance covers its amount, and claims fail.
  lemma NotYetInitialized(H: Hash, calls: seq<Call>, call: Call)
    requires forall i: nat :: !OpensAt(H, calls, i)
    ensures call.Init? ==>
      (Initialized(Life(H, calls).storage, call).result.Returned? <==> call.amount <= call.balance)
    ensures call.Init? && call.balance < call.amount ==>
      Initialized(Life(H, calls).storage, call) == Effect(EMPTY, Threw(BalanceTooSmall))
    ensures call.Claiming? ==> Step(H, Life(H, calls).storage, call.claim).result.Threw?
  {
    NothingBefore(H, calls);
  }

  // The payout bound over whole lives: all used leaves have been paid once, and the total is what the tree of the
  // stored root promises, less the leaves not yet claimed, plus the used strings that are no leaves; there are
  // such strings exactly if a paid claim strays.
  lemma LifePayout(H: Hash, t: Tree, calls: seq<Call>, i: nat)
    requires OpensAt(H, calls, i) && Terms(calls[i]).root == Root(H, t)
    requires forall c :: c in Claims(calls[i + 1..]) ==> NoCollision(H, t, c)
    ensures var l, claims := Life(H, calls), Claims(calls[i + 1..]);
      && l.paid.Keys == l.storage.used && (forall leaf :: leaf in l.paid ==> l.paid[leaf] == Amount(leaf))
      && l.total + Sum(Promised(Leaves(t) - l.storage.used))
           == Sum(Promised(Leaves(t))) + Sum(Promised(l.storage.used - Leaves(t)))
      && (l.storage.used <= Leaves(t) <==>
            forall k: nat :: PaidAt(H, Start(Terms(calls[i])), claims, k) ==> !Strays(H, t, claims[k]))
  {
    hide Run, Root, Strays, NoCollision, PaidAt, Promised;
    InitializedOnce(H, calls, i, |calls|);
    LifeAfter(H, calls, i, |calls|);
    assert calls[..|calls|] == calls && calls[i + 1..|calls|] == calls[i + 1..];
    PayoutBound(H, t, Terms(calls[i]), Claims(calls[i + 1..]));
  }

  // And with siblings of 32 bytes and no leaf of 64, in the tree or claimed, a distributor never pays more than
  // the tree it was initialized with promises, whoever else tries to initialize it and whatever is claimed.
  lemma MeasuredLife(H: Hash, t: Tree, calls: seq<Call>, i: nat)
    requires OpensAt(H, calls, i)
    requires calls[i].first < Power256(16) && calls[i].second < Power256(16)
    requires calls[i].first == FromLE(Root(H, t)[..16]) && calls[i].second == FromLE(Root(H, t)[16..])
    requires forall c :: c in Claims(calls[i + 1..]) ==> NoCollision(H, t, c) && Measured(t, c)
    ensures Life(H, calls).storage.used <= Leaves(t)
    ensures Life(H, calls).total <= Sum(Promised(Leaves(t)))
  {
    hide Run, Root, NoCollision, Promised, Measured, Ordinary;
    RootHalves(Root(H, t), calls[i].first, calls[i].second);
    InitializedOnce(H, calls, i, |calls|);
    LifeAfter(H, calls, i, |calls|);
    assert calls[..|calls|] == calls && calls[i + 1..|calls|] == calls[i + 1..];
    var claims := Claims(calls[i + 1..]);
    forall c | c in claims ensures Ordinary(H, t, c) {
      MeasuredIsOrdinary(H, t, c);
    }
    OrdinaryPayout(H, t, Terms(calls[i]), claims);
  }
}
