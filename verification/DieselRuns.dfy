// Runs of the upgraded DIESEL contract, watched from outside: tokens in circulation, tokens burned, and
// what each block height emitted.
module DieselRuns {
  import opened Common
  import opened DieselSchedule
  import opened DieselUpgraded
  import opened Parcels

  // The contract together with the ledger of its surroundings: own tokens held by others, own tokens
  // burned, the emission of each height and the transactions of each height's successful split mints.
  datatype World = World(storage: Storage, outstanding: int, burned: nat,
                         emitted: map<Height, nat>, minters: map<Height, set<Txid>>)

  function OwnIn(parcel: Parcel): nat {
    AmountOf(MYSELF, parcel)
  }

  // The given amount once for every own transfer.
  function PerTransfer(amount: nat, parcel: Parcel): nat {
    PerTransferOf(MYSELF, amount, parcel)
  }

  function EmittedAt(w: World, h: Height): nat {
    if h in w.emitted then w.emitted[h] else 0
  }

  function MintersAt(w: World, h: Height): set<Txid> {
    if h in w.minters then w.minters[h] else {}
  }

  // What an answered call emits at its height: the fee credited and the value minted.
  function Emission(s: Storage, blocks: Height -> BlockInfo, call: Call): nat {
    match call
    case Mint(height, _, _, _) =>
      if !s.upgraded then BlockReward(height)
      else if blocks(height).mints == 0 then 0
      else FeeCredit(s, height, blocks(height)) + Share(BlockReward(height), blocks(height))
    case _ => 0
  }

  function Observe(w: World, blocks: Height -> BlockInfo, call: Call): World {
    var e := Step(w.storage, blocks, call);
    if e.result.Threw? then w
    else
      var w1 := w.(storage := e.storage,
                   outstanding := w.outstanding - OwnIn(call.incoming) + OwnIn(e.result.value));
      match call
      case Mint(height, txid, _, _) =>
        w1.(emitted := w.emitted[height := EmittedAt(w, height) + Emission(w.storage, blocks, call)],
            minters := if w.storage.upgraded then w.minters[height := MintersAt(w, height) + {txid}] else w.minters)
      case Burn(amount, incoming) => w1.(burned := w.burned + PerTransfer(amount, incoming))
      case _ => w1
  }

  const NOWHERE := World(EMPTY, 0, 0, map[], map[])

  function Begin(g: Height, incoming: Parcel, blocks: Height -> BlockInfo): World {
    Observe(NOWHERE, blocks, Initialize(g, incoming))
  }

  function Run(w: World, blocks: Height -> BlockInfo, calls: seq<Call>): World {
    if calls == [] then w else Observe(Run(w, blocks, calls[..|calls| - 1]), blocks, calls[|calls| - 1])
  }

  // Calls at heights from g on that bring in no more own tokens than are in circulation; an auth token is
  // not an own token.
  ghost predicate Funded(w: World, blocks: Height -> BlockInfo, calls: seq<Call>, g: nat) {
    calls == []
    || (Funded(w, blocks, calls[..|calls| - 1], g)
        && Admissible(Run(w, blocks, calls[..|calls| - 1]), calls[|calls| - 1], g))
  }

  predicate Admissible(w: World, call: Call, g: nat) {
    && OwnIn(call.incoming) <= w.outstanding
    && (call.Mint? || call.Initialize? ==> g <= call.height)
    && (call.Upgrade? && call.authToken.Some? ==> call.authToken.value.id != MYSELF)
  }

  lemma OwnInAppend(parcel: Parcel, t: Transfer)
    ensures OwnIn(parcel + [t]) == OwnIn(parcel) + if t.id == MYSELF then t.value else 0
    ensures forall amount: nat ::
      PerTransfer(amount, parcel + [t]) == PerTransfer(amount, parcel) + if t.id == MYSELF then amount else 0
  {
    AppendTransfer(MYSELF, parcel, t);
  }

  // Burning takes amount off the supply for every own transfer, gives the rest back, and needs no more
  // supply than the tokens brought in.
  lemma {:induction false} BurnConserves(supply: nat, amount: nat, incoming: Parcel, i: nat, out: Parcel)
    requires i <= |incoming|
    requires supply >= OwnIn(incoming) - OwnIn(incoming[..i])
    ensures match BurnFrom(supply, amount, incoming, i, out)
      case Threw(error) => error == BurnTooLarge
      case Returned((left, back)) =>
        && left == supply - (PerTransfer(amount, incoming) - PerTransfer(amount, incoming[..i]))
        && OwnIn(back) == OwnIn(out) + (OwnIn(incoming) - OwnIn(incoming[..i]))
             - (PerTransfer(amount, incoming) - PerTransfer(amount, incoming[..i]))
    decreases |incoming| - i
  {
    if i == |incoming| {
      assert incoming[..i] == incoming;
    } else {
      var t := incoming[i];
      assert incoming[..i + 1] == incoming[..i] + [t];
      OwnInAppend(incoming[..i], t);
      OwnInMonotone(incoming, i + 1);
      if t.id != MYSELF {
        OwnInAppend(out, t);
        BurnConserves(supply, amount, incoming, i + 1, out + [t]);
      } else if amount <= t.value {
        var back := Transfer(MYSELF, t.value - amount);
        OwnInAppend(out, back);
        BurnConserves(supply - amount, amount, incoming, i + 1, out + [back]);
      }
    }
  }

  lemma {:induction false} OwnInMonotone(incoming: Parcel, i: nat)
    requires i <= |incoming|
    ensures OwnIn(incoming[..i]) <= OwnIn(incoming)
    decreases |incoming| - i
  {
    if i == |incoming| {
      assert incoming[..i] == incoming;
    } else {
      assert incoming[..i + 1] == incoming[..i] + [incoming[i]];
      OwnInAppend(incoming[..i], incoming[i]);
      OwnInMonotone(incoming, i + 1);
    }
  }

  // The supply counts the tokens in circulation and the pool.
  predicate SupplyIdentity(w: World) {
    w.storage.totalSupply == w.outstanding + w.storage.fees
  }

  // A cap that no mint can lift the supply to, and the initial premine below it.
  predicate Bounded(w: World, g: nat) {
    && w.storage.initialized
    && w.outstanding >= 0
    && w.storage.totalSupply < MAX_SUPPLY + BlockReward(g)
  }

  lemma SharesFit(reward: nat, info: BlockInfo)
    requires info.mints > 0
    ensures var fee, value := DieselFee(reward, info.minerFee), Share(reward, info);
      && fee + info.mints * value <= reward < fee + info.mints * value + info.mints
      && value <= reward - fee
  {
    var fee, n := DieselFee(reward, info.minerFee), info.mints;
    var value := Share(reward, info);
    assert reward - fee == n * value + (reward - fee) % n;
    assert n * value >= value by { AtLeastOnce(value, n); assert value * n == n * value; }
  }

  // No call ever runs into an overflow: neither the checked subtraction of a burn, nor the checked additions
  // of a mint, nor the unchecked one of a legacy mint.
  lemma NoOverflow(w: World, blocks: Height -> BlockInfo, call: Call, g: nat)
    requires SupplyIdentity(w) && Bounded(w, g) && Admissible(w, call, g)
    ensures Step(w.storage, blocks, call).result != Threw(Overflow)
    ensures call.Mint? && Step(w.storage, blocks, call).result.Returned? ==>
      Step(w.storage, blocks, call).storage.totalSupply == w.storage.totalSupply + Emission(w.storage, blocks, call)
  {
    hide BlockReward, Share, DieselFee, OwnIn, PerTransfer;
    RewardAtMost(g, g);
    match call
    case Mint(height, _, _, _) =>
      RewardAtMost(g, height);
      if blocks(height).mints > 0 {
        SharesFit(BlockReward(height), blocks(height));
      }
    case Burn(amount, incoming) => BurnConserves(w.storage.totalSupply, amount, incoming, 0, []);
    case _ =>
  }

  lemma MintKeepsSupply(w: World, blocks: Height -> BlockInfo, call: Call, g: nat)
    requires SupplyIdentity(w) && Bounded(w, g) && Admissible(w, call, g)
    requires call.Mint? && Step(w.storage, blocks, call).result.Returned?
    ensures SupplyIdentity(Observe(w, blocks, call)) && Bounded(Observe(w, blocks, call), g)
  {
    hide BlockReward, Share, DieselFee, OwnIn, PerTransfer;
    var height := call.height;
    NoOverflow(w, blocks, call, g);
    RewardAtMost(g, height);
    if w.storage.upgraded {
      SharesFit(BlockReward(height), blocks(height));
      OwnInAppend(call.incoming, Transfer(MYSELF, Share(BlockReward(height), blocks(height))));
    } else {
      OwnInAppend(call.incoming, Transfer(MYSELF, BlockReward(height)));
    }
  }

  lemma ObserveKeepsSupply(w: World, blocks: Height -> BlockInfo, call: Call, g: nat)
    requires SupplyIdentity(w) && Bounded(w, g) && Admissible(w, call, g)
    ensures SupplyIdentity(Observe(w, blocks, call)) && Bounded(Observe(w, blocks, call), g)
  {
    hide BlockReward, Share, DieselFee;
    NoOverflow(w, blocks, call, g);
    var e := Step(w.storage, blocks, call);
    if e.result.Returned? {
      match call
      case Burn(amount, incoming) =>
        BurnConserves(w.storage.totalSupply, amount, incoming, 0, []);
      case Mint(height, _, _, incoming) => MintKeepsSupply(w, blocks, call, g);
      case Upgrade(incoming, authToken) => OwnInAppend(incoming, authToken.value);
      case CollectFees(_, incoming) => OwnInAppend(incoming, Transfer(MYSELF, w.storage.fees));
      case Initialize(_, incoming) =>
    }
  }

  lemma BeginOk(g: Height, incoming: Parcel, blocks: Height -> BlockInfo)
    requires OwnIn(incoming) == 0
    ensures SupplyIdentity(Begin(g, incoming, blocks)) && Bounded(Begin(g, incoming, blocks), g)
    ensures Begin(g, incoming, blocks).storage == EMPTY.(seen := {g}, initialized := true, totalSupply := PREMINE)
    ensures Begin(g, incoming, blocks).emitted == map[] && Begin(g, incoming, blocks).minters == map[]
    ensures Begin(g, incoming, blocks).burned == 0
  {
  }

  // ---- What each height emits ----

  // A height is used by legacy mints or by split mints, never by both; a legacy mint emits the whole reward,
  // k split mints emit the fee and k shares.
  ghost predicate HeightOk(w: World, blocks: Height -> BlockInfo, g: Height, h: Height) {
    var info, reward := blocks(h), BlockReward(h);
    if h in w.storage.upgradedSeen then
      && h !in w.storage.seen
      && info.mints > 0
      && EmittedAt(w, h) == DieselFee(reward, info.minerFee) + |MintersAt(w, h)| * Share(reward, info)
    else
      && MintersAt(w, h) == {}
      && EmittedAt(w, h) == if h in w.storage.seen && h != g then reward else 0
  }

  ghost predicate HeightsOk(w: World, blocks: Height -> BlockInfo, g: Height) {
    && g in w.storage.seen
    && w.storage.initialized
    && (w.storage.upgradedSeen != {} ==> w.storage.upgraded)
    && (forall h: Height :: HeightOk(w, blocks, g, h))
    && (forall h: Height :: MintersAt(w, h) <= w.storage.usedTxs)
  }

  lemma MoreShares(k: nat, value: nat)
    ensures (k + 1) * value == k * value + value
  {
  }

  lemma LegacyMintKeepsHeights(w: World, blocks: Height -> BlockInfo, call: Call, g: Height)
    requires HeightsOk(w, blocks, g) && call.Mint? && !w.storage.upgraded
    requires Step(w.storage, blocks, call).result.Returned?
    ensures HeightsOk(Observe(w, blocks, call), blocks, g)
  {
    hide BlockReward, OwnIn, DieselFee, Share, FeeCredit;
    var t := Observe(w, blocks, call);
    assert HeightOk(w, blocks, g, call.height);
    forall h: Height ensures HeightOk(t, blocks, g, h) && MintersAt(t, h) == MintersAt(w, h) {
      assert HeightOk(w, blocks, g, h);
    }
  }

  lemma SplitMintKeepsHeights(w: World, blocks: Height -> BlockInfo, call: Call, g: Height)
    requires HeightsOk(w, blocks, g) && call.Mint? && w.storage.upgraded
    requires Step(w.storage, blocks, call).result.Returned?
    ensures HeightsOk(Observe(w, blocks, call), blocks, g)
  {
    hide BlockReward, OwnIn, DieselFee, Share, FeeCredit;
    var t, height := Observe(w, blocks, call), call.height;
    SplitMintKeepsHeight(w, blocks, call, g);
    forall h: Height
      ensures HeightOk(t, blocks, g, h) && MintersAt(t, h) <= t.storage.usedTxs
    {
      assert HeightOk(w, blocks, g, h) && MintersAt(w, h) <= w.storage.usedTxs;
    }
  }

  // The height of the mint itself: one share more, and the fee if it is the first.
  lemma SplitMintKeepsHeight(w: World, blocks: Height -> BlockInfo, call: Call, g: Height)
    requires HeightsOk(w, blocks, g) && call.Mint? && w.storage.upgraded
    requires Step(w.storage, blocks, call).result.Returned?
    ensures HeightOk(Observe(w, blocks, call), blocks, g, call.height)
    ensures MintersAt(Observe(w, blocks, call), call.height) == MintersAt(w, call.height) + {call.txid}
  {
    hide BlockReward, OwnIn, DieselFee, Share;
    var t, height := Observe(w, blocks, call), call.height;
    var k, value := |MintersAt(w, height)|, Share(BlockReward(height), blocks(height));
    assert HeightOk(w, blocks, g, height) && MintersAt(w, height) <= w.storage.usedTxs;
    MoreShares(k, value);
    assert |MintersAt(t, height)| == k + 1;
    assert k == 0 ==> k * value == 0;
  }

  lemma ObserveKeepsHeights(w: World, blocks: Height -> BlockInfo, call: Call, g: Height)
    requires HeightsOk(w, blocks, g)
    ensures HeightsOk(Observe(w, blocks, call), blocks, g)
  {
    var t := Observe(w, blocks, call);
    if call.Mint? && Step(w.storage, blocks, call).result.Returned? {
      if w.storage.upgraded {
        SplitMintKeepsHeights(w, blocks, call, g);
      } else {
        LegacyMintKeepsHeights(w, blocks, call, g);
      }
    } else {
      forall h: Height ensures HeightOk(t, blocks, g, h) && MintersAt(t, h) == MintersAt(w, h) {
        assert HeightOk(w, blocks, g, h);
      }
    }
  }

  ghost function TxsAt(calls: seq<Call>, h: Height): set<Txid> {
    set i | 0 <= i < |calls| && calls[i].Mint? && calls[i].height == h :: calls[i].txid
  }

  // A block's own count of mints covers the transactions of the run that mint in it.
  ghost predicate FitsBlocks(calls: seq<Call>, blocks: Height -> BlockInfo) {
    forall h: Height :: |TxsAt(calls, h)| <= blocks(h).mints
  }

  lemma {:induction false} RunOk(g: Height, incoming: Parcel, blocks: Height -> BlockInfo, calls: seq<Call>)
    requires OwnIn(incoming) == 0 && Funded(Begin(g, incoming, blocks), blocks, calls, g)
    ensures var w := Run(Begin(g, incoming, blocks), blocks, calls);
      SupplyIdentity(w) && Bounded(w, g) && HeightsOk(w, blocks, g)
      && forall h: Height :: MintersAt(w, h) <= TxsAt(calls, h)
    decreases |calls|
  {
    BeginOk(g, incoming, blocks);
    if calls != [] {
      var front, last := calls[..|calls| - 1], calls[|calls| - 1];
      var w := Run(Begin(g, incoming, blocks), blocks, front);
      RunOk(g, incoming, blocks, front);
      ObserveKeepsSupply(w, blocks, last, g);
      ObserveKeepsHeights(w, blocks, last, g);
      MintersGrow(w, blocks, calls);
    }
  }

  lemma MintersGrow(w: World, blocks: Height -> BlockInfo, calls: seq<Call>)
    requires calls != [] && forall h: Height :: MintersAt(w, h) <= TxsAt(calls[..|calls| - 1], h)
    ensures forall h: Height :: MintersAt(Observe(w, blocks, calls[|calls| - 1]), h) <= TxsAt(calls, h)
  {
    var front, last := calls[..|calls| - 1], calls[|calls| - 1];
    forall h: Height
      ensures MintersAt(Observe(w, blocks, last), h) <= TxsAt(calls, h)
    {
      TxsGrow(calls, h);
      assert MintersAt(Observe(w, blocks, last), h) <=
        MintersAt(w, h) + if last.Mint? && last.height == h then {last.txid} else {};
    }
  }

  lemma TxsGrow(calls: seq<Call>, h: Height)
    requires calls != []
    ensures TxsAt(calls[..|calls| - 1], h) <= TxsAt(calls, h)
    ensures var last := calls[|calls| - 1]; last.Mint? && last.height == h ==> last.txid in TxsAt(calls, h)
  {
  }

  lemma CountOfSubset(a: set<Txid>, b: set<Txid>)
    requires a <= b
    ensures |a| <= |b|
  {
    assert b == a + (b - a);
  }

  lemma SharesMonotone(k: nat, n: nat, value: nat)
    requires k <= n
    ensures k * value <= n * value
  {
  }

  // Every height emits at most its reward, by legacy mints or by split mints but not both, and a height all
  // of whose announced mints succeed leaves less than one unit per mint undistributed.
  lemma EmissionPerHeight(g: Height, incoming: Parcel, blocks: Height -> BlockInfo, calls: seq<Call>, h: Height)
    requires OwnIn(incoming) == 0 && Funded(Begin(g, incoming, blocks), blocks, calls, g) && FitsBlocks(calls, blocks)
    ensures var w := Run(Begin(g, incoming, blocks), blocks, calls);
      && EmittedAt(w, h) <= BlockReward(h)
      && !(h in w.storage.seen && h in w.storage.upgradedSeen)
      && (h == g ==> EmittedAt(w, h) == 0)
      && (h in w.storage.upgradedSeen && |MintersAt(w, h)| == blocks(h).mints ==>
            BlockReward(h) - EmittedAt(w, h) < blocks(h).mints)
  {
    RunOk(g, incoming, blocks, calls);
    var w := Run(Begin(g, incoming, blocks), blocks, calls);
    assert HeightOk(w, blocks, g, h);
    CountOfSubset(MintersAt(w, h), TxsAt(calls, h));
    if h in w.storage.upgradedSeen {
      SharesFit(BlockReward(h), blocks(h));
      SharesMonotone(|MintersAt(w, h)|, blocks(h).mints, Share(BlockReward(h), blocks(h)));
    }
  }

  function TotalEmitted(w: World, lo: nat, hi: nat): nat
    requires hi <= 128 * HALVING
  {
    if hi <= lo then 0 else TotalEmitted(w, lo, hi - 1) + EmittedAt(w, hi - 1)
  }

  lemma {:induction false} TotalGrows(w: World, t: World, h: Height, x: nat, lo: nat, hi: nat)
    requires hi <= 128 * HALVING
    requires EmittedAt(t, h) == EmittedAt(w, h) + x
    requires forall k: Height :: k != h ==> EmittedAt(t, k) == EmittedAt(w, k)
    ensures TotalEmitted(t, lo, hi) == TotalEmitted(w, lo, hi) + if lo <= h < hi then x else 0
    decreases hi
  {
    if lo < hi {
      TotalGrows(w, t, h, x, lo, hi - 1);
    }
  }

  lemma {:induction false} TotalSame(w: World, t: World, lo: nat, hi: nat)
    requires hi <= 128 * HALVING && w.emitted == t.emitted
    ensures TotalEmitted(t, lo, hi) == TotalEmitted(w, lo, hi)
    decreases hi
  {
    if lo < hi {
      TotalSame(w, t, lo, hi - 1);
    }
  }

  ghost predicate MintsWithin(calls: seq<Call>, hi: nat) {
    forall i :: 0 <= i < |calls| && calls[i].Mint? ==> calls[i].height < hi
  }

  lemma ObserveKeepsTotal(w: World, blocks: Height -> BlockInfo, call: Call, g: nat, hi: nat)
    requires SupplyIdentity(w) && Bounded(w, g) && Admissible(w, call, g)
    requires hi <= 128 * HALVING && (call.Mint? ==> call.height < hi)
    requires w.storage.totalSupply + w.burned == PREMINE + TotalEmitted(w, g, hi)
    ensures var t := Observe(w, blocks, call); t.storage.totalSupply + t.burned == PREMINE + TotalEmitted(t, g, hi)
  {
    var t := Observe(w, blocks, call);
    NoOverflow(w, blocks, call, g);
    if call.Mint? && Step(w.storage, blocks, call).result.Returned? {
      TotalGrows(w, t, call.height, Emission(w.storage, blocks, call), g, hi);
    } else {
      TotalSame(w, t, g, hi);
      if call.Burn? {
        BurnConserves(w.storage.totalSupply, call.amount, call.incoming, 0, []);
      }
    }
  }

  lemma {:induction false} RunTotal(g: Height, incoming: Parcel, blocks: Height -> BlockInfo, calls: seq<Call>, hi: nat)
    requires OwnIn(incoming) == 0 && Funded(Begin(g, incoming, blocks), blocks, calls, g)
    requires g < hi <= 128 * HALVING && MintsWithin(calls, hi)
    ensures var w := Run(Begin(g, incoming, blocks), blocks, calls);
      w.storage.totalSupply + w.burned == PREMINE + TotalEmitted(w, g, hi)
    decreases |calls|
  {
    BeginOk(g, incoming, blocks);
    if calls == [] {
      TotalNothing(Begin(g, incoming, blocks), g, hi);
    } else {
      var front, last := calls[..|calls| - 1], calls[|calls| - 1];
      RunTotal(g, incoming, blocks, front, hi);
      RunOk(g, incoming, blocks, front);
      ObserveKeepsTotal(Run(Begin(g, incoming, blocks), blocks, front), blocks, last, g, hi);
    }
  }

  lemma {:induction false} TotalNothing(w: World, lo: nat, hi: nat)
    requires hi <= 128 * HALVING && w.emitted == map[]
    ensures TotalEmitted(w, lo, hi) == 0
    decreases hi
  {
    if lo < hi {
      TotalNothing(w, lo, hi - 1);
    }
  }

  lemma {:induction false} TotalWithin(w: World, lo: nat, hi: nat)
    requires hi <= 128 * HALVING && forall h: Height :: lo <= h < hi ==> EmittedAt(w, h) <= BlockReward(h)
    ensures TotalEmitted(w, lo, hi) <= SumRewards(lo, hi)
    decreases hi
  {
    if lo < hi {
      TotalWithin(w, lo, hi - 1);
    }
  }

  lemma {:induction false} TotalSplits(w: World, lo: nat, hi: nat)
    requires lo < hi <= 128 * HALVING
    ensures TotalEmitted(w, lo, hi) == EmittedAt(w, lo) + TotalEmitted(w, lo + 1, hi)
    decreases hi
  {
    if lo + 1 < hi {
      TotalSplits(w, lo, hi - 1);
    }
  }

  // Every run: the supply is the tokens in circulation plus the pool; with what was burned it is the premine
  // plus everything emitted, which the block rewards after genesis bound; and it never reaches the cap plus
  // one reward.
  lemma UpgradedSupply(g: Height, incoming: Parcel, blocks: Height -> BlockInfo, calls: seq<Call>, hi: nat)
    requires OwnIn(incoming) == 0 && Funded(Begin(g, incoming, blocks), blocks, calls, g) && FitsBlocks(calls, blocks)
    requires g < hi <= 128 * HALVING && MintsWithin(calls, hi)
    ensures var w := Run(Begin(g, incoming, blocks), blocks, calls);
      && w.storage.totalSupply == w.outstanding + w.storage.fees
      && w.storage.totalSupply + w.burned == PREMINE + TotalEmitted(w, g + 1, hi)
      && w.storage.totalSupply + w.burned <= PREMINE + SumRewards(g + 1, hi)
      && w.storage.totalSupply < MAX_SUPPLY + BlockReward(g)
  {
    var w := Run(Begin(g, incoming, blocks), blocks, calls);
    RunOk(g, incoming, blocks, calls);
    RunTotal(g, incoming, blocks, calls, hi);
    forall h: Height ensures EmittedAt(w, h) <= BlockReward(h) && (h == g ==> EmittedAt(w, h) == 0) {
      EmissionPerHeight(g, incoming, blocks, calls, h);
    }
    TotalSplits(w, g, hi);
    TotalWithin(w, g + 1, hi);
  }

  // No call of any run overflows, checked or unchecked.
  lemma NeverOverflows(g: Height, incoming: Parcel, blocks: Height -> BlockInfo, calls: seq<Call>, call: Call)
    requires OwnIn(incoming) == 0 && Funded(Begin(g, incoming, blocks), blocks, calls, g)
    requires Admissible(Run(Begin(g, incoming, blocks), blocks, calls), call, g)
    ensures var s := Run(Begin(g, incoming, blocks), blocks, calls).storage; var e := Step(s, blocks, call);
      && e.result != Threw(Overflow)
      && (call.Mint? && e.result.Returned? ==> e.storage.totalSupply == s.totalSupply + Emission(s, blocks, call))
  {
    RunOk(g, incoming, blocks, calls);
    NoOverflow(Run(Begin(g, incoming, blocks), blocks, calls), blocks, call, g);
  }

  // In every run, a burn fails exactly when one of the own transfers is smaller than the amount.
  lemma BurnFailsOnlyOnAmount(g: Height, incoming: Parcel, blocks: Height -> BlockInfo, calls: seq<Call>,
                              amount: nat, parcel: Parcel)
    requires OwnIn(incoming) == 0 && Funded(Begin(g, incoming, blocks), blocks, calls, g)
    requires OwnIn(parcel) <= Run(Begin(g, incoming, blocks), blocks, calls).outstanding
    ensures var s := Run(Begin(g, incoming, blocks), blocks, calls).storage;
      var result := Step(s, blocks, Burn(amount, parcel)).result;
      && (result.Threw? ==> result == Threw(BurnTooLarge))
      && (result.Threw? <==> exists i :: 0 <= i < |parcel| && parcel[i].id == MYSELF && parcel[i].value < amount)
      && (result.Returned? ==> OwnIn(result.value) == OwnIn(parcel) - PerTransfer(amount, parcel))
  {
    RunOk(g, incoming, blocks, calls);
    var supply := Run(Begin(g, incoming, blocks), blocks, calls).storage.totalSupply;
    BurnConserves(supply, amount, parcel, 0, []);
    BurnThrows(supply, amount, parcel, 0, []);
  }

  lemma {:induction false} BurnThrows(supply: nat, amount: nat, parcel: Parcel, i: nat, out: Parcel)
    requires i <= |parcel| && BurnFrom(supply, amount, parcel, i, out) != Threw(Overflow)
    ensures BurnFrom(supply, amount, parcel, i, out).Threw? <==>
      exists j :: i <= j < |parcel| && parcel[j].id == MYSELF && parcel[j].value < amount
    decreases |parcel| - i
  {
    if i < |parcel| {
      var t := parcel[i];
      if t.id != MYSELF {
        BurnThrows(supply, amount, parcel, i + 1, out + [t]);
      } else if amount <= t.value && amount <= supply {
        BurnThrows(supply - amount, amount, parcel, i + 1, out + [Transfer(MYSELF, t.value - amount)]);
      }
    }
  }
}
