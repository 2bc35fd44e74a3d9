// When the upgraded DIESEL contract can run into its cap: its premine is fixed, so it depends on the height of
// the genesis call how much of the schedule is left to fill it.
module DieselCap {
  import opened Common
  import opened DieselSchedule
  import opened DieselUpgraded
  import opened DieselRuns
  import opened Parcels

  // The last genesis height from which the premine and all rewards to come still add up to the cap.
  const LAST_REACHING := 900_798

  // Some funded run, with no more mints in a block than the block says, ends in "total supply has been reached".
  ghost predicate CapReachable(g: Height, blocks: Height -> BlockInfo) {
    exists incoming: Parcel, calls: seq<Call>, call: Call ::
      OwnIn(incoming) == 0 && EndsAtCap(g, incoming, blocks, calls, call)
  }

  ghost predicate EndsAtCap(g: Height, incoming: Parcel, blocks: Height -> BlockInfo, calls: seq<Call>, call: Call) {
    && Funded(Begin(g, incoming, blocks), blocks, calls, g)
    && Admissible(Run(Begin(g, incoming, blocks), blocks, calls), call, g)
    && FitsBlocks(calls + [call], blocks)
    && Step(Run(Begin(g, incoming, blocks), blocks, calls).storage, blocks, call).result == Threw(SupplyReached)
  }

  // The premine and the rewards after the genesis block reach the cap exactly for early genesis calls.
  lemma PremineFillsCap(g: nat)
    ensures PREMINE + SumRewards(g + 1, 33 * HALVING) >= MAX_SUPPLY <==> g <= LAST_REACHING
  {
    ScheduleExhausted();
    SumWithAhead(33 * HALVING);
    if g + 1 < GENESIS {
      SumSplits(g + 1, GENESIS, 33 * HALVING);
    } else if g + 1 <= 5 * HALVING {
      SumSplits(GENESIS, g + 1, 33 * HALVING);
      EarlySum(g + 1);
    } else {
      EarlySum(5 * HALVING);
      SumSplits(GENESIS, 5 * HALVING, 33 * HALVING);
      RewardsShrink(5 * HALVING, g + 1);
    }
  }

  lemma RewardsShrink(lo: nat, mid: nat)
    requires lo <= mid
    ensures SumRewards(mid, 33 * HALVING) <= SumRewards(lo, 33 * HALVING)
  {
    if mid <= 33 * HALVING {
      SumSplits(lo, mid, 33 * HALVING);
    }
  }

  // ---- Early genesis: mint every block ----

  // One mint at each of the n heights after g.
  function MintAll(g: nat, n: nat): (calls: seq<Call>)
    requires g + n < 128 * HALVING
    ensures |calls| == n
    ensures forall i :: 0 <= i < n ==> calls[i] == Mint(g + 1 + i, 0, true, [])
  {
    if n == 0 then [] else MintAll(g, n - 1) + [Mint(g + n, 0, true, [])]
  }

  // Every height after genesis up to h has been minted in full, or the cap has been reached on the way.
  ghost predicate MintedTo(s: Storage, g: nat, h: nat) {
    && !s.upgraded
    && (forall x :: x in s.seen ==> x <= h)
    && (s.totalSupply >= MAX_SUPPLY || s.totalSupply == PREMINE + SumRewards(g + 1, h + 1))
  }

  lemma GenesisMinted(g: Height, blocks: Height -> BlockInfo)
    ensures MintedTo(Begin(g, [], blocks).storage, g, g)
  {
    BeginOk(g, [], blocks);
    assert SumRewards(g + 1, g + 1) == 0;
  }

  lemma MintNext(w: World, blocks: Height -> BlockInfo, g: nat, h: Height)
    requires g < h && MintedTo(w.storage, g, h - 1) && Bounded(w, g)
    ensures Admissible(w, Mint(h, 0, true, []), g)
    ensures MintedTo(Observe(w, blocks, Mint(h, 0, true, [])).storage, g, h)
  {
    hide BlockReward;
    RewardAtMost(0, h);
  }

  lemma {:induction false} MintAllSupply(g: Height, n: nat, blocks: Height -> BlockInfo)
    requires g + n < 128 * HALVING
    ensures Funded(Begin(g, [], blocks), blocks, MintAll(g, n), g)
    ensures MintedTo(Run(Begin(g, [], blocks), blocks, MintAll(g, n)).storage, g, g + n)
    decreases n
  {
    hide Observe, Begin, TxsAt, Bounded, SupplyIdentity, HeightsOk, MintersAt, Admissible, MintedTo;
    var w := Begin(g, [], blocks);
    if n == 0 {
      GenesisMinted(g, blocks);
    } else {
      var front := MintAll(g, n - 1);
      MintAllSupply(g, n - 1, blocks);
      RunOk(g, [], blocks, front);
      MintNext(Run(w, blocks, front), blocks, g, g + n);
      hide Run, Funded;
      OneMore(w, blocks, front, Mint(g + n, 0, true, []), g);
    }
  }

  lemma OneMore(w: World, blocks: Height -> BlockInfo, calls: seq<Call>, call: Call, g: nat)
    ensures Run(w, blocks, calls + [call]) == Observe(Run(w, blocks, calls), blocks, call)
    ensures Funded(w, blocks, calls + [call], g) <==>
      Funded(w, blocks, calls, g) && Admissible(Run(w, blocks, calls), call, g)
  {
    hide Observe, Admissible;
    assert (calls + [call])[..|calls|] == calls;
  }

  lemma OneMintEach(g: nat, n: nat, blocks: Height -> BlockInfo)
    requires g + n < 128 * HALVING && forall h: Height :: g < h <= g + n ==> blocks(h).mints >= 1
    ensures FitsBlocks(MintAll(g, n), blocks)
  {
    forall h: Height ensures |TxsAt(MintAll(g, n), h)| <= blocks(h).mints {
      var txs := TxsAt(MintAll(g, n), h);
      CountOfSubset(txs, if g < h <= g + n then {0} else {});
    }
  }

  lemma EarlyGenesisReachesCap(g: Height, blocks: Height -> BlockInfo)
    requires g <= LAST_REACHING && forall h: Height :: g < h <= 33 * HALVING ==> blocks(h).mints >= 1
    ensures CapReachable(g, blocks)
  {
    hide BlockReward, FitsBlocks, Funded, Run;
    var n := 33 * HALVING - g - 1;
    var calls := MintAll(g, n);
    var call := Mint(g + n + 1, 0, true, []);
    MintAllSupply(g, n, blocks);
    RunOk(g, [], blocks, calls);
    PremineFillsCap(g);
    OneMintEach(g, n + 1, blocks);
    assert calls + [call] == MintAll(g, n + 1);
    assert EndsAtCap(g, [], blocks, calls, call);
  }

  // ---- Late genesis: there is not enough left ----

  // A split mint's fee still fits the reward of its height, so the supply with the fee on top is within the
  // premine and the rewards to come.
  lemma FeeWithinSchedule(g: Height, incoming: Parcel, blocks: Height -> BlockInfo, calls: seq<Call>, h: Height)
    requires OwnIn(incoming) == 0 && Funded(Begin(g, incoming, blocks), blocks, calls, g) && FitsBlocks(calls, blocks)
    requires g <= h
    requires h !in Run(Begin(g, incoming, blocks), blocks, calls).storage.seen
    ensures var s := Run(Begin(g, incoming, blocks), blocks, calls).storage;
      s.totalSupply + FeeCredit(s, h, blocks(h)) <= PREMINE + SumRewards(g + 1, 128 * HALVING)
  {
    hide BlockReward, DieselFee, Run, Funded;
    var w := Run(Begin(g, incoming, blocks), blocks, calls);
    var fee := FeeCredit(w.storage, h, blocks(h));
    var with := w.(emitted := w.emitted[h := EmittedAt(w, h) + fee]);
    var top: nat := 128 * HALVING;
    RunOk(g, incoming, blocks, calls);
    assert HeightOk(w, blocks, g, h);
    RunTotal(g, incoming, blocks, calls, top);
    forall k: Height ensures EmittedAt(with, k) <= BlockReward(k) && (k == g ==> EmittedAt(with, k) == 0) {
      EmissionPerHeight(g, incoming, blocks, calls, k);
    }
    TotalGrows(w, with, h, fee, g, top);
    TotalSplits(with, g, top);
    TotalWithin(with, g + 1, top);
  }

  lemma SumSame(lo: nat, mid: nat, hi: nat)
    requires 33 * HALVING <= mid <= hi
    ensures SumRewards(lo, hi) == SumRewards(lo, mid)
    decreases hi
  {
    if mid < hi {
      ScheduleExhausted();
      RewardAntitone(33 * HALVING, hi - 1);
      SumSame(lo, mid, hi - 1);
    }
  }

  lemma OnlyMintsReachCap(s: Storage, blocks: Height -> BlockInfo, call: Call)
    requires Step(s, blocks, call).result == Threw(SupplyReached)
    ensures call.Mint? && call.height !in s.seen
    ensures s.totalSupply + FeeCredit(s, call.height, blocks(call.height)) >= MAX_SUPPLY
  {
    if call.Burn? {
      BurnErrors(s.totalSupply, call.amount, call.incoming, 0, []);
    }
  }

  lemma {:induction false} BurnErrors(supply: nat, amount: nat, incoming: Parcel, i: nat, out: Parcel)
    requires i <= |incoming|
    ensures var r := BurnFrom(supply, amount, incoming, i, out);
      r.Threw? ==> r.error == BurnTooLarge || r.error == Overflow
    decreases |incoming| - i
  {
    if i < |incoming| {
      if incoming[i].id != MYSELF {
        BurnErrors(supply, amount, incoming, i + 1, out + [incoming[i]]);
      } else if amount <= incoming[i].value && amount <= supply {
        BurnErrors(supply - amount, amount, incoming, i + 1, out + [Transfer(MYSELF, incoming[i].value - amount)]);
      }
    }
  }

  lemma LateGenesisStaysBelow(g: Height, incoming: Parcel, blocks: Height -> BlockInfo, calls: seq<Call>, call: Call)
    requires OwnIn(incoming) == 0 && EndsAtCap(g, incoming, blocks, calls, call)
    ensures g <= LAST_REACHING
  {
    hide BlockReward, DieselFee, Run, Funded, Share, FitsBlocks;
    var s := Run(Begin(g, incoming, blocks), blocks, calls).storage;
    OnlyMintsReachCap(s, blocks, call);
    FitsFront(calls, call, blocks);
    FeeWithinSchedule(g, incoming, blocks, calls, call.height);
    SumSame(g + 1, 33 * HALVING, 128 * HALVING);
    PremineFillsCap(g);
  }

  lemma FitsFront(calls: seq<Call>, call: Call, blocks: Height -> BlockInfo)
    requires FitsBlocks(calls + [call], blocks)
    ensures FitsBlocks(calls, blocks)
  {
    assert (calls + [call])[..|calls|] == calls;
    forall h: Height ensures |TxsAt(calls, h)| <= blocks(h).mints {
      TxsGrow(calls + [call], h);
      CountOfSubset(TxsAt(calls, h), TxsAt(calls + [call], h));
    }
  }

  // "Total supply has been reached" can occur in no run after a later genesis call, whatever the blocks hold;
  // after an earlier one it can, if every block from there on holds a mint.
  lemma UpgradedCapReachable(g: Height, blocks: Height -> BlockInfo)
    ensures CapReachable(g, blocks) ==> g <= LAST_REACHING
    ensures g <= LAST_REACHING && (forall h: Height :: g < h <= 33 * HALVING ==> blocks(h).mints >= 1) ==>
      CapReachable(g, blocks)
  {
    if CapReachable(g, blocks) {
      var incoming: Parcel, calls: seq<Call>, call: Call :|
        OwnIn(incoming) == 0 && EndsAtCap(g, incoming, blocks, calls, call);
      LateGenesisStaysBelow(g, incoming, blocks, calls, call);
    }
    if g <= LAST_REACHING && forall h: Height :: g < h <= 33 * HALVING ==> blocks(h).mints >= 1 {
      EarlyGenesisReachesCap(g, blocks);
    }
  }

  // So it can occur at all exactly for a genesis call at height 900798 or before.
  lemma UpgradedCapReachableIff(g: Height)
    ensures (exists blocks :: CapReachable(g, blocks)) <==> g <= 900_798
  {
    var busy := (h: Height) => BlockInfo(1, 0);
    UpgradedCapReachable(g, busy);
    if blocks :| CapReachable(g, blocks) {
      UpgradedCapReachable(g, blocks);
    }
  }
}
