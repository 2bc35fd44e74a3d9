// Every outcome of a call to the DIESEL contracts, said without the program's own fee and share computations,
// and where the fee pool of the upgraded contract comes from over whole runs.
module DieselMints {
  import opened Common
  import opened DieselSchedule
  import opened DieselUpgraded
  import opened DieselRuns
  import opened Parcels
  import Legacy = DieselLegacy

  // ---- The legacy contract ----

  // A legacy genesis call hands back what came in and the premine: an average payout for every block since
  // height 800000.
  lemma LegacyGenesis(s: Legacy.Storage, height: Height, incoming: Parcel)
    requires s.totalSupply < U128 / 2
    ensures var e := Legacy.Step(s, Legacy.Initialize(height, incoming));
      && (e.result.Returned? <==> height !in s.seen && !s.initialized && height >= 800_000)
      && (e.result.Returned? ==>
            && e.result.value == incoming + [Transfer(MYSELF, (height - 800_000) * 468_750_000)]
            && e.storage == Legacy.Storage(s.seen + {height}, s.totalSupply + (height - 800_000) * 468_750_000, true))
      && (e.result.Threw? ==>
            && e.storage == s
            && e.result.error == if height in s.seen then Legacy.AlreadyMinted
                                 else if s.initialized then Legacy.AlreadyInitialized else Legacy.Overflow)
  {
  }

  // A legacy mint hands out one block reward per height, as long as the cap is not reached.
  lemma LegacyMinted(s: Legacy.Storage, height: Height, incoming: Parcel)
    requires s.totalSupply + BlockReward(height) < U128
    ensures var e := Legacy.Step(s, Legacy.Mint(height, incoming));
      && (e.result.Returned? <==> height !in s.seen && s.totalSupply < 156_250_000_000_000)
      && (e.result.Returned? ==>
            && e.result.value == incoming + [Transfer(MYSELF, BlockReward(height))]
            && e.storage == s.(seen := s.seen + {height}, totalSupply := s.totalSupply + BlockReward(height)))
      && (e.result.Threw? ==>
            && e.storage == s
            && e.result.error == if height in s.seen then Legacy.AlreadyMinted else Legacy.SupplyReached)
  {
  }

  // ---- The split of a block's reward ----

  // The pool's part c of a block's reward is as large as can be while it is at most half the reward and at most
  // what the miner earned beyond the reward.
  predicate PoolPart(c: nat, reward: nat, minerFee: nat) {
    Allowed(c, reward, minerFee) && !Allowed(c + 1, reward, minerFee)
  }

  predicate Allowed(c: nat, reward: nat, minerFee: nat) {
    2 * c <= reward && (c == 0 || reward + c <= minerFee)
  }

  lemma PoolPartIs(reward: nat, minerFee: nat)
    ensures PoolPart(DieselFee(reward, minerFee), reward, minerFee)
    ensures forall c: nat :: PoolPart(c, reward, minerFee) ==> c == DieselFee(reward, minerFee)
  {
    var fee := DieselFee(reward, minerFee);
    forall c: nat | PoolPart(c, reward, minerFee) ensures c == fee {
      AllowedBelow(c + 1, fee, reward, minerFee);
      AllowedBelow(fee + 1, c, reward, minerFee);
    }
  }

  lemma AllowedBelow(c: nat, d: nat, reward: nat, minerFee: nat)
    ensures c <= d && Allowed(d, reward, minerFee) ==> Allowed(c, reward, minerFee)
  {
  }

  // The unique pool part.
  ghost function Pool(reward: nat, minerFee: nat): (c: nat)
    ensures PoolPart(c, reward, minerFee)
  {
    PoolPartIs(reward, minerFee);
    var c: nat :| PoolPart(c, reward, minerFee);
    c
  }

  // What one of n mints of a block gets: the reward less the pool's part, divided and rounded down.
  ghost predicate MintPart(value: nat, reward: nat, info: BlockInfo) {
    && info.mints * value <= reward - Pool(reward, info.minerFee)
    && reward - Pool(reward, info.minerFee) < info.mints * value + info.mints
  }

  lemma MintPartIs(reward: nat, info: BlockInfo)
    requires info.mints > 0
    ensures MintPart(Share(reward, info), reward, info)
  {
    PoolPartIs(reward, info.minerFee);
    SharesFit(reward, info);
  }

  // What the first split mint of a height adds to the pool, and what later ones do.
  ghost function Credit(s: Storage, height: Height, info: BlockInfo): nat {
    if height in s.upgradedSeen then 0 else Pool(BlockReward(height), info.minerFee)
  }

  lemma CreditIs(s: Storage, height: Height, info: BlockInfo)
    ensures FeeCredit(s, height, info) == Credit(s, height, info)
  {
    PoolPartIs(BlockReward(height), info.minerFee);
  }

  // An answered split mint pays its part to the caller and, if it is the first of its height, the pool's part into
  // the pool; both are new supply. The height and the transaction are used up and nothing else changes.
  lemma SplitMintPays(s: Storage, blocks: Height -> BlockInfo, call: Call) returns (value: nat)
    requires call.Mint? && s.upgraded && Step(s, blocks, call).result.Returned?
    ensures MintPart(value, BlockReward(call.height), blocks(call.height))
    ensures Step(s, blocks, call).result == Returned(call.incoming + [Transfer(MYSELF, value)])
    ensures var credit := Credit(s, call.height, blocks(call.height));
      Step(s, blocks, call).storage ==
      s.(upgradedSeen := s.upgradedSeen + {call.height}, usedTxs := s.usedTxs + {call.txid},
         fees := s.fees + credit, totalSupply := s.totalSupply + credit + value)
  {
    hide BlockReward, Share, DieselFee, MintPart, Pool, Credit, FeeCredit;
    value := Share(BlockReward(call.height), blocks(call.height));
    MintPartIs(BlockReward(call.height), blocks(call.height));
    CreditIs(s, call.height, blocks(call.height));
  }

  // In every run of funded calls, these are the outcomes of the next mint: before the upgrade the legacy ones,
  // and after it a split mint is answered exactly if it comes first in its protostone, from a transaction that
  // has not minted, in a block without legacy mint, and the supply with the pool's part stays under the cap.
  lemma MintOutcome(g: Height, incoming: Parcel, blocks: Height -> BlockInfo, calls: seq<Call>, call: Call)
    requires OwnIn(incoming) == 0 && Funded(Begin(g, incoming, blocks), blocks, calls, g)
    requires Admissible(Run(Begin(g, incoming, blocks), blocks, calls), call, g) && call.Mint?
    ensures var s := Run(Begin(g, incoming, blocks), blocks, calls).storage;
      var result, info := Step(s, blocks, call).result, blocks(call.height);
      if !s.upgraded then
        if call.height in s.seen then result == Threw(AlreadyMinted)
        else if s.totalSupply >= 156_250_000_000_000 then result == Threw(SupplyReached)
        else result == Returned(call.incoming + [Transfer(MYSELF, BlockReward(call.height))])
      else if !call.fromEoa then result == Threw(NotFromEoa)
      else if call.txid in s.usedTxs then result == Threw(TransactionUsed)
      else if call.height in s.seen then result == Threw(LegacyMintInBlock)
      else if info.mints == 0 then result == Threw(DivisionByZero)
      else if s.totalSupply + Credit(s, call.height, info) >= 156_250_000_000_000 then result == Threw(SupplyReached)
      else result.Returned?
  {
    hide BlockReward, Share, DieselFee, Pool, Credit, FeeCredit, Run, Funded, Begin, Admissible;
    NeverOverflows(g, incoming, blocks, calls, call);
    CreditIs(Run(Begin(g, incoming, blocks), blocks, calls).storage, call.height, blocks(call.height));
  }

  // ---- The other calls ----

  // Only an owner collects, and gets exactly the pool, which is empty afterwards.
  lemma CollectOutcome(s: Storage, blocks: Height -> BlockInfo, owner: bool, incoming: Parcel)
    ensures Step(s, blocks, CollectFees(owner, incoming)) ==
      if owner then Effect(s.(fees := 0), Returned(incoming + [Transfer(MYSELF, s.fees)]))
      else Effect(s, Threw(NotOwner))
  {
  }

  // The upgrade happens once, with one transfer of exactly the premine among those that come in, and an auth
  // token that is deployed; it changes nothing but the flag.
  lemma UpgradeOutcome(s: Storage, blocks: Height -> BlockInfo, incoming: Parcel, token: Option<Transfer>)
    ensures var e := Step(s, blocks, Upgrade(incoming, token));
      if Transfer(MYSELF, 44_000_000_000_000) !in incoming then e == Effect(s, Threw(PremineNotSpent))
      else if s.upgraded then e == Effect(s, Threw(AlreadyUpgraded))
      else if token.None? then e == Effect(s, Threw(DeployFailed))
      else e == Effect(s.(upgraded := true), Returned(incoming + [token.value]))
  {
  }

  // The genesis call happens once and hands out the premine, which is then the supply.
  lemma GenesisOutcome(s: Storage, blocks: Height -> BlockInfo, height: Height, incoming: Parcel)
    ensures var e := Step(s, blocks, Initialize(height, incoming));
      if height in s.seen then e == Effect(s, Threw(AlreadyMinted))
      else if s.initialized then e == Effect(s, Threw(AlreadyInitialized))
      else e == Effect(s.(seen := s.seen + {height}, initialized := true, totalSupply := 44_000_000_000_000),
                       Returned(incoming + [Transfer(MYSELF, 44_000_000_000_000)]))
  {
  }

  // A burn that is answered hands every transfer back in its place, own ones less the amount.
  lemma {:induction false} BurnReturns(supply: nat, amount: nat, incoming: Parcel, i: nat, out: Parcel)
    requires i <= |incoming| && |out| == i && BurnFrom(supply, amount, incoming, i, out).Returned?
    ensures var back := BurnFrom(supply, amount, incoming, i, out).value.1;
      && |back| == |incoming| && back[..i] == out
      && forall j :: i <= j < |incoming| ==>
        back[j].id == incoming[j].id
        && back[j].value == incoming[j].value - if incoming[j].id == MYSELF then amount else 0
    decreases |incoming| - i
  {
    if i < |incoming| {
      var t := incoming[i];
      var next := if t.id == MYSELF then Transfer(MYSELF, t.value - amount) else t;
      var left := if t.id == MYSELF then supply - amount else supply;
      BurnReturns(left, amount, incoming, i + 1, out + [next]);
      var back := BurnFrom(supply, amount, incoming, i, out).value.1;
      assert back[..i + 1] == out + [next] && back[i] == back[..i + 1][i] && back[..i] == back[..i + 1][..i];
    }
  }

  // ---- Where the pool comes from ----

  // What the successful collections of a run took out.
  function Collected(w: World, blocks: Height -> BlockInfo, calls: seq<Call>): nat {
    if calls == [] then 0
    else
      var front, last := calls[..|calls| - 1], calls[|calls| - 1];
      Collected(w, blocks, front) +
      if last.CollectFees? && last.owner then Run(w, blocks, front).storage.fees else 0
  }

  // The pool parts of the given heights below hi.
  ghost function PoolParts(heights: set<Height>, blocks: Height -> BlockInfo, hi: nat): nat
    requires hi <= 128 * HALVING
  {
    if hi == 0 then 0
    else
      PoolParts(heights, blocks, hi - 1) +
      if hi - 1 in heights then Pool(BlockReward(hi - 1), blocks(hi - 1).minerFee) else 0
  }

  lemma {:induction false} PoolPartsAdd(heights: set<Height>, blocks: Height -> BlockInfo, hi: nat, h: Height)
    requires hi <= 128 * HALVING
    ensures PoolParts(heights + {h}, blocks, hi) == PoolParts(heights, blocks, hi)
      + if h < hi && h !in heights then Pool(BlockReward(h), blocks(h).minerFee) else 0
    decreases hi
  {
    hide Pool, BlockReward;
    if hi > 0 {
      PoolPartsAdd(heights, blocks, hi - 1, h);
    }
  }

  lemma {:induction false} NoPoolParts(blocks: Height -> BlockInfo, hi: nat)
    requires hi <= 128 * HALVING
    ensures PoolParts({}, blocks, hi) == 0
    decreases hi
  {
    if hi > 0 {
      NoPoolParts(blocks, hi - 1);
    }
  }

  // What one call does to the pool and to the heights that have paid into it.
  lemma PoolStep(s: Storage, blocks: Height -> BlockInfo, call: Call)
    ensures var t := Step(s, blocks, call).storage;
      t.fees + (if call.CollectFees? && call.owner then s.fees else 0) == s.fees +
        (if t.upgradedSeen != s.upgradedSeen then Pool(BlockReward(call.height), blocks(call.height).minerFee) else 0)
    ensures var t := Step(s, blocks, call).storage;
      t.upgradedSeen != s.upgradedSeen ==>
        call.Mint? && call.height !in s.upgradedSeen && t.upgradedSeen == s.upgradedSeen + {call.height}
  {
    hide BlockReward, Share, DieselFee, Pool, MintPart, BurnFrom;
    if call.Mint? && s.upgraded && Step(s, blocks, call).result.Returned? {
      var value := SplitMintPays(s, blocks, call);
      assert call.height in s.upgradedSeen ==> s.upgradedSeen + {call.height} == s.upgradedSeen;
    }
  }

  // Over every run, pool and collections together are the pool parts of the heights with split mints, each once.
  lemma {:induction false} PoolBalance(g: Height, incoming: Parcel, blocks: Height -> BlockInfo, calls: seq<Call>)
    ensures var w := Run(Begin(g, incoming, blocks), blocks, calls);
      w.storage.fees + Collected(Begin(g, incoming, blocks), blocks, calls)
      == PoolParts(w.storage.upgradedSeen, blocks, 128 * HALVING)
    decreases |calls|
  {
    hide BlockReward, Pool, PoolParts, Step;
    if calls == [] {
      NoPoolParts(blocks, 128 * HALVING);
      BeginStorage(g, incoming, blocks);
    } else {
      var front, last := calls[..|calls| - 1], calls[|calls| - 1];
      PoolBalance(g, incoming, blocks, front);
      var s := Run(Begin(g, incoming, blocks), blocks, front).storage;
      PoolStep(s, blocks, last);
      StepThrows(s, blocks, last);
      if last.Mint? {
        PoolPartsAdd(s.upgradedSeen, blocks, 128 * HALVING, last.height);
      }
    }
  }

  lemma StepThrows(s: Storage, blocks: Height -> BlockInfo, call: Call)
    ensures Step(s, blocks, call).result.Threw? ==> Step(s, blocks, call).storage == s
    ensures call.CollectFees? && call.owner ==> Step(s, blocks, call).result.Returned?
  {
  }

  lemma BeginStorage(g: Height, incoming: Parcel, blocks: Height -> BlockInfo)
    ensures Begin(g, incoming, blocks).storage.fees == 0 && Begin(g, incoming, blocks).storage.upgradedSeen == {}
  {
  }

  // In every run a height with split mints has emitted the pool's part and one mint's part for each of them.
  lemma SplitHeight(g: Height, incoming: Parcel, blocks: Height -> BlockInfo, calls: seq<Call>, h: Height)
    returns (value: nat)
    requires OwnIn(incoming) == 0 && Funded(Begin(g, incoming, blocks), blocks, calls, g)
    requires h in Run(Begin(g, incoming, blocks), blocks, calls).storage.upgradedSeen
    ensures MintPart(value, BlockReward(h), blocks(h))
    ensures var w := Run(Begin(g, incoming, blocks), blocks, calls);
      EmittedAt(w, h) == Pool(BlockReward(h), blocks(h).minerFee) + |MintersAt(w, h)| * value
  {
    hide BlockReward, Pool, MintPart, Run, Funded;
    RunOk(g, incoming, blocks, calls);
    assert HeightOk(Run(Begin(g, incoming, blocks), blocks, calls), blocks, g, h);
    value := Share(BlockReward(h), blocks(h));
    MintPartIs(BlockReward(h), blocks(h));
    PoolPartIs(BlockReward(h), blocks(h).minerFee);
    PoolIs(BlockReward(h), blocks(h).minerFee);
  }

  lemma PoolIs(reward: nat, minerFee: nat)
    ensures Pool(reward, minerFee) == DieselFee(reward, minerFee)
  {
    PoolPartIs(reward, minerFee);
  }
}
