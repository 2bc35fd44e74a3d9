// The upgraded DIESEL contract on mainnet: after the upgrade a block's reward is split between a fee pool
// and the block's mints, one per transaction; tokens can be burned and the pool collected.
module DieselUpgraded {
  import opened Common
  import opened DieselSchedule
  import opened Parcels

  type Txid = nat

  const PREMINE := 44_000_000_000_000

  datatype Error =
    | AlreadyMinted | AlreadyInitialized | Overflow | SupplyReached | NotFromEoa | TransactionUsed
    | LegacyMintInBlock | DivisionByZero | PremineNotSpent | AlreadyUpgraded | DeployFailed | NotOwner | BurnTooLarge

  // What the block tells every call in it: how many mints it holds and what its miner earned.
  datatype BlockInfo = BlockInfo(mints: nat, minerFee: nat)

  datatype Storage = Storage(
    seen: set<Height>, upgradedSeen: set<Height>, totalSupply: nat, fees: nat, usedTxs: set<Txid>,
    initialized: bool, upgraded: bool)

  const EMPTY := Storage({}, {}, 0, 0, {}, false, false)

  datatype Call =
    | Initialize(height: Height, incoming: Parcel)
    | Upgrade(incoming: Parcel, authToken: Option<Transfer>)
    | Mint(height: Height, txid: Txid, fromEoa: bool, incoming: Parcel)
    | CollectFees(owner: bool, incoming: Parcel)
    | Burn(amount: nat, incoming: Parcel)

  datatype Effect = Effect(storage: Storage, result: Outcome<Parcel, Error>)

  // The part of a block's reward that goes to the pool: the miner's earnings beyond the reward, up to half of it.
  function DieselFee(reward: nat, minerFee: nat): (fee: nat)
    ensures fee <= reward
  {
    var excess := if minerFee > reward then minerFee - reward else 0;
    if reward / 2 <= excess then reward / 2 else excess
  }

  function Share(reward: nat, info: BlockInfo): nat
    requires info.mints > 0
  {
    QuotientNonNegative(reward - DieselFee(reward, info.minerFee), info.mints);
    (reward - DieselFee(reward, info.minerFee)) / info.mints
  }

  function LegacyMint(s: Storage, height: Height, incoming: Parcel): Effect {
    if height in s.seen then Effect(s, Threw(AlreadyMinted))
    else if s.totalSupply >= MAX_SUPPLY then Effect(s, Threw(SupplyReached))
    else Effect(s.(seen := s.seen + {height}, totalSupply := (s.totalSupply + BlockReward(height)) % U128),
                Returned(incoming + [Transfer(MYSELF, BlockReward(height))]))
  }

  // The fee is credited by the first split mint of a block only.
  function FeeCredit(s: Storage, height: Height, info: BlockInfo): nat {
    if height in s.upgradedSeen then 0 else DieselFee(BlockReward(height), info.minerFee)
  }

  function SplitMint(s: Storage, info: BlockInfo, height: Height, txid: Txid, fromEoa: bool, incoming: Parcel): Effect {
    if !fromEoa then Effect(s, Threw(NotFromEoa))
    else if txid in s.usedTxs then Effect(s, Threw(TransactionUsed))
    else if height in s.seen then Effect(s, Threw(LegacyMintInBlock))
    else if info.mints == 0 then Effect(s, Threw(DivisionByZero))
    else
      var fee, value := FeeCredit(s, height, info), Share(BlockReward(height), info);
      if s.fees + fee >= U128 || s.totalSupply + fee >= U128 then Effect(s, Threw(Overflow))
      else if s.totalSupply + fee >= MAX_SUPPLY then Effect(s, Threw(SupplyReached))
      else if s.totalSupply + fee + value >= U128 then Effect(s, Threw(Overflow))
      else Effect(s.(upgradedSeen := s.upgradedSeen + {height}, usedTxs := s.usedTxs + {txid},
                     fees := s.fees + fee, totalSupply := s.totalSupply + fee + value),
                  Returned(incoming + [Transfer(MYSELF, value)]))
  }

  // The supply and the returned parcel after burning amount from each own transfer from i on.
  function BurnFrom(supply: nat, amount: nat, incoming: Parcel, i: nat, out: Parcel): Outcome<(nat, Parcel), Error>
    requires i <= |incoming|
    decreases |incoming| - i
  {
    if i == |incoming| then Returned((supply, out))
    else if incoming[i].id != MYSELF then BurnFrom(supply, amount, incoming, i + 1, out + [incoming[i]])
    else if amount > incoming[i].value then Threw(BurnTooLarge)
    else if amount > supply then Threw(Overflow)
    else BurnFrom(supply - amount, amount, incoming, i + 1, out + [Transfer(MYSELF, incoming[i].value - amount)])
  }

  predicate SpendsPremine(incoming: Parcel) {
    exists i :: 0 <= i < |incoming| && incoming[i] == Transfer(MYSELF, PREMINE)
  }

  function Step(s: Storage, blocks: Height -> BlockInfo, call: Call): Effect {
    match call
    case Initialize(height, incoming) =>
      if height in s.seen then Effect(s, Threw(AlreadyMinted))
      else if s.initialized then Effect(s, Threw(AlreadyInitialized))
      else Effect(s.(seen := s.seen + {height}, initialized := true, totalSupply := PREMINE),
                  Returned(incoming + [Transfer(MYSELF, PREMINE)]))
    case Upgrade(incoming, authToken) =>
      if !SpendsPremine(incoming) then Effect(s, Threw(PremineNotSpent))
      else if s.upgraded then Effect(s, Threw(AlreadyUpgraded))
      else if authToken.None? then Effect(s, Threw(DeployFailed))
      else Effect(s.(upgraded := true), Returned(incoming + [authToken.value]))
    case Mint(height, txid, fromEoa, incoming) =>
      if s.upgraded then SplitMint(s, blocks(height), height, txid, fromEoa, incoming)
      else LegacyMint(s, height, incoming)
    case CollectFees(owner, incoming) =>
      if !owner then Effect(s, Threw(NotOwner))
      else Effect(s.(fees := 0), Returned(incoming + [Transfer(MYSELF, s.fees)]))
    case Burn(amount, incoming) =>
      match BurnFrom(s.totalSupply, amount, incoming, 0, [])
      case Threw(error) => Effect(s, Threw(error))
      case Returned((supply, out)) => Effect(s.(totalSupply := supply), Returned(out))
  }

  // The contract as the program runs it, step by step over its storage, with the runtime's rollback.
  class Contract {
    var seen: set<Height>
    var upgradedSeen: set<Height>
    var totalSupply: nat
    var fees: nat
    var usedTxs: set<Txid>
    var initialized: bool
    var upgraded: bool

    ghost function Value(): Storage
      reads this
    {
      Storage(seen, upgradedSeen, totalSupply, fees, usedTxs, initialized, upgraded)
    }

    constructor ()
      ensures Value() == EMPTY
    {
      seen, upgradedSeen, totalSupply, fees, usedTxs, initialized, upgraded := {}, {}, 0, 0, {}, false, false;
    }

    method ObserveMint(height: Height) returns (failure: Option<Error>)
      modifies this`seen
      ensures failure == if height in old(seen) then Some(AlreadyMinted) else None
      ensures seen == old(seen) + {height}
    {
      if height in seen {
        return Some(AlreadyMinted);
      }
      seen := seen + {height};
      return None;
    }

    method ObserveUpgradedMint(height: Height, fee: nat) returns (failure: Option<Error>)
      requires fees < U128 && totalSupply < U128
      modifies this`upgradedSeen, this`fees, this`totalSupply
      ensures var credit := if height in old(upgradedSeen) then 0 else fee;
        && failure == (if credit > 0 && (old(fees) + credit >= U128 || old(totalSupply) + credit >= U128)
                       then Some(Overflow) else None)
        && (failure.None? ==> upgradedSeen == old(upgradedSeen) + {height} && fees == old(fees) + credit
                              && totalSupply == old(totalSupply) + credit)
    {
      failure := None;
      if height !in upgradedSeen {
        upgradedSeen := upgradedSeen + {height};
        if fees + fee >= U128 {
          return Some(Overflow);
        }
        fees := fees + fee;
        if totalSupply + fee >= U128 {
          return Some(Overflow);
        }
        totalSupply := totalSupply + fee;
      }
    }

    method CreateMintTransfer(height: Height) returns (r: Outcome<Transfer, Error>)
      modifies this
      ensures var e := LegacyMint(old(Value()), height, []);
        if e.result.Threw? then r == Threw(e.result.error)
        else r == Returned(e.result.value[0]) && Value() == e.storage
    {
      var failure := ObserveMint(height);
      if failure.Some? {
        return Threw(failure.value);
      }
      var value := BlockReward(height);
      if totalSupply >= MAX_SUPPLY {
        return Threw(SupplyReached);
      }
      totalSupply := (totalSupply + value) % U128;
      return Returned(Transfer(MYSELF, value));
    }

    method CreateUpgradedMintTransfer(info: BlockInfo, height: Height, txid: Txid, fromEoa: bool)
      returns (r: Outcome<Transfer, Error>)
      requires fees < U128 && totalSupply < U128
      modifies this
      ensures var e := SplitMint(old(Value()), info, height, txid, fromEoa, []);
        if e.result.Threw? then r == Threw(e.result.error)
        else r == Returned(e.result.value[0]) && Value() == e.storage
    {
      if !fromEoa {
        return Threw(NotFromEoa);
      }
      if txid in usedTxs {
        return Threw(TransactionUsed);
      }
      usedTxs := usedTxs + {txid};
      if height in seen {
        return Threw(LegacyMintInBlock);
      }
      var reward := BlockReward(height);
      var excess := if info.minerFee > reward then info.minerFee - reward else 0;
      var fee := if reward / 2 <= excess then reward / 2 else excess;
      if info.mints == 0 {
        return Threw(DivisionByZero);
      }
      QuotientNonNegative(reward - fee, info.mints);
      var value := (reward - fee) / info.mints;
      var failure := ObserveUpgradedMint(height, fee);
      if failure.Some? {
        return Threw(failure.value);
      }
      if totalSupply >= MAX_SUPPLY {
        return Threw(SupplyReached);
      }
      if totalSupply + value >= U128 {
        return Threw(Overflow);
      }
      totalSupply := totalSupply + value;
      return Returned(Transfer(MYSELF, value));
    }

    method BurnIncoming(amount: nat, incoming: Parcel) returns (r: Outcome<Parcel, Error>)
      modifies this`totalSupply
      ensures match BurnFrom(old(totalSupply), amount, incoming, 0, [])
        case Threw(error) => r == Threw(error)
        case Returned((supply, out)) => r == Returned(out) && totalSupply == supply
    {
      var out: Parcel := [];
      for i := 0 to |incoming|
        invariant BurnFrom(totalSupply, amount, incoming, i, out) == BurnFrom(old(totalSupply), amount, incoming, 0, [])
      {
        var transfer := incoming[i];
        if transfer.id == MYSELF {
          if amount > transfer.value {
            return Threw(BurnTooLarge);
          }
          out := out + [Transfer(MYSELF, transfer.value - amount)];
          if amount > totalSupply {
            return Threw(Overflow);
          }
          totalSupply := totalSupply - amount;
        } else {
          out := out + [transfer];
        }
      }
      return Returned(out);
    }

    method RunCall(blocks: Height -> BlockInfo, call: Call) returns (r: Outcome<Parcel, Error>)
      requires fees < U128 && totalSupply < U128
      modifies this
      ensures r == Step(old(Value()), blocks, call).result
      ensures r.Returned? ==> Value() == Step(old(Value()), blocks, call).storage
    {
      match call {
        case Initialize(height, incoming) =>
          var failure := ObserveMint(height);
          if failure.Some? {
            return Threw(failure.value);
          }
          if initialized {
            return Threw(AlreadyInitialized);
          }
          initialized := true;
          totalSupply := PREMINE;
          return Returned(incoming + [Transfer(MYSELF, PREMINE)]);
        case Upgrade(incoming, authToken) =>
          if !SpendsPremine(incoming) {
            return Threw(PremineNotSpent);
          }
          if upgraded {
            return Threw(AlreadyUpgraded);
          }
          upgraded := true;
          if authToken.None? {
            return Threw(DeployFailed);
          }
          return Returned(incoming + [authToken.value]);
        case Mint(height, txid, fromEoa, incoming) =>
          var minted;
          if upgraded {
            minted := CreateUpgradedMintTransfer(blocks(height), height, txid, fromEoa);
          } else {
            minted := CreateMintTransfer(height);
          }
          if minted.Threw? {
            return Threw(minted.error);
          }
          return Returned(incoming + [minted.value]);
        case CollectFees(owner, incoming) =>
          if !owner {
            return Threw(NotOwner);
          }
          r := Returned(incoming + [Transfer(MYSELF, fees)]);
          fees := 0;
        case Burn(amount, incoming) =>
          r := BurnIncoming(amount, incoming);
      }
    }

    method Execute(blocks: Height -> BlockInfo, call: Call) returns (r: Outcome<Parcel, Error>)
      requires fees < U128 && totalSupply < U128
      modifies this
      ensures Effect(Value(), r) == Step(old(Value()), blocks, call)
    {
      var before := (seen, upgradedSeen, totalSupply, fees, usedTxs, initialized, upgraded);
      r := RunCall(blocks, call);
      if r.Threw? {
        seen, upgradedSeen, totalSupply, fees, usedTxs, initialized, upgraded :=
          before.0, before.1, before.2, before.3, before.4, before.5, before.6;
      }
    }
  }
}
