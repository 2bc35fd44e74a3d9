// The legacy DIESEL contract on mainnet: one mint per block height, a premine at its genesis call.
module DieselLegacy {
  import opened Common
  import opened DieselSchedule
  import opened Parcels

  datatype Error = AlreadyMinted | AlreadyInitialized | Overflow | SupplyReached

  datatype Storage = Storage(seen: set<Height>, totalSupply: nat, initialized: bool)

  const EMPTY := Storage({}, 0, false)

  // The premine, with the program's checked subtraction and multiplication.
  function Premine(height: nat): Outcome<nat, Error> {
    if height < GENESIS then Threw(Overflow)
    else if (height - GENESIS) * AVERAGE_PAYOUT >= U128 then Threw(Overflow)
    else Returned((height - GENESIS) * AVERAGE_PAYOUT)
  }

  datatype Call = Initialize(height: Height, incoming: Parcel) | Mint(height: Height, incoming: Parcel)

  // The storage after a call and the parcel it hands out: what came in, and what is new. A call that fails
  // leaves no trace.
  datatype Effect = Effect(storage: Storage, result: Outcome<Parcel, Error>)

  function Step(s: Storage, call: Call): Effect {
    if call.height in s.seen then Effect(s, Threw(AlreadyMinted))
    else
      match call
      case Initialize(height, incoming) =>
        if s.initialized then Effect(s, Threw(AlreadyInitialized))
        else if Premine(height).Threw? then Effect(s, Threw(Premine(height).error))
        else if s.totalSupply + Premine(height).value >= U128 then Effect(s, Threw(Overflow))
        else Effect(Storage(s.seen + {height}, s.totalSupply + Premine(height).value, true),
                    Returned(incoming + [Transfer(MYSELF, Premine(height).value)]))
      case Mint(height, incoming) =>
        if s.totalSupply >= MAX_SUPPLY then Effect(s, Threw(SupplyReached))
        else Effect(s.(seen := s.seen + {height}, totalSupply := (s.totalSupply + BlockReward(height)) % U128),
                    Returned(incoming + [Transfer(MYSELF, BlockReward(height))]))
  }

  function Run(s: Storage, calls: seq<Call>): Storage {
    if calls == [] then s else Step(Run(s, calls[..|calls| - 1]), calls[|calls| - 1]).storage
  }

  // The contract as the program runs it: storage written step by step, and put back by the runtime when
  // the call returns an error.
  class Contract {
    var seen: set<Height>
    var totalSupply: nat
    var initialized: bool

    ghost function Value(): Storage
      reads this
    {
      Storage(seen, totalSupply, initialized)
    }

    constructor ()
      ensures Value() == EMPTY
    {
      seen, totalSupply, initialized := {}, 0, false;
    }

    method ObserveMint(height: Height) returns (failure: Option<Error>)
      modifies this`seen
      ensures failure == if height in old(seen) then Some(AlreadyMinted) else None
      ensures seen == old(seen) + {height}
    {
      if height in seen {
        return Some(AlreadyMinted);
      }
      seen := seen + {height};
      return None;
    }

    method ObserveInitialization() returns (failure: Option<Error>)
      modifies this`initialized
      ensures failure == if old(initialized) then Some(AlreadyInitialized) else None
      ensures initialized
    {
      if initialized {
        return Some(AlreadyInitialized);
      }
      initialized := true;
      return None;
    }

    method RunInitialize(height: Height, incoming: Parcel) returns (result: Outcome<Parcel, Error>)
      modifies this
      ensures result == Step(old(Value()), Initialize(height, incoming)).result
      ensures result.Returned? ==> Value() == Step(old(Value()), Initialize(height, incoming)).storage
    {
      var failure := ObserveMint(height);
      if failure.Some? {
        return Threw(failure.value);
      }
      failure := ObserveInitialization();
      if failure.Some? {
        return Threw(failure.value);
      }
      var response := incoming;
      var premine := Premine(height);
      if premine.Threw? {
        return Threw(premine.error);
      }
      response := response + [Transfer(MYSELF, premine.value)];
      if totalSupply + premine.value >= U128 {
        return Threw(Overflow);
      }
      totalSupply := totalSupply + premine.value;
      return Returned(response);
    }

    method RunMint(height: Height, incoming: Parcel) returns (result: Outcome<Parcel, Error>)
      modifies this
      ensures result == Step(old(Value()), Mint(height, incoming)).result
      ensures result.Returned? ==> Value() == Step(old(Value()), Mint(height, incoming)).storage
    {
      var failure := ObserveMint(height);
      if failure.Some? {
        return Threw(failure.value);
      }
      var value := BlockReward(height);
      if totalSupply >= MAX_SUPPLY {
        return Threw(SupplyReached);
      }
      totalSupply := (totalSupply + value) % U128;
      return Returned(incoming + [Transfer(MYSELF, value)]);
    }

    method Execute(call: Call) returns (result: Outcome<Parcel, Error>)
      modifies this
      ensures Effect(Value(), result) == Step(old(Value()), call)
    {
      var before := (seen, totalSupply, initialized);
      match call {
        case Initialize(height, incoming) => result := RunInitialize(height, incoming);
        case Mint(height, incoming) => result := RunMint(height, incoming);
      }
      if result.Threw? {
        seen, totalSupply, initialized := before.0, before.1, before.2;
      }
    }
  }

  // The rewards of the heights in seen between lo and hi.
  function SumSeen(seen: set<Height>, lo: nat, hi: Height): nat {
    if hi <= lo then 0 else SumSeen(seen, lo, hi - 1) + if hi - 1 in seen then BlockReward(hi - 1) else 0
  }

  lemma {:induction false} SumSeenAdd(seen: set<Height>, h: Height, lo: nat, hi: Height)
    requires h !in seen
    ensures SumSeen(seen + {h}, lo, hi) == SumSeen(seen, lo, hi) + if lo <= h < hi then BlockReward(h) else 0
    decreases hi
  {
    if lo < hi {
      SumSeenAdd(seen, h, lo, hi - 1);
    }
  }

  lemma {:induction false} SumSeenWithin(seen: set<Height>, lo: nat, hi: Height)
    ensures SumSeen(seen, lo, hi) <= SumRewards(lo, hi)
    decreases hi
  {
    if lo < hi {
      SumSeenWithin(seen, lo, hi - 1);
    }
  }

  // The state after a genesis call, whatever it brings in.
  function Genesis(g: Height): Storage {
    Step(EMPTY, Initialize(g, [])).storage
  }

  lemma GenesisForwards(g: Height, brought: Parcel)
    ensures Step(EMPTY, Initialize(g, brought)).storage == Genesis(g)
  {
  }

  ghost predicate Within(calls: seq<Call>, g: nat, hi: nat) {
    forall i :: 0 <= i < |calls| ==> g <= calls[i].height < hi
  }

  // The supply is the premine and the rewards of exactly the heights that were minted.
  ghost predicate Accounted(s: Storage, g: Height, hi: Height) {
    && s.initialized
    && g in s.seen
    && (forall h :: h in s.seen ==> g <= h < hi)
    && Premine(g).Returned?
    && s.totalSupply == Premine(g).value + SumSeen(s.seen, g + 1, hi)
  }

  lemma GenesisAccounted(g: Height, hi: Height)
    requires GENESIS <= g < hi
    ensures Step(EMPTY, Initialize(g, [])).result.Returned? && Accounted(Genesis(g), g, hi)
  {
    SeenOnly(g, hi);
    assert EMPTY.seen + {g} == {g};
  }

  lemma {:induction false} SeenOnly(g: Height, hi: Height)
    ensures SumSeen({g}, g + 1, hi) == 0
    decreases hi
  {
    if g + 1 < hi {
      SeenOnly(g, hi - 1);
    }
  }

  // Genesis at 880002 or before keeps the supply within the schedule, hence under the cap.
  lemma SupplyWithinSchedule(s: Storage, g: Height, hi: Height)
    requires Accounted(s, g, hi) && GENESIS <= g <= 880_002
    ensures s.totalSupply <= SumRewards(GENESIS, hi) < MAX_SUPPLY
  {
    PremineCovered(g);
    SumSeenWithin(s.seen, g + 1, hi);
    SumSplits(GENESIS, g + 1, hi);
    ScheduleBelowCap(hi);
  }

  lemma StepAccounted(s: Storage, g: Height, hi: Height, call: Call)
    requires Accounted(s, g, hi) && g <= call.height < hi
    requires s.totalSupply + BlockReward(call.height) < U128 || s.totalSupply >= MAX_SUPPLY
    ensures Accounted(Step(s, call).storage, g, hi)
  {
    if call.height !in s.seen {
      SumSeenAdd(s.seen, call.height, g + 1, hi);
    }
  }

  lemma {:induction false} RunAccounted(g: Height, hi: Height, calls: seq<Call>)
    requires GENESIS <= g < hi && g <= 880_002 && Within(calls, g, hi)
    ensures Accounted(Run(Genesis(g), calls), g, hi)
    decreases |calls|
  {
    if calls == [] {
      GenesisAccounted(g, hi);
    } else {
      var before := Run(Genesis(g), calls[..|calls| - 1]);
      RunAccounted(g, hi, calls[..|calls| - 1]);
      SupplyWithinSchedule(before, g, hi);
      RewardAtMost(0, calls[|calls| - 1].height);
      StepAccounted(before, g, hi, calls[|calls| - 1]);
    }
  }

  // Every run from a genesis call up to height 880002: the supply is the premine plus the minted rewards,
  // stays within the schedule and under the cap, and a mint fails only because its height was minted before.
  lemma LegacySupply(g: Height, brought: Parcel, hi: Height, calls: seq<Call>, height: Height, incoming: Parcel)
    requires GENESIS <= g <= 880_002 && Within(calls, g, hi) && g < hi && g <= height < hi
    ensures var s := Run(Step(EMPTY, Initialize(g, brought)).storage, calls);
      && s.totalSupply == (g - GENESIS) * AVERAGE_PAYOUT + SumSeen(s.seen, g + 1, hi)
      && s.totalSupply <= SumRewards(GENESIS, hi) < MAX_SUPPLY
      && Step(s, Mint(height, incoming)).result ==
           if height in s.seen then Threw(AlreadyMinted)
           else Returned(incoming + [Transfer(MYSELF, BlockReward(height))])
  {
    GenesisForwards(g, brought);
    RunAccounted(g, hi, calls);
    SupplyWithinSchedule(Run(Genesis(g), calls), g, hi);
  }

  // Mints at every height after g, n of them.
  function MintAll(g: nat, n: nat): (calls: seq<Call>)
    requires g + n < 128 * HALVING
    ensures |calls| == n
  {
    if n == 0 then [] else MintAll(g, n - 1) + [Mint(g + n, [])]
  }

  // Every height after genesis up to h has been minted in full, or the cap has been reached on the way.
  ghost predicate MintedTo(s: Storage, g: nat, h: nat)
    requires g >= GENESIS
  {
    && (forall x :: x in s.seen ==> x <= h)
    && (s.totalSupply >= MAX_SUPPLY || s.totalSupply == (g - GENESIS) * AVERAGE_PAYOUT + SumRewards(g + 1, h + 1))
  }

  lemma MintNext(s: Storage, g: nat, h: Height)
    requires GENESIS <= g < h && MintedTo(s, g, h - 1)
    ensures MintedTo(Step(s, Mint(h, [])).storage, g, h)
  {
    hide BlockReward;
    RewardAtMost(0, h);
  }

  lemma {:induction false} MintAllSupply(g: Height, n: nat)
    requires g >= GENESIS && g + n < 128 * HALVING
    ensures Within(MintAll(g, n), g, g + n + 1)
    ensures MintedTo(Run(Genesis(g), MintAll(g, n)), g, g + n)
    decreases n
  {
    hide MintedTo, Step, Genesis;
    if n == 0 {
      GenesisMinted(g);
    } else {
      MintAllSupply(g, n - 1);
      var front := MintAll(g, n - 1);
      assert MintAll(g, n) == front + [Mint(g + n, [])];
      hide MintAll, Run;
      RunMore(Genesis(g), front, Mint(g + n, []));
      MintNext(Run(Genesis(g), front), g, g + n);
    }
  }

  lemma RunMore(s: Storage, calls: seq<Call>, call: Call)
    ensures Run(s, calls + [call]) == Step(Run(s, calls), call).storage
  {
    assert (calls + [call])[..|calls|] == calls;
  }

  lemma GenesisMinted(g: Height)
    requires g >= GENESIS
    ensures MintedTo(Genesis(g), g, g)
  {
    assert SumRewards(g + 1, g + 1) == 0;
  }

  // A later genesis call overdraws the schedule: minting every block from there ends in "total supply reached".
  lemma LateGenesisReachesCap(g: Height, n: nat)
    requires g > 880_002 && g + n + 1 < 128 * HALVING && g + n + 1 >= 33 * HALVING
    ensures var s := Run(Genesis(g), MintAll(g, n));
      Within(MintAll(g, n), g, g + n + 1) && Step(s, Mint(g + n + 1, [])).result == Threw(SupplyReached)
  {
    MintAllSupply(g, n);
    PremineCovered(g);
    SumSplits(GENESIS, g + 1, g + n + 1);
    SumSplits(GENESIS, 33 * HALVING, g + n + 1);
    ScheduleExhausted();
  }

  ghost predicate CapReachable(g: Height) {
    exists hi: Height, calls: seq<Call>, height: Height, incoming: Parcel ::
      Within(calls, g, hi) && g <= height < 128 * HALVING
      && Step(Run(Genesis(g), calls), Mint(height, incoming)).result == Threw(SupplyReached)
  }

  // "Total supply has been reached" can be returned in some run exactly when the genesis call comes after
  // height 880002 (with one block left to mint in before the last height of the model).
  lemma CapReachableIff(g: Height)
    requires GENESIS <= g < 128 * HALVING - 2
    ensures CapReachable(g) <==> g > 880_002
  {
    if g > 880_002 {
      var n := if g + 1 >= 33 * HALVING then 0 else 33 * HALVING - g - 1;
      LateGenesisReachesCap(g, n);
      var hi: Height, height: Height := g + n + 1, g + n + 1;
      assert Within(MintAll(g, n), g, hi);
    } else if CapReachable(g) {
      var hi: Height, calls: seq<Call>, height: Height, incoming: Parcel :|
        Within(calls, g, hi) && g <= height < 128 * HALVING
        && Step(Run(Genesis(g), calls), Mint(height, incoming)).result == Threw(SupplyReached);
      var top: Height := 128 * HALVING - 1;
      assert Within(calls, g, top);
      RunAccounted(g, top, calls);
      SupplyWithinSchedule(Run(Genesis(g), calls), g, top);
    }
  }
}
