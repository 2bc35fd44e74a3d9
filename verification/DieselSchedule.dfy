// The mainnet emission schedule of DIESEL: halving block rewards and what they add up to.
module DieselSchedule {

  const SUBSIDY := 5_000_000_000
  const HALVING := 210_000
  const GENESIS := 800_000
  const MAX_SUPPLY := 156_250_000_000_000

  // Heights at which the program's 128-bit shift is defined.
  type Height = h: nat | h < 128 * HALVING

  function Pow2(n: nat): (p: nat)
    ensures p > 0
  {
    if n == 0 then 1 else 2 * Pow2(n - 1)
  }

  lemma QuotientNonNegative(a: nat, d: nat)
    requires d > 0
    ensures a / d >= 0
  {
  }

  function BlockReward(h: nat): nat {
    QuotientNonNegative(SUBSIDY, Pow2(h / HALVING));
    SUBSIDY / Pow2(h / HALVING)
  }

  // The rewards of the blocks from lo up to, not including, hi.
  function SumRewards(lo: nat, hi: nat): nat {
    if hi <= lo then 0 else SumRewards(lo, hi - 1) + BlockReward(hi - 1)
  }

  lemma {:induction false} SumSplits(lo: nat, mid: nat, hi: nat)
    requires lo <= mid <= hi
    ensures SumRewards(lo, hi) == SumRewards(lo, mid) + SumRewards(mid, hi)
    decreases hi
  {
    if mid < hi {
      SumSplits(lo, mid, hi - 1);
    }
  }

  // Dividing by twice the divisor is halving the quotient.
  lemma HalfQuotient(a: nat, b: nat)
    requires b > 0
    ensures a / (2 * b) == (a / b) / 2
  {
    var q, r := a / b, a % b;
    var k, s := q / 2, q % 2;
    assert a == q * b + r;
    assert q == 2 * k + s;
    assert q * b == k * (2 * b) + s * b by {
      assert (2 * k + s) * b == k * (2 * b) + s * b;
    }
    var rest := s * b + r;
    assert 0 <= rest < 2 * b;
    QuotientIs(a, 2 * b, k, rest);
  }

  lemma QuotientIs(a: nat, d: nat, k: nat, rest: nat)
    requires d > 0 && a == k * d + rest && rest < d
    ensures a / d == k
  {
    var x := a / d - k;
    assert x * d == rest - a % d;
    assert x >= 1 ==> x * d >= d;
    assert x <= -1 ==> x * d + d <= 0;
  }

  // The reward is constant within an epoch and halves, rounded down, from one epoch to the next.
  lemma RewardSteps(h: nat)
    ensures (h + 1) % HALVING != 0 ==> BlockReward(h + 1) == BlockReward(h)
    ensures (h + 1) % HALVING == 0 ==> BlockReward(h + 1) == BlockReward(h) / 2
  {
    if (h + 1) % HALVING == 0 {
      assert (h + 1) / HALVING == h / HALVING + 1;
      HalfQuotient(SUBSIDY, Pow2(h / HALVING));
    } else {
      assert (h + 1) / HALVING == h / HALVING;
    }
  }

  lemma {:induction false} RewardAntitone(lo: nat, hi: nat)
    requires lo <= hi
    ensures BlockReward(hi) <= BlockReward(lo)
    decreases hi - lo
  {
    if lo < hi {
      RewardSteps(hi - 1);
      RewardAntitone(lo, hi - 1);
    }
  }

  lemma RewardAtMost(g: nat, h: nat)
    requires g <= h
    ensures BlockReward(h) <= BlockReward(g) <= SUBSIDY
  {
    RewardAntitone(g, h);
    RewardAntitone(0, g);
    assert BlockReward(0) == SUBSIDY;
  }

  lemma Powers()
    ensures Pow2(3) == 8 && Pow2(4) == 16 && Pow2(5) == 32 && Pow2(9) == 512
    ensures Pow2(33) == 0x2_0000_0000
  {
    assert Pow2(1) == 2;
    assert Pow2(3) == 8;
    assert Pow2(5) == 32;
    assert Pow2(7) == 128;
    assert Pow2(9) == 512;
    assert Pow2(13) == 16 * Pow2(9) by { assert Pow2(11) == 4 * Pow2(9); }
    assert Pow2(17) == 16 * Pow2(13) by { assert Pow2(15) == 4 * Pow2(13); }
    assert Pow2(21) == 16 * Pow2(17) by { assert Pow2(19) == 4 * Pow2(17); }
    assert Pow2(25) == 16 * Pow2(21) by { assert Pow2(23) == 4 * Pow2(21); }
    assert Pow2(29) == 16 * Pow2(25) by { assert Pow2(27) == 4 * Pow2(25); }
    assert Pow2(33) == 16 * Pow2(29) by { assert Pow2(31) == 4 * Pow2(29); }
  }

  // What the current epoch still has to give, plus one more full epoch at the same reward: a bound on
  // everything emitted from height h on.
  function Ahead(h: nat): int {
    BlockReward(h) * (HALVING - h % HALVING + HALVING)
  }

  lemma AheadStep(h: nat)
    ensures (h + 1) % HALVING != 0 ==> BlockReward(h) + Ahead(h + 1) == Ahead(h)
    ensures (h + 1) % HALVING == 0 ==>
      BlockReward(h) + Ahead(h + 1) == Ahead(h) - HALVING * (BlockReward(h) % 2)
  {
    RewardSteps(h);
    var r := BlockReward(h);
    if (h + 1) % HALVING != 0 {
      assert (h + 1) % HALVING == h % HALVING + 1;
      assert r + r * (2 * HALVING - (h % HALVING + 1)) == r * (2 * HALVING - h % HALVING);
    } else {
      assert h % HALVING == HALVING - 1;
      assert Ahead(h) == r * (HALVING + 1) == r * HALVING + r;
      assert Ahead(h + 1) == (r / 2) * (2 * HALVING);
    }
  }

  // Rewards from the genesis block on stay within the cap, and fall short of it by at most the halving
  // remainders of the epochs passed.
  lemma {:induction false} SumWithAhead(h: nat)
    requires h >= GENESIS
    ensures SumRewards(GENESIS, h) + Ahead(h) <= MAX_SUPPLY
    ensures h >= 10 * HALVING ==> SumRewards(GENESIS, h) + Ahead(h) <= MAX_SUPPLY - HALVING
    ensures SumRewards(GENESIS, h) + Ahead(h) >= MAX_SUPPLY - HALVING * (h / HALVING - 3)
    decreases h
  {
    Powers();
    if h == GENESIS {
      assert Ahead(GENESIS) == 625_000_000 * 250_000;
    } else {
      SumWithAhead(h - 1);
      AheadStep(h - 1);
      if h % HALVING == 0 {
        assert (h - 1) / HALVING == h / HALVING - 1;
        if h == 10 * HALVING {
          assert BlockReward(h - 1) == 9_765_625;
        }
      } else {
        assert (h - 1) / HALVING == h / HALVING;
      }
    }
  }

  // The cap is never attained, at any height.
  lemma ScheduleBelowCap(h: nat)
    requires h >= GENESIS
    ensures SumRewards(GENESIS, h) < MAX_SUPPLY
  {
    SumWithAhead(h);
    AheadAtLeast(h);
    if h < 10 * HALVING {
      Powers();
      RewardAntitone(h, 10 * HALVING - 1);
      assert BlockReward(10 * HALVING - 1) == 9_765_625;
    }
  }

  lemma AheadAtLeast(h: nat)
    ensures Ahead(h) >= BlockReward(h)
  {
    var r, n := BlockReward(h), HALVING - h % HALVING + HALVING;
    assert n >= 1;
    AtLeastOnce(r, n);
  }

  lemma AtLeastOnce(r: nat, n: int)
    requires n >= 1
    ensures r * n >= r
  {
  }

  // From height 33 * 210000 on nothing is emitted, and almost all of the cap has been.
  lemma ScheduleExhausted()
    ensures BlockReward(33 * HALVING) == 0
    ensures SumRewards(GENESIS, 33 * HALVING) >= MAX_SUPPLY - 30 * HALVING
  {
    Powers();
    assert (33 * HALVING) / HALVING == 33;
    SumWithAhead(33 * HALVING);
  }

  const AVERAGE_PAYOUT := 468_750_000

  // How far the premine of a genesis call at height g exceeds what the schedule grants up to and with g.
  function Excess(g: nat): int
    requires g >= GENESIS
  {
    (g - GENESIS) * AVERAGE_PAYOUT - SumRewards(GENESIS, g + 1)
  }

  lemma {:induction false} EarlySum(h: nat)
    requires GENESIS <= h <= 5 * HALVING
    ensures h <= 4 * HALVING ==> SumRewards(GENESIS, h) == (h - GENESIS) * 625_000_000
    ensures h >= 4 * HALVING ==> SumRewards(GENESIS, h) == 25_000_000_000_000 + (h - 4 * HALVING) * 312_500_000
    decreases h
  {
    if h > GENESIS {
      EarlySum(h - 1);
      Powers();
      assert (h - 1) / HALVING == if h <= 4 * HALVING then 3 else 4;
    }
  }

  // The premine is covered by the schedule exactly for genesis calls up to height 880002.
  lemma {:induction false} PremineCovered(g: nat)
    requires g >= GENESIS
    ensures Excess(g) <= 0 <==> g <= 880_002
    ensures g > 880_002 ==> Excess(g) >= 156_250_000
    decreases g
  {
    if g < 5 * HALVING {
      EarlySum(g + 1);
    } else {
      PremineCovered(g - 1);
      Powers();
      RewardAntitone(5 * HALVING, g);
      assert BlockReward(5 * HALVING) == 156_250_000;
    }
  }

  // Leaving out the genesis height itself, the premine is covered exactly up to height 880000.
  lemma {:induction false} PremineCoveredBefore(g: nat)
    requires g >= GENESIS
    ensures (g - GENESIS) * AVERAGE_PAYOUT <= SumRewards(GENESIS, g) <==> g <= 880_000
  {
    if g <= 5 * HALVING {
      EarlySum(g);
    } else {
      PremineCovered(g);
    }
  }
}
