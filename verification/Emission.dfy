// The block reward schedule and what it comes to.
module Emission {
  import opened Arith
  import opened Common

  const LAST_BLOCK: nat := 43702611
  const FIRST_REWARD: nat := 333
  const LAST_REWARD: nat := 68
  const STEP: nat := 200000
  const PIP: nat := 1_000_000_000_000_000_000
  const GENESIS_BIPS: nat := 200_000_000

  function BipToPip(bip: int): int { bip * PIP }

  /** The reward of a block at an absolute height. */
  function RewardAt(height: nat): int {
    if height > LAST_BLOCK then 0
    else if height == LAST_BLOCK then BipToPip(LAST_REWARD)
    else
      var reward := FIRST_REWARD - height / STEP;
      if reward < 1 then BipToPip(1) else BipToPip(reward)
  }

  /** The reward never sinks to the schedule's floor of one bip, and is never negative. */
  lemma RewardBounds(height: nat)
    ensures RewardAt(height) >= 0 && (height <= LAST_BLOCK ==> RewardAt(height) >= BipToPip(LAST_REWARD))
  {
    if height < LAST_BLOCK {
      assert height / STEP <= 218;
    }
  }

  /** The rewards of n blocks after the first m. */
  function Rewards(m: nat, n: nat): int {
    if n == 0 then 0 else Rewards(m, n - 1) + RewardAt(m + n)
  }

  lemma {:induction false} RewardsSplit(m: nat, n: nat)
    ensures Rewards(0, m + n) == Rewards(0, m) + Rewards(m, n)
  {
    hide RewardAt;
    if n > 0 {
      RewardsSplit(m, n - 1);
    }
  }

  /** The chain's own view: heights counted from a start height, and the rewards before it. */
  class Schedule {
    var startHeight: nat
    var beforeGenesis: int

    constructor ()
      ensures startHeight == 0 && beforeGenesis == 0
    {
      startHeight, beforeGenesis := 0, 0;
    }

    function GetRewardForBlock(height: nat): int
      reads this
    {
      RewardAt(height + startHeight)
    }

    /** Adds up the rewards of the heights skipped, as the schedule counts them so far. */
    method SetStartHeight(height: nat)
      modifies this
      ensures startHeight == height
      ensures beforeGenesis == old(beforeGenesis) + Rewards(old(startHeight), height)
    {
      hide RewardAt;
      for i := 1 to height + 1
        invariant startHeight == old(startHeight)
        invariant beforeGenesis == old(beforeGenesis) + Rewards(startHeight, i - 1)
      {
        beforeGenesis := beforeGenesis + GetRewardForBlock(i);
      }
      startHeight := height;
    }
  }

  // ---------------------------------------------------------------------------------
  // The closed form
  // ---------------------------------------------------------------------------------

  /** What the first n blocks bring in bips, while n < LAST_BLOCK; q and r are n / STEP and n % STEP. */
  function Emitted(n: int): int {
    var (q, r) := (n / STEP, n % STEP);
    FIRST_REWARD * n - (STEP * (q * (q - 1) / 2) + q * (r + 1))
  }

  lemma StepFacts(n: nat)
    requires n >= 1
    ensures n % STEP != 0 ==> n / STEP == (n - 1) / STEP && n % STEP == (n - 1) % STEP + 1
    ensures n % STEP == 0 ==> n / STEP == (n - 1) / STEP + 1 && (n - 1) % STEP == STEP - 1
  {
  }

  lemma HalfProduct(q: nat)
    ensures (q + 1) * q / 2 == q * (q - 1) / 2 + q
  {
    assert (q + 1) * q == q * (q - 1) + 2 * q;
  }

  lemma EmittedStep(n: nat)
    requires n >= 1
    ensures Emitted(n) == Emitted(n - 1) + FIRST_REWARD - n / STEP
  {
    var (q, r) := ((n - 1) / STEP, (n - 1) % STEP);
    StepFacts(n);
    if n % STEP == 0 {
      HalfProduct(q);
      NextQuotient(n, q);
    } else {
      SameQuotient(n, q, r);
    }
  }

  lemma NextQuotient(n: int, q: int)
    requires (q + 1) * q / 2 == q * (q - 1) / 2 + q
    ensures FIRST_REWARD * n - (STEP * ((q + 1) * (q + 1 - 1) / 2) + (q + 1) * (0 + 1))
         == FIRST_REWARD * (n - 1) - (STEP * (q * (q - 1) / 2) + q * (STEP - 1 + 1)) + FIRST_REWARD - (q + 1)
  {
    assert (q + 1) * (q + 1 - 1) == (q + 1) * q;
  }

  lemma SameQuotient(n: int, q: int, r: int)
    ensures FIRST_REWARD * n - (STEP * (q * (q - 1) / 2) + q * (r + 1 + 1))
         == FIRST_REWARD * (n - 1) - (STEP * (q * (q - 1) / 2) + q * (r + 1)) + FIRST_REWARD - q
  {
  }

  lemma QuotientBelow(n: nat)
    requires n < LAST_BLOCK
    ensures FIRST_REWARD - n / STEP >= 1
  {
  }

  lemma {:induction false} ClosedForm(n: nat)
    requires n < LAST_BLOCK
    ensures Rewards(0, n) == BipToPip(Emitted(n))
  {
    hide Emitted;
    if n == 0 {
      assert Emitted(0) == 0 by { EmittedZero(); }
    } else {
      ClosedForm(n - 1);
      EmittedStep(n);
      QuotientBelow(n);
      Scale(Emitted(n - 1), FIRST_REWARD - n / STEP);
    }
  }

  lemma EmittedZero()
    ensures Emitted(0) == 0
  {
  }

  lemma Scale(a: int, b: int)
    ensures (a + b) * PIP == a * PIP + b * PIP
  {
  }

  lemma LastRewards()
    ensures Emitted(LAST_BLOCK - 1) + LAST_REWARD == 9_800_000_000
  {
    assert (LAST_BLOCK - 1) / STEP == 218 && (LAST_BLOCK - 1) % STEP == 102610;
  }

  /** Ten billion in all, with the bips there are at genesis. */
  lemma {:induction false} EmissionCap(n: nat)
    requires n >= LAST_BLOCK
    ensures Rewards(0, n) + BipToPip(GENESIS_BIPS) == BipToPip(10_000_000_000)
  {
    if n == LAST_BLOCK {
      ClosedForm(n - 1);
      LastRewards();
      hide Emitted;
      Scale(Emitted(n - 1), LAST_REWARD);
    } else {
      EmissionCap(n - 1);
    }
  }

  /** From a fresh start, what is counted before genesis and since depends on the absolute height only. */
  method EmittedSince(start: nat, n: nat) returns (total: int)
    ensures total == Rewards(0, start + n)
    ensures start + n < LAST_BLOCK ==> total == BipToPip(Emitted(start + n))
    ensures start + n >= LAST_BLOCK ==> total + BipToPip(GENESIS_BIPS) == BipToPip(10_000_000_000)
  {
    hide RewardAt, Emitted;
    var schedule := new Schedule();
    schedule.SetStartHeight(start);
    total := schedule.beforeGenesis;
    for i := 1 to n + 1
      invariant schedule.startHeight == start
      invariant total == Rewards(0, start) + Rewards(start, i - 1)
    {
      total := total + schedule.GetRewardForBlock(i);
    }
    RewardsSplit(start, n);
    if start + n < LAST_BLOCK {
      ClosedForm(start + n);
    } else {
      EmissionCap(start + n);
    }
  }
}
