// Paying out accruals: to the funds, the validators and their delegators, to the last unit.
module Payout {
  import opened Arith
  import opened Common
  import opened Ledger
  import opened Slashing
  import opened StateDb
  import opened Staking

  const DAO: Address := 0x18467bbb64a8edf890201d526c35957d82be3d95
  const DEVELOPERS: Address := 0x04bea23efb744dc93b4fda4c20bf4a21c6e195f1
  const DAO_COMMISSION: int := 10
  const DEVELOPERS_COMMISSION: int := 10

  // ---------------------------------------------------------------------------------
  // Dividing by shares
  // ---------------------------------------------------------------------------------

  /** The part of an amount that a weight out of a total gets, rounded down. */
  function Portion(amount: int, weight: int, total: int): int {
    if weight == 0 || total == 0 then 0 else amount * weight / total
  }

  lemma PortionBounds(amount: int, weight: int, total: int)
    requires amount >= 0 && weight >= 0 && total >= weight
    ensures 0 <= Portion(amount, weight, total)
    ensures total * Portion(amount, weight, total) <= amount * weight
  {
    if weight != 0 {
      DivModFacts(amount * weight, total);
      MulMonotone(amount, 0, weight);
      NotBelowZero(total, amount * weight / total, amount * weight % total, amount * weight);
    } else {
      TimesZero(amount);
      TimesZero(total);
    }
  }

  lemma NotBelowZero(d: int, q: int, r: int, n: int)
    requires d > 0 && n >= 0 && n == d * q + r && 0 <= r < d
    ensures q >= 0
  {
    if q < 0 {
      MulMonotone(d, q, -1);
    }
  }

  /** Percentages of an amount, rounded down. */
  lemma PercentBounds(amount: int, percent: int)
    requires amount >= 0 && 0 <= percent <= 100
    ensures 0 <= amount * percent / 100 <= amount
  {
    KeptBounds(amount, percent);
  }

  // ---------------------------------------------------------------------------------
  // Paying one validator's accrual
  // ---------------------------------------------------------------------------------

  function DaoPart(accum: int): int { accum * DAO_COMMISSION / 100 }

  function DevelopersPart(accum: int): int { accum * DEVELOPERS_COMMISSION / 100 }

  function ValidatorPart(v: Validator): int {
    (v.accum - DevelopersPart(v.accum) - DaoPart(v.accum)) * v.commission / 100
  }

  /** What is left to be divided among the stakes. */
  function Pot(v: Validator): int { v.accum - DevelopersPart(v.accum) - DaoPart(v.accum) - ValidatorPart(v) }

  lemma PartsAreNotNegative(v: Validator)
    requires v.accum >= 0 && v.commission <= 100
    ensures DaoPart(v.accum) >= 0 && DevelopersPart(v.accum) >= 0 && ValidatorPart(v) >= 0 && Pot(v) >= 0
  {
    var rest := v.accum - DevelopersPart(v.accum) - DaoPart(v.accum);
    PercentBounds(rest, v.commission);
  }

  function StakeReward(v: Validator, s: Stake): int { Portion(Pot(v), s.bipValue, v.totalBip) }

  function StakeRewards(v: Validator, stakes: seq<Stake>): int {
    if stakes == [] then 0
    else StakeRewards(v, stakes[..|stakes| - 1]) + StakeReward(v, stakes[|stakes| - 1])
  }

  /** Every owner credited with the reward of each of its stakes. */
  function WithRewards(b: Balances, v: Validator, stakes: seq<Stake>): Balances {
    if stakes == [] then b
    else
      var s := stakes[|stakes| - 1];
      Credit(WithRewards(b, v, stakes[..|stakes| - 1]), s.owner, BASE, StakeReward(v, s))
  }

  function Remainder(v: Validator, stakes: seq<Stake>): int { Pot(v) - StakeRewards(v, stakes) }

  /** The rewards of stakes within the validator's total never come to more than the pot. */
  lemma {:induction false} RewardsScaled(v: Validator, stakes: seq<Stake>)
    requires Pot(v) >= 0 && v.totalBip >= 0
    requires forall j :: 0 <= j < |stakes| ==> 0 <= stakes[j].bipValue <= v.totalBip
    ensures v.totalBip * StakeRewards(v, stakes) <= Pot(v) * BipSum(stakes)
    ensures StakeRewards(v, stakes) >= 0
  {
    hide Pot, Portion;
    if stakes == [] {
      TimesZero(v.totalBip);
      TimesZero(Pot(v));
    } else {
      var n := |stakes| - 1;
      RewardsScaled(v, stakes[..n]);
      PortionBounds(Pot(v), stakes[n].bipValue, v.totalBip);
      Distribute(v.totalBip, StakeRewards(v, stakes[..n]), StakeReward(v, stakes[n]));
      Distribute(Pot(v), BipSum(stakes[..n]), stakes[n].bipValue);
    }
  }

  lemma {:induction false} NoRewards(v: Validator, stakes: seq<Stake>)
    requires v.totalBip == 0
    ensures StakeRewards(v, stakes) == 0
  {
    if stakes != [] {
      NoRewards(v, stakes[..|stakes| - 1]);
    }
  }

  lemma RemainderNotNegative(v: Validator, stakes: seq<Stake>)
    requires v.accum >= 0 && v.commission <= 100 && v.totalBip >= BipSum(stakes)
    requires forall j :: 0 <= j < |stakes| ==> stakes[j].bipValue >= 0
    ensures Remainder(v, stakes) >= 0
    ensures forall j :: 0 <= j < |stakes| && stakes[j].bipValue != 0 ==> v.totalBip != 0
    ensures forall j :: 0 <= j < |stakes| ==> StakeReward(v, stakes[j]) >= 0
  {
    hide Pot;
    PartsAreNotNegative(v);
    BipSumBounds(stakes, 0);
    forall j | 0 <= j < |stakes|
      ensures stakes[j].bipValue <= v.totalBip && StakeReward(v, stakes[j]) >= 0
    {
      BipSumBounds(stakes, j);
      PortionBounds(Pot(v), stakes[j].bipValue, v.totalBip);
    }
    RewardsScaled(v, stakes);
    if v.totalBip == 0 {
      NoRewards(v, stakes);
    } else {
      MulMonotone(Pot(v), BipSum(stakes), v.totalBip);
      NotAbove(v.totalBip, StakeRewards(v, stakes), Pot(v));
    }
  }

  lemma NotAbove(d: int, x: int, y: int)
    requires d > 0 && d * x <= y * d
    ensures x <= y
  {
    assert d * (y + 1) == y * d + d;
    if x > y {
      MulMonotone(d, y + 1, x);
    }
  }

  lemma {:induction false} WithRewardsHeld(b: Balances, v: Validator, stakes: seq<Stake>, c: Coin)
    ensures Held(WithRewards(b, v, stakes), c) == Held(b, c) + if c == BASE then StakeRewards(v, stakes) else 0
  {
    hide StakeReward;
    if stakes != [] {
      var n := |stakes| - 1;
      WithRewardsHeld(b, v, stakes[..n], c);
      HeldCredit(WithRewards(b, v, stakes[..n]), stakes[n].owner, BASE, StakeReward(v, stakes[n]), c);
    }
  }

  /** The balances once a validator's accrual is paid. */
  function PaidBalances(b: Balances, v: Validator, stakes: seq<Stake>): Balances {
    WithRewards(
      Credit(Credit(Credit(b, DAO, BASE, DaoPart(v.accum)), DEVELOPERS, BASE, DevelopersPart(v.accum)),
             v.rewardAddress, BASE, ValidatorPart(v)),
      v, stakes)
  }

  // ---------------------------------------------------------------------------------
  // Who is paid what
  // ---------------------------------------------------------------------------------

  /** The parts of a pot that the stakes of account a get, each by its base value and rounded down. */
  ghost function StakesPaid(stakes: seq<Stake>, pot: int, totalBip: int, a: Address): int {
    if stakes == [] then 0
    else
      var s := stakes[|stakes| - 1];
      StakesPaid(stakes[..|stakes| - 1], pot, totalBip, a)
      + if s.owner == a && s.bipValue != 0 && totalBip != 0 then pot * s.bipValue / totalBip else 0
  }

  /**
   * What account a gets of a validator's accrual: a tenth for each of the two funds, the commission on what is then
   * left for the reward address, and the rest by the stakes.
   */
  ghost function PayTo(v: Validator, stakes: seq<Stake>, a: Address): int {
    if v.accum <= 0 then 0
    else
      var tenth := v.accum * 10 / 100;
      var commission := (v.accum - 2 * tenth) * v.commission / 100;
      (if a == 0x18467bbb64a8edf890201d526c35957d82be3d95 then tenth else 0)
      + (if a == 0x04bea23efb744dc93b4fda4c20bf4a21c6e195f1 then tenth else 0)
      + (if a == v.rewardAddress then commission else 0)
      + StakesPaid(stakes, v.accum - 2 * tenth - commission, v.totalBip, a)
  }

  /** What account a gets of all accruals. */
  ghost function PaidTo(vals: seq<Validator>, cs: seq<Candidate>, a: Address): int {
    if vals == [] then 0
    else
      var v := vals[|vals| - 1];
      var k := CandidateIndex(cs, v.key);
      PaidTo(vals[..|vals| - 1], cs, a) + if k < |cs| then PayTo(v, cs[k].stakes, a) else 0
  }

  lemma {:induction false} WithRewardsBalance(b: Balances, v: Validator, stakes: seq<Stake>, a: Address, c: Coin)
    ensures BalanceOf(WithRewards(b, v, stakes), a, c)
         == BalanceOf(b, a, c) + if c == BASE then StakesPaid(stakes, Pot(v), v.totalBip, a) else 0
  {
    hide Pot;
    if stakes != [] {
      WithRewardsBalance(b, v, stakes[..|stakes| - 1], a, c);
    }
  }

  lemma PaidBalance(b: Balances, v: Validator, stakes: seq<Stake>, a: Address, c: Coin)
    requires v.accum > 0
    ensures BalanceOf(PaidBalances(b, v, stakes), a, c)
         == BalanceOf(b, a, c) + if c == BASE then PayTo(v, stakes, a) else 0
  {
    hide WithRewards, StakesPaid;
    var (dao, developers, own) := (DaoPart(v.accum), DevelopersPart(v.accum), ValidatorPart(v));
    var b3 := Credit(Credit(Credit(b, DAO, BASE, dao), DEVELOPERS, BASE, developers), v.rewardAddress, BASE, own);
    WithRewardsBalance(b3, v, stakes, a, c);
  }

  /** The books once validator i's accrual is paid: what is not paid is slashed. */
  function PaidBooks(b: Books, i: nat): Books
    requires i < |b.validators| && CandidateIndex(b.candidates, b.validators[i].key) < |b.candidates|
  {
    var v := b.validators[i];
    var stakes := b.candidates[CandidateIndex(b.candidates, v.key)].stakes;
    if v.accum <= 0 then b
    else b.(balances := PaidBalances(b.balances, v, stakes), validators := b.validators[i := v.(accum := 0)],
            slashed := b.slashed + Remainder(v, stakes))
  }

  lemma PaidConserves(b: Books, i: nat)
    requires i < |b.validators| && CandidateIndex(b.candidates, b.validators[i].key) < |b.candidates|
    ensures Conserves(b, PaidBooks(b, i))
  {
    hide Held, Reserves, Staked, Frozen, Accrued, DaoPart, DevelopersPart, ValidatorPart, StakeRewards, WithRewards,
         CandidateIndex;
    var v := b.validators[i];
    var stakes := b.candidates[CandidateIndex(b.candidates, v.key)].stakes;
    AccruedSet(b.validators, i, v.(accum := 0));
    forall c
      ensures Held(PaidBalances(b.balances, v, stakes), c)
           == Held(b.balances, c) + if c == BASE then v.accum - Remainder(v, stakes) else 0
    {
      var b1 := Credit(b.balances, DAO, BASE, DaoPart(v.accum));
      var b2 := Credit(b1, DEVELOPERS, BASE, DevelopersPart(v.accum));
      HeldCredit(b.balances, DAO, BASE, DaoPart(v.accum), c);
      HeldCredit(b1, DEVELOPERS, BASE, DevelopersPart(v.accum), c);
      HeldCredit(b2, v.rewardAddress, BASE, ValidatorPart(v), c);
      WithRewardsHeld(Credit(b2, v.rewardAddress, BASE, ValidatorPart(v)), v, stakes, c);
    }
  }

  /** Credits the stakes' owners and returns what is left of the remainder. */
  method PayStakes(s: StateDB, v: Validator, stakes: seq<Stake>, totalReward: int, due: int) returns (remainder: int)
    requires totalReward == Pot(v)
    requires forall j :: 0 <= j < |stakes| && stakes[j].bipValue != 0 ==> v.totalBip != 0
    requires forall j :: 0 <= j < |stakes| ==> StakeReward(v, stakes[j]) >= 0
    modifies s
    ensures s.State() == old(s.State()).(balances := WithRewards(old(s.balances), v, stakes))
    ensures forall a, c ::
      BalanceOf(s.balances, a, c)
      == BalanceOf(old(s.balances), a, c) + if c == BASE then StakesPaid(stakes, totalReward, v.totalBip, a) else 0
    ensures remainder == due - StakeRewards(v, stakes)
  {
    hide Pot, WithRewards, StakeRewards, StakeReward, StakesPaid, Credit;
    remainder := due;
    NoRewardsYet(s.balances, v, stakes);
    for j := 0 to |stakes|
      invariant s.State() == old(s.State()).(balances := WithRewards(old(s.balances), v, stakes[..j]))
      invariant remainder == due - StakeRewards(v, stakes[..j])
    {
      RewardsNext(old(s.balances), v, stakes, j);
      RewardIs(v, stakes[j]);
      CreditNone(s.balances, stakes[j].owner);
      var stake := stakes[j];
      if stake.bipValue == 0 {
        continue;
      }
      var reward := totalReward * stake.bipValue / v.totalBip;
      if reward < 1 {
        continue;
      }
      s.AddBalance(stake.owner, BASE, reward);
      remainder := remainder - reward;
    }
    assert stakes[..|stakes|] == stakes;
    forall a, c
      ensures BalanceOf(s.balances, a, c)
           == BalanceOf(old(s.balances), a, c) + if c == BASE then StakesPaid(stakes, totalReward, v.totalBip, a) else 0
    {
      WithRewardsBalance(old(s.balances), v, stakes, a, c);
    }
  }

  lemma NoRewardsYet(b: Balances, v: Validator, stakes: seq<Stake>)
    ensures WithRewards(b, v, stakes[..0]) == b && StakeRewards(v, stakes[..0]) == 0
  {
  }

  lemma RewardsNext(b: Balances, v: Validator, stakes: seq<Stake>, j: nat)
    requires j < |stakes|
    ensures WithRewards(b, v, stakes[..j + 1])
         == Credit(WithRewards(b, v, stakes[..j]), stakes[j].owner, BASE, StakeReward(v, stakes[j]))
    ensures StakeRewards(v, stakes[..j + 1]) == StakeRewards(v, stakes[..j]) + StakeReward(v, stakes[j])
  {
    hide StakeReward;
    assert stakes[..j + 1][..j] == stakes[..j];
  }

  lemma RewardIs(v: Validator, s: Stake)
    requires s.bipValue != 0 ==> v.totalBip != 0
    ensures StakeReward(v, s) == if s.bipValue == 0 then 0 else Pot(v) * s.bipValue / v.totalBip
  {
    hide Pot;
  }

  lemma CreditNone(b: Balances, a: Address)
    ensures Credit(b, a, BASE, 0) == b
  {
  }

  method PayValidator(s: StateDB, i: nat)
    requires i < |s.validators| && Sound(s.candidates, s.validators)
    modifies s
    ensures CandidateIndex(old(s.candidates), old(s.validators)[i].key) < |old(s.candidates)|
    ensures s.State() == PaidBooks(old(s.State()), i)
  {
    hide Sound, WithRewards, StakeRewards, CandidateIndex, SoundStakes;
    var v := s.validators[i];
    SoundBacked(s.candidates, s.validators, i);
    if v.accum > 0 {
      var totalReward, remainder := v.accum, v.accum;
      var daoReward := totalReward * DAO_COMMISSION / 100;
      s.AddBalance(DAO, BASE, daoReward);
      remainder := remainder - daoReward;
      var developersReward := totalReward * DEVELOPERS_COMMISSION / 100;
      s.AddBalance(DEVELOPERS, BASE, developersReward);
      remainder := remainder - developersReward;
      totalReward := totalReward - developersReward;
      totalReward := totalReward - daoReward;
      var validatorReward := totalReward * v.commission / 100;
      totalReward := totalReward - validatorReward;
      s.AddBalance(v.rewardAddress, BASE, validatorReward);
      remainder := remainder - validatorReward;
      var candidate := s.candidates[CandidateIndex(s.candidates, v.key)];
      PayableStakes(s.candidates, s.validators, i);
      RemainderNotNegative(v, candidate.stakes);
      remainder := PayStakes(s, v, candidate.stakes, totalReward, remainder);
      s.validators := s.validators[i := v.(accum := 0)];
      if remainder >= 0 {
        s.AddTotalSlashed(remainder);
      }
    }
  }

  lemma PayableStakes(cs: seq<Candidate>, vals: seq<Validator>, i: nat)
    requires Sound(cs, vals) && i < |vals|
    ensures Backed(vals[i], cs)
    ensures var k := CandidateIndex(cs, vals[i].key);
            k < |cs| && forall j :: 0 <= j < |cs[k].stakes| ==> cs[k].stakes[j].bipValue >= 0
  {
    assert Backed(vals[i], cs);
    assert SoundCandidate(cs[CandidateIndex(cs, vals[i].key)]);
  }

  lemma PaidKeepsSound(b: Books, i: nat)
    requires i < |b.validators| && Sound(b.candidates, b.validators)
    ensures CandidateIndex(b.candidates, b.validators[i].key) < |b.candidates|
    ensures Sound(b.candidates, PaidBooks(b, i).validators)
  {
    hide Sound, PaidBalances, Remainder, CandidateIndex;
    SoundBacked(b.candidates, b.validators, i);
    if b.validators[i].accum > 0 {
      ValidatorReplaced(b.candidates, b.validators, i, b.validators[i].(accum := 0));
    }
  }

  lemma PaidShape(b: Books, i: nat)
    requires i < |b.validators| && CandidateIndex(b.candidates, b.validators[i].key) < |b.candidates|
    ensures var r := PaidBooks(b, i);
            |r.validators| == |b.validators|
            && (forall k :: 0 <= k < |b.validators| ==> r.validators[k].toDrop == b.validators[k].toDrop)
            && r == b.(balances := r.balances, validators := r.validators, slashed := r.slashed)
  {
    hide PaidBalances, Remainder, CandidateIndex;
  }

  /** Validator i is paid if it is one and has a candidate. */
  function PaidOne(b: Books, i: nat): Books {
    if i < |b.validators| && CandidateIndex(b.candidates, b.validators[i].key) < |b.candidates| then PaidBooks(b, i) else b
  }

  /** The books after the first n validators have been paid. */
  function PaidAll(b: Books, n: nat): Books {
    if n == 0 then b else PaidOne(PaidAll(b, n - 1), n - 1)
  }

  lemma {:induction false} PaidAllKeeps(b: Books, n: nat)
    requires Sound(b.candidates, b.validators) && n <= |b.validators|
    ensures var r := PaidAll(b, n);
            Sound(r.candidates, r.validators) && |r.validators| == |b.validators|
            && (forall k :: 0 <= k < |b.validators| ==> r.validators[k].toDrop == b.validators[k].toDrop)
            && r == b.(balances := r.balances, validators := r.validators, slashed := r.slashed)
  {
    hide Sound, PaidBooks, CandidateIndex;
    if n != 0 {
      PaidAllKeeps(b, n - 1);
      var was := PaidAll(b, n - 1);
      PaidKeepsSound(was, n - 1);
      PaidShape(was, n - 1);
    }
  }

  /** What one payout changes. */
  lemma PaidOneFacts(b: Books, i: nat, a: Address, c: Coin)
    requires i < |b.validators| && Sound(b.candidates, b.validators)
    ensures var (v, r, k) := (b.validators[i], PaidOne(b, i), CandidateIndex(b.candidates, b.validators[i].key));
            k < |b.candidates| && v.accum >= 0 && r.validators == b.validators[i := v.(accum := 0)]
            && BalanceOf(r.balances, a, c)
               == BalanceOf(b.balances, a, c) + if c == BASE then PayTo(v, b.candidates[k].stakes, a) else 0
  {
    SoundBacked(b.candidates, b.validators, i);
    hide Sound, PaidBalances, PayTo, CandidateIndex, Remainder;
    var v := b.validators[i];
    var stakes := b.candidates[CandidateIndex(b.candidates, v.key)].stakes;
    if v.accum > 0 {
      PaidBalance(b.balances, v, stakes, a, c);
    } else {
      NothingToPay(v, stakes, a);
    }
  }

  lemma NothingToPay(v: Validator, stakes: seq<Stake>, a: Address)
    requires v.accum <= 0
    ensures PayTo(v, stakes, a) == 0
  {
  }

  lemma PaidToNext(vals: seq<Validator>, cs: seq<Candidate>, n: nat, a: Address)
    requires n < |vals| && CandidateIndex(cs, vals[n].key) < |cs|
    ensures PaidTo(vals[..n + 1], cs, a)
         == PaidTo(vals[..n], cs, a) + PayTo(vals[n], cs[CandidateIndex(cs, vals[n].key)].stakes, a)
  {
    hide PayTo, CandidateIndex;
    assert vals[..n + 1][..n] == vals[..n];
  }

  /** Once the first n validators are paid, each account has what is due to it from them, and their accruals are gone. */
  lemma {:induction false} PaidAllFacts(b: Books, n: nat, a: Address, c: Coin)
    requires Sound(b.candidates, b.validators) && n <= |b.validators|
    ensures BalanceOf(PaidAll(b, n).balances, a, c)
         == BalanceOf(b.balances, a, c) + if c == BASE then PaidTo(b.validators[..n], b.candidates, a) else 0
    ensures var r := PaidAll(b, n);
            |r.validators| == |b.validators|
            && forall k :: 0 <= k < |b.validators| ==>
                 r.validators[k] == if k < n then b.validators[k].(accum := 0) else b.validators[k]
  {
    hide Sound, PaidOne, PayTo, CandidateIndex, BalanceOf;
    if n == 0 {
      assert b.validators[..n] == [];
    } else {
      PaidAllFacts(b, n - 1, a, c);
      PaidAllKeeps(b, n - 1);
      PaidOneFacts(PaidAll(b, n - 1), n - 1, a, c);
      PaidToNext(b.validators, b.candidates, n - 1, a);
    }
  }

  /** Payouts are in base coin. */
  lemma {:induction false} PaidKnown(b: Books, n: nat)
    requires Sound(b.candidates, b.validators) && n <= |b.validators| && BalancesKnown(b.coins, b.balances)
    ensures BalancesKnown(b.coins, PaidAll(b, n).balances)
  {
    hide Sound, BalancesKnown, CandidateIndex, PaidBooks;
    if n != 0 {
      PaidKnown(b, n - 1);
      PaidAllKeeps(b, n - 1);
      var was := PaidAll(b, n - 1);
      PaidKeepsSound(was, n - 1);
      PaidBalancesKnown(b.coins, was, n - 1);
    }
  }

  lemma {:induction false} RewardsKnown(coins: map<Coin, CoinData>, b: Balances, v: Validator, stakes: seq<Stake>)
    requires BalancesKnown(coins, b)
    ensures BalancesKnown(coins, WithRewards(b, v, stakes))
  {
    hide BalancesKnown, StakeReward;
    if stakes != [] {
      var (n, x) := (|stakes| - 1, stakes[|stakes| - 1]);
      RewardsKnown(coins, b, v, stakes[..n]);
      CreditKnown(coins, WithRewards(b, v, stakes[..n]), x.owner, BASE, StakeReward(v, x));
    }
  }

  lemma PaidEachKnown(coins: map<Coin, CoinData>, b: Balances, v: Validator, stakes: seq<Stake>)
    requires BalancesKnown(coins, b)
    ensures BalancesKnown(coins, PaidBalances(b, v, stakes))
  {
    hide BalancesKnown, DaoPart, DevelopersPart, ValidatorPart, WithRewards;
    var b1 := Credit(b, DAO, BASE, DaoPart(v.accum));
    var b2 := Credit(b1, DEVELOPERS, BASE, DevelopersPart(v.accum));
    CreditKnown(coins, b, DAO, BASE, DaoPart(v.accum));
    CreditKnown(coins, b1, DEVELOPERS, BASE, DevelopersPart(v.accum));
    CreditKnown(coins, b2, v.rewardAddress, BASE, ValidatorPart(v));
    RewardsKnown(coins, Credit(b2, v.rewardAddress, BASE, ValidatorPart(v)), v, stakes);
  }

  lemma PaidBalancesKnown(coins: map<Coin, CoinData>, b: Books, i: nat)
    requires i < |b.validators| && CandidateIndex(b.candidates, b.validators[i].key) < |b.candidates|
    requires BalancesKnown(coins, b.balances)
    ensures BalancesKnown(coins, PaidBooks(b, i).balances)
  {
    hide BalancesKnown;
    PaidEachKnown(coins, b.balances, b.validators[i], b.candidates[CandidateIndex(b.candidates, b.validators[i].key)].stakes);
    hide PaidBalances, CandidateIndex;
  }

  /** Pays out every accrual in full: to the funds, the validators and their delegators, the rest slashed. */
  method PayRewards(s: StateDB)
    requires Sound(s.candidates, s.validators)
    modifies s
    ensures s.State() == PaidAll(old(s.State()), |old(s.validators)|)
    ensures Sound(s.candidates, s.validators) && Conserves(old(s.State()), s.State())
    ensures forall a, c ::
      BalanceOf(s.balances, a, c)
      == BalanceOf(old(s.balances), a, c)
         + if c == BASE then PaidTo(old(s.validators), old(s.candidates), a) else 0
    ensures |s.validators| == |old(s.validators)|
    ensures forall k :: 0 <= k < |s.validators| ==> s.validators[k] == old(s.validators)[k].(accum := 0)
    ensures Accrued(s.validators) == 0
    ensures Held(s.balances, BASE) + s.slashed == Held(old(s.balances), BASE) + old(s.slashed) + Accrued(old(s.validators))
  {
    hide Sound, Conserves, PaidBooks, Base, Gap, Held;
    ghost var b := s.State();
    ConservesItself(b);
    for i := 0 to |s.validators|
      invariant |s.validators| == |b.validators| && s.State() == PaidAll(b, i)
      invariant Sound(s.candidates, s.validators) && Conserves(b, s.State())
      invariant forall k :: 0 <= k < i ==> s.validators[k].accum == 0
    {
      ghost var was := s.State();
      SoundBacked(s.candidates, s.validators, i);
      PayValidator(s, i);
      PaidKeepsSound(was, i);
      PaidShape(was, i);
      PaidConserves(was, i);
      ConservesTrans(b, was, s.State());
      PaidFields(was, i);
    }
    PaidAllKeeps(b, |b.validators|);
    PaidAllFacts(b, |b.validators|, DAO, BASE);
    assert b.validators[..|b.validators|] == b.validators;
    forall a, c
      ensures BalanceOf(s.balances, a, c)
           == BalanceOf(b.balances, a, c) + if c == BASE then PaidTo(b.validators, b.candidates, a) else 0
    {
      PaidAllFacts(b, |b.validators|, a, c);
    }
    NothingAccrued(s.validators);
    PaidExactly(b, s.State());
  }

  lemma PaidFields(b: Books, i: nat)
    requires i < |b.validators| && CandidateIndex(b.candidates, b.validators[i].key) < |b.candidates|
    requires b.validators[i].accum >= 0
    ensures var r := PaidBooks(b, i);
            |r.validators| == |b.validators| && r.validators[i].accum == 0
            && forall k :: 0 <= k < |b.validators| && k != i ==> r.validators[k] == b.validators[k]
  {
  }

  lemma {:induction false} NothingAccrued(vals: seq<Validator>)
    requires forall k :: 0 <= k < |vals| ==> vals[k].accum == 0
    ensures Accrued(vals) == 0
  {
    if vals != [] {
      NothingAccrued(vals[..|vals| - 1]);
    }
  }

  lemma PaidExactly(b: Books, r: Books)
    requires Conserves(b, r) && Accrued(r.validators) == 0
    requires r == b.(balances := r.balances, validators := r.validators, slashed := r.slashed)
    ensures Held(r.balances, BASE) + r.slashed == Held(b.balances, BASE) + b.slashed + Accrued(b.validators)
  {
    hide Held, Reserves, Staked, Frozen, Accrued;
  }

  // ---------------------------------------------------------------------------------
  // One payout
  // ---------------------------------------------------------------------------------

  /** A thousand accrued at ten percent commission, for one delegator. */
  lemma ThousandPaid(v: Validator, x: Candidate)
    requires v.accum == 1000 && v.commission == 10 && v.rewardAddress == 9 && v.totalBip == 10 && x.key == v.key
    requires |x.stakes| == 1 && x.stakes[0].owner == 7 && x.stakes[0].bipValue == 10
    ensures PaidTo([v], [x], 0x18467bbb64a8edf890201d526c35957d82be3d95) == 100
    ensures PaidTo([v], [x], 0x04bea23efb744dc93b4fda4c20bf4a21c6e195f1) == 100
    ensures PaidTo([v], [x], 9) == 80 && PaidTo([v], [x], 7) == 720
  {
    assert CandidateIndex([x], v.key) == 0;
    assert (v.accum - 2 * 100) * v.commission == 800 * 10;
    forall a: Address
      ensures PaidTo([v], [x], a) == PayTo(v, x.stakes, a)
    {
      assert [v][..1] == [v] && [v][..0] == [];
      PaidToNext([v], [x], 0, a);
    }
    forall a: Address
      ensures StakesPaid(x.stakes, 720, 10, a) == if a == 7 then 720 else 0
    {
      assert x.stakes[..0] == [];
    }
    hide PaidTo, StakesPaid;
  }
}
