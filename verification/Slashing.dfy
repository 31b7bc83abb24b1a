// Penalties: what absent and byzantine validators' stakes lose, and where it goes.
module Slashing {
  import opened Arith
  import opened Common
  import opened Conversion
  import opened Ledger
  import opened StateDb
  import opened Staking
  import Transactions

  /** What is left of a value when a penalty leaves this percentage. */
  function Kept(value: int, percent: int): int { value * percent / 100 }

  lemma KeptIs(value: int, percent: int)
    ensures Kept(value, percent) == value * percent / 100
  {
  }

  lemma KeptBounds(value: int, percent: int)
    requires value >= 0 && 0 <= percent <= 100
    ensures 0 <= Kept(value, percent) <= value
  {
    MulMonotone(value, 0, percent);
    MulMonotone(value, percent, 100);
  }

  function Reduced(stakes: seq<Stake>, percent: int): (r: seq<Stake>)
    ensures |r| == |stakes|
    ensures forall j :: 0 <= j < |stakes| ==>
      r[j] == Stake(stakes[j].owner, stakes[j].coin, Kept(stakes[j].value, percent), 0)
  {
    seq(|stakes|, j requires 0 <= j < |stakes| =>
      Stake(stakes[j].owner, stakes[j].coin, Kept(stakes[j].value, percent), 0))
  }

  function ValueSum(stakes: seq<Stake>): int {
    if stakes == [] then 0 else ValueSum(stakes[..|stakes| - 1]) + stakes[|stakes| - 1].value
  }

  predicate KnownStakes(coins: map<Coin, CoinData>, stakes: seq<Stake>) {
    forall j :: 0 <= j < |stakes| ==> stakes[j].coin == BASE || stakes[j].coin in coins
  }

  predicate AllKnown(coins: map<Coin, CoinData>, cs: seq<Candidate>) {
    forall i :: 0 <= i < |cs| ==> KnownStakes(coins, cs[i].stakes)
  }

  predicate KnownFunds(coins: map<Coin, CoinData>, list: seq<FrozenFund>) {
    forall j :: 0 <= j < |list| ==> list[j].coin == BASE || list[j].coin in coins
  }

  /** Funds are frozen only in coins there are. */
  predicate FundsKnown(coins: map<Coin, CoinData>, funds: map<nat, seq<FrozenFund>>) {
    forall h :: h in funds ==> KnownFunds(coins, funds[h])
  }

  /** Nobody has anything of a coin there is not. */
  predicate BalancesKnown(coins: map<Coin, CoinData>, b: Balances) {
    forall k :: k in b && b[k] > 0 ==> k.1 == BASE || k.1 in coins
  }

  /** Whatever mentions a coin mentions one there is. */
  predicate CoinsKnown(b: Books) {
    AllKnown(b.coins, b.candidates) && FundsKnown(b.coins, b.funds) && BalancesKnown(b.coins, b.balances)
  }

  lemma CreditKnown(coins: map<Coin, CoinData>, b: Balances, a: Address, c: Coin, amount: int)
    requires BalancesKnown(coins, b) && (c == BASE || c in coins || amount <= 0)
    ensures BalancesKnown(coins, Credit(b, a, c, amount))
  {
  }

  /** A slashed amount of a coin is sold to its reserve; the proceeds are slashed base coin. */
  function Slashed(p: Prices, b: Books, coin: Coin, amount: int): (r: Books)
    requires coin == BASE || coin in b.coins
    ensures r.coins.Keys == b.coins.Keys && r == b.(coins := r.coins, slashed := r.slashed)
  {
    if coin == BASE then b.(slashed := b.slashed + amount)
    else
      var ret: int := Transactions.SaleReturn(p, b.coins[coin], amount);
      b.(coins := Adjusted(b.coins, coin, -amount, -ret), slashed := b.slashed + ret)
  }

  method Slash(s: StateDB, p: Prices, coin: Coin, value: int, percent: int) returns (newValue: int)
    requires coin == BASE || coin in s.coins
    modifies s
    ensures newValue == Kept(value, percent)
    ensures s.State() == Slashed(p, old(s.State()), coin, value - newValue)
  {
    newValue := value * percent / 100;
    var slashed := value - newValue;
    if coin != BASE {
      var ret := Transactions.SaleReturn(p, s.coins[coin], slashed);
      RunAdjust(s.coins, coin, slashed, ret);
      s.SubCoinVolume(coin, slashed);
      s.SubCoinReserve(coin, ret);
      s.AddTotalSlashed(ret);
    } else {
      s.AddTotalSlashed(slashed);
    }
  }

  lemma RunAdjust(coins: map<Coin, CoinData>, c: Coin, volume: int, reserve: int)
    ensures Adjusted(Adjusted(coins, c, -volume, 0), c, 0, -reserve) == Adjusted(coins, c, -volume, -reserve)
  {
  }

  /** The books once the penalty has been taken from each of the stakes, in order. */
  function SlashAll(p: Prices, b: Books, stakes: seq<Stake>, percent: int): (r: Books)
    requires KnownStakes(b.coins, stakes)
    ensures r.coins.Keys == b.coins.Keys && r == b.(coins := r.coins, slashed := r.slashed)
  {
    if stakes == [] then b
    else
      var x := stakes[|stakes| - 1];
      Slashed(p, SlashAll(p, b, stakes[..|stakes| - 1], percent), x.coin, x.value - Kept(x.value, percent))
  }

  lemma SlashedFacts(p: Prices, b: Books, coin: Coin, amount: int)
    requires coin == BASE || coin in b.coins
    ensures Base(Slashed(p, b, coin, amount)) == Base(b) + if coin == BASE then amount else 0
    ensures forall c :: c in b.coins && c != BASE ==>
      Gap(Slashed(p, b, coin, amount), c) == Gap(b, c) - if c == coin then amount else 0
  {
    hide Held, Reserves, Staked, Frozen, Accrued;
    if coin != BASE {
      var ret: int := Transactions.SaleReturn(p, b.coins[coin], amount);
      AdjustedReserves(b.coins, coin, -amount, -ret);
    }
  }

  /** What the penalty takes of coin c from the stakes. */
  function Taken(stakes: seq<Stake>, percent: int, c: Coin): int {
    StakedOf(stakes, c) - StakedOf(Reduced(stakes, percent), c)
  }

  lemma TakenStep(stakes: seq<Stake>, percent: int, c: Coin)
    requires stakes != []
    ensures var n := |stakes| - 1;
            Taken(stakes, percent, c) == Taken(stakes[..n], percent, c)
              + if stakes[n].coin == c then stakes[n].value - Kept(stakes[n].value, percent) else 0
  {
    hide Kept;
    var n := |stakes| - 1;
    assert Reduced(stakes, percent)[..n] == Reduced(stakes[..n], percent);
  }

  /** What a penalty takes from the stakes of a coin is what that coin's volume, or base coin, gives up. */
  lemma {:induction false} SlashAllFacts(p: Prices, b: Books, stakes: seq<Stake>, percent: int)
    requires KnownStakes(b.coins, stakes)
    ensures Base(SlashAll(p, b, stakes, percent)) == Base(b) + Taken(stakes, percent, BASE)
    ensures forall c :: c in b.coins && c != BASE ==>
      Gap(SlashAll(p, b, stakes, percent), c) == Gap(b, c) - Taken(stakes, percent, c)
  {
    if stakes == [] {
      assert Reduced(stakes, percent) == [];
    } else {
      var n := |stakes| - 1;
      var x := stakes[n];
      var was := SlashAll(p, b, stakes[..n], percent);
      assert SlashAll(p, b, stakes, percent) == Slashed(p, was, x.coin, x.value - Kept(x.value, percent));
      hide Base, Gap, Taken, Kept, Slashed, SlashAll;
      SlashAllFacts(p, b, stakes[..n], percent);
      SlashedFacts(p, was, x.coin, x.value - Kept(x.value, percent));
      TakenStep(stakes, percent, BASE);
      forall c | c in b.coins && c != BASE
        ensures Gap(SlashAll(p, b, stakes, percent), c) == Gap(b, c) - Taken(stakes, percent, c)
      {
        TakenStep(stakes, percent, c);
      }
    }
  }

  lemma {:induction false} ReducedSums(stakes: seq<Stake>, percent: int)
    ensures BipSum(Reduced(stakes, percent)) == 0
  {
    if stakes != [] {
      ReducedSums(stakes[..|stakes| - 1], percent);
      assert Reduced(stakes, percent)[..|stakes| - 1] == Reduced(stakes[..|stakes| - 1], percent);
    }
  }

  lemma {:induction false} ValueSumBounds(stakes: seq<Stake>)
    requires forall j :: 0 <= j < |stakes| ==> stakes[j].value >= 0
    ensures ValueSum(stakes) >= 0
  {
    if stakes != [] {
      ValueSumBounds(stakes[..|stakes| - 1]);
    }
  }

  lemma ReducedSound(stakes: seq<Stake>, percent: int)
    requires SoundStakes(stakes) && 0 <= percent <= 100
    ensures SoundStakes(Reduced(stakes, percent)) && ValueSum(Reduced(stakes, percent)) >= 0
  {
    hide Kept;
    forall j | 0 <= j < |stakes|
      ensures Kept(stakes[j].value, percent) >= 0
    {
      KeptBounds(stakes[j].value, percent);
    }
    ValueSumBounds(Reduced(stakes, percent));
  }

  /** What is cut off the stakes in coin c when a percentage is left of each. */
  ghost function CutOf(stakes: seq<Stake>, percent: int, c: Coin): int {
    if stakes == [] then 0
    else
      var x := stakes[|stakes| - 1];
      CutOf(stakes[..|stakes| - 1], percent, c) + if x.coin == c then x.value - x.value * percent / 100 else 0
  }

  /** Volume and reserve of coin c once what is cut off its stakes has been sold to it, one stake after the other. */
  ghost function CoinCut(p: Prices, was: CoinData, stakes: seq<Stake>, percent: int, c: Coin): CoinData {
    if stakes == [] then was
    else
      var (x, y) := (stakes[|stakes| - 1], CoinCut(p, was, stakes[..|stakes| - 1], percent, c));
      var cut := x.value - x.value * percent / 100;
      if x.coin != c then y
      else y.(volume := y.volume - cut, reserve := y.reserve - p.saleReturn(y.volume, y.reserve, y.crr, cut))
  }

  /** Each coin has been sold what is cut off its stakes, and base coin cut off or released by a reserve is slashed. */
  ghost predicate CutTaken(p: Prices, b: Books, stakes: seq<Stake>, percent: int, r: Books) {
    r.coins.Keys == b.coins.Keys
    && (forall c :: c in b.coins ==>
          r.coins[c] == if c == BASE then b.coins[c] else CoinCut(p, b.coins[c], stakes, percent, c))
    && r.slashed == b.slashed + CutOf(stakes, percent, BASE) + Reserves(b.coins) - Reserves(r.coins)
  }

  lemma {:induction false} SlashAllCuts(p: Prices, b: Books, stakes: seq<Stake>, percent: int)
    requires KnownStakes(b.coins, stakes)
    ensures CutTaken(p, b, stakes, percent, SlashAll(p, b, stakes, percent))
  {
    if stakes != [] {
      var n := |stakes| - 1;
      SlashAllCuts(p, b, stakes[..n], percent);
      hide SlashAll, Reserves, CutTaken, Slashed, Kept;
      CutOnce(p, b, stakes, percent, SlashAll(p, b, stakes[..n], percent));
      SlashAllLast(p, b, stakes, percent);
    }
  }

  lemma CutOnce(p: Prices, b: Books, stakes: seq<Stake>, percent: int, was: Books)
    requires stakes != [] && KnownStakes(b.coins, stakes)
    requires CutTaken(p, b, stakes[..|stakes| - 1], percent, was)
    ensures var x := stakes[|stakes| - 1];
            CutTaken(p, b, stakes, percent, Slashed(p, was, x.coin, x.value - Kept(x.value, percent)))
  {
    hide Reserves, CoinCut, CutOf, Kept, Slashed;
    var x := stakes[|stakes| - 1];
    SlashedCoins(p, was, x.coin, x.value - Kept(x.value, percent));
    CutOfLast(stakes, percent);
    forall c | c in b.coins && c != BASE {
      CoinCutLast(p, b.coins[c], stakes, percent, c);
    }
  }

  lemma SlashedCoins(p: Prices, b: Books, coin: Coin, amount: int)
    requires coin == BASE || coin in b.coins
    ensures var r := Slashed(p, b, coin, amount);
            (forall c :: c in b.coins ==>
               r.coins[c]
               == if c == BASE || c != coin then b.coins[c]
                  else b.coins[c].(volume := b.coins[c].volume - amount,
                                   reserve := b.coins[c].reserve - Transactions.SaleReturn(p, b.coins[c], amount)))
            && r.slashed == b.slashed + (if coin == BASE then amount else 0) + Reserves(b.coins) - Reserves(r.coins)
  {
    hide Reserves;
    if coin != BASE {
      var ret: int := Transactions.SaleReturn(p, b.coins[coin], amount);
      AdjustedReserves(b.coins, coin, -amount, -ret);
    }
  }

  lemma CutOfLast(stakes: seq<Stake>, percent: int)
    requires stakes != []
    ensures var (n, x) := (|stakes| - 1, stakes[|stakes| - 1]);
            CutOf(stakes, percent, BASE)
            == CutOf(stakes[..n], percent, BASE) + if x.coin == BASE then x.value - Kept(x.value, percent) else 0
  {
  }

  lemma CoinCutLast(p: Prices, was: CoinData, stakes: seq<Stake>, percent: int, c: Coin)
    requires stakes != []
    ensures var (x, y) := (stakes[|stakes| - 1], CoinCut(p, was, stakes[..|stakes| - 1], percent, c));
            var cut := x.value - Kept(x.value, percent);
            CoinCut(p, was, stakes, percent, c)
            == if x.coin != c then y
               else y.(volume := y.volume - cut, reserve := y.reserve - Transactions.SaleReturn(p, y, cut))
  {
    hide Kept;
    KeptIs(stakes[|stakes| - 1].value, percent);
  }

  lemma SlashAllLast(p: Prices, b: Books, stakes: seq<Stake>, percent: int)
    requires KnownStakes(b.coins, stakes) && stakes != []
    ensures var (n, x) := (|stakes| - 1, stakes[|stakes| - 1]);
            SlashAll(p, b, stakes, percent)
            == Slashed(p, SlashAll(p, b, stakes[..n], percent), x.coin, x.value - Kept(x.value, percent))
  {
    hide Slashed, Kept;
  }

  // ---------------------------------------------------------------------------------
  // Absent validators
  // ---------------------------------------------------------------------------------

  function CountAbsent(absent: seq<bool>): nat {
    if absent == [] then 0 else CountAbsent(absent[1..]) + if absent[0] then 1 else 0
  }

  function NeverAbsent(): seq<bool> { seq(ABSENT_WINDOW, _ => false) }

  /** Takes a percentage of a candidate's stakes, which lose their base value until recalculated. */
  method SlashStakes(s: StateDB, p: Prices, ci: nat, percent: int) returns (total: int)
    requires ci < |s.candidates| && KnownStakes(s.coins, s.candidates[ci].stakes)
    modifies s
    ensures s.State() == var b := old(s.State());
      SlashAll(p, b, b.candidates[ci].stakes, percent)
        .(candidates := b.candidates[ci := b.candidates[ci].(stakes := Reduced(b.candidates[ci].stakes, percent))])
    ensures total == ValueSum(Reduced(old(s.candidates)[ci].stakes, percent))
  {
    hide Kept, SlashAll, Slashed, Partly, ValueSum;
    ghost var b := s.State();
    ghost var stakes, reduced := s.candidates[ci].stakes, Reduced(s.candidates[ci].stakes, percent);
    total := 0;
    SlashAllNone(p, b, percent);
    PartlyNone(stakes, reduced);
    assert stakes[..0] == [] && b.candidates[ci := b.candidates[ci].(stakes := stakes)] == b.candidates;
    for j := 0 to |s.candidates[ci].stakes|
      invariant s.State() == SlashAll(p, b, stakes[..j], percent)
                  .(candidates := b.candidates[ci := b.candidates[ci].(stakes := Partly(stakes, reduced, j))])
      invariant total == ValueSum(reduced[..j])
    {
      PartlyAt(stakes, reduced, j);
      var stake := s.candidates[ci].stakes[j];
      SlashAllNext(p, b, stakes, j, percent);
      SlashedIgnores(p, SlashAll(p, b, stakes[..j], percent), s.candidates, stake.coin, stake.value - Kept(stake.value, percent));
      var newValue := Slash(s, p, stake.coin, stake.value, percent);
      var now := s.candidates[ci].stakes[j := Stake(stake.owner, stake.coin, newValue, 0)];
      s.candidates := s.candidates[ci := s.candidates[ci].(stakes := now)];
      total := total + newValue;
    }
    PartlyAll(stakes, reduced);
  }

  /** The first j stakes reduced, the others still as they were. */
  ghost function Partly(stakes: seq<Stake>, reduced: seq<Stake>, j: nat): seq<Stake>
    requires j <= |stakes| == |reduced|
  {
    reduced[..j] + stakes[j..]
  }

  lemma PartlyNone(stakes: seq<Stake>, reduced: seq<Stake>)
    requires |stakes| == |reduced|
    ensures Partly(stakes, reduced, 0) == stakes && reduced[..0] == []
  {
  }

  lemma PartlyAt(stakes: seq<Stake>, reduced: seq<Stake>, j: nat)
    requires j < |stakes| == |reduced|
    ensures |Partly(stakes, reduced, j)| == |stakes| && Partly(stakes, reduced, j)[j] == stakes[j]
    ensures Partly(stakes, reduced, j)[j := reduced[j]] == Partly(stakes, reduced, j + 1)
    ensures ValueSum(reduced[..j + 1]) == ValueSum(reduced[..j]) + reduced[j].value
  {
    assert reduced[..j + 1][..j] == reduced[..j];
  }

  lemma PartlyAll(stakes: seq<Stake>, reduced: seq<Stake>)
    requires |stakes| == |reduced|
    ensures Partly(stakes, reduced, |stakes|) == reduced && reduced[..|stakes|] == reduced
    ensures stakes[..|stakes|] == stakes
  {
  }

  lemma SlashedIgnores(p: Prices, b: Books, cs: seq<Candidate>, coin: Coin, amount: int)
    requires coin == BASE || coin in b.coins
    ensures Slashed(p, b.(candidates := cs), coin, amount) == Slashed(p, b, coin, amount).(candidates := cs)
  {
  }

  lemma SlashAllNone(p: Prices, b: Books, percent: int)
    ensures SlashAll(p, b, [], percent) == b && ValueSum([]) == 0
  {
  }

  lemma SlashAllNext(p: Prices, b: Books, stakes: seq<Stake>, j: nat, percent: int)
    requires j < |stakes| && KnownStakes(b.coins, stakes)
    ensures SlashAll(p, b, stakes[..j + 1], percent)
         == Slashed(p, SlashAll(p, b, stakes[..j], percent), stakes[j].coin, stakes[j].value - Kept(stakes[j].value, percent))
  {
    hide Slashed, Kept;
    assert stakes[..j + 1][..j] == stakes[..j];
  }

  /** The candidate with a key, the last one as this search goes. */
  method FindCandidate(cs: seq<Candidate>, key: Key) returns (ci: nat)
    requires DistinctCandidates(cs)
    ensures ci == CandidateIndex(cs, key)
  {
    ci := |cs|;
    for i := 0 to |cs|
      invariant ci == |cs| ==> forall k :: 0 <= k < i ==> cs[k].key != key
      invariant ci < |cs| ==> ci < i && cs[ci].key == key
      invariant ci <= |cs|
    {
      if cs[i].key == key {
        ci := i;
      }
    }
    if ci < |cs| {
      IndexOf(cs, ci);
    }
  }

  /** What recording an absence leads to for validator vi and its candidate ci. */
  function AbsentBooks(p: Prices, b: Books, vi: nat, ci: nat): Books
    requires vi < |b.validators| && ci < |b.candidates|
    requires AllKnown(b.coins, b.candidates)
    requires |b.validators[vi].absent| == ABSENT_WINDOW
  {
    var (v, c) := (b.validators[vi], b.candidates[ci]);
    var absent := v.absent[b.height % ABSENT_WINDOW := true];
    if !c.online then b
    else if CountAbsent(absent) <= MAX_ABSENT then b.(validators := b.validators[vi := v.(absent := absent)])
    else
      var stakes := Reduced(c.stakes, 99);
      Penalized(p, b, vi, ci, 99, c.(stakes := stakes, online := false),
                v.(absent := NeverAbsent(), toDrop := true, totalBip := ValueSum(stakes)), b.funds)
  }

  /** The books once stakes have been slashed and candidate, validator and frozen funds replaced. */
  function Penalized(p: Prices, b: Books, vi: nat, ci: nat, percent: int, c: Candidate, v: Validator,
                     funds: map<nat, seq<FrozenFund>>): (r: Books)
    requires vi < |b.validators| && ci < |b.candidates| && AllKnown(b.coins, b.candidates)
    ensures r.candidates == b.candidates[ci := c] && r.validators == b.validators[vi := v]
  {
    SlashAll(p, b, b.candidates[ci].stakes, percent)
      .(candidates := b.candidates[ci := c], validators := b.validators[vi := v], funds := funds)
  }

  lemma {:induction false} CountIs(absent: seq<bool>)
    ensures CountAbsent(absent) == multiset(absent)[true]
  {
    if absent != [] {
      CountIs(absent[1..]);
      assert absent == [absent[0]] + absent[1..];
    }
  }

  /**
   * A missed vote of a validator whose candidate is online: it is recorded and, when more than 12 of the last 24 are
   * missing, every stake keeps 99 percent of its value and loses its base value, the candidate goes offline, and the
   * validator is to be dropped, with its absences forgotten and the sum of what is left as its total.
   */
  ghost predicate AbsentOutcome(p: Prices, b: Books, vi: nat, ci: nat, r: Books)
    requires vi < |b.validators| && ci < |b.candidates| && |b.validators[vi].absent| == 24
  {
    var (v, c) := (b.validators[vi], b.candidates[ci]);
    var absent := v.absent[b.height % 24 := true];
    if !c.online then r == b
    else if multiset(absent)[true] <= 12 then r == b.(validators := b.validators[vi := v.(absent := absent)])
    else
      |r.candidates| == |b.candidates| && |r.candidates[ci].stakes| == |c.stakes|
      && (forall j :: 0 <= j < |c.stakes| ==>
            r.candidates[ci].stakes[j] == Stake(c.stakes[j].owner, c.stakes[j].coin, c.stakes[j].value * 99 / 100, 0))
      && r.candidates == b.candidates[ci := c.(stakes := r.candidates[ci].stakes, online := false)]
      && r.validators == b.validators[vi := v.(absent := seq(24, _ => false), toDrop := true,
                                               totalBip := ValueSum(r.candidates[ci].stakes))]
      && CutTaken(p, b, c.stakes, 99, r)
      && r == b.(candidates := r.candidates, validators := r.validators, coins := r.coins, slashed := r.slashed)
  }

  lemma AbsentIs(p: Prices, b: Books, vi: nat, ci: nat)
    requires vi < |b.validators| && ci < |b.candidates| && AllKnown(b.coins, b.candidates)
    requires |b.validators[vi].absent| == ABSENT_WINDOW
    ensures AbsentOutcome(p, b, vi, ci, AbsentBooks(p, b, vi, ci))
  {
    hide SlashAll, CountAbsent, CutTaken, ValueSum;
    CountIs(b.validators[vi].absent[b.height % ABSENT_WINDOW := true]);
    SlashAllCuts(p, b, b.candidates[ci].stakes, 99);
    var c := b.candidates[ci];
    TakenFields(p, b, SlashAll(p, b, c.stakes, 99), AbsentBooks(p, b, vi, ci), c.stakes, 99);
  }

  /** One stake of a thousand, and a vote missed after twelve others: 990 are left of it and 10 are slashed. */
  lemma ThirteenthAbsence(p: Prices, b: Books, r: Books)
    requires |b.validators| == 1 && |b.candidates| == 1 && |b.validators[0].absent| == 24 && b.candidates[0].online
    requires b.candidates[0].stakes == [Stake(7, BASE, 1000, 1000)]
    requires multiset(b.validators[0].absent[b.height % 24 := true])[true] == 13 && AbsentOutcome(p, b, 0, 0, r)
    ensures r.candidates[0].stakes == [Stake(7, BASE, 990, 0)] && !r.candidates[0].online
    ensures r.validators[0].totalBip == 990 && r.validators[0].toDrop && r.slashed == b.slashed + 10
    ensures r.coins == b.coins
  {
    var (stakes, now) := (b.candidates[0].stakes, r.candidates[0].stakes);
    assert stakes[..0] == [] && now[..0] == [];
    assert now[0] == Stake(7, BASE, 990, 0) && ValueSum(now) == 990;
    forall c | c in b.coins && c != BASE
      ensures CoinCut(p, b.coins[c], stakes, 99, c) == b.coins[c]
    {
    }
    assert r.coins == b.coins;
    assert CutOf(stakes, 99, BASE) == 10;
  }

  /** What has been taken does not depend on stakes, validators and frozen funds. */
  lemma TakenFields(p: Prices, b: Books, r: Books, r1: Books, stakes: seq<Stake>, percent: int)
    requires CutTaken(p, b, stakes, percent, r)
    ensures r1.coins == r.coins && r1.slashed == r.slashed ==> CutTaken(p, b, stakes, percent, r1)
  {
    hide CoinCut, CutOf, Reserves;
  }

  method RecordAbsence(s: StateDB, p: Prices, vi: nat, ci: nat)
    requires vi < |s.validators| && ci < |s.candidates| && AllKnown(s.coins, s.candidates)
    requires |s.validators[vi].absent| == ABSENT_WINDOW
    modifies s
    ensures s.State() == AbsentBooks(p, old(s.State()), vi, ci)
    ensures AbsentOutcome(p, old(s.State()), vi, ci, s.State())
  {
    hide SlashAll, CountAbsent, AbsentOutcome;
    AbsentIs(p, s.State(), vi, ci);
    if !s.candidates[ci].online {
      return;
    }
    var v := s.validators[vi];
    v := v.(absent := v.absent[s.height % ABSENT_WINDOW := true]);
    if CountAbsent(v.absent) > MAX_ABSENT {
      var totalStake := SlashStakes(s, p, ci, 99);
      s.candidates := s.candidates[ci := s.candidates[ci].(online := false)];
      v := v.(absent := NeverAbsent(), toDrop := true, totalBip := totalStake);
    }
    s.validators := s.validators[vi := v];
  }

  method SetValidatorAbsent(s: StateDB, p: Prices, key: Key)
    requires Sound(s.candidates, s.validators)
    requires AllKnown(s.coins, s.candidates)
    modifies s
    ensures Sound(s.candidates, s.validators) && Conserves(old(s.State()), s.State())
    ensures forall vi :: 0 <= vi < |old(s.validators)| && old(s.validators)[vi].key == key ==>
      CandidateIndex(old(s.candidates), key) < |old(s.candidates)|
      && |old(s.validators)[vi].absent| == ABSENT_WINDOW
      && s.State() == AbsentBooks(p, old(s.State()), vi, CandidateIndex(old(s.candidates), key))
      && AbsentOutcome(p, old(s.State()), vi, CandidateIndex(old(s.candidates), key), s.State())
    ensures (forall vi :: 0 <= vi < |old(s.validators)| ==> old(s.validators)[vi].key != key) ==>
      s.State() == old(s.State())
  {
    hide AbsentBooks, AbsentOutcome, Base, Gap, Conserves, Sound;
    SoundParts(s.candidates, s.validators);
    ghost var b := s.State();
    ghost var at: nat := |s.validators|;
    ConservesItself(b);
    for i := 0 to |s.validators|
      invariant at == |b.validators| ==> s.State() == b && forall k :: 0 <= k < i ==> b.validators[k].key != key
      invariant at < |b.validators| ==>
        at < i && b.validators[at].key == key && CandidateIndex(b.candidates, key) < |b.candidates|
        && |b.validators[at].absent| == ABSENT_WINDOW
        && s.State() == AbsentBooks(p, b, at, CandidateIndex(b.candidates, key))
        && AbsentOutcome(p, b, at, CandidateIndex(b.candidates, key), s.State())
      invariant at <= |b.validators| && SameKeys(b.validators, s.validators)
      invariant Sound(s.candidates, s.validators) && Conserves(b, s.State())
    {
      if s.validators[i].key == key {
        assert at == |b.validators|;
        SoundBacked(b.candidates, b.validators, i);
        var ci := FindCandidate(s.candidates, key);
        RecordAbsence(s, p, i, ci);
        AbsentKeeps(p, b, i, ci);
        at := i;
      }
    }
  }

  ghost predicate SameKeys(v: seq<Validator>, w: seq<Validator>) {
    |v| == |w| && forall k :: 0 <= k < |v| ==> w[k].key == v[k].key
  }

  lemma SoundParts(cs: seq<Candidate>, vals: seq<Validator>)
    requires Sound(cs, vals)
    ensures DistinctCandidates(cs) && DistinctValidators(vals)
  {
  }

  lemma SoundBacked(cs: seq<Candidate>, vals: seq<Validator>, i: nat)
    requires Sound(cs, vals) && i < |vals|
    ensures Backed(vals[i], cs)
  {
  }

  ghost predicate OnlyPresent(vals: seq<Validator>, now: seq<Validator>, key: Key, height: nat)
    requires forall k :: 0 <= k < |vals| ==> |vals[k].absent| == ABSENT_WINDOW
  {
    |now| == |vals| && forall k :: 0 <= k < |vals| ==>
      now[k] == if vals[k].key == key then vals[k].(absent := vals[k].absent[height % ABSENT_WINDOW := false]) else vals[k]
  }

  method SetValidatorPresent(s: StateDB, key: Key)
    requires forall k :: 0 <= k < |s.validators| ==> |s.validators[k].absent| == ABSENT_WINDOW
    modifies s
    ensures s.State() == old(s.State()).(validators := s.validators)
    ensures OnlyPresent(old(s.validators), s.validators, key, s.height)
  {
    for i := 0 to |s.validators|
      invariant s.State() == old(s.State()).(validators := s.validators) && |s.validators| == |old(s.validators)|
      invariant forall k :: 0 <= k < i ==>
        s.validators[k] == if old(s.validators)[k].key == key
                           then old(s.validators)[k].(absent := old(s.validators)[k].absent[s.height % ABSENT_WINDOW := false])
                           else old(s.validators)[k]
      invariant forall k :: i <= k < |s.validators| ==> s.validators[k] == old(s.validators)[k]
    {
      if s.validators[i].key == key {
        var v := s.validators[i];
        s.validators := s.validators[i := v.(absent := v.absent[s.height % ABSENT_WINDOW := false])];
      }
    }
  }

  lemma AbsentKeeps(p: Prices, b: Books, vi: nat, ci: nat)
    requires Sound(b.candidates, b.validators) && vi < |b.validators|
    requires ci < |b.candidates| && b.candidates[ci].key == b.validators[vi].key
    requires AllKnown(b.coins, b.candidates)
    ensures |b.validators[vi].absent| == ABSENT_WINDOW
    ensures var r := AbsentBooks(p, b, vi, ci);
            Sound(r.candidates, r.validators) && Conserves(b, r) && SameKeys(b.validators, r.validators)
  {
    var (v, c) := (b.validators[vi], b.candidates[ci]);
    var absent := v.absent[b.height % ABSENT_WINDOW := true];
    SoundBacked(b.candidates, b.validators, vi);
    hide Sound, Conserves, CountAbsent, SlashAll, BipSum, ValueSum, AllKnown, Penalized, CandidateIndex;
    ConservesItself(b);
    if !c.online {
      assert AbsentBooks(p, b, vi, ci) == b;
    } else if CountAbsent(absent) <= MAX_ABSENT {
      ValidatorReplaced(b.candidates, b.validators, vi, v.(absent := absent));
      SameAccrual(b, vi, v.(absent := absent));
    } else {
      var stakes := Reduced(c.stakes, 99);
      var v1 := v.(absent := NeverAbsent(), toDrop := true, totalBip := ValueSum(stakes));
      PenaltySound(b.candidates, b.validators, vi, ci, c.(stakes := stakes, online := false), v1, 99);
      PenaltyConserves(p, b, vi, ci, c.(stakes := stakes, online := false), v1, 99, b.funds);
    }
  }

  lemma ValidatorReplaced(cs: seq<Candidate>, vals: seq<Validator>, vi: nat, v: Validator)
    requires Sound(cs, vals) && vi < |vals| && v.key == vals[vi].key && Backed(v, cs)
    ensures Sound(cs, vals[vi := v])
  {
    var now := vals[vi := v];
    forall i | 0 <= i < |now|
      ensures Backed(now[i], cs)
    {
      assert Backed(vals[i], cs);
    }
  }

  lemma SameAccrual(b: Books, vi: nat, v: Validator)
    requires vi < |b.validators| && v.accum == b.validators[vi].accum
    ensures Conserves(b, b.(validators := b.validators[vi := v]))
  {
    hide Held, Reserves, Staked, Frozen, Accrued;
    AccruedSet(b.validators, vi, v);
  }

  /** A penalized candidate's stakes have no base value, so any non-negative total backs them. */
  lemma PenaltySound(cs: seq<Candidate>, vals: seq<Validator>, vi: nat, ci: nat, c: Candidate, v: Validator, percent: int)
    requires Sound(cs, vals) && vi < |vals| && ci < |cs| && cs[ci].key == vals[vi].key && 0 <= percent <= 100
    requires c == cs[ci].(stakes := c.stakes, online := c.online)
    requires c.stakes == [] || c.stakes == Reduced(cs[ci].stakes, percent)
    requires v.key == vals[vi].key && v.commission == vals[vi].commission && v.accum == vals[vi].accum
    requires |v.absent| == ABSENT_WINDOW
    requires v.totalBip == ValueSum(c.stakes)
    ensures Sound(cs[ci := c], vals[vi := v])
  {
    hide Kept, CandidateIndex;
    IndexOf(cs, ci);
    assert SoundCandidate(cs[ci]);
    ReducedSound(cs[ci].stakes, percent);
    ReducedSums(cs[ci].stakes, percent);
    BipSumBounds(cs[ci].stakes, 0);
    assert BipSum([]) == 0 && ValueSum([]) == 0;
    hide BipSum, ValueSum;
    SoundIfNoMore(cs, cs[ci := c], vals);
    IndexSame(cs, cs[ci := c], v.key);
    SoundBacked(cs, vals, vi);
    ValidatorReplaced(cs[ci := c], vals, vi, v);
  }

  /** Of every coin, as much is staked and frozen here as there. */
  ghost predicate SameAmounts(s: seq<Stake>, f: map<nat, seq<FrozenFund>>, t: seq<Stake>, g: map<nat, seq<FrozenFund>>) {
    forall d :: StakedOf(s, d) + Frozen(f, d) == StakedOf(t, d) + Frozen(g, d)
  }

  /** What a penalty takes is slashed or frozen, nothing else. */
  lemma PenaltyConserves(p: Prices, b: Books, vi: nat, ci: nat, c: Candidate, v: Validator, percent: int,
                         funds: map<nat, seq<FrozenFund>>)
    requires vi < |b.validators| && ci < |b.candidates| && AllKnown(b.coins, b.candidates)
    requires v.accum == b.validators[vi].accum
    requires SameAmounts(c.stakes, funds, Reduced(b.candidates[ci].stakes, percent), b.funds)
    ensures Conserves(b, Penalized(p, b, vi, ci, percent, c, v, funds))
  {
    var stakes := b.candidates[ci].stakes;
    SlashAllFacts(p, b, stakes, percent);
    hide Held, Reserves, Staked, Frozen, Accrued, StakedOf, SlashAll, Kept;
    AccruedSet(b.validators, vi, v);
    forall d
      ensures Staked(b.candidates[ci := c], d) + Frozen(funds, d)
           == Staked(b.candidates, d) + Frozen(b.funds, d) - Taken(stakes, percent, d)
    {
      StakedReplace(b.candidates, ci, c, d);
    }
  }

  // ---------------------------------------------------------------------------------
  // Byzantine validators
  // ---------------------------------------------------------------------------------

  /** The funds frozen for what a penalty leaves of the stakes. */
  function ToFunds(stakes: seq<Stake>, key: Key, percent: int): (r: seq<FrozenFund>)
    ensures |r| == |stakes|
    ensures forall j :: 0 <= j < |stakes| ==>
      r[j] == FrozenFund(stakes[j].owner, key, stakes[j].coin, Kept(stakes[j].value, percent))
  {
    seq(|stakes|, j requires 0 <= j < |stakes| =>
      FrozenFund(stakes[j].owner, key, stakes[j].coin, Kept(stakes[j].value, percent)))
  }

  lemma {:induction false} ToFundsAmounts(stakes: seq<Stake>, key: Key, percent: int, c: Coin)
    ensures FundsOf(ToFunds(stakes, key, percent), c) == StakedOf(Reduced(stakes, percent), c)
  {
    hide Kept;
    if stakes != [] {
      var n := |stakes| - 1;
      ToFundsAmounts(stakes[..n], key, percent, c);
      assert ToFunds(stakes, key, percent)[..n] == ToFunds(stakes[..n], key, percent);
      assert Reduced(stakes, percent)[..n] == Reduced(stakes[..n], percent);
    }
  }

  function WithFunds(funds: map<nat, seq<FrozenFund>>, h: nat, list: seq<FrozenFund>): map<nat, seq<FrozenFund>> {
    if list == [] then funds else funds[h := FundsAt(funds, h) + list]
  }

  lemma WithFundsKnown(coins: map<Coin, CoinData>, funds: map<nat, seq<FrozenFund>>, h: nat, list: seq<FrozenFund>)
    requires FundsKnown(coins, funds) && KnownFunds(coins, list)
    ensures FundsKnown(coins, WithFunds(funds, h, list))
  {
    if h in funds {
      assert KnownFunds(coins, funds[h]);
    }
  }

  lemma WithFundsFrozen(funds: map<nat, seq<FrozenFund>>, h: nat, list: seq<FrozenFund>, c: Coin)
    ensures Frozen(WithFunds(funds, h, list), c) == Frozen(funds, c) + FundsOf(list, c)
  {
    if list != [] {
      FrozenSet(funds, h, FundsAt(funds, h) + list, c);
      FundsOfConcat(FundsAt(funds, h), list, c);
    }
  }

  lemma {:induction false} FundsOfConcat(s: seq<FrozenFund>, t: seq<FrozenFund>, c: Coin)
    ensures FundsOf(s + t, c) == FundsOf(s, c) + FundsOf(t, c)
  {
    if t == [] {
      assert s + t == s;
    } else {
      var n := |t| - 1;
      assert (s + t)[..|s + t| - 1] == s + t[..n];
      FundsOfConcat(s, t[..n], c);
    }
  }

  function PunishedBooks(p: Prices, b: Books, vi: nat, ci: nat): Books
    requires vi < |b.validators| && ci < |b.candidates| && AllKnown(b.coins, b.candidates)
  {
    var (v, c) := (b.validators[vi], b.candidates[ci]);
    Penalized(p, b, vi, ci, 95, c.(stakes := [], online := false), v.(toDrop := true, totalBip := 0),
              WithFunds(b.funds, b.height + UNBOND_PERIOD, ToFunds(c.stakes, c.key, 95)))
  }

  /** Takes a percentage of a candidate's stakes and freezes the rest. */
  method SlashIntoFunds(s: StateDB, p: Prices, ci: nat, percent: int)
    requires ci < |s.candidates| && KnownStakes(s.coins, s.candidates[ci].stakes)
    modifies s
    ensures s.State() == var b := old(s.State());
      SlashAll(p, b, b.candidates[ci].stakes, percent)
        .(funds := WithFunds(b.funds, b.height + UNBOND_PERIOD,
                             ToFunds(b.candidates[ci].stakes, b.candidates[ci].key, percent)))
  {
    hide Kept, SlashAll, Slashed, WithFunds, WithFund;
    ghost var b := s.State();
    NoFunds(b.funds, b.height + UNBOND_PERIOD);
    ghost var list := ToFunds(s.candidates[ci].stakes, s.candidates[ci].key, percent);
    var stakes, key := s.candidates[ci].stakes, s.candidates[ci].key;
    SlashAllNone(p, b, percent);
    assert stakes[..0] == [] && list[..0] == [];
    for j := 0 to |stakes|
      invariant s.State() == SlashAll(p, b, stakes[..j], percent)
                  .(funds := WithFunds(b.funds, b.height + UNBOND_PERIOD, list[..j]))
    {
      var stake := stakes[j];
      SlashAllNext(p, b, stakes, j, percent);
      SlashedKeepsFunds(p, SlashAll(p, b, stakes[..j], percent), s.funds, stake.coin, stake.value - Kept(stake.value, percent));
      var newValue := Slash(s, p, stake.coin, stake.value, percent);
      s.AddFund(s.height + UNBOND_PERIOD, FrozenFund(stake.owner, key, stake.coin, newValue));
      WithOneMore(b.funds, b.height + UNBOND_PERIOD, list, j);
    }
    assert stakes[..|stakes|] == stakes && list[..|stakes|] == list;
  }

  lemma NoFunds(funds: map<nat, seq<FrozenFund>>, h: nat)
    ensures WithFunds(funds, h, []) == funds
  {
  }

  lemma WithOneMore(funds: map<nat, seq<FrozenFund>>, h: nat, list: seq<FrozenFund>, j: nat)
    requires j < |list|
    ensures WithFund(WithFunds(funds, h, list[..j]), h, list[j]) == WithFunds(funds, h, list[..j + 1])
  {
    assert list[..j + 1] == list[..j] + [list[j]];
    ConcatAssoc(FundsAt(funds, h), list[..j], [list[j]]);
    if j == 0 {
      assert list[..0] == [] && list[..1] == [list[0]];
    } else {
      var was := FundsAt(funds, h) + list[..j];
      assert funds[h := was][h := was + [list[j]]] == funds[h := was + [list[j]]];
    }
  }

  lemma SlashedKeepsFunds(p: Prices, b: Books, funds: map<nat, seq<FrozenFund>>, coin: Coin, amount: int)
    requires coin == BASE || coin in b.coins
    ensures Slashed(p, b.(funds := funds), coin, amount) == Slashed(p, b, coin, amount).(funds := funds)
  {
  }

  /**
   * Evidence against a validator: 95 percent of every stake is frozen for its owner, for 518400 blocks, the candidate
   * is left without stakes and offline, and the validator is to be dropped, with a total of zero.
   */
  ghost predicate EvidenceOutcome(p: Prices, b: Books, vi: nat, ci: nat, r: Books)
    requires vi < |b.validators| && ci < |b.candidates|
  {
    var (v, c, h) := (b.validators[vi], b.candidates[ci], b.height + 518400);
    r.candidates == b.candidates[ci := c.(stakes := [], online := false)]
    && r.validators == b.validators[vi := v.(toDrop := true, totalBip := 0)]
    && |FundsAt(r.funds, h)| == |FundsAt(b.funds, h)| + |c.stakes|
    && FundsAt(r.funds, h)[..|FundsAt(b.funds, h)|] == FundsAt(b.funds, h)
    && (forall j :: 0 <= j < |c.stakes| ==>
          FundsAt(r.funds, h)[|FundsAt(b.funds, h)| + j]
          == FrozenFund(c.stakes[j].owner, c.key, c.stakes[j].coin, c.stakes[j].value * 95 / 100))
    && (forall k :: k != h ==> FundsAt(r.funds, k) == FundsAt(b.funds, k))
    && CutTaken(p, b, c.stakes, 95, r)
    && r == b.(candidates := r.candidates, validators := r.validators, funds := r.funds, coins := r.coins,
               slashed := r.slashed)
  }

  lemma EvidenceIs(p: Prices, b: Books, vi: nat, ci: nat)
    requires vi < |b.validators| && ci < |b.candidates| && AllKnown(b.coins, b.candidates)
    ensures EvidenceOutcome(p, b, vi, ci, PunishedBooks(p, b, vi, ci))
  {
    hide SlashAll, CutTaken;
    var (c, r) := (b.candidates[ci], PunishedBooks(p, b, vi, ci));
    SlashAllCuts(p, b, c.stakes, 95);
    TakenFields(p, b, SlashAll(p, b, c.stakes, 95), r, c.stakes, 95);
  }

  method Punish(s: StateDB, p: Prices, vi: nat, ci: nat)
    requires vi < |s.validators| && ci < |s.candidates| && AllKnown(s.coins, s.candidates)
    modifies s
    ensures s.State() == PunishedBooks(p, old(s.State()), vi, ci)
    ensures EvidenceOutcome(p, old(s.State()), vi, ci, s.State())
  {
    hide SlashAll, WithFunds, EvidenceOutcome;
    EvidenceIs(p, s.State(), vi, ci);
    SlashIntoFunds(s, p, ci, 95);
    s.candidates := s.candidates[ci := s.candidates[ci].(stakes := [], online := false)];
    s.validators := s.validators[vi := s.validators[vi].(toDrop := true, totalBip := 0)];
  }

  lemma PunishKeeps(p: Prices, b: Books, vi: nat, ci: nat)
    requires Sound(b.candidates, b.validators) && vi < |b.validators| && AllKnown(b.coins, b.candidates)
    requires ci < |b.candidates| && b.candidates[ci].key == b.validators[vi].key
    ensures var r := PunishedBooks(p, b, vi, ci);
            Sound(r.candidates, r.validators) && Conserves(b, r) && SameKeys(b.validators, r.validators)
  {
    hide Sound, Conserves, SlashAll, BipSum, ValueSum, WithFunds, SameAmounts, AllKnown, Penalized, CandidateIndex,
         ToFunds, Reduced, FundsAt;
    var (v, c) := (b.validators[vi], b.candidates[ci]);
    SoundBacked(b.candidates, b.validators, vi);
    SlashAllNone(p, b, 95);
    var c1, v1 := c.(stakes := [], online := false), v.(toDrop := true, totalBip := 0);
    var list := ToFunds(c.stakes, c.key, 95);
    PenaltySound(b.candidates, b.validators, vi, ci, c1, v1, 95);
    FrozenForStakes(b.funds, b.height + UNBOND_PERIOD, c.stakes, c.key, 95);
    PenaltyConserves(p, b, vi, ci, c1, v1, 95, WithFunds(b.funds, b.height + UNBOND_PERIOD, list));
  }

  /** Freezing what is left of stakes replaces them. */
  lemma FrozenForStakes(funds: map<nat, seq<FrozenFund>>, h: nat, stakes: seq<Stake>, key: Key, percent: int)
    ensures SameAmounts([], WithFunds(funds, h, ToFunds(stakes, key, percent)), Reduced(stakes, percent), funds)
  {
    hide Frozen;
    forall d
      ensures StakedOf([], d) + Frozen(WithFunds(funds, h, ToFunds(stakes, key, percent)), d)
           == StakedOf(Reduced(stakes, percent), d) + Frozen(funds, d)
    {
      WithFundsFrozen(funds, h, ToFunds(stakes, key, percent), d);
      ToFundsAmounts(stakes, key, percent, d);
    }
  }

  method PunishByzantineValidator(s: StateDB, p: Prices, key: Key)
    requires Sound(s.candidates, s.validators) && AllKnown(s.coins, s.candidates)
    modifies s
    ensures Sound(s.candidates, s.validators) && Conserves(old(s.State()), s.State())
    ensures forall vi :: 0 <= vi < |old(s.validators)| && old(s.validators)[vi].key == key ==>
      CandidateIndex(old(s.candidates), key) < |old(s.candidates)|
      && s.State() == PunishedBooks(p, old(s.State()), vi, CandidateIndex(old(s.candidates), key))
      && EvidenceOutcome(p, old(s.State()), vi, CandidateIndex(old(s.candidates), key), s.State())
    ensures (forall vi :: 0 <= vi < |old(s.validators)| ==> old(s.validators)[vi].key != key) ==>
      s.State() == old(s.State())
  {
    hide PunishedBooks, EvidenceOutcome, Base, Gap, Conserves, Sound;
    SoundParts(s.candidates, s.validators);
    ghost var b := s.State();
    ghost var at: nat := |s.validators|;
    ConservesItself(b);
    for i := 0 to |s.validators|
      invariant at == |b.validators| ==> s.State() == b && forall k :: 0 <= k < i ==> b.validators[k].key != key
      invariant at < |b.validators| ==>
        at < i && b.validators[at].key == key && CandidateIndex(b.candidates, key) < |b.candidates|
        && s.State() == PunishedBooks(p, b, at, CandidateIndex(b.candidates, key))
        && EvidenceOutcome(p, b, at, CandidateIndex(b.candidates, key), s.State())
      invariant at <= |b.validators| && SameKeys(b.validators, s.validators)
      invariant Sound(s.candidates, s.validators) && Conserves(b, s.State())
    {
      if s.validators[i].key == key {
        assert at == |b.validators|;
        SoundBacked(b.candidates, b.validators, i);
        var ci := FindCandidate(s.candidates, key);
        Punish(s, p, i, ci);
        PunishKeeps(p, b, i, ci);
        at := i;
      }
    }
  }
}
