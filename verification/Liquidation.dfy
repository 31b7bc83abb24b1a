// Liquidating a coin: every holding of it is paid out of the reserve, down to nothing.
module Liquidation {
  import opened Arith
  import opened Common
  import opened Ledger
  import opened StateDb

  /** CalculateSaleReturn with the reserve ratio at 100 percent. */
  function SaleReturn(supply: int, reserve: int, amount: int): int
    requires amount != 0 ==> supply != 0
  {
    if amount == 0 then 0
    else if amount == supply then reserve
    else reserve * amount / supply
  }

  /** No sale takes more than the reserve, and the last one takes all of it. */
  lemma SaleReturnBounds(supply: int, reserve: int, amount: int)
    requires 0 <= amount <= supply && 0 <= reserve
    ensures 0 <= SaleReturn(supply, reserve, amount) <= reserve
    ensures amount == supply > 0 ==> SaleReturn(supply, reserve, amount) == reserve
  {
    if 0 < amount < supply {
      DivModFacts(reserve * amount, supply);
      ShareBounds(supply, reserve, amount, reserve * amount / supply, reserve * amount % supply);
    }
  }

  lemma ShareBounds(d: int, r: int, x: int, q: int, m: int)
    requires 0 < x < d && 0 <= r && r * x == d * q + m && 0 <= m < d
    ensures 0 <= q <= r
  {
    MulMonotone(r, 0, x);
    MulMonotone(r, x, d);
    assert r * d == d * r;
    assert d * (-1) == -d && d * (r + 1) == d * r + d;
    if q < 0 {
      MulMonotone(d, q, -1);
    }
    if q > r {
      MulMonotone(d, r + 1, q);
    }
  }

  /** What amount is worth of the whole, rounded down. */
  function Share(x0: CoinData, amount: int): int {
    if x0.volume > 0 then x0.reserve * amount / x0.volume else 0
  }

  /** There is at least as much reserve per unit as there was to begin with. */
  ghost predicate Rich(volume: int, reserve: int, x0: CoinData) {
    reserve * x0.volume >= x0.reserve * volume && x0.reserve >= 0 && x0.volume >= 0
  }

  /** Rounding down in favour of the reserve never leaves a later holder with less than its share. */
  lemma RichAfterSale(volume: int, reserve: int, x0: CoinData, amount: int)
    requires 0 <= amount <= volume && reserve >= 0 && Rich(volume, reserve, x0)
    ensures var ret := SaleReturn(volume, reserve, amount);
            Rich(volume - amount, reserve - ret, x0) && (amount > 0 ==> ret >= Share(x0, amount))
  {
    var ret := SaleReturn(volume, reserve, amount);
    if amount == volume {
      TimesZero(x0.volume);
      TimesZero(x0.reserve);
    } else if amount > 0 {
      DivModFacts(reserve * amount, volume);
      RatioKept(volume, reserve, x0.volume, x0.reserve, amount, ret);
    }
    if amount > 0 && x0.volume > 0 {
      DivModFacts(x0.reserve * amount, x0.volume);
      ShareKept(volume, reserve, x0.volume, x0.reserve, amount, Share(x0, amount));
      if amount < volume {
        DivModFacts(reserve * amount, volume);
        LargestQuotient(reserve * amount, volume, Share(x0, amount), ret);
      } else {
        LargestQuotient(reserve * volume, volume, Share(x0, amount), reserve);
      }
    }
  }

  lemma LargestQuotient(n: int, d: int, q0: int, q: int)
    requires d > 0 && d * q0 <= n < d * q + d
    ensures q0 <= q
  {
    assert d * (q + 1) == d * q + d;
    if q0 > q {
      MulMonotone(d, q + 1, q0);
    }
  }

  lemma RatioKept(v: int, r: int, v0: int, r0: int, x: int, q: int)
    requires 0 < x < v && r >= 0 && v0 >= 0 && r0 >= 0 && r * v0 >= r0 * v && v * q <= r * x
    ensures (r - q) * v0 >= r0 * (v - x)
  {
    var left, right := (r - q) * v0, r0 * (v - x);
    MulMonotone(v0, v * q, r * x);
    MulMonotone(v - x, r0 * v, r * v0);
    RatioAlgebra(v, r, v0, r0, x, q);
    assert v * (left + 1) == v * left + v;
    if left < right {
      MulMonotone(v, left + 1, right);
    }
  }

  /** v * (r - q) * v0 >= (v - x) * r * v0 >= v * r0 * (v - x), with the products spelled out. */
  lemma RatioAlgebra(v: int, r: int, v0: int, r0: int, x: int, q: int)
    requires v0 * (v * q) <= v0 * (r * x) && (v - x) * (r0 * v) <= (v - x) * (r * v0)
    ensures v * (r0 * (v - x)) <= v * ((r - q) * v0)
  {
    LeftAlgebra(v, r, q, v0);
    RightAlgebra(v, r, x, v0);
    MiddleAlgebra(v, r0, v - x);
  }

  lemma LeftAlgebra(v: int, r: int, q: int, v0: int)
    ensures v * ((r - q) * v0) == v0 * (v * r) - v0 * (v * q)
  {
  }

  lemma RightAlgebra(v: int, r: int, x: int, v0: int)
    ensures (v - x) * (r * v0) == v0 * (v * r) - v0 * (r * x)
  {
  }

  lemma MiddleAlgebra(v: int, r0: int, w: int)
    ensures v * (r0 * w) == w * (r0 * v)
  {
  }

  lemma ShareKept(v: int, r: int, v0: int, r0: int, x: int, q0: int)
    requires 0 < x && v > 0 && v0 > 0 && r * v0 >= r0 * v && v0 * q0 <= r0 * x
    ensures v * q0 <= r * x
  {
    MulMonotone(v, v0 * q0, r0 * x);
    MulMonotone(x, r0 * v, r * v0);
    ShareAlgebra(v, r, v0, r0, x, q0);
    assert v0 * (r * x + 1) == v0 * (r * x) + v0;
    if v * q0 > r * x {
      MulMonotone(v0, r * x + 1, v * q0);
    }
  }

  lemma ShareAlgebra(v: int, r: int, v0: int, r0: int, x: int, q0: int)
    requires v * (v0 * q0) <= v * (r0 * x) && x * (r0 * v) <= x * (r * v0)
    ensures v0 * (v * q0) <= v0 * (r * x)
  {
    assert v * (v0 * q0) == v0 * (v * q0);
    assert v * (r0 * x) == x * (r0 * v);
    assert x * (r * v0) == v0 * (r * x);
  }

  // ---------------------------------------------------------------------------------
  // Holdings
  // ---------------------------------------------------------------------------------

  lemma {:induction false} SumOfNonNegative<K(!new)>(m: map<K, int>, k: K)
    requires k in m && forall j :: j in m ==> m[j] >= 0
    ensures 0 <= m[k] <= Sum(m)
  {
    SumWithout(m, k);
    SumNotNegative(m - {k});
  }

  lemma {:induction false} SumNotNegative<K(!new)>(m: map<K, int>)
    requires forall j :: j in m ==> m[j] >= 0
    ensures Sum(m) >= 0
  {
    if m != map[] {
      var k :| k in m;
      SumWithout(m, k);
      SumNotNegative(m - {k});
    }
  }

  lemma {:induction false} SumOfZeros<K(!new)>(m: map<K, int>)
    requires forall j :: j in m ==> m[j] == 0
    ensures Sum(m) == 0
  {
    if m != map[] {
      var k :| k in m;
      SumWithout(m, k);
      SumOfZeros(m - {k});
    }
  }

  ghost predicate FundsSound(list: seq<FrozenFund>, c: Coin) {
    forall i :: 0 <= i < |list| && list[i].coin == c ==> list[i].value >= 0
  }

  ghost predicate StakesSound(stakes: seq<Stake>, c: Coin) {
    forall j :: 0 <= j < |stakes| && stakes[j].coin == c ==> stakes[j].value >= 0
  }

  lemma {:induction false} FundsBounds(list: seq<FrozenFund>, c: Coin, i: nat)
    requires FundsSound(list, c)
    ensures FundsOf(list, c) >= 0
    ensures i < |list| && list[i].coin == c ==> list[i].value <= FundsOf(list, c)
  {
    if list != [] {
      FundsBounds(list[..|list| - 1], c, i);
    }
  }

  lemma {:induction false} StakesBounds(stakes: seq<Stake>, c: Coin, j: nat)
    requires StakesSound(stakes, c)
    ensures StakedOf(stakes, c) >= 0
    ensures j < |stakes| && stakes[j].coin == c ==> stakes[j].value <= StakedOf(stakes, c)
  {
    if stakes != [] {
      StakesBounds(stakes[..|stakes| - 1], c, j);
    }
  }

  ghost predicate CandidatesSound(cs: seq<Candidate>, c: Coin) {
    forall i :: 0 <= i < |cs| ==> StakesSound(cs[i].stakes, c)
  }

  lemma {:induction false} CandidatesBounds(cs: seq<Candidate>, c: Coin, i: nat)
    requires CandidatesSound(cs, c)
    ensures Staked(cs, c) >= 0
    ensures i < |cs| ==> 0 <= StakedOf(cs[i].stakes, c) <= Staked(cs, c)
  {
    if cs != [] {
      var n := |cs| - 1;
      CandidatesBounds(cs[..n], c, i);
      StakesBounds(cs[n].stakes, c, 0);
    }
  }

  /** No account, stake or frozen fund has less than nothing of c. */
  ghost predicate HoldingsSound(b: Books, c: Coin) {
    (forall a :: BalanceOf(b.balances, a, c) >= 0)
    && (forall h :: h in b.funds ==> FundsSound(b.funds[h], c))
    && CandidatesSound(b.candidates, c)
  }

  lemma HeldBounds(b: Balances, c: Coin, a: Address)
    requires forall x :: BalanceOf(b, x, c) >= 0
    ensures 0 <= BalanceOf(b, a, c) <= Held(b, c)
  {
    var m := OfCoin(b, c);
    forall k | k in m
      ensures m[k] >= 0
    {
      assert m[k] == BalanceOf(b, k.0, c);
    }
    SumNotNegative(m);
    if (a, c) in b {
      SumOfNonNegative(m, (a, c));
    }
  }

  lemma FrozenBounds(funds: map<nat, seq<FrozenFund>>, c: Coin, h: nat)
    requires forall k :: k in funds ==> FundsSound(funds[k], c)
    ensures Frozen(funds, c) >= 0
    ensures h in funds ==> 0 <= FundsOf(funds[h], c) <= Frozen(funds, c)
  {
    var m := FundMap(funds, c);
    forall k | k in m
      ensures m[k] >= 0
    {
      FundsBounds(funds[k], c, 0);
    }
    SumNotNegative(m);
    if h in funds {
      SumOfNonNegative(m, h);
    }
  }

  // ---------------------------------------------------------------------------------
  // The state between two payouts
  // ---------------------------------------------------------------------------------

  /** c is being liquidated: what is recorded is what is held, and an emptied coin has been paid out. */
  ghost predicate Liquid(b: Books, c: Coin, x0: CoinData) {
    c != BASE && c in b.coins && b.coins[c].volume == Owned(b, c) && b.coins[c].reserve >= 0 && HoldingsSound(b, c)
    && b.coins[c].deleted && (b.coins[c].volume == 0 && x0.volume > 0 ==> b.coins[c].reserve == 0)
    && (x0.volume == 0 ==> b.coins[c].volume == 0 && b.coins[c].reserve == x0.reserve)
    && Rich(b.coins[c].volume, b.coins[c].reserve, x0)
  }

  /** Payouts of c only turn holdings of c into base coin. */
  ghost predicate OthersKept(b0: Books, b1: Books, c: Coin) {
    Base(b1) == Base(b0) && b1.coins.Keys == b0.coins.Keys
    && (forall d :: d in b0.coins && d != c ==> b1.coins[d] == b0.coins[d])
    && (forall d :: d != c && d != BASE ==> Owned(b1, d) == Owned(b0, d))
    && b1.validators == b0.validators && b1.slashed == b0.slashed && b1.pool == b0.pool
    && b1.height == b0.height && b1.nonces == b0.nonces && b1.stakeCache == b0.stakeCache
    && SameShape(b0.candidates, b1.candidates)
  }

  /** Candidates and the order, owners and base values of their stakes are untouched. */
  predicate SameStakes(s: seq<Stake>, t: seq<Stake>) {
    |s| == |t| && forall j :: 0 <= j < |s| ==> t[j].owner == s[j].owner && t[j].bipValue == s[j].bipValue
  }

  predicate SameShape(cs: seq<Candidate>, ds: seq<Candidate>) {
    |cs| == |ds| && forall i :: 0 <= i < |cs| ==>
      ds[i] == cs[i].(stakes := ds[i].stakes) && SameStakes(cs[i].stakes, ds[i].stakes)
  }

  lemma OthersKeptTrans(a: Books, b: Books, d: Books, c: Coin)
    requires OthersKept(a, b, c) && OthersKept(b, d, c)
    ensures OthersKept(a, d, c)
  {
    hide Base, Owned;
  }

  /** What paying amount of c out of the reserve leaves of the coin. */
  function Redeemed(coins: map<Coin, CoinData>, c: Coin, amount: int): map<Coin, CoinData>
    requires c in coins && (amount != 0 ==> coins[c].volume != 0)
  {
    var x := coins[c];
    Adjusted(coins, c, -amount, -SaleReturn(x.volume, x.reserve, amount))
  }

  method Redeem(s: StateDB, c: Coin, amount: int) returns (ret: int)
    requires c in s.coins && c != BASE && 0 <= amount <= s.coins[c].volume && 0 <= s.coins[c].reserve
    modifies s
    ensures s.State() == old(s.State()).(coins := Redeemed(old(s.coins), c, amount))
    ensures ret == SaleReturn(old(s.coins)[c].volume, old(s.coins)[c].reserve, amount) && 0 <= ret <= old(s.coins)[c].reserve
    ensures s.coins[c].volume == old(s.coins)[c].volume - amount && s.coins[c].reserve == old(s.coins)[c].reserve - ret
    ensures amount == old(s.coins)[c].volume > 0 ==> s.coins[c].reserve == 0
  {
    var x := s.coins[c];
    SaleReturnBounds(x.volume, x.reserve, amount);
    ret := SaleReturn(x.volume, x.reserve, amount);
    s.SubCoinReserve(c, ret);
    s.SubCoinVolume(c, amount);
  }

  // ---------------------------------------------------------------------------------
  // Accounts
  // ---------------------------------------------------------------------------------

  /** Pays out what an account has of c. */
  method LiquidateAccount(s: StateDB, c: Coin, a: Address, ghost x0: CoinData)
    requires Liquid(s.State(), c, x0)
    modifies s
    ensures Liquid(s.State(), c, x0) && OthersKept(old(s.State()), s.State(), c)
    ensures BalanceOf(old(s.balances), a, c) <= 0 ==> s.State() == old(s.State())
    ensures BalanceOf(old(s.balances), a, c) > 0 ==>
      old(s.coins)[c].volume > 0 && s.State() == AccountPaidBooks(old(s.State()), c, a)
    ensures BalanceOf(s.balances, a, c) == 0 && Fair(old(s.balances), s.balances, c, x0)
  {
    hide Base, Owned, Liquid, OthersKept, Redeemed;
    ghost var b := s.State();
    LiquidFacts(b, c, x0);
    KeptItself(b, c);
    var amount := s.GetBalance(a, c);
    if amount > 0 {
      AccountWithinVolume(b, c, x0, a);
      AccountPaidKeeps(b, c, x0, a);
      var ret := Redeem(s, c, amount);
      s.AddBalance(a, BASE, ret);
      s.SetBalance(a, c, 0);
      assert s.State() == AccountPaidBooks(b, c, a);
    }
  }

  /** An account has kept its base coin and c, or has none of c left and its share of base coin more. */
  ghost predicate FairTo(b0: Balances, b1: Balances, c: Coin, x0: CoinData, x: Address) {
    (BalanceOf(b1, x, c) == BalanceOf(b0, x, c) && BalanceOf(b1, x, BASE) == BalanceOf(b0, x, BASE))
    || (BalanceOf(b1, x, c) == 0 < BalanceOf(b0, x, c)
        && BalanceOf(b1, x, BASE) >= BalanceOf(b0, x, BASE) + Share(x0, BalanceOf(b0, x, c)))
  }

  ghost predicate Fair(b0: Balances, b1: Balances, c: Coin, x0: CoinData) {
    (forall x :: FairTo(b0, b1, c, x0, x))
    && forall x, d :: d != c && d != BASE ==> BalanceOf(b1, x, d) == BalanceOf(b0, x, d)
  }

  lemma FairTrans(b0: Balances, b1: Balances, b2: Balances, c: Coin, x0: CoinData)
    requires Fair(b0, b1, c, x0) && Fair(b1, b2, c, x0)
    ensures Fair(b0, b2, c, x0)
  {
    hide Share, BalanceOf;
    forall x
      ensures FairTo(b0, b2, c, x0, x)
    {
      assert FairTo(b0, b1, c, x0, x) && FairTo(b1, b2, c, x0, x);
    }
  }

  ghost function AccountPaidBooks(b: Books, c: Coin, a: Address): Books
    requires c in b.coins && (BalanceOf(b.balances, a, c) != 0 ==> b.coins[c].volume != 0)
  {
    var amount := BalanceOf(b.balances, a, c);
    var ret := SaleReturn(b.coins[c].volume, b.coins[c].reserve, amount);
    b.(coins := Redeemed(b.coins, c, amount), balances := Credit(b.balances, a, BASE, ret)[(a, c) := 0])
  }

  lemma AccountWithinVolume(b: Books, c: Coin, x0: CoinData, a: Address)
    requires Liquid(b, c, x0)
    ensures 0 <= BalanceOf(b.balances, a, c) <= b.coins[c].volume
  {
    HeldBounds(b.balances, c, a);
    CandidatesBounds(b.candidates, c, 0);
    FrozenBounds(b.funds, c, 0);
  }

  lemma AccountPaidKeeps(b: Books, c: Coin, x0: CoinData, a: Address)
    requires Liquid(b, c, x0) && 0 <= BalanceOf(b.balances, a, c) <= b.coins[c].volume
    ensures Liquid(AccountPaidBooks(b, c, a), c, x0) && OthersKept(b, AccountPaidBooks(b, c, a), c)
    ensures BalanceOf(b.balances, a, c) > 0 ==>
      BalanceOf(AccountPaidBooks(b, c, a).balances, a, c) == 0
      && Fair(b.balances, AccountPaidBooks(b, c, a).balances, c, x0)
  {
    hide Held, Reserves, Staked, Frozen, Accrued, Credit;
    var (x, amount) := (b.coins[c], BalanceOf(b.balances, a, c));
    SaleReturnBounds(x.volume, x.reserve, amount);
    RichAfterSale(x.volume, x.reserve, x0, amount);
    var ret := SaleReturn(x.volume, x.reserve, amount);
    hide SaleReturn, Rich, Share;
    AdjustedReserves(b.coins, c, -amount, -ret);
    AccountCleared(b.balances, a, c, ret);
    forall d {
      AccountPaid(b.balances, a, c, ret, d);
    }
    if amount > 0 {
      PaidIsFair(b.balances, a, c, ret, x0);
    }
  }

  lemma PaidIsFair(b: Balances, a: Address, c: Coin, ret: int, x0: CoinData)
    requires c != BASE && BalanceOf(b, a, c) > 0 && ret >= Share(x0, BalanceOf(b, a, c))
    ensures Fair(b, Credit(b, a, BASE, ret)[(a, c) := 0], c, x0)
  {
    hide Share;
  }

  lemma AccountPaid(b: Balances, a: Address, c: Coin, ret: int, d: Coin)
    requires c != BASE
    ensures Held(Credit(b, a, BASE, ret)[(a, c) := 0], d)
         == Held(b, d) + (if d == BASE then ret else 0) - if d == c then BalanceOf(b, a, c) else 0
  {
    HeldCredit(b, a, BASE, ret, d);
    HeldSet(Credit(b, a, BASE, ret), a, c, 0, d);
  }

  lemma AccountCleared(b: Balances, a: Address, c: Coin, ret: int)
    requires c != BASE
    ensures var b1 := Credit(b, a, BASE, ret)[(a, c) := 0];
            forall x :: BalanceOf(b1, x, c) == if x == a then 0 else BalanceOf(b, x, c)
  {
  }

  method LiquidateAccounts(s: StateDB, c: Coin, addresses: seq<Address>, ghost x0: CoinData)
    requires Liquid(s.State(), c, x0)
    requires forall a :: BalanceOf(s.balances, a, c) > 0 ==> a in addresses
    modifies s
    ensures Liquid(s.State(), c, x0) && OthersKept(old(s.State()), s.State(), c) && Held(s.balances, c) == 0
    ensures s.funds == old(s.funds) && s.candidates == old(s.candidates)
    ensures Fair(old(s.balances), s.balances, c, x0) && forall a :: BalanceOf(s.balances, a, c) == 0
  {
    hide Base, Owned, Held, Liquid, Share;
    assert OthersKept(s.State(), s.State(), c);
    for i := 0 to |addresses|
      invariant Liquid(s.State(), c, x0) && OthersKept(old(s.State()), s.State(), c)
      invariant s.funds == old(s.funds) && s.candidates == old(s.candidates)
      invariant forall a :: BalanceOf(s.balances, a, c) > 0 ==> a in addresses[i..]
      invariant Fair(old(s.balances), s.balances, c, x0)
    {
      ghost var b := s.State();
      LiquidateAccount(s, c, addresses[i], x0);
      forall a | BalanceOf(s.balances, a, c) > 0
        ensures a in addresses[i + 1..]
      {
        assert a != addresses[i] && BalanceOf(b.balances, a, c) > 0;
        assert addresses[i..] == [addresses[i]] + addresses[i + 1..];
      }
      FairTrans(old(s.balances), b.balances, s.balances, c, x0);
      OthersKeptTrans(old(s.State()), b, s.State(), c);
    }
    NothingHeld(s.State(), c, x0);
  }

  lemma NothingHeld(b: Books, c: Coin, x0: CoinData)
    requires Liquid(b, c, x0) && forall a :: BalanceOf(b.balances, a, c) <= 0
    ensures Held(b.balances, c) == 0 && forall a :: BalanceOf(b.balances, a, c) == 0
  {
    var m := OfCoin(b.balances, c);
    forall k | k in m
      ensures m[k] == 0
    {
      assert m[k] == BalanceOf(b.balances, k.0, c);
    }
    SumOfZeros(m);
  }

  // ---------------------------------------------------------------------------------
  // Frozen funds
  // ---------------------------------------------------------------------------------

  function PaidFund(f: FrozenFund, ret: int): FrozenFund { f.(coin := BASE, value := ret) }

  /** The books once entry i of the list at h is paid out. */
  ghost function FundPaid(b: Books, c: Coin, h: nat, i: nat): Books
    requires c in b.coins && h in b.funds && i < |b.funds[h]|
    requires b.funds[h][i].value != 0 ==> b.coins[c].volume != 0
  {
    var (x, f) := (b.coins[c], b.funds[h][i]);
    var ret := SaleReturn(x.volume, x.reserve, f.value);
    b.(coins := Redeemed(b.coins, c, f.value), funds := b.funds[h := b.funds[h][i := PaidFund(f, ret)]])
  }

  lemma FundWithinVolume(b: Books, c: Coin, x0: CoinData, h: nat, i: nat)
    requires Liquid(b, c, x0) && h in b.funds && i < |b.funds[h]| && b.funds[h][i].coin == c
    ensures 0 <= b.funds[h][i].value <= b.coins[c].volume
  {
    HeldBounds(b.balances, c, 0);
    CandidatesBounds(b.candidates, c, 0);
    FrozenBounds(b.funds, c, h);
    FundsBounds(b.funds[h], c, i);
  }

  lemma FundPaidKeeps(b: Books, c: Coin, x0: CoinData, h: nat, i: nat)
    requires Liquid(b, c, x0) && h in b.funds && i < |b.funds[h]| && b.funds[h][i].coin == c
    requires 0 <= b.funds[h][i].value <= b.coins[c].volume
    ensures Liquid(FundPaid(b, c, h, i), c, x0) && OthersKept(b, FundPaid(b, c, h, i), c)
    ensures b.funds[h][i].value > 0 ==>
      SaleReturn(b.coins[c].volume, b.coins[c].reserve, b.funds[h][i].value) >= Share(x0, b.funds[h][i].value)
  {
    hide Held, Reserves, Staked, Frozen, Accrued, FundsOf;
    var (x, f) := (b.coins[c], b.funds[h][i]);
    SaleReturnBounds(x.volume, x.reserve, f.value);
    RichAfterSale(x.volume, x.reserve, x0, f.value);
    var ret := SaleReturn(x.volume, x.reserve, f.value);
    hide SaleReturn, Rich, Share;
    AdjustedReserves(b.coins, c, -f.value, -ret);
    var list := b.funds[h][i := PaidFund(f, ret)];
    forall d
      ensures Frozen(b.funds[h := list], d)
           == Frozen(b.funds, d) + (if d == BASE then ret else 0) - if d == c then f.value else 0
    {
      FrozenSet(b.funds, h, list, d);
      FundsSet(b.funds[h], i, PaidFund(f, ret), d);
    }
  }

  /** The books as they will be once the list being rewritten replaces the one frozen at h. */
  ghost function Pending(b: Books, h: nat, list: seq<FrozenFund>): Books { b.(funds := b.funds[h := list]) }

  /** A fund not in c stays; one in c turns into base coin worth its share at least, for the same owner and candidate. */
  ghost predicate FairFund(f: FrozenFund, g: FrozenFund, c: Coin, x0: CoinData) {
    if f.coin != c then g == f
    else
      g.owner == f.owner && g.key == f.key && g.coin == BASE
      && if f.value > 0 then g.value >= Share(x0, f.value) else g.value == 0
  }

  /** What is frozen for an owner in base coin. */
  ghost function BaseFrozen(list: seq<FrozenFund>, owner: Address): int {
    if list == [] then 0
    else
      var f := list[|list| - 1];
      BaseFrozen(list[..|list| - 1], owner) + if f.owner == owner && f.coin == BASE then f.value else 0
  }

  /** What is frozen for an owner in base coin, and the shares of what is frozen for it in c. */
  ghost function FundsDue(list: seq<FrozenFund>, owner: Address, c: Coin, x0: CoinData): int {
    if list == [] then 0
    else
      var f := list[|list| - 1];
      FundsDue(list[..|list| - 1], owner, c, x0)
      + if f.owner != owner then 0
        else if f.coin == BASE then f.value
        else if f.coin == c && f.value > 0 then Share(x0, f.value)
        else 0
  }

  /** In base coin each owner has frozen in t at least what it had and its shares of c in s. */
  ghost predicate OwnersPaid(s: seq<FrozenFund>, t: seq<FrozenFund>, c: Coin, x0: CoinData) {
    forall owner :: BaseFrozen(t, owner) >= FundsDue(s, owner, c, x0)
  }

  lemma {:induction false} OwnerPaid(s: seq<FrozenFund>, t: seq<FrozenFund>, c: Coin, x0: CoinData, owner: Address)
    requires FairFunds(s, t, c, x0) && c != BASE
    ensures BaseFrozen(t, owner) >= FundsDue(s, owner, c, x0)
  {
    hide Share;
    if s != [] {
      var n := |s| - 1;
      assert FairFund(s[n], t[n], c, x0);
      OwnerPaid(s[..n], t[..n], c, x0, owner);
    }
  }

  lemma FairIsPaid(s: seq<FrozenFund>, t: seq<FrozenFund>, c: Coin, x0: CoinData)
    requires FairFunds(s, t, c, x0) && c != BASE
    ensures OwnersPaid(s, t, c, x0)
  {
    hide BaseFrozen, FundsDue, FairFunds;
    forall owner
      ensures BaseFrozen(t, owner) >= FundsDue(s, owner, c, x0)
    {
      OwnerPaid(s, t, c, x0, owner);
    }
  }

  ghost predicate FairFunds(s: seq<FrozenFund>, t: seq<FrozenFund>, c: Coin, x0: CoinData) {
    |s| == |t| && forall i :: 0 <= i < |s| ==> FairFund(s[i], t[i], c, x0)
  }

  /** Entry i of the pending list, paid out if it is in c. */
  method LiquidateFund(s: StateDB, c: Coin, f: FrozenFund, ghost x0: CoinData, ghost h: nat, ghost list: seq<FrozenFund>,
                       ghost i: nat)
    returns (g: FrozenFund)
    requires i < |list| && list[i] == f && Liquid(Pending(s.State(), h, list), c, x0)
    modifies s
    ensures g.coin != c && s.State() == old(s.State()).(coins := s.coins)
    ensures FairFund(f, g, c, x0)
    ensures Liquid(Pending(s.State(), h, list[i := g]), c, x0)
    ensures OthersKept(Pending(old(s.State()), h, list), Pending(s.State(), h, list[i := g]), c)
  {
    hide Base, Owned, Liquid;
    g := f;
    ghost var b := Pending(s.State(), h, list);
    LiquidFacts(b, c, x0);
    if f.coin == c {
      FundWithinVolume(b, c, x0, h, i);
      FundPaidKeeps(b, c, x0, h, i);
      var ret := Redeem(s, c, f.value);
      g := PaidFund(f, ret);
      assert FundPaid(b, c, h, i) == Pending(s.State(), h, list[i := g]);
    } else {
      assert list[i := g] == list;
    }
  }

  ghost predicate NoneOf(list: seq<FrozenFund>, c: Coin) {
    forall i :: 0 <= i < |list| ==> list[i].coin != c
  }

  lemma NothingPaid(c: Coin, x0: CoinData)
    ensures NoneOf([], c) && FairFunds([], [], c, x0)
  {
  }

  lemma FairFundsSnoc(s: seq<FrozenFund>, t: seq<FrozenFund>, f: FrozenFund, g: FrozenFund, c: Coin, x0: CoinData)
    requires NoneOf(t, c) && FairFunds(s, t, c, x0) && g.coin != c && FairFund(f, g, c, x0)
    ensures NoneOf(t + [g], c) && FairFunds(s + [f], t + [g], c, x0)
  {
    hide FairFund;
  }

  /** Rewrites the list frozen at h, paying out every entry in c. */
  method LiquidateFunds(s: StateDB, c: Coin, h: nat, ghost x0: CoinData)
    requires Liquid(s.State(), c, x0)
    modifies s
    ensures Liquid(s.State(), c, x0) && OthersKept(old(s.State()), s.State(), c)
    ensures s.balances == old(s.balances) && s.candidates == old(s.candidates) && s.funds.Keys == old(s.funds).Keys
    ensures forall k :: k in s.funds && k != h ==> s.funds[k] == old(s.funds)[k]
    ensures h in s.funds ==> NoneOf(s.funds[h], c) && FairFunds(old(s.funds)[h], s.funds[h], c, x0)
  {
    hide Base, Owned, Liquid, OthersKept, FairFund, FairFunds, NoneOf;
    KeptItself(s.State(), c);
    NothingPaid(c, x0);
    if h in s.funds {
      var list := s.funds[h];
      var newList: seq<FrozenFund> := [];
      ghost var now := list;
      assert s.State() == Pending(s.State(), h, now);
      for i := 0 to |list|
        invariant |newList| == i && now == newList + list[i..]
        invariant s.funds == old(s.funds) && s.balances == old(s.balances) && s.candidates == old(s.candidates)
        invariant NoneOf(newList, c) && FairFunds(list[..i], newList, c, x0)
        invariant Liquid(Pending(s.State(), h, now), c, x0)
        invariant OthersKept(old(s.State()), Pending(s.State(), h, now), c)
      {
        ghost var b := Pending(s.State(), h, now);
        var g := LiquidateFund(s, c, list[i], x0, h, now, i);
        FairFundsSnoc(list[..i], newList, list[i], g, c, x0);
        newList := newList + [g];
        now := now[i := g];
        assert list[..i + 1] == list[..i] + [list[i]];
        OthersKeptTrans(old(s.State()), b, Pending(s.State(), h, now), c);
      }
      assert now == newList && list[..|list|] == list;
      s.funds := s.funds[h := newList];
    }
  }

  lemma KeptItself(b: Books, c: Coin)
    ensures OthersKept(b, b, c)
  {
  }

  lemma LiquidFacts(b: Books, c: Coin, x0: CoinData)
    requires Liquid(b, c, x0)
    ensures c != BASE && c in b.coins && b.coins[c].reserve >= 0 && HoldingsSound(b, c)
  {
  }

  method LiquidateAllFunds(s: StateDB, c: Coin, heights: seq<nat>, ghost x0: CoinData)
    requires Liquid(s.State(), c, x0)
    requires forall h, i :: h in s.funds && 0 <= i < |s.funds[h]| && s.funds[h][i].coin == c ==> h in heights
    modifies s
    ensures Liquid(s.State(), c, x0) && OthersKept(old(s.State()), s.State(), c) && Frozen(s.funds, c) == 0
    ensures s.balances == old(s.balances) && s.candidates == old(s.candidates)
    ensures s.funds.Keys == old(s.funds).Keys
    ensures forall h :: h in s.funds ==> FairFunds(old(s.funds)[h], s.funds[h], c, x0)
  {
    hide Base, Owned, Liquid, FairFunds, OthersKept;
    KeptItself(s.State(), c);
    for j := 0 to |heights|
      invariant Liquid(s.State(), c, x0) && OthersKept(old(s.State()), s.State(), c)
      invariant s.balances == old(s.balances) && s.candidates == old(s.candidates)
      invariant s.funds.Keys == old(s.funds).Keys
      invariant forall h :: h in s.funds && h !in heights[j..] ==> NoneOf(s.funds[h], c)
      invariant forall h :: h in s.funds ==>
        s.funds[h] == old(s.funds)[h] || (NoneOf(s.funds[h], c) && FairFunds(old(s.funds)[h], s.funds[h], c, x0))
    {
      ghost var b := s.State();
      LiquidateFunds(s, c, heights[j], x0);
      if heights[j] in s.funds && NoneOf(b.funds[heights[j]], c) {
        NothingToPay(b.funds[heights[j]], s.funds[heights[j]], c, x0);
      }
      OthersKeptTrans(old(s.State()), b, s.State(), c);
    }
    forall h | h in s.funds
      ensures FairFunds(old(s.funds)[h], s.funds[h], c, x0) && NoneOf(s.funds[h], c)
    {
      if s.funds[h] == old(s.funds)[h] {
        FairFundsAgain(s.funds[h], c, x0);
      }
    }
    NothingFrozen(s.funds, c);
  }

  lemma NothingToPay(s: seq<FrozenFund>, t: seq<FrozenFund>, c: Coin, x0: CoinData)
    requires NoneOf(s, c) && FairFunds(s, t, c, x0)
    ensures t == s
  {
    forall i | 0 <= i < |s|
      ensures t[i] == s[i]
    {
      assert FairFund(s[i], t[i], c, x0);
    }
  }

  lemma FairFundsAgain(s: seq<FrozenFund>, c: Coin, x0: CoinData)
    requires NoneOf(s, c)
    ensures FairFunds(s, s, c, x0)
  {
  }

  lemma {:induction false} NoFundOf(list: seq<FrozenFund>, c: Coin)
    requires forall i :: 0 <= i < |list| ==> list[i].coin != c
    ensures FundsOf(list, c) == 0
  {
    if list != [] {
      NoFundOf(list[..|list| - 1], c);
    }
  }

  lemma NothingFrozen(funds: map<nat, seq<FrozenFund>>, c: Coin)
    requires forall h :: h in funds ==> NoneOf(funds[h], c)
    ensures Frozen(funds, c) == 0
  {
    forall h | h in funds
      ensures FundMap(funds, c)[h] == 0
    {
      NoFundOf(funds[h], c);
    }
    SumOfZeros(FundMap(funds, c));
  }

  // ---------------------------------------------------------------------------------
  // Stakes
  // ---------------------------------------------------------------------------------

  /** A paid-out stake turns into base coin, or is merged into the owner's base stake. */
  function PaidStake(stakes: seq<Stake>, j: nat, ret: int): seq<Stake>
    requires j < |stakes|
  {
    var k := StakeIndex(stakes, stakes[j].owner, BASE);
    if k == |stakes| then stakes[j := stakes[j].(value := ret, coin := BASE)]
    else
      var cleared := stakes[j := stakes[j].(value := 0)];
      cleared[k := cleared[k].(value := cleared[k].value + ret)]
  }

  lemma PaidStakeAmounts(stakes: seq<Stake>, c: Coin, j: nat, ret: int, d: Coin)
    requires j < |stakes| && stakes[j].coin == c != BASE
    ensures StakedOf(PaidStake(stakes, j, ret), d)
         == StakedOf(stakes, d) + (if d == BASE then ret else 0) - if d == c then stakes[j].value else 0
  {
    hide StakedOf, StakeIndex;
    var k := StakeIndex(stakes, stakes[j].owner, BASE);
    if k == |stakes| {
      StakedSet(stakes, j, stakes[j].(value := ret, coin := BASE), d);
    } else {
      var cleared := stakes[j := stakes[j].(value := 0)];
      StakedSet(stakes, j, stakes[j].(value := 0), d);
      StakedSet(cleared, k, cleared[k].(value := cleared[k].value + ret), d);
    }
  }

  lemma PaidStakeShape(stakes: seq<Stake>, c: Coin, j: nat, ret: int)
    requires j < |stakes| && stakes[j].coin == c != BASE && StakesSound(stakes, c)
    ensures var now := PaidStake(stakes, j, ret);
            SameStakes(stakes, now) && StakesSound(now, c) && (now[j].coin == c ==> now[j].value == 0)
            && forall m :: 0 <= m < |now| && m != j && now[m].coin == c ==> now[m] == stakes[m]
  {
    hide StakeIndex;
  }

  /** What an owner has staked in base coin. */
  function BaseOf(stakes: seq<Stake>, owner: Address): int {
    if stakes == [] then 0
    else
      var x := stakes[|stakes| - 1];
      BaseOf(stakes[..|stakes| - 1], owner) + if x.owner == owner && x.coin == BASE then x.value else 0
  }

  /** What a stake is worth to an owner in base coin, one in c at its share of the reserve to begin with. */
  function Worth(x: Stake, owner: Address, c: Coin, x0: CoinData): int {
    if x.owner != owner then 0 else if x.coin == BASE then x.value else if x.coin == c then Share(x0, x.value) else 0
  }

  /** An owner's stake in base coin and the shares of its stakes in c. */
  function Due(stakes: seq<Stake>, owner: Address, c: Coin, x0: CoinData): int {
    if stakes == [] then 0
    else Due(stakes[..|stakes| - 1], owner, c, x0) + Worth(stakes[|stakes| - 1], owner, c, x0)
  }

  /** Every owner has at least its due in t, of its stakes in s. */
  ghost predicate FairStakes(s: seq<Stake>, t: seq<Stake>, c: Coin, x0: CoinData) {
    forall owner :: BaseOf(t, owner) >= Due(s, owner, c, x0)
  }

  ghost predicate NoLessDue(s: seq<Stake>, t: seq<Stake>, c: Coin, x0: CoinData) {
    forall owner :: Due(t, owner, c, x0) >= Due(s, owner, c, x0)
  }

  lemma {:induction false} DueSet(stakes: seq<Stake>, j: nat, x: Stake, owner: Address, c: Coin, x0: CoinData)
    requires j < |stakes|
    ensures Due(stakes[j := x], owner, c, x0)
         == Due(stakes, owner, c, x0) - Worth(stakes[j], owner, c, x0) + Worth(x, owner, c, x0)
  {
    hide Worth;
    var n := |stakes| - 1;
    if j < n {
      assert stakes[j := x][..n] == stakes[..n][j := x];
      DueSet(stakes[..n], j, x, owner, c, x0);
    } else {
      assert stakes[j := x][..n] == stakes[..n];
    }
  }

  lemma NoShare(x0: CoinData)
    ensures Share(x0, 0) == 0
  {
    if x0.volume > 0 {
      assert x0.reserve * 0 == 0;
      QuotientUnique(0, x0.volume, 0, 0);
    }
  }

  /** Paid at least its share, a stake leaves no owner with less than its due, merged or not. */
  lemma PaidStakeDue(stakes: seq<Stake>, c: Coin, j: nat, ret: int, x0: CoinData)
    requires j < |stakes| && stakes[j].coin == c != BASE && ret >= Share(x0, stakes[j].value)
    ensures NoLessDue(stakes, PaidStake(stakes, j, ret), c, x0)
  {
    hide StakeIndex, Share, Due;
    NoShare(x0);
    var k := StakeIndex(stakes, stakes[j].owner, BASE);
    forall owner
      ensures Due(PaidStake(stakes, j, ret), owner, c, x0) >= Due(stakes, owner, c, x0)
    {
      if k == |stakes| {
        DueSet(stakes, j, stakes[j].(value := ret, coin := BASE), owner, c, x0);
      } else {
        var cleared := stakes[j := stakes[j].(value := 0)];
        DueSet(stakes, j, stakes[j].(value := 0), owner, c, x0);
        DueSet(cleared, k, cleared[k].(value := cleared[k].value + ret), owner, c, x0);
      }
    }
  }

  /** Once nothing of c is staked, what is due is what is staked in base coin. */
  lemma {:induction false} DueIsBase(stakes: seq<Stake>, owner: Address, c: Coin, x0: CoinData)
    requires StakesCleared(stakes, c, |stakes|)
    ensures Due(stakes, owner, c, x0) == BaseOf(stakes, owner)
  {
    hide Share;
    NoShare(x0);
    if stakes != [] {
      DueIsBase(stakes[..|stakes| - 1], owner, c, x0);
    }
  }

  lemma ClearedFair(s: seq<Stake>, t: seq<Stake>, c: Coin, x0: CoinData)
    requires NoLessDue(s, t, c, x0) && StakesCleared(t, c, |t|)
    ensures FairStakes(s, t, c, x0)
  {
    hide Due, BaseOf;
    forall owner
      ensures BaseOf(t, owner) >= Due(s, owner, c, x0)
    {
      DueIsBase(t, owner, c, x0);
    }
  }

  lemma DueTrans(s: seq<Stake>, t: seq<Stake>, u: seq<Stake>, c: Coin, x0: CoinData)
    requires NoLessDue(s, t, c, x0) && NoLessDue(t, u, c, x0)
    ensures NoLessDue(s, u, c, x0)
  {
    hide Due;
  }

  lemma DueItself(s: seq<Stake>, c: Coin, x0: CoinData)
    ensures NoLessDue(s, s, c, x0)
  {
  }

  lemma StakeReturn(b: Books, c: Coin, x0: CoinData, i: nat, j: nat)
    requires Liquid(b, c, x0) && i < |b.candidates| && j < |b.candidates[i].stakes|
    requires b.candidates[i].stakes[j].coin == c && 0 <= b.candidates[i].stakes[j].value <= b.coins[c].volume
    ensures var x := b.coins[c];
            SaleReturn(x.volume, x.reserve, b.candidates[i].stakes[j].value) >= Share(x0, b.candidates[i].stakes[j].value)
  {
    var x := b.coins[c];
    RichAfterSale(x.volume, x.reserve, x0, b.candidates[i].stakes[j].value);
    NoShare(x0);
    hide Share;
  }

  /** The books once stake j of candidate i is paid out. */
  ghost function StakePaid(b: Books, c: Coin, i: nat, j: nat): Books
    requires c in b.coins && i < |b.candidates| && j < |b.candidates[i].stakes|
    requires b.candidates[i].stakes[j].value != 0 ==> b.coins[c].volume != 0
  {
    var (x, stakes) := (b.coins[c], b.candidates[i].stakes);
    var ret := SaleReturn(x.volume, x.reserve, stakes[j].value);
    b.(coins := Redeemed(b.coins, c, stakes[j].value),
       candidates := b.candidates[i := b.candidates[i].(stakes := PaidStake(stakes, j, ret))])
  }

  lemma StakeWithinVolume(b: Books, c: Coin, x0: CoinData, i: nat, j: nat)
    requires Liquid(b, c, x0) && i < |b.candidates| && j < |b.candidates[i].stakes|
    requires b.candidates[i].stakes[j].coin == c
    ensures 0 <= b.candidates[i].stakes[j].value <= b.coins[c].volume
  {
    HeldBounds(b.balances, c, 0);
    CandidatesBounds(b.candidates, c, i);
    FrozenBounds(b.funds, c, 0);
    StakesBounds(b.candidates[i].stakes, c, j);
  }

  lemma StakePaidKeeps(b: Books, c: Coin, x0: CoinData, i: nat, j: nat)
    requires Liquid(b, c, x0) && i < |b.candidates| && j < |b.candidates[i].stakes|
    requires b.candidates[i].stakes[j].coin == c && 0 <= b.candidates[i].stakes[j].value <= b.coins[c].volume
    ensures Liquid(StakePaid(b, c, i, j), c, x0) && OthersKept(b, StakePaid(b, c, i, j), c)
  {
    hide Held, Reserves, Staked, Frozen, Accrued, StakedOf, PaidStake;
    var (x, stakes) := (b.coins[c], b.candidates[i].stakes);
    SaleReturnBounds(x.volume, x.reserve, stakes[j].value);
    RichAfterSale(x.volume, x.reserve, x0, stakes[j].value);
    var ret := SaleReturn(x.volume, x.reserve, stakes[j].value);
    hide SaleReturn, Rich, Share;
    AdjustedReserves(b.coins, c, -stakes[j].value, -ret);
    PaidStakeShape(stakes, c, j, ret);
    var y := b.candidates[i].(stakes := PaidStake(stakes, j, ret));
    forall d
      ensures Staked(b.candidates[i := y], d)
           == Staked(b.candidates, d) + (if d == BASE then ret else 0) - if d == c then stakes[j].value else 0
    {
      StakedReplace(b.candidates, i, y, d);
      PaidStakeAmounts(stakes, c, j, ret, d);
    }
  }

  /** Stake j of candidate i, paid out if it is in c. */
  method LiquidateStake(s: StateDB, c: Coin, i: nat, j: nat, ghost x0: CoinData)
    requires Liquid(s.State(), c, x0) && i < |s.candidates| && j < |s.candidates[i].stakes|
    modifies s
    ensures Liquid(s.State(), c, x0) && OthersKept(old(s.State()), s.State(), c)
    ensures s.balances == old(s.balances) && s.funds == old(s.funds)
    ensures old(s.candidates)[i].stakes[j].coin != c ==> s.State() == old(s.State())
    ensures old(s.candidates)[i].stakes[j].coin == c ==>
      (old(s.candidates)[i].stakes[j].value != 0 ==> old(s.coins)[c].volume != 0)
      && s.State() == StakePaid(old(s.State()), c, i, j)
    ensures SameShape(old(s.candidates), s.candidates)
    ensures forall k :: 0 <= k < |s.candidates| && k != i ==> s.candidates[k] == old(s.candidates)[k]
    ensures s.candidates[i].stakes[j].coin == c ==> s.candidates[i].stakes[j].value == 0
    ensures forall m :: 0 <= m < |s.candidates[i].stakes| && m != j && s.candidates[i].stakes[m].coin == c ==>
      s.candidates[i].stakes[m] == old(s.candidates)[i].stakes[m]
    ensures NoLessDue(old(s.candidates)[i].stakes, s.candidates[i].stakes, c, x0)
  {
    hide Base, Owned, Liquid, PaidStake, NoLessDue, Share;
    DueItself(s.candidates[i].stakes, c, x0);
    ghost var b := s.State();
    LiquidFacts(b, c, x0);
    KeptItself(b, c);
    var stake := s.candidates[i].stakes[j];
    if stake.coin == c {
      StakeWithinVolume(b, c, x0, i, j);
      StakePaidKeeps(b, c, x0, i, j);
      StakeReturn(b, c, x0, i, j);
      var ret := Redeem(s, c, stake.value);
      PaidStakeDue(s.candidates[i].stakes, c, j, ret, x0);
      PaidStakeShape(s.candidates[i].stakes, c, j, ret);
      s.candidates := s.candidates[i := s.candidates[i].(stakes := PaidStake(s.candidates[i].stakes, j, ret))];
      assert s.State() == StakePaid(b, c, i, j);
    }
  }

  ghost predicate StakesCleared(stakes: seq<Stake>, c: Coin, n: nat) {
    forall j :: 0 <= j < n && j < |stakes| && stakes[j].coin == c ==> stakes[j].value == 0
  }

  method LiquidateStakes(s: StateDB, c: Coin, ghost x0: CoinData)
    requires Liquid(s.State(), c, x0)
    modifies s
    ensures Liquid(s.State(), c, x0) && OthersKept(old(s.State()), s.State(), c) && Staked(s.candidates, c) == 0
    ensures s.balances == old(s.balances) && s.funds == old(s.funds) && |s.candidates| == |old(s.candidates)|
    ensures forall i :: 0 <= i < |s.candidates| ==>
      FairStakes(old(s.candidates)[i].stakes, s.candidates[i].stakes, c, x0)
  {
    hide Base, Owned, Liquid, OthersKept, Staked, FairStakes, NoLessDue, SameShape;
    KeptItself(s.State(), c);
    for i := 0 to |s.candidates|
      invariant |s.candidates| == |old(s.candidates)|
      invariant Liquid(s.State(), c, x0) && OthersKept(old(s.State()), s.State(), c)
      invariant s.balances == old(s.balances) && s.funds == old(s.funds)
      invariant forall k :: 0 <= k < i ==> StakesCleared(s.candidates[k].stakes, c, |s.candidates[k].stakes|)
      invariant forall k :: 0 <= k < i ==> FairStakes(old(s.candidates)[k].stakes, s.candidates[k].stakes, c, x0)
      invariant forall k :: i <= k < |s.candidates| ==> s.candidates[k] == old(s.candidates)[k]
    {
      ghost var was := s.candidates;
      DueItself(was[i].stakes, c, x0);
      for j := 0 to |s.candidates[i].stakes|
        invariant |s.candidates| == |was| && |s.candidates[i].stakes| == |was[i].stakes|
        invariant Liquid(s.State(), c, x0) && OthersKept(old(s.State()), s.State(), c)
        invariant s.balances == old(s.balances) && s.funds == old(s.funds)
        invariant forall k :: 0 <= k < |was| && k != i ==> s.candidates[k] == was[k]
        invariant StakesCleared(s.candidates[i].stakes, c, j)
        invariant NoLessDue(was[i].stakes, s.candidates[i].stakes, c, x0)
      {
        ghost var b := s.State();
        LiquidateStake(s, c, i, j, x0);
        OthersKeptTrans(old(s.State()), b, s.State(), c);
        DueTrans(was[i].stakes, b.candidates[i].stakes, s.candidates[i].stakes, c, x0);
        SameCount(b.candidates, s.candidates, i);
      }
      ClearedFair(was[i].stakes, s.candidates[i].stakes, c, x0);
    }
    NothingStaked(s.candidates, c);
  }

  lemma SameCount(cs: seq<Candidate>, ds: seq<Candidate>, i: nat)
    requires SameShape(cs, ds) && i < |cs|
    ensures |ds| == |cs| && |ds[i].stakes| == |cs[i].stakes|
  {
  }

  lemma {:induction false} ClearedIsNothing(stakes: seq<Stake>, c: Coin)
    requires StakesCleared(stakes, c, |stakes|)
    ensures StakedOf(stakes, c) == 0
  {
    if stakes != [] {
      ClearedIsNothing(stakes[..|stakes| - 1], c);
    }
  }

  lemma {:induction false} NothingStaked(cs: seq<Candidate>, c: Coin)
    requires forall k :: 0 <= k < |cs| ==> StakesCleared(cs[k].stakes, c, |cs[k].stakes|)
    ensures Staked(cs, c) == 0
  {
    if cs != [] {
      NothingStaked(cs[..|cs| - 1], c);
      ClearedIsNothing(cs[|cs| - 1].stakes, c);
    }
  }

  // ---------------------------------------------------------------------------------
  // The whole liquidation
  // ---------------------------------------------------------------------------------

  /** The work lists reach every holding of c, however often. */
  ghost predicate Covers(b: Books, c: Coin, addresses: seq<Address>, heights: seq<nat>) {
    (forall a :: BalanceOf(b.balances, a, c) > 0 ==> a in addresses)
    && forall h, i :: h in b.funds && 0 <= i < |b.funds[h]| && b.funds[h][i].coin == c ==> h in heights
  }

  /** The volume on record is exactly what is held, and nothing is held negatively. */
  ghost predicate Accounted(b: Books, c: Coin) {
    c != BASE && c in b.coins && Gap(b, c) == 0 && b.coins[c].reserve >= 0 && HoldingsSound(b, c)
  }

  function Marked(coins: map<Coin, CoinData>, c: Coin): map<Coin, CoinData>
    requires c in coins
  {
    coins[c := coins[c].(deleted := true)]
  }

  lemma MarkedLiquid(b: Books, c: Coin)
    requires Accounted(b, c)
    ensures Liquid(b.(coins := Marked(b.coins, c)), c, b.coins[c])
    ensures Base(b.(coins := Marked(b.coins, c))) == Base(b)
  {
    VolumeNotNegative(b, c);
    hide Held, Reserves, Staked, Frozen, Accrued;
    ReservesSet(b.coins, c, b.coins[c].(deleted := true));
  }

  lemma NothingOwned(b: Books, c: Coin, x0: CoinData)
    requires Liquid(b, c, x0) && Held(b.balances, c) == 0 && Frozen(b.funds, c) == 0 && Staked(b.candidates, c) == 0
    requires x0.volume >= 0
    ensures c in b.coins && Owned(b, c) == 0 && b.coins[c].volume == 0 && b.coins[c].deleted
    ensures b.coins[c].reserve == if x0.volume > 0 then 0 else x0.reserve
  {
  }

  lemma VolumeNotNegative(b: Books, c: Coin)
    requires Accounted(b, c)
    ensures b.coins[c].volume >= 0
  {
    HeldBounds(b.balances, c, 0);
    CandidatesBounds(b.candidates, c, 0);
    FrozenBounds(b.funds, c, 0);
  }

  /**
   * Turns every holding of c into base coin. Base coin as a whole is conserved while the reserve goes
   * to nothing, so what the holders receive adds up to the reserve; other coins stay as they were.
   */
  method DeleteCoin(s: StateDB, c: Coin, addresses: seq<Address>, heights: seq<nat>)
    requires Accounted(s.State(), c) && Covers(s.State(), c, addresses, heights)
    modifies s
    ensures old(s.coins)[c].deleted ==> s.State() == old(s.State())
    ensures !old(s.coins)[c].deleted ==>
      OthersKept(old(s.State()), s.State(), c) && Owned(s.State(), c) == 0
      && s.coins[c].volume == 0 && s.coins[c].deleted
      && s.coins[c].reserve == if old(s.coins)[c].volume > 0 then 0 else old(s.coins)[c].reserve
    ensures !old(s.coins)[c].deleted ==>
      Fair(old(s.balances), s.balances, c, old(s.coins)[c]) && (forall a :: BalanceOf(s.balances, a, c) == 0)
      && s.funds.Keys == old(s.funds).Keys
      && forall h :: h in s.funds ==>
           FairFunds(old(s.funds)[h], s.funds[h], c, old(s.coins)[c])
           && OwnersPaid(old(s.funds)[h], s.funds[h], c, old(s.coins)[c])
    ensures !old(s.coins)[c].deleted ==> forall a ::
      var (x, had) := (old(s.coins)[c], BalanceOf(old(s.balances), a, c));
      BalanceOf(s.balances, a, BASE)
      >= BalanceOf(old(s.balances), a, BASE) + if had > 0 && x.volume > 0 then x.reserve * had / x.volume else 0
    ensures !old(s.coins)[c].deleted ==>
      |s.candidates| == |old(s.candidates)|
      && forall i :: 0 <= i < |s.candidates| ==>
           FairStakes(old(s.candidates)[i].stakes, s.candidates[i].stakes, c, old(s.coins)[c])
  {
    hide Base, Owned, Held, Frozen, Staked, Liquid, OthersKept, Fair, FairFunds, FairStakes, OwnersPaid;
    if s.coins[c].deleted {
      return;
    }
    ghost var x0 := s.coins[c];
    MarkedLiquid(s.State(), c);
    VolumeNotNegative(s.State(), c);
    MarkedKeeps(s.State(), c);
    ghost var b := s.State();
    s.coins := Marked(s.coins, c);
    ghost var b0 := s.State();
    LiquidateAccounts(s, c, addresses, x0);
    OthersKeptTrans(b, b0, s.State(), c);
    ghost var b1 := s.State();
    LiquidateAllFunds(s, c, heights, x0);
    OthersKeptTrans(b, b1, s.State(), c);
    ghost var b2 := s.State();
    LiquidateStakes(s, c, x0);
    OthersKeptTrans(b, b2, s.State(), c);
    NothingOwned(s.State(), c, x0);
    AccountsPaid(b.balances, s.balances, c, x0);
    forall h | h in s.funds
      ensures OwnersPaid(b.funds[h], s.funds[h], c, x0)
    {
      FairIsPaid(b.funds[h], s.funds[h], c, x0);
    }
    ghost var coins := s.coins;
    s.SubCoinVolume(c, s.coins[c].volume);
    assert s.coins == coins;
  }

  lemma AccountsPaid(b0: Balances, b1: Balances, c: Coin, x0: CoinData)
    requires Fair(b0, b1, c, x0) && forall a :: BalanceOf(b1, a, c) == 0
    ensures forall a ::
      BalanceOf(b1, a, BASE)
      >= BalanceOf(b0, a, BASE)
         + if BalanceOf(b0, a, c) > 0 && x0.volume > 0 then x0.reserve * BalanceOf(b0, a, c) / x0.volume else 0
  {
    forall a
      ensures BalanceOf(b1, a, BASE)
           >= BalanceOf(b0, a, BASE)
              + if BalanceOf(b0, a, c) > 0 && x0.volume > 0 then x0.reserve * BalanceOf(b0, a, c) / x0.volume else 0
    {
      assert FairTo(b0, b1, c, x0, a);
    }
  }

  /** A coin of which nothing is held, but with a reserve. */
  function Abandoned(): Books { Books(map[], map[], map[1 := CoinData(0, 5, 50, false)], map[], [], [], 0, 0, 1, map[]) }

  lemma AbandonedUnheld()
    ensures Gap(Abandoned(), 1) == 0
  {
    var b := Abandoned();
    hide Sum;
    SumOfZeros(OfCoin(b.balances, 1));
    SumOfZeros(FundMap(b.funds, 1));
    assert Staked([], 1) == 0;
  }

  lemma AbandonedAccounted()
    ensures Accounted(Abandoned(), 1) && Covers(Abandoned(), 1, [], []) && !Abandoned().coins[1].deleted
    ensures 1 in Abandoned().coins && Abandoned().coins[1].volume == 0 && Abandoned().coins[1].reserve == 5
  {
    hide Gap;
    AbandonedUnheld();
  }

  /** It can be deleted, and its reserve is then paid to nobody. */
  method DeleteAbandoned() returns (s: StateDB)
    ensures 1 in s.coins && s.coins[1].deleted && s.coins[1].volume == 0 && s.coins[1].reserve == 5
  {
    hide Abandoned, Accounted, Covers, Owned, Base, Fair, FairFunds, FairStakes;
    AbandonedAccounted();
    s := new StateDB(Abandoned());
    DeleteCoin(s, 1, [], []);
  }

  lemma MarkedKeeps(b: Books, c: Coin)
    requires Accounted(b, c)
    ensures OthersKept(b, b.(coins := Marked(b.coins, c)), c)
  {
    hide Held, Reserves, Staked, Frozen, Accrued;
    MarkedLiquid(b, c);
  }
}
