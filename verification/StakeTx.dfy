// Transactions that move coins in and out of stakes.
module StakeTx {
  import opened Common
  import opened Conversion
  import opened Elections
  import opened Ledger
  import opened Owners
  import opened Slashing
  import opened StateDb
  import opened Staking
  import Payout
  import Transactions

  /** Whether a stake is large enough for a full candidate is decided by the curves, and given here. */
  datatype Act =
    | Delegating(key: Key, coin: Coin, value: nat, sufficient: bool)
    | Unbonding(key: Key, coin: Coin, value: nat)
    | Declaring(rewardAddress: Address, key: Key, commission: nat, coin: Coin, value: nat, sufficient: bool)

  datatype StakingTx = StakingTx(sender: Address, nonce: nat, gasPrice: nat, gasCoin: Coin, payload: nat, act: Act)

  function Commission(tx: StakingTx): nat {
    tx.gasPrice * ((if tx.act.Declaring? then 10000 else 200) + 2 * tx.payload) * COMMISSION_MULTIPLIER
  }

  /** The commission in the gas coin. */
  function Fee(p: Prices, coins: map<Coin, CoinData>, tx: StakingTx): nat
    requires tx.gasCoin == BASE || tx.gasCoin in coins
  {
    if tx.gasCoin == BASE then Commission(tx) else Transactions.SaleAmount(p, coins[tx.gasCoin], Commission(tx))
  }

  /** What leaves the sender's account for the stake; unbonding takes nothing. */
  function Staked(tx: StakingTx): nat { if tx.act.Unbonding? then 0 else tx.act.value }

  /** The books once commission and stake have left the sender's account. */
  function Charged(p: Prices, b: Books, tx: StakingTx): Books
    requires tx.gasCoin == BASE || tx.gasCoin in b.coins
  {
    var fee: int := Fee(p, b.coins, tx);
    var cb: int := Commission(tx);
    var value: int := Staked(tx);
    b.(pool := b.pool + cb, coins := Adjusted(b.coins, tx.gasCoin, -fee, -cb),
       balances := Credit(Credit(b.balances, tx.sender, tx.gasCoin, -fee), tx.sender, tx.act.coin, -value))
  }

  /** What is charged is the stake and nothing else. */
  lemma ChargedAmounts(p: Prices, b: Books, tx: StakingTx)
    requires tx.gasCoin == BASE || tx.gasCoin in b.coins
    ensures var r := Charged(p, b, tx);
            Base(r) == Base(b) - (if tx.act.coin == BASE then Staked(tx) else 0) && r.coins.Keys == b.coins.Keys
    ensures var r := Charged(p, b, tx);
            forall c :: c in b.coins && c != BASE ==>
              Gap(r, c) == Gap(b, c) + if c == tx.act.coin then Staked(tx) else 0
  {
    hide Held, Reserves, Ledger.Staked, Frozen, Accrued, Commission, Staked, Credit;
    var fee: int := Fee(p, b.coins, tx);
    var cb: int := Commission(tx);
    var value: int := Staked(tx);
    AdjustedReserves(b.coins, tx.gasCoin, -fee, -cb);
    var b1 := Credit(b.balances, tx.sender, tx.gasCoin, -fee);
    forall c
      ensures Held(Credit(b1, tx.sender, tx.act.coin, -value), c)
           == Held(b.balances, c) - (if c == tx.gasCoin then fee else 0) - if c == tx.act.coin then value else 0
    {
      HeldCredit(b.balances, tx.sender, tx.gasCoin, -fee, c);
      HeldCredit(b1, tx.sender, tx.act.coin, -value, c);
    }
  }

  method Charge(s: StateDB, p: Prices, tx: StakingTx)
    requires tx.gasCoin == BASE || tx.gasCoin in s.coins
    modifies s
    ensures s.State() == Charged(p, old(s.State()), tx)
  {
    hide Commission, Credit;
    var fee: int := Fee(p, s.coins, tx);
    var cb: int := Commission(tx);
    s.pool := s.pool + cb;
    ReserveThenVolume(s.coins, tx.gasCoin, fee, cb);
    s.SubCoinReserve(tx.gasCoin, cb);
    s.SubCoinVolume(tx.gasCoin, fee);
    s.SubBalance(tx.sender, tx.gasCoin, fee);
    if tx.act.Unbonding? {
      CreditNothing(s.balances, tx.sender, tx.act.coin);
    } else {
      s.SubBalance(tx.sender, tx.act.coin, tx.act.value);
    }
  }

  lemma ReserveThenVolume(coins: map<Coin, CoinData>, c: Coin, volume: int, reserve: int)
    ensures Adjusted(Adjusted(coins, c, 0, -reserve), c, -volume, 0) == Adjusted(coins, c, -volume, -reserve)
  {
  }

  lemma CreditNothing(b: Balances, a: Address, c: Coin)
    ensures Credit(b, a, c, 0) == b
  {
  }

  // ---------------------------------------------------------------------------------
  // Effects on candidates
  // ---------------------------------------------------------------------------------

  /** A declared candidate with its first stake, offline. */
  function Declared(tx: StakingTx, bip: int): Candidate
    requires tx.act.Declaring?
  {
    Candidate(tx.act.key, tx.act.rewardAddress, tx.act.commission, 0,
              [Stake(tx.act.rewardAddress, tx.act.coin, tx.act.value, bip)], false)
  }

  lemma {:induction false} IndexAppended(cs: seq<Candidate>, c: Candidate, key: Key)
    ensures CandidateIndex(cs + [c], key)
         == if CandidateIndex(cs, key) < |cs| then CandidateIndex(cs, key)
            else if c.key == key then |cs| else |cs| + 1
  {
    if cs == [] {
      assert (cs + [c])[1..] == [];
    } else if cs[0].key != key {
      assert (cs + [c])[1..] == cs[1..] + [c];
      IndexAppended(cs[1..], c, key);
    }
  }

  /** A new candidate backs nobody, so whatever it stakes is safe. */
  lemma DeclareKeeps(cs: seq<Candidate>, c: Candidate, vals: seq<Validator>)
    requires Sound(cs, vals) && SoundCandidate(c) && CandidateIndex(cs, c.key) == |cs|
    ensures Sound(cs + [c], vals)
  {
    hide BipSum, SoundCandidate;
    forall i | 0 <= i < |vals|
      ensures Backed(vals[i], cs + [c])
    {
      assert Backed(vals[i], cs);
      IndexAppended(cs, c, vals[i].key);
    }
  }

  // ---------------------------------------------------------------------------------
  // Running a staking transaction
  // ---------------------------------------------------------------------------------

  /** The stake invariant, and the signs other operations rely on. */
  ghost predicate Steady(b: Books) {
    Sound(b.candidates, b.validators) && CacheSound(b.stakeCache) && b.pool >= 0
  }

  ghost predicate Orderly(b: Books) { Steady(b) && CoinsKnown(b) }

  /** The checks each kind of staking transaction has to pass. */
  ghost predicate Allowed(b: Books, tx: StakingTx) {
    match tx.act
    case Delegating(key, coin, value, sufficient) =>
      var i := CandidateIndex(b.candidates, key);
      value > 0 && i < |b.candidates| && (|b.candidates[i].stakes| < MAX_DELEGATORS || sufficient)
    case Unbonding(key, coin, value) =>
      var i := CandidateIndex(b.candidates, key);
      CoinExists(b.coins, coin) && i < |b.candidates|
      && StakeIndex(b.candidates[i].stakes, tx.sender, coin) < |b.candidates[i].stakes|
      && value <= b.candidates[i].stakes[StakeIndex(b.candidates[i].stakes, tx.sender, coin)].value
    case Declaring(_, key, commission, coin, _, sufficient) =>
      CoinExists(b.coins, coin) && CandidateIndex(b.candidates, key) == |b.candidates| && commission <= 100 && sufficient
  }

  /** The owner's stake in a coin with a candidate, the first there is. */
  ghost predicate HasStake(c: Candidate, owner: Address, coin: Coin, value: int) {
    exists j :: 0 <= j < |c.stakes| && c.stakes[j].owner == owner && c.stakes[j].coin == coin && value <= c.stakes[j].value
                && forall m :: 0 <= m < j ==> c.stakes[m].owner != owner || c.stakes[m].coin != coin
  }

  /** What the checks come to where no two candidates have the same key. */
  lemma AllowedIff(b: Books, tx: StakingTx)
    requires DistinctCandidates(b.candidates)
    ensures var (cs, d) := (b.candidates, tx.act);
            Allowed(b, tx) <==>
              if d.Delegating? then
                d.value > 0
                && exists i :: 0 <= i < |cs| && cs[i].key == d.key && (|cs[i].stakes| < 1000 || d.sufficient)
              else
                (d.coin == BASE || (d.coin in b.coins && !b.coins[d.coin].deleted))
                && if d.Unbonding? then
                     exists i :: 0 <= i < |cs| && cs[i].key == d.key && HasStake(cs[i], tx.sender, d.coin, d.value)
                   else (forall i :: 0 <= i < |cs| ==> cs[i].key != d.key) && d.commission <= 100 && d.sufficient
  {
    var (cs, d) := (b.candidates, tx.act);
    var at := CandidateIndex(cs, d.key);
    forall i | 0 <= i < |cs| && cs[i].key == d.key
      ensures i == at
    {
      IndexOf(cs, i);
    }
    if d.Unbonding? && at < |cs| {
      StakeIndexIff(cs[at], tx.sender, d.coin, d.value);
    }
    hide StakeIndex, HasStake;
  }

  lemma StakeIndexIff(c: Candidate, owner: Address, coin: Coin, value: int)
    ensures var k := StakeIndex(c.stakes, owner, coin);
            HasStake(c, owner, coin, value) <==> k < |c.stakes| && value <= c.stakes[k].value
  {
    var k := StakeIndex(c.stakes, owner, coin);
    hide StakeIndex;
    if HasStake(c, owner, coin, value) {
      var j :| 0 <= j < |c.stakes| && c.stakes[j].owner == owner && c.stakes[j].coin == coin && value <= c.stakes[j].value
               && forall m :: 0 <= m < j ==> c.stakes[m].owner != owner || c.stakes[m].coin != coin;
      assert !(j < k) && !(k < j);
    }
  }

  method CheckAct(s: StateDB, tx: StakingTx) returns (code: Code)
    ensures code == OK <==> Allowed(s.State(), tx)
  {
    match tx.act
    case Delegating(key, coin, value, sufficient) =>
      if value == 0 {
        return StakeShouldBePositive;
      }
      var i := CandidateIndex(s.candidates, key);
      if i == |s.candidates| {
        return CandidateNotFound;
      }
      if |s.candidates[i].stakes| >= MAX_DELEGATORS && !sufficient {
        return TooLowStake;
      }
      return OK;
    case Unbonding(key, coin, value) =>
      if !CoinExists(s.coins, coin) {
        return CoinNotExists;
      }
      var i := CandidateIndex(s.candidates, key);
      if i == |s.candidates| {
        return CandidateNotFound;
      }
      var stakes := s.candidates[i].stakes;
      var k := StakeIndex(stakes, tx.sender, coin);
      if k == |stakes| {
        return StakeNotFound;
      }
      if stakes[k].value < value {
        return InsufficientStake;
      }
      return OK;
    case Declaring(_, key, commission, coin, _, sufficient) =>
      if !CoinExists(s.coins, coin) {
        return CoinNotExists;
      }
      if CandidateIndex(s.candidates, key) < |s.candidates| {
        return CandidateExists;
      }
      if commission > 100 {
        return WrongCommission;
      }
      return if sufficient then OK else TooLowStake;
  }

  /** The candidates after a transaction that passed its checks. */
  ghost predicate Acted(b: Books, tx: StakingTx, r: Books) {
    match tx.act
    case Delegating(key, coin, value, _) =>
      OnlyCandidate(b.candidates, r.candidates, key, stakes => WithStake(stakes, tx.sender, coin, value))
      && r.funds == b.funds
    case Unbonding(key, coin, value) =>
      OnlyCandidate(b.candidates, r.candidates, key, stakes => WithoutStake(stakes, tx.sender, coin, value))
      && r.funds == WithFund(b.funds, b.height + UNBOND_PERIOD, FrozenFund(tx.sender, key, coin, value))
    case Declaring(_, _, _, _, _, _) =>
      r.funds == b.funds && exists bip :: bip >= 0 && r.candidates == b.candidates + [Declared(tx, bip)]
  }

  /** Moving the charged stake into a candidate, or from one into frozen funds, completes the sheet. */
  lemma ActedAmounts(b: Books, tx: StakingTx, r: Books)
    requires Allowed(b, tx) && Acted(b, tx, r) && Sound(b.candidates, b.validators)
    ensures Sound(r.candidates, b.validators)
    ensures forall c :: Ledger.Staked(r.candidates, c) + Frozen(r.funds, c)
                        == Ledger.Staked(b.candidates, c) + Frozen(b.funds, c) + if c == tx.act.coin then Staked(tx) else 0
  {
    hide Sound, Frozen, Ledger.Staked, WithFund, WithStake, WithoutStake;
    match tx.act
    case Delegating(key, coin, value, _) =>
      DelegateKeeps(b.candidates, r.candidates, b.validators, tx.sender, key, coin, value);
    case Unbonding(key, coin, value) =>
      SubStakeKeeps(b.candidates, r.candidates, b.validators, tx.sender, key, coin, value);
      forall c
        ensures Frozen(r.funds, c) == Frozen(b.funds, c) + if c == coin then value else 0
      {
        WithFundFrozen(b.funds, b.height + UNBOND_PERIOD, FrozenFund(tx.sender, key, coin, value), c);
      }
    case Declaring(_, _, _, coin, value, _) =>
      var bip :| bip >= 0 && r.candidates == b.candidates + [Declared(tx, bip)];
      DeclareKeeps(b.candidates, Declared(tx, bip), b.validators);
      forall c
        ensures Ledger.Staked(r.candidates, c) == Ledger.Staked(b.candidates, c) + if c == coin then value else 0
      {
        StakedWith(b.candidates, Declared(tx, bip), c);
        OneStake(Declared(tx, bip).stakes, c);
      }
  }

  lemma OneStake(stakes: seq<Stake>, c: Coin)
    requires |stakes| == 1
    ensures StakedOf(stakes, c) == if stakes[0].coin == c then stakes[0].value else 0
  {
    assert stakes[..0] == [];
  }

  method Perform(s: StateDB, p: Prices, tx: StakingTx)
    requires Allowed(s.State(), tx) && CacheSound(s.stakeCache) && Sound(s.candidates, s.validators)
    requires tx.act.coin == BASE || tx.act.coin in s.coins
    modifies s
    ensures s.State() == old(s.State()).(candidates := s.candidates, funds := s.funds, stakeCache := s.stakeCache)
    ensures Acted(old(s.State()), tx, s.State()) && CacheSound(s.stakeCache)
  {
    hide Sound, CacheSound, WithStake, WithoutStake;
    match tx.act
    case Delegating(key, coin, value, _) =>
      Delegate(s, tx.sender, key, coin, value);
    case Unbonding(key, coin, value) =>
      OnlyOne(s.candidates, s.validators, key);
      SubStake(s, tx.sender, key, coin, value);
      s.AddFund(s.height + UNBOND_PERIOD, FrozenFund(tx.sender, key, coin, value));
    case Declaring(_, _, _, coin, value, _) =>
      ghost var b := s.State();
      var candidate := Declared(tx, 0);
      var bip := CalcBipValue(s, p, candidate.stakes[0]);
      FirstBip(p, b, candidate.stakes[0], s.stakeCache);
      assert Declared(tx, bip) == candidate.(stakes := [candidate.stakes[0].(bipValue := bip)]);
      s.candidates := s.candidates + [candidate.(stakes := [candidate.stakes[0].(bipValue := bip)])];
  }

  lemma OnlyOne(cs: seq<Candidate>, vals: seq<Validator>, key: Key)
    requires Sound(cs, vals)
    ensures forall i :: 0 <= i < |cs| && cs[i].key == key ==> i == CandidateIndex(cs, key)
  {
    forall i | 0 <= i < |cs| && cs[i].key == key
      ensures i == CandidateIndex(cs, key)
    {
      IndexOf(cs, i);
    }
  }

  /** A declared stake's base value, and the cache entry it may create, are not negative. */
  lemma FirstBip(p: Prices, b: Books, stake: Stake, now: map<Coin, CachedStake>)
    requires Sound(b.candidates, b.validators) && CacheSound(b.stakeCache) && stake.value >= 0
    requires stake.coin == BASE || stake.coin in b.coins
    requires now == if stake.coin == BASE || stake.value == 0 then b.stakeCache else Cached(p, b, stake.coin)
    ensures CacheSound(now) && BipOf(now, stake) >= 0
  {
    hide Ledger.Staked;
    SoundEach(b.candidates, b.validators);
    StakedNotNegative(b.candidates, stake.coin);
    if stake.coin != BASE && stake.value != 0 && now[stake.coin].total != 0 {
      QuotientNotNegative(now[stake.coin].bip, stake.value, now[stake.coin].total);
    }
  }

  lemma SoundEach(cs: seq<Candidate>, vals: seq<Validator>)
    requires Sound(cs, vals)
    ensures forall i :: 0 <= i < |cs| ==> SoundCandidate(cs[i])
  {
  }

  // ---------------------------------------------------------------------------------
  // The whole transaction
  // ---------------------------------------------------------------------------------

  /** The account can pay the commission and the stake, together when they are in one coin. */
  predicate Payable(p: Prices, b: Books, tx: StakingTx)
    requires tx.gasCoin == BASE || tx.gasCoin in b.coins
  {
    var fee := Fee(p, b.coins, tx);
    fee <= BalanceOf(b.balances, tx.sender, tx.gasCoin)
    && (!tx.act.Unbonding? ==>
          tx.act.value <= BalanceOf(b.balances, tx.sender, tx.act.coin)
          && (tx.act.coin == tx.gasCoin ==> fee + tx.act.value <= BalanceOf(b.balances, tx.sender, tx.gasCoin)))
  }

  ghost predicate Accepted(p: Prices, b: Books, tx: StakingTx) {
    CoinExists(b.coins, tx.gasCoin)
    && tx.nonce == (if tx.sender in b.nonces then b.nonces[tx.sender] else 0) + 1
    && Allowed(b, tx) && (tx.gasCoin == BASE || b.coins[tx.gasCoin].reserve >= Commission(tx)) && Payable(p, b, tx)
  }

  lemma AcceptedGas(p: Prices, b: Books, tx: StakingTx)
    requires Accepted(p, b, tx)
    ensures tx.gasCoin == BASE || tx.gasCoin in b.coins
  {
    hide Allowed, Payable;
  }

  lemma ChargedNoDebts(p: Prices, b: Books, tx: StakingTx)
    requires NoDebts(b.balances) && (tx.gasCoin == BASE || tx.gasCoin in b.coins) && Payable(p, b, tx)
    ensures NoDebts(Charged(p, b, tx).balances)
  {
    hide Fee;
    var fee: int := Fee(p, b.coins, tx);
    var value: int := Staked(tx);
    var b1 := Credit(b.balances, tx.sender, tx.gasCoin, -fee);
    var b2 := Credit(b1, tx.sender, tx.act.coin, -value);
    forall a, c
      ensures BalanceOf(b2, a, c) >= 0
    {
      assert BalanceOf(b.balances, a, c) >= 0;
      assert BalanceOf(b1, a, c)
          == BalanceOf(b.balances, a, c) - if a == tx.sender && c == tx.gasCoin then fee else 0;
    }
  }

  method CheckPayable(s: StateDB, p: Prices, tx: StakingTx) returns (ok: bool)
    requires tx.gasCoin == BASE || tx.gasCoin in s.coins
    ensures ok <==> Payable(p, s.State(), tx)
  {
    hide Fee;
    var fee := Fee(p, s.coins, tx);
    var gas := s.GetBalance(tx.sender, tx.gasCoin);
    if gas < fee {
      return false;
    }
    if !tx.act.Unbonding? {
      var balance := s.GetBalance(tx.sender, tx.act.coin);
      if balance < tx.act.value {
        return false;
      }
      if tx.act.coin == tx.gasCoin && gas < tx.act.value + fee {
        return false;
      }
    }
    ok := true;
  }

  /**
   * What a staking transaction costs and moves: the commission leaves the sender, at the gas coin's price, and that
   * coin's volume and reserve; a stake leaves the sender's balance. Nobody's wealth changes but the sender's by the
   * commission, and by a declared stake, which is its reward address's.
   */
  ghost predicate StakingPaid(p: Prices, b: Books, tx: StakingTx, r: Books)
    requires tx.gasCoin == BASE || tx.gasCoin in b.coins
  {
    var commission := tx.gasPrice * ((if tx.act.Declaring? then 10000 else 200) + 2 * tx.payload) * 1_000_000_000_000_000;
    var (g, d) := (tx.gasCoin, tx.act);
    var fee := if g == BASE then commission
               else p.saleAmount(b.coins[g].volume, b.coins[g].reserve, b.coins[g].crr, commission);
    (forall a, c ::
       BalanceOf(r.balances, a, c)
       == BalanceOf(b.balances, a, c)
          - if a == tx.sender then (if c == g then fee else 0) + (if c == d.coin && !d.Unbonding? then d.value else 0) else 0)
    && (forall a, c ::
          Wealth(r, a, c)
          == Wealth(b, a, c) - (if a == tx.sender && c == g then fee else 0)
             + if d.Declaring? && c == d.coin
               then (if a == d.rewardAddress then d.value else 0) - (if a == tx.sender then d.value else 0)
               else 0)
    && r.coins == (if g == BASE then b.coins
                   else b.coins[g := b.coins[g].(volume := b.coins[g].volume - fee,
                                                  reserve := b.coins[g].reserve - commission)])
    && r.pool == b.pool + commission
  }

  lemma CommissionIs(tx: StakingTx)
    ensures Commission(tx)
         == tx.gasPrice * ((if tx.act.Declaring? then 10000 else 200) + 2 * tx.payload) * 1_000_000_000_000_000
  {
  }

  /** Who owns the stake a transaction makes, if it makes one. */
  function Staker(tx: StakingTx): Address { if tx.act.Declaring? then tx.act.rewardAddress else tx.sender }

  lemma DelegatingFor(b: Books, tx: StakingTx, r: Books, a: Address, c: Coin)
    requires tx.act.Delegating? && Allowed(b, tx) && Acted(b, tx, r) && DistinctCandidates(b.candidates)
    ensures StakedFor(r.candidates, a, c) + FrozenFor(r.funds, a, c)
         == StakedFor(b.candidates, a, c) + FrozenFor(b.funds, a, c)
            + if c == tx.act.coin && a == tx.sender then tx.act.value else 0
  {
    hide FrozenFor, StakedFor, WithStake, DistinctCandidates;
    DelegatedFor(b.candidates, r.candidates, tx.sender, tx.act.key, tx.act.coin, tx.act.value, a, c);
  }

  lemma UnbondingFor(b: Books, tx: StakingTx, r: Books, a: Address, c: Coin)
    requires tx.act.Unbonding? && Allowed(b, tx) && Acted(b, tx, r) && DistinctCandidates(b.candidates)
    ensures StakedFor(r.candidates, a, c) + FrozenFor(r.funds, a, c)
         == StakedFor(b.candidates, a, c) + FrozenFor(b.funds, a, c)
  {
    hide FrozenFor, StakedFor, WithoutStake, DistinctCandidates;
    var f := FrozenFund(tx.sender, tx.act.key, tx.act.coin, tx.act.value);
    UnbondedFor(b.candidates, r.candidates, tx.sender, tx.act.key, tx.act.coin, tx.act.value, a, c);
    AddedFor(b.funds, b.height + UNBOND_PERIOD, [f], a, c);
    OneFund(f, a, c);
  }

  lemma DeclaringFor(b: Books, tx: StakingTx, r: Books, a: Address, c: Coin)
    requires tx.act.Declaring? && Acted(b, tx, r)
    ensures StakedFor(r.candidates, a, c) + FrozenFor(r.funds, a, c)
         == StakedFor(b.candidates, a, c) + FrozenFor(b.funds, a, c)
            + if c == tx.act.coin && a == tx.act.rewardAddress then tx.act.value else 0
  {
    hide FrozenFor, StakedFor;
    var bip :| bip >= 0 && r.candidates == b.candidates + [Declared(tx, bip)];
    StakedForSnoc(b.candidates, Declared(tx, bip), a, c);
    OneStakeFor(Declared(tx, bip).stakes, a, c);
  }

  /** What an account has at stake and frozen changes by what it stakes. */
  lemma ActedFor(b: Books, tx: StakingTx, r: Books, a: Address, c: Coin)
    requires Allowed(b, tx) && Acted(b, tx, r) && Sound(b.candidates, b.validators)
    ensures StakedFor(r.candidates, a, c) + FrozenFor(r.funds, a, c)
         == StakedFor(b.candidates, a, c) + FrozenFor(b.funds, a, c)
            + if !tx.act.Unbonding? && c == tx.act.coin && a == Staker(tx) then tx.act.value else 0
  {
    SoundParts(b.candidates, b.validators);
    hide Sound, FrozenFor, StakedFor, Allowed, Acted, DistinctCandidates;
    if tx.act.Delegating? {
      DelegatingFor(b, tx, r, a, c);
    } else if tx.act.Unbonding? {
      UnbondingFor(b, tx, r, a, c);
    } else {
      DeclaringFor(b, tx, r, a, c);
    }
  }

  lemma OneStakeFor(stakes: seq<Stake>, a: Address, c: Coin)
    requires |stakes| == 1
    ensures StakesFor(stakes, a, c) == if stakes[0].owner == a && stakes[0].coin == c then stakes[0].value else 0
  {
    assert stakes[..0] == [];
  }

  lemma ChargedFor(p: Prices, b: Books, tx: StakingTx, a: Address, c: Coin)
    requires tx.gasCoin == BASE || tx.gasCoin in b.coins
    ensures BalanceOf(Charged(p, b, tx).balances, a, c)
         == BalanceOf(b.balances, a, c)
            - if a == tx.sender
              then (if c == tx.gasCoin then Fee(p, b.coins, tx) else 0)
                   + (if c == tx.act.coin && !tx.act.Unbonding? then tx.act.value else 0)
              else 0
  {
    hide Commission, Fee, Adjusted;
  }

  lemma PaidIs(p: Prices, b: Books, tx: StakingTx, r: Books)
    requires tx.gasCoin == BASE || tx.gasCoin in b.coins
    requires Allowed(b, tx) && Acted(b, tx, r) && Sound(b.candidates, b.validators)
    requires r.balances == Charged(p, b, tx).balances && r.coins == Charged(p, b, tx).coins
    requires r.pool == Charged(p, b, tx).pool
    ensures StakingPaid(p, b, tx, r)
  {
    hide Sound, Allowed, Acted, Commission, StakedFor, FrozenFor, BalanceOf, Credit;
    CommissionIs(tx);
    forall a, c {
      ActedFor(b, tx, r, a, c);
    }
    forall a, c {
      ChargedFor(p, b, tx, a, c);
    }
  }

  /** Declaring, delegating and unbonding conserve every coin and keep the stake invariant. */
  method RunStaking(s: StateDB, p: Prices, tx: StakingTx) returns (code: Code)
    requires Orderly(s.State())
    modifies s
    ensures code == OK <==> Accepted(p, old(s.State()), tx)
    ensures code != OK ==> s.State() == old(s.State())
    ensures code == OK ==> Acted(old(s.State()), tx, s.State())
    ensures code == OK ==>
      s.State() == Charged(p, old(s.State()), tx).(candidates := s.candidates, funds := s.funds,
                                                    stakeCache := s.stakeCache, nonces := old(s.nonces)[tx.sender := tx.nonce])
    ensures code == OK ==> StakingPaid(p, old(s.State()), tx, s.State())
    ensures Orderly(s.State()) && Conserves(old(s.State()), s.State()) && s.height == old(s.height)
    ensures NoDebts(old(s.balances)) ==> NoDebts(s.balances)
  {
    hide Sound, CacheSound, AllKnown, FundsKnown, BalancesKnown, NoDebts, Conserves, Charged, Acted, Payable, Commission,
         Allowed, StakingPaid;
    ghost var b := s.State();
    ConservesItself(b);
    if !CoinExists(s.coins, tx.gasCoin) {
      return CoinNotExists;
    }
    if tx.nonce != (if tx.sender in s.nonces then s.nonces[tx.sender] else 0) + 1 {
      return WrongNonce;
    }
    code := CheckAct(s, tx);
    if code != OK {
      return;
    }
    if tx.gasCoin != BASE && s.coins[tx.gasCoin].reserve < Commission(tx) {
      return CoinReserveNotSufficient;
    }
    var payable := CheckPayable(s, p, tx);
    if !payable {
      return InsufficientFunds;
    }
    StakeCoinKnown(p, b, tx);
    Charge(s, p, tx);
    ghost var b1 := s.State();
    ChargedFields(p, b, tx);
    AllowedStill(b, b1, tx);
    Perform(s, p, tx);
    ghost var b2 := s.State();
    ActedStill(b, b1, tx, b2);
    s.SetNonce(tx.sender, tx.nonce);
    ActedAgain(b, tx, b2, s.State());
    ActedAmounts(b, tx, b2);
    PaidIs(p, b, tx, s.State());
    if NoDebts(b.balances) {
      ChargedNoDebts(p, b, tx);
    }
    StakingConserves(p, b, tx, s.State());
    StillKnown(b, tx, s.State());
    ChargedKnown(p, b, tx);
  }

  /** What can be paid or taken out of a stake is in a coin there is. */
  lemma StakeCoinKnown(p: Prices, b: Books, tx: StakingTx)
    requires BalancesKnown(b.coins, b.balances) && Allowed(b, tx)
    requires (tx.gasCoin == BASE || tx.gasCoin in b.coins) && Payable(p, b, tx)
    ensures tx.act.coin == BASE || tx.act.coin in b.coins
  {
    hide Fee, Commission;
    if tx.act.Delegating? {
      assert BalanceOf(b.balances, tx.sender, tx.act.coin) > 0;
      assert (tx.sender, tx.act.coin) in b.balances;
    }
  }

  lemma ChargedKnown(p: Prices, b: Books, tx: StakingTx)
    requires BalancesKnown(b.coins, b.balances) && (tx.gasCoin == BASE || tx.gasCoin in b.coins)
    ensures BalancesKnown(Charged(p, b, tx).coins, Charged(p, b, tx).balances)
  {
    hide BalancesKnown, Fee, Commission, Staked, Credit;
    ChargedFields(p, b, tx);
    var fee: int := Fee(p, b.coins, tx);
    var value: int := Staked(tx);
    CreditKnown(b.coins, b.balances, tx.sender, tx.gasCoin, -fee);
    CreditKnown(b.coins, Credit(b.balances, tx.sender, tx.gasCoin, -fee), tx.sender, tx.act.coin, -value);
    KnownByKeys(b.coins, Charged(p, b, tx).coins, Charged(p, b, tx).balances);
  }

  lemma KnownByKeys(coins: map<Coin, CoinData>, now: map<Coin, CoinData>, b: Balances)
    requires BalancesKnown(coins, b) && now.Keys == coins.Keys
    ensures BalancesKnown(now, b)
  {
  }

  lemma ChargedFields(p: Prices, b: Books, tx: StakingTx)
    requires tx.gasCoin == BASE || tx.gasCoin in b.coins
    ensures var r := Charged(p, b, tx);
            r == b.(pool := b.pool + Commission(tx), coins := r.coins, balances := r.balances)
            && r.coins.Keys == b.coins.Keys && forall c :: c in b.coins ==> r.coins[c].deleted == b.coins[c].deleted
  {
    hide Commission, Fee, Credit;
  }

  /** The checks do not look at what the charge changes. */
  lemma AllowedStill(b: Books, r: Books, tx: StakingTx)
    requires Allowed(b, tx) && r.candidates == b.candidates && r.coins.Keys == b.coins.Keys
    requires forall c :: c in b.coins ==> r.coins[c].deleted == b.coins[c].deleted
    ensures Allowed(r, tx)
  {
  }

  lemma ActedStill(b: Books, b1: Books, tx: StakingTx, r: Books)
    requires Acted(b1, tx, r) && b1.candidates == b.candidates && b1.funds == b.funds && b1.height == b.height
    ensures Acted(b, tx, r)
  {
    hide WithStake, WithoutStake;
  }

  lemma ActedAgain(b: Books, tx: StakingTx, r: Books, now: Books)
    requires Acted(b, tx, r) && now.candidates == r.candidates && now.funds == r.funds
    ensures Acted(b, tx, now)
  {
    hide WithStake, WithoutStake;
  }

  lemma StakingConserves(p: Prices, b: Books, tx: StakingTx, r: Books)
    requires tx.gasCoin == BASE || tx.gasCoin in b.coins
    requires r == Charged(p, b, tx).(candidates := r.candidates, funds := r.funds, stakeCache := r.stakeCache, nonces := r.nonces)
    requires forall c :: Ledger.Staked(r.candidates, c) + Frozen(r.funds, c)
                         == Ledger.Staked(b.candidates, c) + Frozen(b.funds, c) + if c == tx.act.coin then Staked(tx) else 0
    ensures Conserves(b, r)
  {
    ChargedAmounts(p, b, tx);
    hide Held, Reserves, Ledger.Staked, Frozen, Accrued, Staked;
    ChargedFields(p, b, tx);
    hide Charged;
  }

  lemma StillKnown(b: Books, tx: StakingTx, r: Books)
    requires AllKnown(b.coins, b.candidates) && FundsKnown(b.coins, b.funds) && Acted(b, tx, r)
    requires r.coins.Keys == b.coins.Keys && (tx.act.coin == BASE || tx.act.coin in b.coins)
    ensures AllKnown(r.coins, r.candidates) && FundsKnown(r.coins, r.funds)
  {
    forall h | h in r.funds
      ensures KnownFunds(r.coins, r.funds[h])
    {
      if h in b.funds {
        assert KnownFunds(b.coins, b.funds[h]);
      }
    }
    forall i | 0 <= i < |r.candidates|
      ensures KnownStakes(r.coins, r.candidates[i].stakes)
    {
      if i < |b.candidates| {
        assert KnownStakes(b.coins, b.candidates[i].stakes);
      }
    }
  }
}
