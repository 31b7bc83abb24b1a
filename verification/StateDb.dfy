// The ledger state: live values with the setters every other component goes through, and the
// two totals that coin movements must not change.
module StateDb {
  import opened Common
  import opened Ledger

  /** Everything a StateDB and the block's reward pool hold at one moment. */
  datatype Books = Books(balances: Balances, nonces: map<Address, nat>, coins: map<Coin, CoinData>,
                         funds: map<nat, seq<FrozenFund>>, candidates: seq<Candidate>,
                         validators: seq<Validator>, slashed: int, pool: int, height: nat,
                         stakeCache: map<Coin, CachedStake>)

  /** The stakes in a coin across all candidates, and their return if sold together. */
  datatype CachedStake = CachedStake(total: int, bip: int)

  /** All base coin: in accounts, reserves, stakes, frozen funds, accrued, in the pool and slashed. */
  ghost function Base(b: Books): int {
    Held(b.balances, BASE) + Reserves(b.coins) + Staked(b.candidates, BASE) + Frozen(b.funds, BASE)
    + Accrued(b.validators) + b.pool + b.slashed
  }

  /** What accounts, stakes and frozen funds contain of coin c. */
  ghost function Owned(b: Books, c: Coin): int {
    Held(b.balances, c) + Staked(b.candidates, c) + Frozen(b.funds, c)
  }

  /** How far the volume on record of a custom coin is from what is owned of it. */
  ghost function Gap(b: Books, c: Coin): int
    requires c in b.coins
  {
    b.coins[c].volume - Owned(b, c)
  }

  /** b1 holds as much base coin as b0, the same custom coins and each with the same gap. */
  ghost predicate Conserves(b0: Books, b1: Books) {
    Base(b1) == Base(b0) && b1.coins.Keys == b0.coins.Keys
    && forall c :: c in b0.coins && c != BASE ==> Gap(b1, c) == Gap(b0, c)
  }

  lemma ConservesItself(b: Books)
    ensures Conserves(b, b)
  {
  }

  lemma ConservesTrans(a: Books, b: Books, c: Books)
    requires Conserves(a, b) && Conserves(b, c)
    ensures Conserves(a, c)
  {
    hide Base, Gap;
  }

  /** The change of a coin's volume and reserve; base coin and unknown coins have neither. */
  function Adjusted(coins: map<Coin, CoinData>, c: Coin, volume: int, reserve: int): map<Coin, CoinData> {
    if c == BASE || c !in coins then coins
    else coins[c := coins[c].(volume := coins[c].volume + volume, reserve := coins[c].reserve + reserve)]
  }

  lemma AdjustedReserves(coins: map<Coin, CoinData>, c: Coin, volume: int, reserve: int)
    ensures Reserves(Adjusted(coins, c, volume, reserve))
         == Reserves(coins) + if c == BASE || c !in coins then 0 else reserve
  {
    if c != BASE && c in coins {
      ReservesSet(coins, c, coins[c].(volume := coins[c].volume + volume, reserve := coins[c].reserve + reserve));
    }
  }

  function FundsAt(funds: map<nat, seq<FrozenFund>>, h: nat): seq<FrozenFund> {
    if h in funds then funds[h] else []
  }

  function WithFund(funds: map<nat, seq<FrozenFund>>, h: nat, f: FrozenFund): map<nat, seq<FrozenFund>> {
    funds[h := FundsAt(funds, h) + [f]]
  }

  lemma WithFundFrozen(funds: map<nat, seq<FrozenFund>>, h: nat, f: FrozenFund, c: Coin)
    ensures Frozen(WithFund(funds, h, f), c) == Frozen(funds, c) + if f.coin == c then f.value else 0
  {
    FrozenSet(funds, h, FundsAt(funds, h) + [f], c);
    FundsSnoc(FundsAt(funds, h), f, c);
  }

  class StateDB {
    var balances: Balances
    var nonces: map<Address, nat>
    var coins: map<Coin, CoinData>
    var funds: map<nat, seq<FrozenFund>>
    var candidates: seq<Candidate>
    var validators: seq<Validator>
    var slashed: int
    var pool: int
    var height: nat
    var stakeCache: map<Coin, CachedStake>

    ghost function State(): Books reads this {
      Books(balances, nonces, coins, funds, candidates, validators, slashed, pool, height, stakeCache)
    }

    constructor (b: Books)
      ensures State() == b
    {
      balances, nonces, coins, funds := b.balances, b.nonces, b.coins, b.funds;
      candidates, validators, slashed, pool := b.candidates, b.validators, b.slashed, b.pool;
      height, stakeCache := b.height, b.stakeCache;
    }

    method GetBalance(a: Address, c: Coin) returns (amount: int)
      ensures amount == BalanceOf(balances, a, c)
    {
      amount := if (a, c) in balances then balances[(a, c)] else 0;
    }

    method SetBalance(a: Address, c: Coin, amount: int)
      modifies this
      ensures State() == old(State()).(balances := old(balances)[(a, c) := amount])
    {
      balances := balances[(a, c) := amount];
    }

    method AddBalance(a: Address, c: Coin, amount: int)
      modifies this
      ensures State() == old(State()).(balances := Credit(old(balances), a, c, amount))
    {
      if amount != 0 {
        var balance := GetBalance(a, c);
        SetBalance(a, c, balance + amount);
      }
    }

    method SubBalance(a: Address, c: Coin, amount: int)
      modifies this
      ensures State() == old(State()).(balances := Credit(old(balances), a, c, -amount))
    {
      if amount != 0 {
        var balance := GetBalance(a, c);
        SetBalance(a, c, balance - amount);
      }
    }

    method SetNonce(a: Address, nonce: nat)
      modifies this
      ensures State() == old(State()).(nonces := old(nonces)[a := nonce])
    {
      nonces := nonces[a := nonce];
    }

    method AddCoinVolume(c: Coin, amount: int)
      modifies this
      ensures State() == old(State()).(coins := Adjusted(old(coins), c, amount, 0))
    {
      if c != BASE && c in coins && amount != 0 {
        coins := coins[c := coins[c].(volume := coins[c].volume + amount)];
      }
      assert coins == Adjusted(old(coins), c, amount, 0);
    }

    method SubCoinVolume(c: Coin, amount: int)
      modifies this
      ensures State() == old(State()).(coins := Adjusted(old(coins), c, -amount, 0))
    {
      if c != BASE && c in coins && amount != 0 {
        coins := coins[c := coins[c].(volume := coins[c].volume - amount)];
      }
      assert coins == Adjusted(old(coins), c, -amount, 0);
    }

    method AddCoinReserve(c: Coin, amount: int)
      modifies this
      ensures State() == old(State()).(coins := Adjusted(old(coins), c, 0, amount))
    {
      if c != BASE && c in coins && amount != 0 {
        coins := coins[c := coins[c].(reserve := coins[c].reserve + amount)];
      }
      assert coins == Adjusted(old(coins), c, 0, amount);
    }

    method SubCoinReserve(c: Coin, amount: int)
      modifies this
      ensures State() == old(State()).(coins := Adjusted(old(coins), c, 0, -amount))
    {
      if c != BASE && c in coins && amount != 0 {
        coins := coins[c := coins[c].(reserve := coins[c].reserve - amount)];
      }
      assert coins == Adjusted(old(coins), c, 0, -amount);
    }

    method AddFund(h: nat, f: FrozenFund)
      modifies this
      ensures State() == old(State()).(funds := WithFund(old(funds), h, f))
    {
      funds := funds[h := FundsAt(funds, h) + [f]];
    }

    method AddTotalSlashed(amount: int)
      modifies this
      ensures State() == old(State()).(slashed := old(slashed) + amount)
    {
      slashed := slashed + amount;
    }
  }
}
