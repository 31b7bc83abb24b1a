// Transactions that move and convert coins: what they spend, how they move reserves and
// volumes, and why nothing is created or lost.
module Conversion {
  import opened Common
  import opened Ledger
  import opened StateDb

  // ---------------------------------------------------------------------------------
  // Transactions
  // ---------------------------------------------------------------------------------

  datatype Data =
    | Send(coin: Coin, to: Address, value: nat)
    | Sell(coinToSell: Coin, valueToSell: nat, coinToBuy: Coin, minimumValueToBuy: nat)
    | SellAll(coinToSell: Coin, coinToBuy: Coin, minimumValueToBuy: nat)
    | Buy(coinToBuy: Coin, valueToBuy: nat, coinToSell: Coin, maximumValueToSell: nat)

  datatype Tx = Tx(sender: Address, nonce: nat, gasPrice: nat, gasCoin: Coin, payload: nat, serviceData: nat,
                   data: Data)

  datatype Code = OK | WrongNonce | CoinNotExists | CrossConvert | MinimumValueToBuyReached
    | MaximumValueToSellReached | CoinSupplyOverflow | CoinReserveNotSufficient | InsufficientFunds
    | StakeShouldBePositive | CandidateNotFound | CandidateExists | TooLowStake | StakeNotFound | InsufficientStake
    | WrongCommission

  /**
   * The pricing curves, by volume, reserve, reserve ratio and amount. Only a purchase can be asked for with a
   * negative amount, when a balance sold in full does not cover the commission; it may then come to anything.
   */
  datatype Prices = Prices(purchaseReturn: (int, int, nat, int) -> nat, purchaseAmount: (int, int, nat, int) -> nat,
                           saleReturn: (int, int, nat, int) -> nat, saleAmount: (int, int, nat, int) -> nat,
                           purchaseBelowZero: (int, int, nat, int) -> int)

  const UPGRADE_BLOCK_0: nat := 5760
  const COMMISSION_MULTIPLIER: nat := 1_000_000_000_000_000
  const MAX_COIN_SUPPLY: nat := 1_000_000_000_000_000_000_000_000_000_000_000

  function Gas(tx: Tx): nat {
    (if tx.data.Send? then 10 else 100) + 2 * (tx.payload + tx.serviceData)
  }

  function CommissionInBaseCoin(tx: Tx): nat { tx.gasPrice * Gas(tx) * COMMISSION_MULTIPLIER }

  predicate CheckForCoinSupplyOverflow(current: int, delta: int) { current + delta >= MAX_COIN_SUPPLY }

  predicate CoinExists(coins: map<Coin, CoinData>, c: Coin) {
    c == BASE || (c in coins && !coins[c].deleted)
  }

  // ---------------------------------------------------------------------------------
  // What a transaction spends
  // ---------------------------------------------------------------------------------

  datatype TotalSpend = TotalSpend(coin: Coin, value: int)

  function SpentOf(total: seq<TotalSpend>, c: Coin): int {
    if total == [] then 0
    else SpentOf(total[..|total| - 1], c) + if total[|total| - 1].coin == c then total[|total| - 1].value else 0
  }

  predicate OnePerCoin(total: seq<TotalSpend>) {
    forall i, j :: 0 <= i < j < |total| ==> total[i].coin != total[j].coin
  }

  lemma {:induction false} SpentSet(total: seq<TotalSpend>, i: nat, t: TotalSpend, c: Coin)
    requires i < |total| && t.coin == total[i].coin
    ensures SpentOf(total[i := t], c) == SpentOf(total, c) + if t.coin == c then t.value - total[i].value else 0
  {
    var n := |total| - 1;
    if i < n {
      assert total[i := t][..n] == total[..n][i := t];
      SpentSet(total[..n], i, t, c);
    } else {
      assert total[i := t][..n] == total[..n];
    }
  }

  /** The entry of a coin is all that is spent of it, which is why one check per entry is enough. */
  lemma {:induction false} EntryIsAll(total: seq<TotalSpend>, i: nat)
    requires OnePerCoin(total) && i < |total|
    ensures SpentOf(total, total[i].coin) == total[i].value
  {
    var n := |total| - 1;
    if i < n {
      EntryIsAll(total[..n], i);
    } else {
      NoEntry(total[..n], total[i].coin);
    }
  }

  lemma {:induction false} NoEntry(total: seq<TotalSpend>, c: Coin)
    requires forall i :: 0 <= i < |total| ==> total[i].coin != c
    ensures SpentOf(total, c) == 0
  {
    if total != [] {
      NoEntry(total[..|total| - 1], c);
    }
  }

  class TotalSpends {
    var items: seq<TotalSpend>

    constructor ()
      ensures items == []
    {
      items := [];
    }

    /** Spends of the same coin are merged into one entry. */
    method Add(coin: Coin, value: int)
      requires OnePerCoin(items)
      modifies this
      ensures OnePerCoin(items)
      ensures forall c :: SpentOf(items, c) == SpentOf(old(items), c) + if c == coin then value else 0
    {
      hide SpentOf;
      for i := 0 to |items|
        invariant items == old(items)
        invariant forall k :: 0 <= k < i ==> items[k].coin != coin
      {
        if items[i].coin == coin {
          forall c {
            SpentSet(items, i, TotalSpend(coin, items[i].value + value), c);
          }
          items := items[i := TotalSpend(coin, items[i].value + value)];
          return;
        }
      }
      forall c {
        SpentSnoc(items, TotalSpend(coin, value), c);
      }
      items := items + [TotalSpend(coin, value)];
    }
  }

  lemma SpentSnoc(total: seq<TotalSpend>, t: TotalSpend, c: Coin)
    ensures SpentOf(total + [t], c) == SpentOf(total, c) + if t.coin == c then t.value else 0
  {
    assert (total + [t])[..|total|] == total;
  }

  // ---------------------------------------------------------------------------------
  // Conversions and the balance sheet
  // ---------------------------------------------------------------------------------

  datatype Conversion = Conversion(fromCoin: Coin, fromAmount: int, fromReserve: int,
                                   toCoin: Coin, toAmount: int, toReserve: int)

  datatype Spending = Spending(total: seq<TotalSpend>, conversions: seq<Conversion>, value: int)

  /** By how much conversions lower the volume of c. */
  function Burned(conversions: seq<Conversion>, c: Coin): int {
    if conversions == [] then 0
    else
      var x := conversions[|conversions| - 1];
      Burned(conversions[..|conversions| - 1], c)
      + (if x.fromCoin == c then x.fromAmount else 0) - (if x.toCoin == c then x.toAmount else 0)
  }

  /** By how much conversions lower the reserve of c. */
  function Drawn(conversions: seq<Conversion>, c: Coin): int {
    if conversions == [] then 0
    else
      var x := conversions[|conversions| - 1];
      Drawn(conversions[..|conversions| - 1], c)
      + (if x.fromCoin == c then x.fromReserve else 0) - (if x.toCoin == c then x.toReserve else 0)
  }

  /** How much base coin conversions take out of all reserves together. */
  function Released(conversions: seq<Conversion>): int {
    if conversions == [] then 0
    else
      var x := conversions[|conversions| - 1];
      Released(conversions[..|conversions| - 1])
      + (if x.fromCoin != BASE then x.fromReserve else 0) - (if x.toCoin != BASE then x.toReserve else 0)
  }

  lemma BurnedSnoc(conversions: seq<Conversion>, x: Conversion, c: Coin)
    ensures Burned(conversions + [x], c)
         == Burned(conversions, c) + (if x.fromCoin == c then x.fromAmount else 0)
            - (if x.toCoin == c then x.toAmount else 0)
  {
    assert (conversions + [x])[..|conversions|] == conversions;
  }

  lemma DrawnSnoc(conversions: seq<Conversion>, x: Conversion, c: Coin)
    ensures Drawn(conversions + [x], c)
         == Drawn(conversions, c) + (if x.fromCoin == c then x.fromReserve else 0)
            - (if x.toCoin == c then x.toReserve else 0)
  {
    assert (conversions + [x])[..|conversions|] == conversions;
  }

  lemma ReleasedSnoc(conversions: seq<Conversion>, x: Conversion)
    ensures Released(conversions + [x])
         == Released(conversions) + (if x.fromCoin != BASE then x.fromReserve else 0)
            - (if x.toCoin != BASE then x.toReserve else 0)
  {
    assert (conversions + [x])[..|conversions|] == conversions;
  }

  predicate KnownCoins(coins: map<Coin, CoinData>, conversions: seq<Conversion>) {
    forall i :: 0 <= i < |conversions| ==>
      (conversions[i].fromCoin == BASE || conversions[i].fromCoin in coins)
      && (conversions[i].toCoin == BASE || conversions[i].toCoin in coins)
  }

  /** Spends, conversions, the credit to the receiver and the commission cancel out, but for lost base coin. */
  ghost predicate Balanced(sp: Spending, coin: Coin, credit: int, commission: int, lost: int) {
    (forall c :: c != BASE ==>
      SpentOf(sp.total, c) - (if c == coin then credit else 0) == Burned(sp.conversions, c))
    && SpentOf(sp.total, BASE) + Released(sp.conversions)
       == (if coin == BASE then credit else 0) + commission + lost
  }

  // ---------------------------------------------------------------------------------
  // Settlement
  // ---------------------------------------------------------------------------------

  function SpendAll(b: Balances, a: Address, total: seq<TotalSpend>): Balances {
    if total == [] then b
    else
      var t := total[|total| - 1];
      Credit(SpendAll(b, a, total[..|total| - 1]), a, t.coin, -t.value)
  }

  function Converted(coins: map<Coin, CoinData>, x: Conversion): map<Coin, CoinData> {
    Adjusted(Adjusted(coins, x.fromCoin, -x.fromAmount, -x.fromReserve), x.toCoin, x.toAmount, x.toReserve)
  }

  function ConvertAll(coins: map<Coin, CoinData>, conversions: seq<Conversion>): map<Coin, CoinData> {
    if conversions == [] then coins
    else Converted(ConvertAll(coins, conversions[..|conversions| - 1]), conversions[|conversions| - 1])
  }

  /** The books after a transaction that spends sp and gives credit of coin to the receiver. */
  function Settled(b: Books, tx: Tx, sp: Spending, to: Address, coin: Coin, credit: int): Books {
    b.(balances := Credit(SpendAll(b.balances, tx.sender, sp.total), to, coin, credit),
       coins := ConvertAll(b.coins, sp.conversions),
       pool := b.pool + CommissionInBaseCoin(tx),
       nonces := b.nonces[tx.sender := tx.nonce])
  }

  lemma {:induction false} SpendAllHeld(b: Balances, a: Address, total: seq<TotalSpend>, c: Coin)
    ensures Held(SpendAll(b, a, total), c) == Held(b, c) - SpentOf(total, c)
  {
    if total != [] {
      var n := |total| - 1;
      SpendAllHeld(b, a, total[..n], c);
      HeldCredit(SpendAll(b, a, total[..n]), a, total[n].coin, -total[n].value, c);
    }
  }

  lemma {:induction false} ConvertAllCoin(coins: map<Coin, CoinData>, conversions: seq<Conversion>, c: Coin)
    requires KnownCoins(coins, conversions) && c in coins
    ensures ConvertAll(coins, conversions).Keys == coins.Keys
    ensures ConvertAll(coins, conversions)[c]
         == if c == BASE then coins[c]
            else coins[c].(volume := coins[c].volume - Burned(conversions, c),
                           reserve := coins[c].reserve - Drawn(conversions, c))
  {
    if conversions != [] {
      var n := |conversions| - 1;
      ConvertAllCoin(coins, conversions[..n], c);
      hide Converted, Reserves;
      ConvertedCoins(ConvertAll(coins, conversions[..n]), conversions[n]);
    }
  }

  lemma {:induction false} ConvertAllReserves(coins: map<Coin, CoinData>, conversions: seq<Conversion>)
    requires KnownCoins(coins, conversions)
    ensures ConvertAll(coins, conversions).Keys == coins.Keys
    ensures Reserves(ConvertAll(coins, conversions)) == Reserves(coins) - Released(conversions)
  {
    if conversions != [] {
      var n := |conversions| - 1;
      ConvertAllReserves(coins, conversions[..n]);
      hide Converted, Reserves;
      ConvertedCoins(ConvertAll(coins, conversions[..n]), conversions[n]);
    }
  }

  lemma ConvertAllCoins(coins: map<Coin, CoinData>, conversions: seq<Conversion>)
    requires KnownCoins(coins, conversions)
    ensures ConvertAll(coins, conversions).Keys == coins.Keys
    ensures forall c :: c in coins ==>
      ConvertAll(coins, conversions)[c]
      == if c == BASE then coins[c]
         else coins[c].(volume := coins[c].volume - Burned(conversions, c),
                        reserve := coins[c].reserve - Drawn(conversions, c))
    ensures Reserves(ConvertAll(coins, conversions)) == Reserves(coins) - Released(conversions)
  {
    hide ConvertAll, Reserves, Burned, Drawn, Released;
    ConvertAllReserves(coins, conversions);
    forall c | c in coins {
      ConvertAllCoin(coins, conversions, c);
    }
  }

  lemma ConvertedCoins(coins: map<Coin, CoinData>, x: Conversion)
    requires x.fromCoin == BASE || x.fromCoin in coins
    requires x.toCoin == BASE || x.toCoin in coins
    ensures Converted(coins, x).Keys == coins.Keys
    ensures forall c :: c in coins ==>
      Converted(coins, x)[c]
      == if c == BASE then coins[c]
         else coins[c].(volume := coins[c].volume - (if x.fromCoin == c then x.fromAmount else 0)
                                  + (if x.toCoin == c then x.toAmount else 0),
                        reserve := coins[c].reserve - (if x.fromCoin == c then x.fromReserve else 0)
                                   + (if x.toCoin == c then x.toReserve else 0))
    ensures Reserves(Converted(coins, x))
         == Reserves(coins) - (if x.fromCoin != BASE then x.fromReserve else 0)
            + if x.toCoin != BASE then x.toReserve else 0
  {
    hide Reserves;
    var mid := Adjusted(coins, x.fromCoin, -x.fromAmount, -x.fromReserve);
    AdjustedReserves(coins, x.fromCoin, -x.fromAmount, -x.fromReserve);
    AdjustedReserves(mid, x.toCoin, x.toAmount, x.toReserve);
  }

  /** A balanced settlement conserves every coin, and base coin up to what is lost. */
  lemma SettledConserves(b: Books, tx: Tx, sp: Spending, to: Address, coin: Coin, credit: int, lost: int)
    requires KnownCoins(b.coins, sp.conversions)
    requires Balanced(sp, coin, credit, CommissionInBaseCoin(tx), lost)
    ensures var b1 := Settled(b, tx, sp, to, coin, credit);
            Base(b1) == Base(b) - lost && b1.coins.Keys == b.coins.Keys
            && forall c :: c in b.coins && c != BASE ==> Gap(b1, c) == Gap(b, c)
  {
    hide CommissionInBaseCoin, Held, Reserves, Staked, Frozen, Accrued, SpentOf, Burned, Drawn, Released;
    ConvertAllCoins(b.coins, sp.conversions);
    SettledHeld(b.balances, tx.sender, sp.total, to, coin, credit, BASE);
    hide ConvertAll, SpendAll;
    var b1 := Settled(b, tx, sp, to, coin, credit);
    forall c | c in b.coins && c != BASE
      ensures Gap(b1, c) == Gap(b, c)
    {
      SettledHeld(b.balances, tx.sender, sp.total, to, coin, credit, c);
    }
  }

  lemma SettledHeld(b: Balances, a: Address, total: seq<TotalSpend>, to: Address, coin: Coin, credit: int, c: Coin)
    ensures Held(Credit(SpendAll(b, a, total), to, coin, credit), c)
         == Held(b, c) - SpentOf(total, c) + if c == coin then credit else 0
  {
    SpendAllHeld(b, a, total, c);
    HeldCredit(SpendAll(b, a, total), to, coin, credit, c);
  }

  ghost predicate NoDebts(b: Balances) { forall a, c :: BalanceOf(b, a, c) >= 0 }

  lemma {:induction false} SpendAllBalance(b: Balances, a: Address, total: seq<TotalSpend>, x: Address, c: Coin)
    ensures BalanceOf(SpendAll(b, a, total), x, c) == BalanceOf(b, x, c) - if x == a then SpentOf(total, c) else 0
  {
    if total != [] {
      SpendAllBalance(b, a, total[..|total| - 1], x, c);
    }
  }

  /** Having checked each entry, no account is left below zero. */
  lemma SettledNoDebts(b: Books, tx: Tx, sp: Spending, to: Address, coin: Coin, credit: int)
    requires NoDebts(b.balances) && OnePerCoin(sp.total) && credit >= 0
    requires forall i :: 0 <= i < |sp.total| ==> sp.total[i].value <= BalanceOf(b.balances, tx.sender, sp.total[i].coin)
    ensures NoDebts(Settled(b, tx, sp, to, coin, credit).balances)
  {
    hide SpendAll, SpentOf;
    var spent := SpendAll(b.balances, tx.sender, sp.total);
    forall a, c
      ensures BalanceOf(spent, a, c) >= 0
    {
      SpendAllBalance(b.balances, tx.sender, sp.total, a, c);
      if i :| 0 <= i < |sp.total| && sp.total[i].coin == c {
        EntryIsAll(sp.total, i);
      } else {
        NoEntry(sp.total, c);
      }
    }
    forall a, c
      ensures BalanceOf(Credit(spent, to, coin, credit), a, c) >= 0
    {
      assert BalanceOf(spent, a, c) >= 0;
    }
  }
}
