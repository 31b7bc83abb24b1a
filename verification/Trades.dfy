// What each coin-moving transaction comes to, spelled out in the pricing curves: when it is accepted, what the
// sender pays, and what volumes and reserves become.
module Trades {
  import opened Common
  import opened Conversion
  import opened Ledger
  import opened RunTx
  import opened StateDb
  import opened Transactions

  /** The coins of a transaction exist, it is the sender's next, and a trade is of different coins. */
  predicate Proper(b: Books, tx: Tx, from: Coin, to: Coin) {
    (tx.gasCoin == BASE || (tx.gasCoin in b.coins && !b.coins[tx.gasCoin].deleted))
    && (from == BASE || (from in b.coins && !b.coins[from].deleted))
    && (to == BASE || (to in b.coins && !b.coins[to].deleted))
    && tx.nonce == (if tx.sender in b.nonces then b.nonces[tx.sender] + 1 else 1)
  }

  /** a has x1 of c1 and x2 of c2, which may be the same coin. */
  predicate Has(b: Books, a: Address, c1: Coin, x1: int, c2: Coin, x2: int) {
    if c1 == c2 then x1 + x2 <= BalanceOf(b.balances, a, c1)
    else x1 <= BalanceOf(b.balances, a, c1) && x2 <= BalanceOf(b.balances, a, c2)
  }

  lemma FeeIs(tx: Tx)
    ensures CommissionInBaseCoin(tx)
         == tx.gasPrice * ((if tx.data.Send? then 10 else 100) + 2 * (tx.payload + tx.serviceData)) * 1_000_000_000_000_000
  {
  }

  /** A transfer: the receiver gets what the sender gives, and the gas coin's reserve pays the commission. */
  lemma SendIs(p: Prices, b: Books, tx: Tx, b1: Books)
    requires tx.data.Send? && Ready(b.coins, tx)
    ensures var (c, v, g) := (tx.data.coin, tx.data.value, tx.gasCoin);
            var fee := tx.gasPrice * (10 + 2 * (tx.payload + tx.serviceData)) * 1_000_000_000_000_000;
            var gas := if g == BASE then fee
                       else p.saleAmount(b.coins[g].volume, b.coins[g].reserve, b.coins[g].crr, fee);
            (Outcome(p, b, tx, b1) ==> Changed(b, tx, b1, c, v, g, gas, tx.data.to, c, v, 0, 0, fee))
            && (Accepted(p, b, tx) <==>
                  Proper(b, tx, c, c) && (g == BASE || b.coins[g].reserve >= fee) && Has(b, tx.sender, c, v, g, gas))
  {
    hide Changed, CommissionInBaseCoin;
    FeeIs(tx);
  }

  lemma SellParts(p: Prices, b: Books, tx: Tx)
    requires tx.data.Sell? && Ready(b.coins, tx)
    ensures var (f, t, v, g) := (tx.data.coinToSell, tx.data.coinToBuy, tx.data.valueToSell, tx.gasCoin);
            var (fee, moved, bought) := (CommissionInBaseCoin(tx), Moved(p, b, tx), Credited(p, b, tx));
            Lost(p, b, tx) == 0
            && moved == (if f == BASE then v else p.saleReturn(b.coins[f].volume, b.coins[f].reserve, b.coins[f].crr, v))
            && bought == (if t == BASE then moved
                          else p.purchaseReturn(b.coins[t].volume, b.coins[t].reserve, b.coins[t].crr, moved))
            && Given(p, b, tx) == (f, v, g,
                 if g == BASE then fee
                 else if g == f then
                   p.saleAmount(b.coins[f].volume - v, b.coins[f].reserve - moved, b.coins[f].crr, fee)
                 else if g == t then
                   p.saleAmount(b.coins[t].volume + bought, b.coins[t].reserve + moved, b.coins[t].crr, fee)
                 else p.saleAmount(b.coins[g].volume, b.coins[g].reserve, b.coins[g].crr, fee))
  {
    hide CommissionInBaseCoin, AfterTrade;
    GasAfterTrade(p, b.coins, tx, tx.data.coinToSell, tx.data.valueToSell, tx.data.coinToBuy,
                  SellBought(p, b.coins, tx.data), SellMoved(p, b.coins, tx.data));
  }

  lemma SellPriced(p: Prices, b: Books, tx: Tx)
    requires tx.data.Sell? && Ready(b.coins, tx)
    ensures var (f, t, g) := (tx.data.coinToSell, tx.data.coinToBuy, tx.gasCoin);
            var (fee, moved, bought) := (CommissionInBaseCoin(tx), Moved(p, b, tx), Credited(p, b, tx));
            Priced(p, b, tx) <==>
              bought >= tx.data.minimumValueToBuy
              && (t == BASE || b.coins[t].volume + bought < 1_000_000_000_000_000_000_000_000_000_000_000)
              && (g == BASE || g == t || fee <= b.coins[g].reserve - if g == f then moved else 0)
  {
    hide CommissionInBaseCoin, AfterTrade, SellMoved, SellBought;
    GasAfterTrade(p, b.coins, tx, tx.data.coinToSell, tx.data.valueToSell, tx.data.coinToBuy,
                  SellBought(p, b.coins, tx.data), SellMoved(p, b.coins, tx.data));
  }

  /** A sale: the base coin the sale yields moves from one reserve to the other, and gas is priced after that. */
  lemma SellIs(p: Prices, b: Books, tx: Tx, b1: Books)
    requires tx.data.Sell? && Ready(b.coins, tx)
    ensures var (f, t, v, g) := (tx.data.coinToSell, tx.data.coinToBuy, tx.data.valueToSell, tx.gasCoin);
            var fee := tx.gasPrice * (100 + 2 * (tx.payload + tx.serviceData)) * 1_000_000_000_000_000;
            var moved := if f == BASE then v
                         else p.saleReturn(b.coins[f].volume, b.coins[f].reserve, b.coins[f].crr, v);
            var bought := if t == BASE then moved
                          else p.purchaseReturn(b.coins[t].volume, b.coins[t].reserve, b.coins[t].crr, moved);
            var gas := if g == BASE then fee
                       else if g == f then
                         p.saleAmount(b.coins[f].volume - v, b.coins[f].reserve - moved, b.coins[f].crr, fee)
                       else if g == t then
                         p.saleAmount(b.coins[t].volume + bought, b.coins[t].reserve + moved, b.coins[t].crr, fee)
                       else p.saleAmount(b.coins[g].volume, b.coins[g].reserve, b.coins[g].crr, fee);
            (Outcome(p, b, tx, b1) ==> Changed(b, tx, b1, f, v, g, gas, tx.sender, t, bought, moved, 0, fee))
            && (Accepted(p, b, tx) <==>
                  Proper(b, tx, f, t) && bought >= tx.data.minimumValueToBuy
                  && (t == BASE || b.coins[t].volume + bought < 1_000_000_000_000_000_000_000_000_000_000_000)
                  && (g == BASE || g == t || fee <= b.coins[g].reserve - if g == f then moved else 0)
                  && Has(b, tx.sender, f, v, g, gas))
  {
    hide Changed, CommissionInBaseCoin, Given, Moved, Credited, Lost, Priced;
    FeeIs(tx);
    SellParts(p, b, tx);
    SellPriced(p, b, tx);
  }

  /** A sale of everything: the commission comes out of what the sale yields, before the purchase. */
  lemma SellAllIs(p: Prices, b: Books, tx: Tx, b1: Books)
    requires tx.data.SellAll? && Ready(b.coins, tx)
    ensures var (f, t, v) := (tx.data.coinToSell, tx.data.coinToBuy, BalanceOf(b.balances, tx.sender, tx.data.coinToSell));
            var fee := tx.gasPrice * (100 + 2 * (tx.payload + tx.serviceData)) * 1_000_000_000_000_000;
            var moved := (if f == BASE then v
                          else p.saleReturn(b.coins[f].volume, b.coins[f].reserve, b.coins[f].crr, v)) - fee;
            var bought := if t == BASE then moved
                          else if moved >= 0 then
                            p.purchaseReturn(b.coins[t].volume, b.coins[t].reserve, b.coins[t].crr, moved)
                          else p.purchaseBelowZero(b.coins[t].volume, b.coins[t].reserve, b.coins[t].crr, moved);
            (Outcome(p, b, tx, b1) ==> Changed(b, tx, b1, f, v, f, 0, tx.sender, t, bought, moved, 0, fee))
            && (Accepted(p, b, tx) <==>
                  Proper(b, tx, f, t) && bought + (if t == BASE then fee else 0) >= tx.data.minimumValueToBuy
                  && (t == BASE || b.coins[t].volume + bought < 1_000_000_000_000_000_000_000_000_000_000_000)
                  && (f == BASE || moved >= 0))
  {
    hide Changed, CommissionInBaseCoin;
    FeeIs(tx);
  }

  lemma BuyParts(p: Prices, b: Books, tx: Tx)
    requires tx.data.Buy? && Ready(b.coins, tx)
    ensures var (f, t, v, g) := (tx.data.coinToSell, tx.data.coinToBuy, tx.data.valueToBuy, tx.gasCoin);
            var (fee, moved, merged) := (CommissionInBaseCoin(tx), Moved(p, b, tx), f != BASE && g == f);
            var drawn := moved + if merged then fee else 0;
            Lost(p, b, tx) == (if b.height < 5760 && merged && t != BASE then moved else 0)
            && Credited(p, b, tx) == v
            && moved == (if t == BASE then v else p.purchaseAmount(b.coins[t].volume, b.coins[t].reserve, b.coins[t].crr, v))
            && Given(p, b, tx) == (
                 f,
                 if f == BASE then drawn else p.saleAmount(b.coins[f].volume, b.coins[f].reserve, b.coins[f].crr, drawn),
                 g,
                 if merged then 0
                 else if g == BASE then fee
                 else if g == t then
                   p.saleAmount(b.coins[t].volume + v, b.coins[t].reserve + moved, b.coins[t].crr, fee)
                 else p.saleAmount(b.coins[g].volume, b.coins[g].reserve, b.coins[g].crr, fee))
  {
    hide CommissionInBaseCoin, AfterTrade;
    GasAfterTrade(p, b.coins, tx, tx.data.coinToSell, BuySold(p, b.coins, tx), tx.data.coinToBuy, tx.data.valueToBuy,
                  BuyMoved(p, b.coins, tx));
  }

  lemma BuyPriced(p: Prices, b: Books, tx: Tx)
    requires tx.data.Buy? && Ready(b.coins, tx)
    ensures var (f, t, v, g) := (tx.data.coinToSell, tx.data.coinToBuy, tx.data.valueToBuy, tx.gasCoin);
            var (fee, moved, merged) := (CommissionInBaseCoin(tx), Moved(p, b, tx), f != BASE && g == f);
            var drawn := moved + if merged then fee else 0;
            Priced(p, b, tx) <==>
              Given(p, b, tx).1 <= tx.data.maximumValueToSell
              && (t == BASE || b.coins[t].volume + v < 1_000_000_000_000_000_000_000_000_000_000_000)
              && (f == BASE || t == BASE || b.coins[f].reserve >= drawn)
              && (g == BASE || merged || b.coins[g].reserve + (if g == t then moved else 0) >= fee)
  {
    hide CommissionInBaseCoin, AfterTrade, BuyMoved, SaleCost;
    GasAfterTrade(p, b.coins, tx, tx.data.coinToSell, BuySold(p, b.coins, tx), tx.data.coinToBuy, tx.data.valueToBuy,
                  BuyMoved(p, b.coins, tx));
  }

  /**
   * A purchase: the base coin it needs moves from one reserve to the other. The sold coin pays for the gas together
   * with the purchase; any other gas coin is priced after it.
   */
  lemma BuyIs(p: Prices, b: Books, tx: Tx, b1: Books)
    requires tx.data.Buy? && Ready(b.coins, tx)
    ensures var (f, t, v, g) := (tx.data.coinToSell, tx.data.coinToBuy, tx.data.valueToBuy, tx.gasCoin);
            var fee := tx.gasPrice * (100 + 2 * (tx.payload + tx.serviceData)) * 1_000_000_000_000_000;
            var merged := f != BASE && g == f;
            var moved := if t == BASE then v
                         else p.purchaseAmount(b.coins[t].volume, b.coins[t].reserve, b.coins[t].crr, v);
            var drawn := moved + if merged then fee else 0;
            var sold := if f == BASE then drawn
                        else p.saleAmount(b.coins[f].volume, b.coins[f].reserve, b.coins[f].crr, drawn);
            var gas := if merged then 0
                       else if g == BASE then fee
                       else if g == t then
                         p.saleAmount(b.coins[t].volume + v, b.coins[t].reserve + moved, b.coins[t].crr, fee)
                       else p.saleAmount(b.coins[g].volume, b.coins[g].reserve, b.coins[g].crr, fee);
            var lost := if b.height < 5760 && merged && t != BASE then moved else 0;
            (Outcome(p, b, tx, b1) ==> Changed(b, tx, b1, f, sold, g, gas, tx.sender, t, v, moved, lost, fee))
            && (Accepted(p, b, tx) <==>
                  Proper(b, tx, f, t) && sold <= tx.data.maximumValueToSell
                  && (t == BASE || b.coins[t].volume + v < 1_000_000_000_000_000_000_000_000_000_000_000)
                  && (f == BASE || t == BASE || b.coins[f].reserve >= drawn)
                  && (g == BASE || merged || b.coins[g].reserve + (if g == t then moved else 0) >= fee)
                  && Has(b, tx.sender, f, sold, g, gas))
  {
    hide Changed, CommissionInBaseCoin, Given, Moved, Credited, Lost, Priced;
    FeeIs(tx);
    BuyParts(p, b, tx);
    BuyPriced(p, b, tx);
  }

  // ---------------------------------------------------------------------------------
  // One sale
  // ---------------------------------------------------------------------------------

  /** An account with some of coin 1 and base coin, and two coins with reserves. */
  function PlainBooks(): Books {
    Books(map[(7, 1) := 10, (7, BASE) := 1_000_000_000_000_000_000], map[],
          map[1 := CoinData(100, 1_000_000_000_000_000_000, 50, false),
              2 := CoinData(100, 1_000_000_000_000_000_000, 50, false)],
          map[], [], [], 0, 0, 6000, map[])
  }

  /** Sells coin 1 for coin 2, paying for the gas in base coin. */
  const PLAIN_SELL: Tx := Tx(7, 1, 1, BASE, 0, 0, Sell(1, 10, 2, 0))

  lemma PlainChanged(b1: Books)
    requires Ready(PlainBooks().coins, PLAIN_SELL) && Outcome(OneEach(), PlainBooks(), PLAIN_SELL, b1)
    ensures Accepted(OneEach(), PlainBooks(), PLAIN_SELL)
    ensures Changed(PlainBooks(), PLAIN_SELL, b1, 1, 10, BASE, 100_000_000_000_000_000, 7, 2, 1, 1, 0,
                    100_000_000_000_000_000)
  {
    hide Outcome, Accepted, Changed;
    SellIs(OneEach(), PlainBooks(), PLAIN_SELL, b1);
  }

  lemma ChangedCoin(b0: Books, tx: Tx, b1: Books, c1: Coin, x1: int, c2: Coin, x2: int, receiver: Address, coin: Coin,
                    credit: int, moved: int, lost: int, commission: int, c: Coin)
    requires Changed(b0, tx, b1, c1, x1, c2, x2, receiver, coin, credit, moved, lost, commission)
    requires c in b0.coins && c != BASE
    ensures c in b1.coins
         && b1.coins[c].volume == b0.coins[c].volume - (if c == c1 then x1 else 0) - (if c == c2 then x2 else 0)
                                  + (if c == coin then credit else 0)
         && b1.coins[c].reserve == b0.coins[c].reserve - (if c == c1 then moved else 0)
                                   - (if c == c2 then commission else 0) + (if c == coin then moved - lost else 0)
         && b1.coins[c].crr == b0.coins[c].crr && b1.coins[c].deleted == b0.coins[c].deleted
  {
  }

  lemma ChangedBalance(b0: Books, tx: Tx, b1: Books, c1: Coin, x1: int, c2: Coin, x2: int, receiver: Address, coin: Coin,
                       credit: int, moved: int, lost: int, commission: int, a: Address, c: Coin)
    requires Changed(b0, tx, b1, c1, x1, c2, x2, receiver, coin, credit, moved, lost, commission)
    ensures BalanceOf(b1.balances, a, c)
         == BalanceOf(b0.balances, a, c)
            - (if a == tx.sender then (if c == c1 then x1 else 0) + (if c == c2 then x2 else 0) else 0)
            + (if a == receiver && c == coin then credit else 0)
  {
  }

  /** With everything at one, one base coin leaves the reserve of coin 1 and joins that of coin 2. */
  lemma PlainSale(b1: Books)
    requires Ready(PlainBooks().coins, PLAIN_SELL) && Outcome(OneEach(), PlainBooks(), PLAIN_SELL, b1)
    ensures Accepted(OneEach(), PlainBooks(), PLAIN_SELL) && 1 in b1.coins && 2 in b1.coins
    ensures b1.coins[1] == CoinData(90, 999_999_999_999_999_999, 50, false)
    ensures b1.coins[2] == CoinData(101, 1_000_000_000_000_000_001, 50, false)
    ensures BalanceOf(b1.balances, 7, 1) == 0 && BalanceOf(b1.balances, 7, 2) == 1
         && BalanceOf(b1.balances, 7, BASE) == 900_000_000_000_000_000
  {
    hide Outcome, Accepted, Changed;
    PlainChanged(b1);
    var (b, tx, fee) := (PlainBooks(), PLAIN_SELL, 100_000_000_000_000_000);
    ChangedCoin(b, tx, b1, 1, 10, BASE, fee, 7, 2, 1, 1, 0, fee, 1);
    ChangedCoin(b, tx, b1, 1, 10, BASE, fee, 7, 2, 1, 1, 0, fee, 2);
    ChangedBalance(b, tx, b1, 1, 10, BASE, fee, 7, 2, 1, 1, 0, fee, 7, 1);
    ChangedBalance(b, tx, b1, 1, 10, BASE, fee, 7, 2, 1, 1, 0, fee, 7, 2);
    ChangedBalance(b, tx, b1, 1, 10, BASE, fee, 7, 2, 1, 1, 0, fee, 7, BASE);
  }
}
