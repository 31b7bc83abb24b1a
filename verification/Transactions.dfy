// The four coin-moving transactions, from what they will spend to their outcome.
module Transactions {
  import opened Common
  import opened Conversion
  import opened Ledger
  import opened StateDb

  // ---------------------------------------------------------------------------------
  // What the curves say a transaction should come to
  // ---------------------------------------------------------------------------------

  function SaleReturn(p: Prices, x: CoinData, amount: int): nat { p.saleReturn(x.volume, x.reserve, x.crr, amount) }

  function SaleAmount(p: Prices, x: CoinData, amount: int): nat { p.saleAmount(x.volume, x.reserve, x.crr, amount) }

  function PurchaseReturn(p: Prices, x: CoinData, amount: int): (r: int)
    ensures amount >= 0 ==> r >= 0
  {
    if amount >= 0 then p.purchaseReturn(x.volume, x.reserve, x.crr, amount)
    else p.purchaseBelowZero(x.volume, x.reserve, x.crr, amount)
  }

  function PurchaseAmount(p: Prices, x: CoinData, amount: int): nat {
    p.purchaseAmount(x.volume, x.reserve, x.crr, amount)
  }

  predicate Known(coins: map<Coin, CoinData>, c: Coin) { c == BASE || c in coins }

  /** The commission in the gas coin, at its price with these volumes and reserves. */
  function GasCharge(p: Prices, coins: map<Coin, CoinData>, tx: Tx): nat
    requires Known(coins, tx.gasCoin)
  {
    if tx.gasCoin == BASE then CommissionInBaseCoin(tx)
    else SaleAmount(p, coins[tx.gasCoin], CommissionInBaseCoin(tx))
  }

  /** The base coin that selling amount of c releases. */
  function SaleYield(p: Prices, coins: map<Coin, CoinData>, c: Coin, amount: int): int
    requires Known(coins, c)
  {
    if c == BASE then amount else SaleReturn(p, coins[c], amount)
  }

  /** What base coin buys of c. */
  function PurchaseYield(p: Prices, coins: map<Coin, CoinData>, c: Coin, amount: int): int
    requires Known(coins, c)
  {
    if c == BASE then amount else PurchaseReturn(p, coins[c], amount)
  }

  /** The base coin that buying amount of c needs. */
  function PurchaseCost(p: Prices, coins: map<Coin, CoinData>, c: Coin, amount: int): int
    requires Known(coins, c)
  {
    if c == BASE then amount else PurchaseAmount(p, coins[c], amount)
  }

  /** What of c has to be sold for an amount of base coin. */
  function SaleCost(p: Prices, coins: map<Coin, CoinData>, c: Coin, amount: int): int
    requires Known(coins, c)
  {
    if c == BASE then amount else SaleAmount(p, coins[c], amount)
  }

  /** Volumes and reserves as a trade moving base coin from one reserve to another leaves them. */
  function AfterTrade(coins: map<Coin, CoinData>, from: Coin, sold: int, to: Coin, bought: int, moved: int): map<Coin, CoinData> {
    Converted(coins, Conversion(from, sold, moved, to, bought, moved))
  }

  ghost predicate Spends(total: seq<TotalSpend>, c1: Coin, x1: int, c2: Coin, x2: int) {
    OnePerCoin(total)
    && forall c :: SpentOf(total, c) == (if c == c1 then x1 else 0) + if c == c2 then x2 else 0
  }

  /** now burns x of c and draws r of base coin from its reserve more than was. */
  ghost predicate Burns(was: seq<Conversion>, now: seq<Conversion>, c: Coin, x: int, r: int) {
    (forall d :: d != BASE ==> Burned(now, d) == Burned(was, d) + if d == c then x else 0)
    && (forall d :: d != BASE ==> Drawn(now, d) == Drawn(was, d) + if d == c then r else 0)
    && Released(now) == Released(was) + BaseIf(c, r)
  }

  lemma Appended(conversions: seq<Conversion>, x: Conversion)
    ensures forall c :: Burned(conversions + [x], c) == Burned(conversions, c) + BurnedBy(x, c)
    ensures forall c :: Drawn(conversions + [x], c) == Drawn(conversions, c) + DrawnBy(x, c)
    ensures Released(conversions + [x])
         == Released(conversions) + (if x.fromCoin != BASE then x.fromReserve else 0)
            - (if x.toCoin != BASE then x.toReserve else 0)
  {
    forall c {
      BurnedSnoc(conversions, x, c);
    }
    forall c {
      DrawnSnoc(conversions, x, c);
    }
    ReleasedSnoc(conversions, x);
  }

  function BurnedBy(x: Conversion, c: Coin): int {
    (if x.fromCoin == c then x.fromAmount else 0) - (if x.toCoin == c then x.toAmount else 0)
  }

  function DrawnBy(x: Conversion, c: Coin): int {
    (if x.fromCoin == c then x.fromReserve else 0) - (if x.toCoin == c then x.toReserve else 0)
  }

  function GasConversion(tx: Tx, commission: int): Conversion {
    Conversion(tx.gasCoin, commission, CommissionInBaseCoin(tx), BASE, 0, 0)
  }

  /** The reserves of from and gasCoin give up released and paid, and the reserve of to receives received; no other moves. */
  ghost predicate Draws(conversions: seq<Conversion>, from: Coin, released: int, gasCoin: Coin, paid: int,
                        to: Coin, received: int) {
    forall c :: c != BASE ==>
      Drawn(conversions, c)
      == (if c == from then released else 0) + (if c == gasCoin then paid else 0) - (if c == to then received else 0)
  }

  ghost predicate Charged(was: seq<TotalSpend>, now: seq<TotalSpend>, c: Coin, x: int) {
    OnePerCoin(now) && forall d :: SpentOf(now, d) == SpentOf(was, d) + if d == c then x else 0
  }

  /** Charges the commission at the gas coin's current price; the reserve must cover it. */
  method ChargeGas(s: StateDB, p: Prices, tx: Tx, total: TotalSpends, conversions: seq<Conversion>)
    returns (r: Result<seq<Conversion>, Code>)
    requires Known(s.coins, tx.gasCoin) && OnePerCoin(total.items) && KnownCoins(s.coins, conversions)
    modifies total
    ensures r.Err? <==> tx.gasCoin != BASE && s.coins[tx.gasCoin].reserve < CommissionInBaseCoin(tx)
    ensures r.Err? ==> r.error == CoinReserveNotSufficient
    ensures r.Ok? ==> Charged(old(total.items), total.items, tx.gasCoin, GasCharge(p, s.coins, tx))
    ensures r.Ok? ==> KnownCoins(s.coins, r.value)
    ensures r.Ok? ==>
      Burns(conversions, r.value, tx.gasCoin, GasCharge(p, s.coins, tx), CommissionInBaseCoin(tx))
  {
    hide SpentOf, Burned, Drawn, Released, CommissionInBaseCoin;
    var commissionInBaseCoin := CommissionInBaseCoin(tx);
    var commission := commissionInBaseCoin;
    var all := conversions;
    if tx.gasCoin != BASE {
      var coin := s.coins[tx.gasCoin];
      if coin.reserve < commissionInBaseCoin {
        return Err(CoinReserveNotSufficient);
      }
      commission := SaleAmount(p, coin, commissionInBaseCoin);
      Appended(all, GasConversion(tx, commission));
      all := all + [GasConversion(tx, commission)];
    }
    total.Add(tx.gasCoin, commission);
    r := Ok(all);
  }

  // ---------------------------------------------------------------------------------
  // Send
  // ---------------------------------------------------------------------------------

  method SendSpend(s: StateDB, p: Prices, tx: Tx) returns (r: Result<Spending, Code>)
    requires tx.data.Send? && Known(s.coins, tx.gasCoin)
    ensures r.Err? <==> tx.gasCoin != BASE && s.coins[tx.gasCoin].reserve < CommissionInBaseCoin(tx)
    ensures r.Err? ==> r.error == CoinReserveNotSufficient
    ensures r.Ok? ==>
      Spends(r.value.total, tx.gasCoin, GasCharge(p, s.coins, tx), tx.data.coin, tx.data.value)
      && KnownCoins(s.coins, r.value.conversions)
      && Balanced(r.value, tx.data.coin, tx.data.value, CommissionInBaseCoin(tx), 0)
      && Draws(r.value.conversions, tx.data.coin, 0, tx.gasCoin, CommissionInBaseCoin(tx), tx.data.coin, 0)
  {
    hide CommissionInBaseCoin, SpentOf, Burned, Drawn, Released;
    EmptySheet();
    var total := new TotalSpends();
    var charged := ChargeGas(s, p, tx, total, []);
    if charged.Err? {
      return Err(charged.error);
    }
    total.Add(tx.data.coin, tx.data.value);
    r := Ok(Spending(total.items, charged.value, 0));
  }

  // ---------------------------------------------------------------------------------
  // Sell
  // ---------------------------------------------------------------------------------

  /** The base coin a sale moves, what it buys, and what the commission then costs in the gas coin. */
  function SellMoved(p: Prices, coins: map<Coin, CoinData>, d: Data): int
    requires d.Sell? && Known(coins, d.coinToSell)
  {
    SaleYield(p, coins, d.coinToSell, d.valueToSell)
  }

  function SellBought(p: Prices, coins: map<Coin, CoinData>, d: Data): int
    requires d.Sell? && Known(coins, d.coinToSell) && Known(coins, d.coinToBuy)
  {
    PurchaseYield(p, coins, d.coinToBuy, SellMoved(p, coins, d))
  }

  function AfterSell(p: Prices, coins: map<Coin, CoinData>, d: Data): map<Coin, CoinData>
    requires d.Sell? && Known(coins, d.coinToSell) && Known(coins, d.coinToBuy)
  {
    AfterTrade(coins, d.coinToSell, d.valueToSell, d.coinToBuy, SellBought(p, coins, d), SellMoved(p, coins, d))
  }

  /** A reserve too small for the commission; not checked for the coin being bought. */
  predicate GasReserveShort(coins: map<Coin, CoinData>, tx: Tx, bought: Coin) {
    tx.gasCoin != BASE && tx.gasCoin != bought && tx.gasCoin in coins
    && coins[tx.gasCoin].reserve < CommissionInBaseCoin(tx)
  }

  predicate Overflows(coins: map<Coin, CoinData>, c: Coin, amount: int) {
    c != BASE && c in coins && CheckForCoinSupplyOverflow(coins[c].volume, amount)
  }

  /**
   * The sheet after a trade: sold leaves the sender, bought is to be credited, base coin is released
   * by one reserve and received by the other, and gas is charged in the gas coin, whose reserve pays for it.
   */
  ghost predicate Traded(total: seq<TotalSpend>, conversions: seq<Conversion>, sell: Coin, sold: int,
                         buy: Coin, bought: int, released: int, received: int, gasCoin: Coin, gas: int, paid: int) {
    Spends(total, sell, sold, gasCoin, gas)
    && (forall c :: c != BASE ==>
          Burned(conversions, c)
          == (if c == sell then sold else 0) - (if c == buy then bought else 0) + if c == gasCoin then gas else 0)
    && Draws(conversions, sell, released, gasCoin, paid, buy, received)
    && Released(conversions) == BaseIf(sell, released) - BaseIf(buy, received) + BaseIf(gasCoin, paid)
  }

  /** Commission still due after the switch is charged at the gas coin's price on record. */
  method FinishSpend(s: StateDB, p: Prices, tx: Tx, total: TotalSpends, conversions: seq<Conversion>, included: bool,
                     value: int, ghost sell: Coin, ghost sold: int, ghost buy: Coin, ghost bought: int,
                     ghost released: int, ghost received: int, ghost gas: int)
    returns (r: Result<Spending, Code>)
    requires Known(s.coins, tx.gasCoin) && KnownCoins(s.coins, conversions)
    requires Traded(total.items, conversions, sell, sold, buy, bought, released, received, tx.gasCoin,
                    if included then gas else 0, if included then CommissionInBaseCoin(tx) else 0)
    requires !included ==> gas == GasCharge(p, s.coins, tx)
    modifies total
    ensures r.Err? <==> !included && tx.gasCoin != BASE && s.coins[tx.gasCoin].reserve < CommissionInBaseCoin(tx)
    ensures r.Err? ==> r.error == CoinReserveNotSufficient
    ensures r.Ok? ==> r.value.value == value && KnownCoins(s.coins, r.value.conversions)
    ensures r.Ok? ==>
      Traded(r.value.total, r.value.conversions, sell, sold, buy, bought, released, received,
             tx.gasCoin, gas, CommissionInBaseCoin(tx))
  {
    hide CommissionInBaseCoin, SpentOf, Burned, Drawn, Released, GasCharge;
    var all := conversions;
    if !included {
      var charged := ChargeGas(s, p, tx, total, conversions);
      if charged.Err? {
        return Err(charged.error);
      }
      all := charged.value;
    }
    r := Ok(Spending(total.items, all, value));
  }

  lemma EmptySheet()
    ensures forall c :: SpentOf([], c) == 0 && Burned([], c) == 0 && Drawn([], c) == 0
    ensures Released([]) == 0
  {
  }

  /** The gas coin as the trade leaves it. */
  lemma GasAfterTrade(p: Prices, coins: map<Coin, CoinData>, tx: Tx, from: Coin, sold: int, to: Coin, bought: int, moved: int)
    requires Known(coins, from) && Known(coins, to) && Known(coins, tx.gasCoin) && from != to
    ensures var (after, g) := (AfterTrade(coins, from, sold, to, bought, moved), tx.gasCoin);
            Known(after, g) && (g == BASE ==> GasCharge(p, after, tx) == CommissionInBaseCoin(tx))
    ensures var (after, g) := (AfterTrade(coins, from, sold, to, bought, moved), tx.gasCoin);
            g != BASE ==> after[g] == GasCoinAfter(coins[g], g, from, sold, to, bought, moved)
  {
  }

  function GasCoinAfter(x: CoinData, g: Coin, from: Coin, sold: int, to: Coin, bought: int, moved: int): CoinData {
    if g == from then x.(volume := x.volume - sold, reserve := x.reserve - moved)
    else if g == to then x.(volume := x.volume + bought, reserve := x.reserve + moved)
    else x
  }

  /** The sheet balances when its base coin does. */
  lemma TradeBalances(sp: Spending, sell: Coin, sold: int, buy: Coin, bought: int, released: int, received: int,
                      gasCoin: Coin, gas: int, commission: int, lost: int)
    requires Traded(sp.total, sp.conversions, sell, sold, buy, bought, released, received, gasCoin, gas, commission)
    requires (if sell == BASE then sold else released) + (if gasCoin == BASE then gas else commission)
          == (if buy == BASE then bought else received) + commission + lost
    ensures Balanced(sp, buy, bought, commission, lost)
  {
    hide SpentOf, Burned, Drawn, Released;
  }

  /** A trade of one custom coin for another, with its gas merged into the sale, charged separately, or still to come. */
  lemma AcrossTraded(total: seq<TotalSpend>, gasPart: seq<Conversion>, x: Conversion, sold: int, bought: int,
                     released: int, received: int, gasCoin: Coin, gas: int, paid: int)
    requires x.fromCoin != BASE && x.toCoin != BASE && x.toAmount == bought && x.toReserve == received
    requires Spends(total, x.fromCoin, sold, gasCoin, gas)
    requires if gasCoin == x.fromCoin then
               gasPart == [] && x.fromAmount == sold + gas && x.fromReserve == released + paid
             else
               x.fromAmount == sold && x.fromReserve == released
               && if gasCoin == x.toCoin then gasPart == [Conversion(gasCoin, gas, paid, BASE, 0, 0)]
                  else gasPart == [] && gas == 0 && paid == 0
    ensures Traded(total, gasPart + [x], x.fromCoin, sold, x.toCoin, bought, released, received, gasCoin, gas, paid)
  {
    hide Spends, SpentOf, Burned, Drawn, Released;
    EmptySheet();
    Appended(gasPart, x);
    if gasPart != [] {
      Appended([], gasPart[0]);
      assert [] + [gasPart[0]] == gasPart;
    }
  }

  function BaseIf(c: Coin, amount: int): int { if c == BASE then 0 else amount }

  /** Selling base coin. */
  method SellBase(s: StateDB, p: Prices, tx: Tx, total: TotalSpends)
    returns (r: Result<(seq<Conversion>, int), Code>, included: bool)
    requires tx.data.Sell? && tx.data.coinToSell == BASE != tx.data.coinToBuy
    requires Known(s.coins, tx.gasCoin) && Known(s.coins, tx.data.coinToBuy) && total.items == []
    modifies total
    ensures SellStep(p, s.coins, tx, total.items, r, included)
  {
    hide CommissionInBaseCoin, SpentOf, Burned, Drawn, Released;
    var (buy, valueToSell) := (tx.data.coinToBuy, tx.data.valueToSell);
    var commissionInBaseCoin := CommissionInBaseCoin(tx);
    var conversions: seq<Conversion> := [];
    EmptySheet();
    included := false;
    var coin := s.coins[buy];
    var value := PurchaseReturn(p, coin, valueToSell);
    GasAfterTrade(p, s.coins, tx, BASE, valueToSell, buy, value, valueToSell);
    if value < tx.data.minimumValueToBuy {
      return Err(MinimumValueToBuyReached), included;
    }
    if tx.gasCoin == buy {
      included := true;
      var commission := p.saleAmount(coin.volume + value, coin.reserve + valueToSell, coin.crr, commissionInBaseCoin);
      total.Add(tx.gasCoin, commission);
      Appended(conversions, GasConversion(tx, commission));
      conversions := conversions + [GasConversion(tx, commission)];
    }
    if CheckForCoinSupplyOverflow(coin.volume, value) {
      return Err(CoinSupplyOverflow), included;
    }
    total.Add(BASE, valueToSell);
    var x := Conversion(BASE, 0, 0, buy, value, valueToSell);
    Appended(conversions, x);
    r := Ok((conversions + [x], value));
  }

  /** Selling a custom coin for base coin. */
  method SellForBase(s: StateDB, p: Prices, tx: Tx, total: TotalSpends)
    returns (r: Result<(seq<Conversion>, int), Code>, included: bool)
    requires tx.data.Sell? && tx.data.coinToSell != BASE == tx.data.coinToBuy
    requires Known(s.coins, tx.gasCoin) && Known(s.coins, tx.data.coinToSell) && total.items == []
    modifies total
    ensures SellStep(p, s.coins, tx, total.items, r, included)
  {
    hide CommissionInBaseCoin, SpentOf, Burned, Drawn, Released;
    var (sell, valueToSell) := (tx.data.coinToSell, tx.data.valueToSell);
    var commissionInBaseCoin := CommissionInBaseCoin(tx);
    EmptySheet();
    included := false;
    var coin := s.coins[sell];
    var value := SaleReturn(p, coin, valueToSell);
    GasAfterTrade(p, s.coins, tx, sell, valueToSell, BASE, value, value);
    if value < tx.data.minimumValueToBuy {
      return Err(MinimumValueToBuyReached), included;
    }
    var rValue, sold := value, valueToSell;
    if tx.gasCoin == sell {
      included := true;
      var newReserve := coin.reserve - value;
      if newReserve < commissionInBaseCoin {
        return Err(CoinReserveNotSufficient), included;
      }
      var c := p.saleAmount(coin.volume - valueToSell, newReserve, coin.crr, commissionInBaseCoin);
      sold := sold + c;
      rValue := rValue + commissionInBaseCoin;
    }
    total.Add(sell, sold);
    var x := Conversion(sell, sold, rValue, BASE, 0, 0);
    Appended([], x);
    r := Ok(([] + [x], value));
  }

  /** Selling one custom coin for another. */
  method SellAcross(s: StateDB, p: Prices, tx: Tx, total: TotalSpends)
    returns (r: Result<(seq<Conversion>, int), Code>, included: bool)
    requires tx.data.Sell? && tx.data.coinToSell != BASE && tx.data.coinToBuy != BASE
    requires tx.data.coinToSell != tx.data.coinToBuy
    requires Known(s.coins, tx.gasCoin) && total.items == []
    requires Known(s.coins, tx.data.coinToSell) && Known(s.coins, tx.data.coinToBuy)
    modifies total
    ensures SellStep(p, s.coins, tx, total.items, r, included)
  {
    hide CommissionInBaseCoin, SpentOf, Burned, Drawn, Released, Traded;
    var (sell, buy, valueToSell) := (tx.data.coinToSell, tx.data.coinToBuy, tx.data.valueToSell);
    var commissionInBaseCoin := CommissionInBaseCoin(tx);
    var conversions: seq<Conversion> := [];
    EmptySheet();
    included := false;
    var coinFrom, coinTo := s.coins[sell], s.coins[buy];
    var sold := valueToSell;
    var basecoinValue := SaleReturn(p, coinFrom, valueToSell);
    var fromReserve := basecoinValue;
    GasAfterTrade(p, s.coins, tx, sell, valueToSell, buy, PurchaseReturn(p, coinTo, basecoinValue), basecoinValue);
    if tx.gasCoin == sell {
      included := true;
      var newReserve := coinFrom.reserve - basecoinValue;
      if newReserve < commissionInBaseCoin {
        return Err(CoinReserveNotSufficient), included;
      }
      var c := p.saleAmount(coinFrom.volume - valueToSell, newReserve, coinFrom.crr, commissionInBaseCoin);
      sold := sold + c;
      fromReserve := fromReserve + commissionInBaseCoin;
    }
    var value := PurchaseReturn(p, coinTo, basecoinValue);
    if value < tx.data.minimumValueToBuy {
      return Err(MinimumValueToBuyReached), included;
    }
    if tx.gasCoin == buy {
      included := true;
      var commission := p.saleAmount(coinTo.volume + value, coinTo.reserve + basecoinValue, coinTo.crr,
                                     commissionInBaseCoin);
      total.Add(tx.gasCoin, commission);
      conversions := conversions + [GasConversion(tx, commission)];
    }
    if CheckForCoinSupplyOverflow(coinTo.volume, value) {
      return Err(CoinSupplyOverflow), included;
    }
    total.Add(sell, sold);
    var x := Conversion(sell, sold, fromReserve, buy, value, basecoinValue);
    ghost var gas := if included then GasCharge(p, AfterSell(p, s.coins, tx.data), tx) else 0;
    ghost var paid := if included then commissionInBaseCoin else 0;
    AcrossTraded(total.items, conversions, x, valueToSell, value, basecoinValue, basecoinValue, tx.gasCoin, gas, paid);
    r := Ok((conversions + [x], value));
  }

  /** What each branch of a sale achieves: the trade, and its gas when the gas coin takes part in it. */
  ghost predicate SellStep(p: Prices, coins: map<Coin, CoinData>, tx: Tx, total: seq<TotalSpend>,
                           r: Result<(seq<Conversion>, int), Code>, included: bool)
    requires tx.data.Sell? && tx.data.coinToSell != tx.data.coinToBuy
    requires Known(coins, tx.gasCoin) && Known(coins, tx.data.coinToSell) && Known(coins, tx.data.coinToBuy)
  {
    var d := tx.data;
    var moved, bought, after := SellMoved(p, coins, d), SellBought(p, coins, d), AfterSell(p, coins, d);
    var short := tx.gasCoin == d.coinToSell && GasReserveShort(after, tx, d.coinToBuy);
    (r.Ok? <==> bought >= d.minimumValueToBuy && !Overflows(coins, d.coinToBuy, bought) && !short)
    && (r.Err? ==>
          (r.error == MinimumValueToBuyReached && bought < d.minimumValueToBuy)
          || (r.error == CoinSupplyOverflow && Overflows(coins, d.coinToBuy, bought))
          || (r.error == CoinReserveNotSufficient && short))
    && (r.Ok? ==>
          (included <==> tx.gasCoin != BASE && (tx.gasCoin == d.coinToSell || tx.gasCoin == d.coinToBuy))
          && r.value.1 == bought && KnownCoins(coins, r.value.0)
          && Traded(total, r.value.0, d.coinToSell, d.valueToSell, d.coinToBuy, bought,
                    moved, moved, tx.gasCoin, if included then GasCharge(p, after, tx) else 0,
                    if included then CommissionInBaseCoin(tx) else 0))
  }

  method SellSpend(s: StateDB, p: Prices, tx: Tx) returns (r: Result<Spending, Code>)
    requires tx.data.Sell? && tx.data.coinToSell != tx.data.coinToBuy
    requires Known(s.coins, tx.gasCoin) && Known(s.coins, tx.data.coinToSell) && Known(s.coins, tx.data.coinToBuy)
    ensures var (d, bought) := (tx.data, SellBought(p, s.coins, tx.data));
            r.Ok? <==> bought >= d.minimumValueToBuy && !Overflows(s.coins, d.coinToBuy, bought)
                       && !GasReserveShort(AfterSell(p, s.coins, d), tx, d.coinToBuy)
    ensures var (d, bought) := (tx.data, SellBought(p, s.coins, tx.data));
            r.Err? ==>
              (r.error == MinimumValueToBuyReached && bought < d.minimumValueToBuy)
              || (r.error == CoinSupplyOverflow && Overflows(s.coins, d.coinToBuy, bought))
              || (r.error == CoinReserveNotSufficient && GasReserveShort(AfterSell(p, s.coins, d), tx, d.coinToBuy))
    ensures var (d, bought) := (tx.data, SellBought(p, s.coins, tx.data));
            r.Ok? ==>
              r.value.value == bought
              && Spends(r.value.total, d.coinToSell, d.valueToSell, tx.gasCoin, GasCharge(p, AfterSell(p, s.coins, d), tx))
              && KnownCoins(s.coins, r.value.conversions)
              && Balanced(r.value, d.coinToBuy, bought, CommissionInBaseCoin(tx), 0)
              && Draws(r.value.conversions, d.coinToSell, SellMoved(p, s.coins, d), tx.gasCoin, CommissionInBaseCoin(tx),
                       d.coinToBuy, SellMoved(p, s.coins, d))
  {
    var total := new TotalSpends();
    var step: Result<(seq<Conversion>, int), Code>;
    var included: bool;
    if tx.data.coinToSell == BASE {
      step, included := SellBase(s, p, tx, total);
    } else if tx.data.coinToBuy == BASE {
      step, included := SellForBase(s, p, tx, total);
    } else {
      step, included := SellAcross(s, p, tx, total);
    }
    ghost var d, moved, bought := tx.data, SellMoved(p, s.coins, tx.data), SellBought(p, s.coins, tx.data);
    GasAfterTrade(p, s.coins, tx, d.coinToSell, d.valueToSell, d.coinToBuy, bought, moved);
    if step.Err? {
      return Err(step.error);
    }
    ghost var gas := GasCharge(p, AfterSell(p, s.coins, d), tx);
    r := FinishSpend(s, p, tx, total, step.value.0, included, step.value.1, d.coinToSell, d.valueToSell,
                     d.coinToBuy, bought, moved, moved, gas);
    if r.Ok? {
      TradeBalances(r.value, d.coinToSell, d.valueToSell, d.coinToBuy, bought, moved, moved, tx.gasCoin, gas,
                    CommissionInBaseCoin(tx), 0);
    }
  }

  // ---------------------------------------------------------------------------------
  // Sell all
  // ---------------------------------------------------------------------------------

  /** The base coin left for the purchase once the commission is taken. */
  function SellAllMoved(p: Prices, coins: map<Coin, CoinData>, tx: Tx, available: int): int
    requires tx.data.SellAll? && Known(coins, tx.data.coinToSell)
  {
    SaleYield(p, coins, tx.data.coinToSell, available) - CommissionInBaseCoin(tx)
  }

  function SellAllBought(p: Prices, coins: map<Coin, CoinData>, tx: Tx, available: int): int
    requires tx.data.SellAll? && Known(coins, tx.data.coinToSell) && Known(coins, tx.data.coinToBuy)
  {
    PurchaseYield(p, coins, tx.data.coinToBuy, SellAllMoved(p, coins, tx, available))
  }

  /** What the sender's minimum is compared with: for base coin, the yield before the commission. */
  function SellAllOffered(p: Prices, coins: map<Coin, CoinData>, tx: Tx, available: int): int
    requires tx.data.SellAll? && Known(coins, tx.data.coinToSell) && Known(coins, tx.data.coinToBuy)
  {
    SellAllBought(p, coins, tx, available) + if tx.data.coinToBuy == BASE then CommissionInBaseCoin(tx) else 0
  }

  method SellAllSpend(s: StateDB, p: Prices, tx: Tx) returns (r: Result<Spending, Code>)
    requires tx.data.SellAll? && tx.data.coinToSell != tx.data.coinToBuy
    requires Known(s.coins, tx.data.coinToSell) && Known(s.coins, tx.data.coinToBuy)
    ensures var (d, available) := (tx.data, BalanceOf(s.balances, tx.sender, tx.data.coinToSell));
            var bought := SellAllBought(p, s.coins, tx, available);
            r.Ok? <==> SellAllOffered(p, s.coins, tx, available) >= d.minimumValueToBuy
                       && !Overflows(s.coins, d.coinToBuy, bought)
                       && (d.coinToSell == BASE || SellAllMoved(p, s.coins, tx, available) >= 0)
    ensures var (d, available) := (tx.data, BalanceOf(s.balances, tx.sender, tx.data.coinToSell));
            var bought := SellAllBought(p, s.coins, tx, available);
            r.Err? ==>
              (r.error == MinimumValueToBuyReached && SellAllOffered(p, s.coins, tx, available) < d.minimumValueToBuy)
              || (r.error == CoinSupplyOverflow && Overflows(s.coins, d.coinToBuy, bought))
              || (r.error == InsufficientFunds && SellAllMoved(p, s.coins, tx, available) < 0)
    ensures var (d, available) := (tx.data, BalanceOf(s.balances, tx.sender, tx.data.coinToSell));
            var bought := SellAllBought(p, s.coins, tx, available);
            r.Ok? ==>
              r.value.value == bought && bought >= 0
              && Spends(r.value.total, d.coinToSell, available, d.coinToSell, 0)
              && KnownCoins(s.coins, r.value.conversions)
              && Balanced(r.value, d.coinToBuy, bought, CommissionInBaseCoin(tx), 0)
              && Draws(r.value.conversions, d.coinToSell, SellAllMoved(p, s.coins, tx, available),
                       d.coinToSell, CommissionInBaseCoin(tx), d.coinToBuy, SellAllMoved(p, s.coins, tx, available))
  {
    hide CommissionInBaseCoin, SpentOf, Burned, Drawn, Released;
    var (sell, buy) := (tx.data.coinToSell, tx.data.coinToBuy);
    var commissionInBaseCoin := CommissionInBaseCoin(tx);
    var available := s.GetBalance(tx.sender, sell);
    var total := new TotalSpends();
    EmptySheet();
    total.Add(sell, available);
    var value: int;
    var x: Conversion;
    if sell == BASE {
      var amountToSell := available - commissionInBaseCoin;
      value := PurchaseReturn(p, s.coins[buy], amountToSell);
      if value < tx.data.minimumValueToBuy {
        return Err(MinimumValueToBuyReached);
      }
      if CheckForCoinSupplyOverflow(s.coins[buy].volume, value) {
        return Err(CoinSupplyOverflow);
      }
      x := Conversion(sell, 0, 0, buy, value, amountToSell);
    } else if buy == BASE {
      var ret := SaleReturn(p, s.coins[sell], available);
      if ret < tx.data.minimumValueToBuy {
        return Err(MinimumValueToBuyReached);
      }
      if ret < commissionInBaseCoin {
        return Err(InsufficientFunds);
      }
      value := ret - commissionInBaseCoin;
      x := Conversion(sell, available, ret, buy, 0, 0);
    } else {
      var basecoinValue := SaleReturn(p, s.coins[sell], available);
      if basecoinValue < commissionInBaseCoin {
        return Err(InsufficientFunds);
      }
      basecoinValue := basecoinValue - commissionInBaseCoin;
      value := PurchaseReturn(p, s.coins[buy], basecoinValue);
      if value < tx.data.minimumValueToBuy {
        return Err(MinimumValueToBuyReached);
      }
      if CheckForCoinSupplyOverflow(s.coins[buy].volume, value) {
        return Err(CoinSupplyOverflow);
      }
      x := Conversion(sell, available, basecoinValue + commissionInBaseCoin, buy, value, basecoinValue);
    }
    Appended([], x);
    r := Ok(Spending(total.items, [] + [x], value));
  }

  // ---------------------------------------------------------------------------------
  // Buy
  // ---------------------------------------------------------------------------------

  /** The commission comes out of the sold coin's reserve together with the purchase. */
  predicate GasMerged(tx: Tx)
    requires tx.data.Buy?
  {
    tx.data.coinToSell != BASE && tx.gasCoin == tx.data.coinToSell
  }

  /** The base coin a purchase moves. */
  function BuyMoved(p: Prices, coins: map<Coin, CoinData>, tx: Tx): int
    requires tx.data.Buy? && Known(coins, tx.data.coinToBuy)
  {
    PurchaseCost(p, coins, tx.data.coinToBuy, tx.data.valueToBuy)
  }

  /** The base coin the sale has to yield. */
  function BuyDrawn(p: Prices, coins: map<Coin, CoinData>, tx: Tx): int
    requires tx.data.Buy? && Known(coins, tx.data.coinToBuy)
  {
    BuyMoved(p, coins, tx) + if GasMerged(tx) then CommissionInBaseCoin(tx) else 0
  }

  function BuySold(p: Prices, coins: map<Coin, CoinData>, tx: Tx): int
    requires tx.data.Buy? && Known(coins, tx.data.coinToBuy) && Known(coins, tx.data.coinToSell)
  {
    SaleCost(p, coins, tx.data.coinToSell, BuyDrawn(p, coins, tx))
  }

  function AfterBuy(p: Prices, coins: map<Coin, CoinData>, tx: Tx): map<Coin, CoinData>
    requires tx.data.Buy? && Known(coins, tx.data.coinToBuy) && Known(coins, tx.data.coinToSell)
  {
    AfterTrade(coins, tx.data.coinToSell, BuySold(p, coins, tx), tx.data.coinToBuy, tx.data.valueToBuy,
               BuyMoved(p, coins, tx))
  }

  function BuyGas(p: Prices, coins: map<Coin, CoinData>, tx: Tx): int
    requires tx.data.Buy? && Known(coins, tx.data.coinToBuy) && Known(coins, tx.data.coinToSell)
    requires Known(coins, tx.gasCoin) && tx.data.coinToBuy != tx.data.coinToSell
  {
    GasAfterTrade(p, coins, tx, tx.data.coinToSell, BuySold(p, coins, tx), tx.data.coinToBuy, tx.data.valueToBuy,
                  BuyMoved(p, coins, tx));
    if GasMerged(tx) then 0 else GasCharge(p, AfterBuy(p, coins, tx), tx)
  }

  predicate BuyReserveShort(p: Prices, coins: map<Coin, CoinData>, tx: Tx)
    requires tx.data.Buy? && Known(coins, tx.data.coinToBuy) && Known(coins, tx.data.coinToSell)
  {
    tx.data.coinToSell != BASE && tx.data.coinToBuy != BASE
    && coins[tx.data.coinToSell].reserve < BuyDrawn(p, coins, tx)
  }

  predicate BuyGasShort(p: Prices, coins: map<Coin, CoinData>, tx: Tx)
    requires tx.data.Buy? && Known(coins, tx.data.coinToBuy) && Known(coins, tx.data.coinToSell)
  {
    tx.gasCoin != BASE && !GasMerged(tx) && tx.gasCoin in coins
    && AfterBuy(p, coins, tx)[tx.gasCoin].reserve < CommissionInBaseCoin(tx)
  }

  /** Base coin that vanishes: before the first upgrade the bought coin's reserve was given nothing. */
  function BuyLost(p: Prices, coins: map<Coin, CoinData>, tx: Tx, height: nat): int
    requires tx.data.Buy? && Known(coins, tx.data.coinToBuy)
  {
    if height < UPGRADE_BLOCK_0 && GasMerged(tx) && tx.data.coinToBuy != BASE then BuyMoved(p, coins, tx) else 0
  }

  ghost predicate BuyStep(p: Prices, coins: map<Coin, CoinData>, tx: Tx, height: nat, total: seq<TotalSpend>,
                          r: Result<(seq<Conversion>, int), Code>, included: bool)
    requires tx.data.Buy? && tx.data.coinToSell != tx.data.coinToBuy
    requires Known(coins, tx.gasCoin) && Known(coins, tx.data.coinToSell) && Known(coins, tx.data.coinToBuy)
  {
    var d := tx.data;
    var moved, sold := BuyMoved(p, coins, tx), BuySold(p, coins, tx);
    var gasShort := tx.gasCoin == d.coinToBuy && BuyGasShort(p, coins, tx);
    (r.Ok? <==> sold <= d.maximumValueToSell && !BuyReserveShort(p, coins, tx) && !gasShort)
    && (r.Err? ==>
          (r.error == MaximumValueToSellReached && sold > d.maximumValueToSell)
          || (r.error == CoinReserveNotSufficient && (BuyReserveShort(p, coins, tx) || gasShort)))
    && (r.Ok? ==>
          (included <==> tx.gasCoin != BASE && (tx.gasCoin == d.coinToSell || tx.gasCoin == d.coinToBuy))
          && r.value.1 == sold && KnownCoins(coins, r.value.0)
          && Traded(total, r.value.0, d.coinToSell, sold, d.coinToBuy, d.valueToBuy,
                    moved, moved - BuyLost(p, coins, tx, height), tx.gasCoin,
                    if included then BuyGas(p, coins, tx) else 0, if included then CommissionInBaseCoin(tx) else 0))
  }

  /** Paying with base coin. */
  method BuyWithBase(s: StateDB, p: Prices, tx: Tx, total: TotalSpends)
    returns (r: Result<(seq<Conversion>, int), Code>, included: bool)
    requires tx.data.Buy? && tx.data.coinToSell == BASE != tx.data.coinToBuy
    requires Known(s.coins, tx.gasCoin) && Known(s.coins, tx.data.coinToBuy) && total.items == []
    modifies total
    ensures BuyStep(p, s.coins, tx, s.height, total.items, r, included)
  {
    hide CommissionInBaseCoin, SpentOf, Burned, Drawn, Released;
    var (buy, valueToBuy) := (tx.data.coinToBuy, tx.data.valueToBuy);
    var commissionInBaseCoin := CommissionInBaseCoin(tx);
    var conversions: seq<Conversion> := [];
    EmptySheet();
    included := false;
    var coin := s.coins[buy];
    var value := PurchaseAmount(p, coin, valueToBuy);
    GasAfterTrade(p, s.coins, tx, BASE, value, buy, valueToBuy, value);
    if value > tx.data.maximumValueToSell {
      return Err(MaximumValueToSellReached), included;
    }
    if tx.gasCoin == buy {
      included := true;
      var nReserve := coin.reserve + value;
      if nReserve < commissionInBaseCoin {
        return Err(CoinReserveNotSufficient), included;
      }
      var commission := p.saleAmount(coin.volume + valueToBuy, nReserve, coin.crr, commissionInBaseCoin);
      total.Add(tx.gasCoin, commission);
      Appended(conversions, GasConversion(tx, commission));
      conversions := conversions + [GasConversion(tx, commission)];
    }
    total.Add(BASE, value);
    var x := Conversion(BASE, 0, 0, buy, valueToBuy, value);
    Appended(conversions, x);
    r := Ok((conversions + [x], value));
  }

  /** Buying base coin. */
  method BuyBase(s: StateDB, p: Prices, tx: Tx, total: TotalSpends)
    returns (r: Result<(seq<Conversion>, int), Code>, included: bool)
    requires tx.data.Buy? && tx.data.coinToSell != BASE == tx.data.coinToBuy
    requires Known(s.coins, tx.gasCoin) && Known(s.coins, tx.data.coinToSell) && total.items == []
    modifies total
    ensures BuyStep(p, s.coins, tx, s.height, total.items, r, included)
  {
    hide CommissionInBaseCoin, SpentOf, Burned, Drawn, Released;
    var sell := tx.data.coinToSell;
    EmptySheet();
    included := false;
    var valueToBuy: int := tx.data.valueToBuy;
    if tx.gasCoin == sell {
      included := true;
      valueToBuy := valueToBuy + CommissionInBaseCoin(tx);
    }
    var value := SaleAmount(p, s.coins[sell], valueToBuy);
    if value > tx.data.maximumValueToSell {
      return Err(MaximumValueToSellReached), included;
    }
    total.Add(sell, value);
    var x := Conversion(sell, value, valueToBuy, BASE, 0, 0);
    Appended([], x);
    r := Ok(([] + [x], value));
  }

  /** Buying one custom coin with another. */
  method BuyAcross(s: StateDB, p: Prices, tx: Tx, total: TotalSpends)
    returns (r: Result<(seq<Conversion>, int), Code>, included: bool)
    requires tx.data.Buy? && tx.data.coinToSell != BASE && tx.data.coinToBuy != BASE
    requires tx.data.coinToSell != tx.data.coinToBuy && total.items == []
    requires Known(s.coins, tx.gasCoin) && Known(s.coins, tx.data.coinToSell) && Known(s.coins, tx.data.coinToBuy)
    modifies total
    ensures BuyStep(p, s.coins, tx, s.height, total.items, r, included)
  {
    hide CommissionInBaseCoin, SpentOf, Burned, Drawn, Released, Traded;
    var (sell, buy, valueToBuy) := (tx.data.coinToSell, tx.data.coinToBuy, tx.data.valueToBuy);
    var commissionInBaseCoin := CommissionInBaseCoin(tx);
    var conversions: seq<Conversion> := [];
    EmptySheet();
    included := false;
    var coinFrom, coinTo := s.coins[sell], s.coins[buy];
    var baseCoinNeeded: int := PurchaseAmount(p, coinTo, valueToBuy);
    GasAfterTrade(p, s.coins, tx, sell, BuySold(p, s.coins, tx), buy, valueToBuy, baseCoinNeeded);
    if tx.gasCoin == sell {
      included := true;
      baseCoinNeeded := baseCoinNeeded + commissionInBaseCoin;
    }
    if coinFrom.reserve < baseCoinNeeded {
      return Err(CoinReserveNotSufficient), included;
    }
    if tx.gasCoin == buy {
      included := true;
      var nReserve := coinTo.reserve + baseCoinNeeded;
      if nReserve < commissionInBaseCoin {
        return Err(CoinReserveNotSufficient), included;
      }
      var commission := p.saleAmount(coinTo.volume + valueToBuy, nReserve, coinTo.crr, commissionInBaseCoin);
      total.Add(tx.gasCoin, commission);
      conversions := conversions + [GasConversion(tx, commission)];
    }
    var value := SaleAmount(p, coinFrom, baseCoinNeeded);
    if value > tx.data.maximumValueToSell {
      return Err(MaximumValueToSellReached), included;
    }
    var toReserve := baseCoinNeeded;
    if tx.gasCoin == sell {
      if s.height < UPGRADE_BLOCK_0 {
        toReserve := toReserve - baseCoinNeeded;
      } else {
        toReserve := toReserve - commissionInBaseCoin;
      }
    }
    total.Add(sell, value);
    var x := Conversion(sell, value, baseCoinNeeded, buy, valueToBuy, toReserve);
    ghost var moved, gas := BuyMoved(p, s.coins, tx), if included then BuyGas(p, s.coins, tx) else 0;
    ghost var paid := if included then commissionInBaseCoin else 0;
    AcrossTraded(total.items, conversions, x, value, valueToBuy, moved, toReserve, tx.gasCoin, gas, paid);
    r := Ok((conversions + [x], value));
  }

  lemma BuyBalances(p: Prices, coins: map<Coin, CoinData>, tx: Tx, height: nat, sp: Spending)
    requires tx.data.Buy? && tx.data.coinToSell != tx.data.coinToBuy
    requires Known(coins, tx.gasCoin) && Known(coins, tx.data.coinToSell) && Known(coins, tx.data.coinToBuy)
    requires Traded(sp.total, sp.conversions, tx.data.coinToSell, BuySold(p, coins, tx), tx.data.coinToBuy,
                    tx.data.valueToBuy, BuyMoved(p, coins, tx), BuyMoved(p, coins, tx) - BuyLost(p, coins, tx, height),
                    tx.gasCoin, BuyGas(p, coins, tx), CommissionInBaseCoin(tx))
    ensures Balanced(sp, tx.data.coinToBuy, tx.data.valueToBuy, CommissionInBaseCoin(tx), BuyLost(p, coins, tx, height))
  {
    hide CommissionInBaseCoin, Traded, Balanced;
    var (d, moved) := (tx.data, BuyMoved(p, coins, tx));
    GasAfterTrade(p, coins, tx, d.coinToSell, BuySold(p, coins, tx), d.coinToBuy, d.valueToBuy, moved);
    TradeBalances(sp, d.coinToSell, BuySold(p, coins, tx), d.coinToBuy, d.valueToBuy, moved,
                  moved - BuyLost(p, coins, tx, height), tx.gasCoin, BuyGas(p, coins, tx), CommissionInBaseCoin(tx),
                  BuyLost(p, coins, tx, height));
  }

  /** Gas that is not part of the trade is charged at the price on record, and the trade's own is never short by itself. */
  lemma BuyGasOutside(p: Prices, coins: map<Coin, CoinData>, tx: Tx)
    requires tx.data.Buy? && tx.data.coinToSell != tx.data.coinToBuy
    requires Known(coins, tx.gasCoin) && Known(coins, tx.data.coinToSell) && Known(coins, tx.data.coinToBuy)
    ensures tx.gasCoin == BASE || (tx.gasCoin != tx.data.coinToSell && tx.gasCoin != tx.data.coinToBuy) ==>
      BuyGas(p, coins, tx) == GasCharge(p, coins, tx)
      && (BuyGasShort(p, coins, tx) <==> tx.gasCoin != BASE && coins[tx.gasCoin].reserve < CommissionInBaseCoin(tx))
    ensures tx.gasCoin == tx.data.coinToSell ==> !BuyGasShort(p, coins, tx)
  {
    hide CommissionInBaseCoin, AfterTrade;
    GasAfterTrade(p, coins, tx, tx.data.coinToSell, BuySold(p, coins, tx), tx.data.coinToBuy, tx.data.valueToBuy,
                  BuyMoved(p, coins, tx));
  }

  method BuySpend(s: StateDB, p: Prices, tx: Tx) returns (r: Result<Spending, Code>)
    requires tx.data.Buy? && tx.data.coinToSell != tx.data.coinToBuy
    requires Known(s.coins, tx.gasCoin) && Known(s.coins, tx.data.coinToSell) && Known(s.coins, tx.data.coinToBuy)
    ensures r.Ok? <==> BuySold(p, s.coins, tx) <= tx.data.maximumValueToSell
                       && !Overflows(s.coins, tx.data.coinToBuy, tx.data.valueToBuy)
                       && !BuyReserveShort(p, s.coins, tx) && !BuyGasShort(p, s.coins, tx)
    ensures r.Err? ==>
              (r.error == MaximumValueToSellReached && BuySold(p, s.coins, tx) > tx.data.maximumValueToSell)
              || (r.error == CoinSupplyOverflow && Overflows(s.coins, tx.data.coinToBuy, tx.data.valueToBuy))
              || (r.error == CoinReserveNotSufficient && (BuyReserveShort(p, s.coins, tx) || BuyGasShort(p, s.coins, tx)))
    ensures r.Ok? ==>
              r.value.value == BuySold(p, s.coins, tx)
              && Spends(r.value.total, tx.data.coinToSell, BuySold(p, s.coins, tx), tx.gasCoin, BuyGas(p, s.coins, tx))
              && KnownCoins(s.coins, r.value.conversions)
              && Balanced(r.value, tx.data.coinToBuy, tx.data.valueToBuy, CommissionInBaseCoin(tx),
                          BuyLost(p, s.coins, tx, s.height))
              && Draws(r.value.conversions, tx.data.coinToSell, BuyMoved(p, s.coins, tx), tx.gasCoin,
                       CommissionInBaseCoin(tx), tx.data.coinToBuy,
                       BuyMoved(p, s.coins, tx) - BuyLost(p, s.coins, tx, s.height))
  {
    hide CommissionInBaseCoin, SpentOf, Burned, Drawn, Released, Balanced, BuyGas, BuyGasShort, GasCharge, BuySold, BuyMoved,
         BuyLost, BuyReserveShort;
    BuyGasOutside(p, s.coins, tx);
    var d := tx.data;
    if d.coinToBuy != BASE && CheckForCoinSupplyOverflow(s.coins[d.coinToBuy].volume, d.valueToBuy) {
      return Err(CoinSupplyOverflow);
    }
    var total := new TotalSpends();
    var step: Result<(seq<Conversion>, int), Code>;
    var included: bool;
    if d.coinToSell == BASE {
      step, included := BuyWithBase(s, p, tx, total);
    } else if d.coinToBuy == BASE {
      step, included := BuyBase(s, p, tx, total);
    } else {
      step, included := BuyAcross(s, p, tx, total);
    }
    ghost var moved, sold, gas := BuyMoved(p, s.coins, tx), BuySold(p, s.coins, tx), BuyGas(p, s.coins, tx);
    ghost var received := moved - BuyLost(p, s.coins, tx, s.height);
    if step.Err? {
      return Err(step.error);
    }
    r := FinishSpend(s, p, tx, total, step.value.0, included, step.value.1, d.coinToSell, sold,
                     d.coinToBuy, d.valueToBuy, moved, received, gas);
    if r.Ok? {
      BuyBalances(p, s.coins, tx, s.height, r.value);
    }
  }
}
