// Running a transaction: checks, then the settlement, and what every run keeps.
module RunTx {
  import opened Common
  import opened Conversion
  import opened Ledger
  import opened StateDb
  import opened Transactions

  predicate Funded(b: Balances, a: Address, total: seq<TotalSpend>) {
    forall i :: 0 <= i < |total| ==> total[i].value <= BalanceOf(b, a, total[i].coin)
  }

  method CheckFunds(s: StateDB, a: Address, total: seq<TotalSpend>) returns (ok: bool)
    ensures ok <==> Funded(s.balances, a, total)
  {
    for i := 0 to |total|
      invariant Funded(s.balances, a, total[..i])
    {
      var balance := s.GetBalance(a, total[i].coin);
      if balance < total[i].value {
        return false;
      }
    }
    assert total[..|total|] == total;
    ok := true;
  }

  lemma AdjustedTwice(coins: map<Coin, CoinData>, c: Coin, volume: int, reserve: int)
    ensures Adjusted(Adjusted(coins, c, volume, 0), c, 0, reserve) == Adjusted(coins, c, volume, reserve)
  {
  }

  method Convert(s: StateDB, x: Conversion)
    modifies s
    ensures s.State() == old(s.State()).(coins := Converted(old(s.coins), x))
  {
    ghost var coins := s.coins;
    AdjustedTwice(coins, x.fromCoin, -x.fromAmount, -x.fromReserve);
    AdjustedTwice(Adjusted(coins, x.fromCoin, -x.fromAmount, -x.fromReserve), x.toCoin, x.toAmount, x.toReserve);
    hide Adjusted;
    s.SubCoinVolume(x.fromCoin, x.fromAmount);
    s.SubCoinReserve(x.fromCoin, x.fromReserve);
    s.AddCoinVolume(x.toCoin, x.toAmount);
    s.AddCoinReserve(x.toCoin, x.toReserve);
  }

  method Settle(s: StateDB, tx: Tx, sp: Spending, to: Address, coin: Coin, credit: int)
    modifies s
    ensures s.State() == Settled(old(s.State()), tx, sp, to, coin, credit)
  {
    hide Converted, CommissionInBaseCoin, Credit;
    ghost var b := s.State();
    for i := 0 to |sp.total|
      invariant s.State() == b.(balances := SpendAll(b.balances, tx.sender, sp.total[..i]))
    {
      s.SubBalance(tx.sender, sp.total[i].coin, sp.total[i].value);
      assert sp.total[..i + 1][..i] == sp.total[..i];
    }
    assert sp.total[..|sp.total|] == sp.total;
    ghost var spent := s.State();
    for i := 0 to |sp.conversions|
      invariant s.State() == spent.(coins := ConvertAll(b.coins, sp.conversions[..i]))
    {
      Convert(s, sp.conversions[i]);
      assert sp.conversions[..i + 1][..i] == sp.conversions[..i];
    }
    assert sp.conversions[..|sp.conversions|] == sp.conversions;
    s.pool := s.pool + CommissionInBaseCoin(tx);
    s.AddBalance(to, coin, credit);
    s.SetNonce(tx.sender, tx.nonce);
  }

  method BasicCheck(s: StateDB, d: Data) returns (code: Code)
    ensures code == OK <==>
      if d.Send? then CoinExists(s.coins, d.coin)
      else d.coinToSell != d.coinToBuy && CoinExists(s.coins, d.coinToSell) && CoinExists(s.coins, d.coinToBuy)
    ensures code != OK ==> code == if !d.Send? && d.coinToSell == d.coinToBuy then CrossConvert else CoinNotExists
  {
    if d.Send? {
      return if CoinExists(s.coins, d.coin) then OK else CoinNotExists;
    }
    if d.coinToSell == d.coinToBuy {
      return CrossConvert;
    }
    if !CoinExists(s.coins, d.coinToSell) {
      return CoinNotExists;
    }
    if !CoinExists(s.coins, d.coinToBuy) {
      return CoinNotExists;
    }
    code := OK;
  }

  /** Who is credited, in which coin; the amount follows from the transaction and the curves. */
  function Receiver(tx: Tx): Address { if tx.data.Send? then tx.data.to else tx.sender }

  function CreditedCoin(d: Data): Coin { if d.Send? then d.coin else d.coinToBuy }

  predicate Ready(coins: map<Coin, CoinData>, tx: Tx) {
    Known(coins, tx.gasCoin)
    && if tx.data.Send? then Known(coins, tx.data.coin)
       else tx.data.coinToSell != tx.data.coinToBuy && Known(coins, tx.data.coinToSell) && Known(coins, tx.data.coinToBuy)
  }

  function Credited(p: Prices, b: Books, tx: Tx): int
    requires Ready(b.coins, tx)
  {
    match tx.data
    case Send(_, _, value) => value
    case Sell(_, _, _, _) => SellBought(p, b.coins, tx.data)
    case SellAll(sell, _, _) => SellAllBought(p, b.coins, tx, BalanceOf(b.balances, tx.sender, sell))
    case Buy(_, valueToBuy, _, _) => valueToBuy
  }

  /** What the sender gives for the trade or the transfer, in which coin, and the commission on top. */
  function Given(p: Prices, b: Books, tx: Tx): (r: (Coin, int, Coin, int))
    requires Ready(b.coins, tx)
  {
    match tx.data
    case Send(coin, _, value) => (coin, value, tx.gasCoin, GasCharge(p, b.coins, tx))
    case Sell(sell, value, buy, _) =>
      GasAfterTrade(p, b.coins, tx, sell, value, buy, SellBought(p, b.coins, tx.data), SellMoved(p, b.coins, tx.data));
      (sell, value, tx.gasCoin, GasCharge(p, AfterSell(p, b.coins, tx.data), tx))
    case SellAll(sell, _, _) => (sell, BalanceOf(b.balances, tx.sender, sell), sell, 0)
    case Buy(_, _, sell, _) => (sell, BuySold(p, b.coins, tx), tx.gasCoin, BuyGas(p, b.coins, tx))
  }

  /** The base coin that moves between reserves for the trade. */
  function Moved(p: Prices, b: Books, tx: Tx): int
    requires Ready(b.coins, tx)
  {
    match tx.data
    case Send(_, _, _) => 0
    case Sell(_, _, _, _) => SellMoved(p, b.coins, tx.data)
    case SellAll(sell, _, _) => SellAllMoved(p, b.coins, tx, BalanceOf(b.balances, tx.sender, sell))
    case Buy(_, _, _, _) => BuyMoved(p, b.coins, tx)
  }

  function Lost(p: Prices, b: Books, tx: Tx): int
    requires Ready(b.coins, tx)
  {
    if tx.data.Buy? then BuyLost(p, b.coins, tx, b.height) else 0
  }

  /** The curves allow the transaction: limits kept, no overflow, reserves sufficient. */
  predicate Priced(p: Prices, b: Books, tx: Tx)
    requires Ready(b.coins, tx)
  {
    match tx.data
    case Send(_, _, _) => tx.gasCoin == BASE || b.coins[tx.gasCoin].reserve >= CommissionInBaseCoin(tx)
    case Sell(_, _, buy, minimum) =>
      SellBought(p, b.coins, tx.data) >= minimum && !Overflows(b.coins, buy, SellBought(p, b.coins, tx.data))
      && !GasReserveShort(AfterSell(p, b.coins, tx.data), tx, buy)
    case SellAll(sell, buy, minimum) =>
      var available := BalanceOf(b.balances, tx.sender, sell);
      SellAllOffered(p, b.coins, tx, available) >= minimum
      && !Overflows(b.coins, buy, SellAllBought(p, b.coins, tx, available))
      && (sell == BASE || SellAllMoved(p, b.coins, tx, available) >= 0)
    case Buy(buy, valueToBuy, _, maximum) =>
      BuySold(p, b.coins, tx) <= maximum && !Overflows(b.coins, buy, valueToBuy)
      && !BuyReserveShort(p, b.coins, tx) && !BuyGasShort(p, b.coins, tx)
  }

  /** The sender can pay for the trade and the commission, together where they are in one coin. */
  predicate Affordable(p: Prices, b: Books, tx: Tx)
    requires Ready(b.coins, tx)
  {
    var (c1, x1, c2, x2) := Given(p, b, tx);
    if c1 == c2 then x1 + x2 <= BalanceOf(b.balances, tx.sender, c1)
    else x1 <= BalanceOf(b.balances, tx.sender, c1) && x2 <= BalanceOf(b.balances, tx.sender, c2)
  }

  /** Exactly the transactions that succeed. */
  predicate Accepted(p: Prices, b: Books, tx: Tx) {
    CoinExists(b.coins, tx.gasCoin)
    && tx.nonce == (if tx.sender in b.nonces then b.nonces[tx.sender] else 0) + 1
    && (if tx.data.Send? then CoinExists(b.coins, tx.data.coin)
        else tx.data.coinToSell != tx.data.coinToBuy && CoinExists(b.coins, tx.data.coinToSell)
             && CoinExists(b.coins, tx.data.coinToBuy))
    && Priced(p, b, tx) && Affordable(p, b, tx)
  }

  /** With no debts, checking the merged entries is checking what is given of each coin. */
  lemma FundedIff(p: Prices, b: Books, tx: Tx, total: seq<TotalSpend>)
    requires Ready(b.coins, tx) && NoDebts(b.balances)
    requires var (c1, x1, c2, x2) := Given(p, b, tx); Spends(total, c1, x1, c2, x2)
    ensures Funded(b.balances, tx.sender, total) <==> Affordable(p, b, tx)
  {
    hide Given, SpentOf;
    var (c1, x1, c2, x2) := Given(p, b, tx);
    forall i | 0 <= i < |total|
      ensures SpentOf(total, total[i].coin) == total[i].value
    {
      EntryIsAll(total, i);
    }
    if Funded(b.balances, tx.sender, total) {
      WithinBalance(b.balances, tx.sender, total, c1);
      WithinBalance(b.balances, tx.sender, total, c2);
    }
  }

  lemma WithinBalance(b: Balances, a: Address, total: seq<TotalSpend>, c: Coin)
    requires NoDebts(b) && OnePerCoin(total) && Funded(b, a, total)
    ensures SpentOf(total, c) <= BalanceOf(b, a, c)
  {
    if i :| 0 <= i < |total| && total[i].coin == c {
      EntryIsAll(total, i);
    } else {
      NoEntry(total, c);
    }
  }

  method Spend(s: StateDB, p: Prices, tx: Tx) returns (r: Result<Spending, Code>, credit: int)
    requires Ready(s.coins, tx)
    ensures r.Ok? <==> Priced(p, s.State(), tx)
    ensures r.Ok? ==> credit == Credited(p, s.State(), tx) >= 0 && KnownCoins(s.coins, r.value.conversions)
    ensures r.Ok? ==>
      Balanced(r.value, CreditedCoin(tx.data), credit, CommissionInBaseCoin(tx), Lost(p, s.State(), tx))
    ensures r.Ok? ==> var (c1, x1, c2, x2) := Given(p, s.State(), tx); Spends(r.value.total, c1, x1, c2, x2)
    ensures r.Ok? ==> SheetDraws(p, s.State(), tx, r.value.conversions)
    ensures r.Err? ==> r.error != OK
  {
    hide CommissionInBaseCoin, Balanced, SpentOf, Draws;
    match tx.data
    case Send(_, _, value) =>
      r := SendSpend(s, p, tx);
      credit := value;
      if r.Ok? {
        SpendsSwap(r.value.total, tx.gasCoin, GasCharge(p, s.coins, tx), tx.data.coin, tx.data.value);
      }
    case Sell(_, _, _, _) =>
      r := SellSpend(s, p, tx);
      credit := if r.Ok? then r.value.value else 0;
    case SellAll(_, _, _) =>
      r := SellAllSpend(s, p, tx);
      credit := if r.Ok? then r.value.value else 0;
    case Buy(_, valueToBuy, _, _) =>
      r := BuySpend(s, p, tx);
      credit := valueToBuy;
  }

  /** The given coin's reserve gives up what moves, the coin that pays for gas the commission; the coin got receives. */
  ghost predicate SheetDraws(p: Prices, b: Books, tx: Tx, conversions: seq<Conversion>)
    requires Ready(b.coins, tx)
  {
    var (c1, _, c2, _) := Given(p, b, tx);
    Draws(conversions, c1, Moved(p, b, tx), c2, CommissionInBaseCoin(tx), CreditedCoin(tx.data),
          Moved(p, b, tx) - Lost(p, b, tx))
  }

  lemma SpendsSwap(total: seq<TotalSpend>, c1: Coin, x1: int, c2: Coin, x2: int)
    requires Spends(total, c1, x1, c2, x2)
    ensures Spends(total, c2, x2, c1, x1)
  {
  }

  /**
   * The sender pays x1 of c1 and x2 of c2, receiver gets credit of coin. Volumes move with what is paid and got. The
   * reserve of c1 gives up moved, that of c2 the commission, and that of coin receives moved less what is lost. No
   * other balance or coin changes.
   */
  ghost predicate Changed(b0: Books, tx: Tx, b1: Books, c1: Coin, x1: int, c2: Coin, x2: int, receiver: Address,
                          coin: Coin, credit: int, moved: int, lost: int, commission: int) {
    (forall a, c :: BalanceOf(b1.balances, a, c)
       == BalanceOf(b0.balances, a, c)
          - (if a == tx.sender then (if c == c1 then x1 else 0) + (if c == c2 then x2 else 0) else 0)
          + (if a == receiver && c == coin then credit else 0))
    && b1.coins.Keys == b0.coins.Keys
    && (forall c :: c in b0.coins ==>
          b1.coins[c]
          == if c == BASE then b0.coins[c]
             else b0.coins[c].(volume := b0.coins[c].volume - (if c == c1 then x1 else 0) - (if c == c2 then x2 else 0)
                                         + (if c == coin then credit else 0),
                               reserve := b0.coins[c].reserve - (if c == c1 then moved else 0)
                                          - (if c == c2 then commission else 0)
                                          + (if c == coin then moved - lost else 0)))
    && b1 == b0.(balances := b1.balances, coins := b1.coins, pool := b0.pool + commission,
                 nonces := b0.nonces[tx.sender := tx.nonce])
  }

  /** The books after a successful transaction: who paid what, who received what, what each coin shows, and nothing else. */
  ghost predicate Outcome(p: Prices, b0: Books, tx: Tx, b1: Books)
    requires Ready(b0.coins, tx)
  {
    var (c1, x1, c2, x2) := Given(p, b0, tx);
    Changed(b0, tx, b1, c1, x1, c2, x2, Receiver(tx), CreditedCoin(tx.data), Credited(p, b0, tx), Moved(p, b0, tx),
            Lost(p, b0, tx), CommissionInBaseCoin(tx))
    && Base(b1) == Base(b0) - Lost(p, b0, tx)
    && forall c :: c in b0.coins && c != BASE ==> Gap(b1, c) == Gap(b0, c)
  }

  lemma SettledCoin(coins: map<Coin, CoinData>, sp: Spending, c1: Coin, x1: int, c2: Coin, x2: int, coin: Coin,
                    credit: int, moved: int, lost: int, commission: int, c: Coin)
    requires c in coins && KnownCoins(coins, sp.conversions) && Balanced(sp, coin, credit, commission, lost)
    requires Spends(sp.total, c1, x1, c2, x2)
    requires Draws(sp.conversions, c1, moved, c2, commission, coin, moved - lost)
    ensures ConvertAll(coins, sp.conversions).Keys == coins.Keys
    ensures ConvertAll(coins, sp.conversions)[c]
         == if c == BASE then coins[c]
            else coins[c].(volume := coins[c].volume - (if c == c1 then x1 else 0) - (if c == c2 then x2 else 0)
                                     + (if c == coin then credit else 0),
                           reserve := coins[c].reserve - (if c == c1 then moved else 0)
                                      - (if c == c2 then commission else 0) + (if c == coin then moved - lost else 0))
  {
    hide ConvertAll, SpentOf, Burned, Drawn, Released, Reserves;
    ConvertAllCoins(coins, sp.conversions);
  }

  lemma SettledChanged(b: Books, tx: Tx, sp: Spending, c1: Coin, x1: int, c2: Coin, x2: int, to: Address, coin: Coin,
                       credit: int, moved: int, lost: int)
    requires KnownCoins(b.coins, sp.conversions) && Spends(sp.total, c1, x1, c2, x2)
    requires Balanced(sp, coin, credit, CommissionInBaseCoin(tx), lost)
    requires Draws(sp.conversions, c1, moved, c2, CommissionInBaseCoin(tx), coin, moved - lost)
    ensures Changed(b, tx, Settled(b, tx, sp, to, coin, credit), c1, x1, c2, x2, to, coin, credit, moved, lost,
                    CommissionInBaseCoin(tx))
  {
    hide CommissionInBaseCoin, SpendAll, ConvertAll, SpentOf, Balanced, Draws;
    var b1 := Settled(b, tx, sp, to, coin, credit);
    forall a, c
      ensures BalanceOf(b1.balances, a, c)
           == BalanceOf(b.balances, a, c)
              - (if a == tx.sender then (if c == c1 then x1 else 0) + (if c == c2 then x2 else 0) else 0)
              + (if a == to && c == coin then credit else 0)
    {
      SpendAllBalance(b.balances, tx.sender, sp.total, a, c);
    }
    hide Spends;
    SameCoins(b.coins, sp.conversions);
    forall c | c in b.coins {
      SettledCoin(b.coins, sp, c1, x1, c2, x2, coin, credit, moved, lost, CommissionInBaseCoin(tx), c);
    }
  }

  lemma SameCoins(coins: map<Coin, CoinData>, conversions: seq<Conversion>)
    requires KnownCoins(coins, conversions)
    ensures ConvertAll(coins, conversions).Keys == coins.Keys
  {
    hide Burned, Drawn, Released, Reserves, ConvertAll;
    ConvertAllCoins(coins, conversions);
  }

  lemma SettledOutcome(p: Prices, b: Books, tx: Tx, sp: Spending, credit: int)
    requires Ready(b.coins, tx) && credit == Credited(p, b, tx) && KnownCoins(b.coins, sp.conversions)
    requires Balanced(sp, CreditedCoin(tx.data), credit, CommissionInBaseCoin(tx), Lost(p, b, tx))
    requires var (c1, x1, c2, x2) := Given(p, b, tx); Spends(sp.total, c1, x1, c2, x2)
    requires SheetDraws(p, b, tx, sp.conversions)
    ensures Outcome(p, b, tx, Settled(b, tx, sp, Receiver(tx), CreditedCoin(tx.data), credit))
  {
    hide CommissionInBaseCoin, Given, Credited, Moved, Lost, Balanced, Spends, Draws, Changed, Settled, Base, Gap;
    SettledConserves(b, tx, sp, Receiver(tx), CreditedCoin(tx.data), credit, Lost(p, b, tx));
    var (c1, x1, c2, x2) := Given(p, b, tx);
    SettledChanged(b, tx, sp, c1, x1, c2, x2, Receiver(tx), CreditedCoin(tx.data), credit, Moved(p, b, tx),
                   Lost(p, b, tx));
  }

  /** Runs one transaction; only a delivered transaction that succeeds changes the books. */
  method Run(s: StateDB, p: Prices, tx: Tx, isCheck: bool) returns (code: Code)
    modifies s
    ensures code != OK || isCheck ==> s.State() == old(s.State())
    ensures code == OK ==>
      CoinExists(old(s.coins), tx.gasCoin) && Ready(old(s.coins), tx)
      && tx.nonce == (if tx.sender in old(s.nonces) then old(s.nonces)[tx.sender] else 0) + 1
    ensures code == OK && !isCheck ==> Outcome(p, old(s.State()), tx, s.State())
    ensures NoDebts(old(s.balances)) ==> NoDebts(s.balances) && (code == OK <==> Accepted(p, old(s.State()), tx))
  {
    hide CommissionInBaseCoin, Given, Credited, Lost, Balanced, Outcome, Spends, SheetDraws, Base, Gap, Priced, Affordable;
    if !CoinExists(s.coins, tx.gasCoin) {
      return CoinNotExists;
    }
    if tx.nonce != (if tx.sender in s.nonces then s.nonces[tx.sender] else 0) + 1 {
      return WrongNonce;
    }
    code := BasicCheck(s, tx.data);
    if code != OK {
      return;
    }
    var spending, credit := Spend(s, p, tx);
    if spending.Err? {
      return spending.error;
    }
    var funded := CheckFunds(s, tx.sender, spending.value.total);
    if NoDebts(s.balances) {
      FundedIff(p, s.State(), tx, spending.value.total);
    }
    if !funded {
      return InsufficientFunds;
    }
    if !isCheck {
      ghost var b := s.State();
      SettledOutcome(p, b, tx, spending.value, credit);
      if NoDebts(b.balances) {
        assert OnePerCoin(spending.value.total) by { DistinctEntries(p, b, tx, spending.value.total); }
        SettledNoDebts(b, tx, spending.value, Receiver(tx), CreditedCoin(tx.data), credit);
      }
      Settle(s, tx, spending.value, Receiver(tx), CreditedCoin(tx.data), credit);
    }
  }

  lemma DistinctEntries(p: Prices, b: Books, tx: Tx, total: seq<TotalSpend>)
    requires Ready(b.coins, tx)
    requires var (c1, x1, c2, x2) := Given(p, b, tx); Spends(total, c1, x1, c2, x2)
    ensures OnePerCoin(total)
  {
  }

  /** Any run of delivered transactions, from the first upgrade on. */
  method RunAll(s: StateDB, p: Prices, txs: seq<Tx>) returns (codes: seq<Code>)
    requires s.height >= UPGRADE_BLOCK_0
    modifies s
    ensures |codes| == |txs| && Conserves(old(s.State()), s.State())
    ensures NoDebts(old(s.balances)) ==> NoDebts(s.balances)
    ensures s.height == old(s.height)
  {
    codes := [];
    for i := 0 to |txs|
      invariant |codes| == i && Conserves(old(s.State()), s.State()) && s.height == old(s.height)
      invariant NoDebts(old(s.balances)) ==> NoDebts(s.balances)
    {
      ghost var b := s.State();
      var code := Run(s, p, txs[i], false);
      if code == OK {
        OutcomeConserves(p, b, txs[i], s.State());
        ConservesTrans(old(s.State()), b, s.State());
      }
      codes := codes + [code];
    }
  }

  lemma OutcomeConserves(p: Prices, b: Books, tx: Tx, b1: Books)
    requires Ready(b.coins, tx) && Outcome(p, b, tx, b1) && b.height >= UPGRADE_BLOCK_0
    ensures Conserves(b, b1) && b1.height == b.height
  {
    hide Base, Gap;
  }

  // ---------------------------------------------------------------------------------
  // A purchase that loses base coin
  // ---------------------------------------------------------------------------------

  /** Curves by which everything costs and yields one. */
  function OneEach(): Prices {
    Prices((v, r, c, x) => 1, (v, r, c, x) => 1, (v, r, c, x) => 1, (v, r, c, x) => 1, (v, r, c, x) => 1)
  }

  /** An account with some of coin 1, and two coins with reserves, before the first upgrade. */
  function EarlyBooks(): Books {
    Books(map[(7, 1) := 100], map[], map[1 := CoinData(100, 1_000_000_000_000_000_000, 50, false),
                                         2 := CoinData(100, 1_000_000_000_000_000_000, 50, false)],
          map[], [], [], 0, 0, 1, map[])
  }

  /** Buys coin 2 with coin 1, which also pays for the gas. */
  const EARLY_BUY: Tx := Tx(7, 1, 1, 1, 0, 0, Buy(2, 10, 1, 50))

  /** It is accepted, and whatever follows holds less base coin. */
  lemma EarlyBuyLoses(b1: Books)
    ensures Accepted(OneEach(), EarlyBooks(), EARLY_BUY) && NoDebts(EarlyBooks().balances)
    ensures Outcome(OneEach(), EarlyBooks(), EARLY_BUY, b1) ==> Base(b1) < Base(EarlyBooks())
  {
    var (p, b, tx) := (OneEach(), EarlyBooks(), EARLY_BUY);
    assert CommissionInBaseCoin(tx) == 100_000_000_000_000_000;
    assert BuyMoved(p, b.coins, tx) == 1 && BuySold(p, b.coins, tx) == 1;
    hide Base, Gap;
  }

  /** Before the upgrade the supply shrinks exactly when a custom coin pays for another and for the gas. */
  lemma LeakIff(p: Prices, b: Books, tx: Tx, b1: Books)
    requires Ready(b.coins, tx) && Outcome(p, b, tx, b1)
    ensures Base(b1) == Base(b) <==>
      !(tx.data.Buy? && b.height < UPGRADE_BLOCK_0 && tx.gasCoin == tx.data.coinToSell != BASE
        && tx.data.coinToBuy != BASE && BuyMoved(p, b.coins, tx) != 0)
  {
    hide Base, Gap;
  }
}
