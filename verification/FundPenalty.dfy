// Penalties on frozen funds: what was unbonded from a byzantine validator and is not yet released.
module FundPenalty {
  import opened Conversion
  import opened Ledger
  import opened Slashing
  import opened StateDb
  import Transactions

  /** What is kept of a fund; only those of the candidate are penalized. */
  function Punished(f: FrozenFund, key: Key): FrozenFund {
    if f.key == key then f.(value := Kept(f.value, 95)) else f
  }

  function PunishedList(list: seq<FrozenFund>, key: Key): (r: seq<FrozenFund>)
    ensures |r| == |list| && forall j :: 0 <= j < |list| ==> r[j] == Punished(list[j], key)
  {
    seq(|list|, j requires 0 <= j < |list| => Punished(list[j], key))
  }

  /** The books once what a fund loses has been slashed. */
  function SlashedFor(p: Prices, b: Books, f: FrozenFund, key: Key): (r: Books)
    requires f.coin == BASE || f.coin in b.coins
    ensures r.coins.Keys == b.coins.Keys && r == b.(coins := r.coins, slashed := r.slashed)
  {
    if f.key == key then Slashed(p, b, f.coin, f.value - Kept(f.value, 95)) else b
  }

  /** The books once the penalty has been taken from each fund of a list, in order. */
  function SlashList(p: Prices, b: Books, list: seq<FrozenFund>, key: Key): (r: Books)
    requires KnownFunds(b.coins, list)
    ensures r.coins.Keys == b.coins.Keys && r == b.(coins := r.coins, slashed := r.slashed)
  {
    if list == [] then b
    else SlashedFor(p, SlashList(p, b, list[..|list| - 1], key), list[|list| - 1], key)
  }

  /** What the penalty takes of coin c from a list. */
  function Lost(list: seq<FrozenFund>, key: Key, c: Coin): int {
    FundsOf(list, c) - FundsOf(PunishedList(list, key), c)
  }

  lemma LostStep(list: seq<FrozenFund>, key: Key, c: Coin)
    requires list != []
    ensures var n := |list| - 1;
            Lost(list, key, c) == Lost(list[..n], key, c) + LostOf(list[n], key, c)
  {
    hide Kept;
    var n := |list| - 1;
    assert PunishedList(list, key)[..n] == PunishedList(list[..n], key);
  }

  function LostOf(f: FrozenFund, key: Key, c: Coin): int {
    if f.coin == c && f.key == key then f.value - Kept(f.value, 95) else 0
  }

  lemma SlashedForFacts(p: Prices, b: Books, f: FrozenFund, key: Key)
    requires f.coin == BASE || f.coin in b.coins
    ensures Base(SlashedFor(p, b, f, key)) == Base(b) + LostOf(f, key, BASE)
    ensures forall c :: c in b.coins && c != BASE ==> Gap(SlashedFor(p, b, f, key), c) == Gap(b, c) - LostOf(f, key, c)
  {
    hide Base, Gap, Kept, Slashed;
    SlashedFacts(p, b, f.coin, f.value - Kept(f.value, 95));
  }

  /** What a penalty takes from funds in a coin is what that coin's volume, or base coin, gives up. */
  lemma {:induction false} SlashListFacts(p: Prices, b: Books, list: seq<FrozenFund>, key: Key)
    requires KnownFunds(b.coins, list)
    ensures Base(SlashList(p, b, list, key)) == Base(b) + Lost(list, key, BASE)
    ensures forall c :: c in b.coins && c != BASE ==>
      Gap(SlashList(p, b, list, key), c) == Gap(b, c) - Lost(list, key, c)
  {
    if list == [] {
      assert PunishedList(list, key) == [];
    } else {
      var n := |list| - 1;
      var (f, was) := (list[n], SlashList(p, b, list[..n], key));
      assert SlashList(p, b, list, key) == SlashedFor(p, was, f, key);
      hide Base, Gap, Lost, LostOf, SlashedFor, SlashList;
      SlashListFacts(p, b, list[..n], key);
      SlashedForFacts(p, was, f, key);
      LostStep(list, key, BASE);
      forall c | c in b.coins && c != BASE
        ensures Gap(SlashList(p, b, list, key), c) == Gap(b, c) - Lost(list, key, c)
      {
        LostStep(list, key, c);
      }
    }
  }

  /** What is cut off the funds of a candidate in coin c. */
  ghost function FundsCut(list: seq<FrozenFund>, key: Key, c: Coin): int {
    if list == [] then 0
    else
      var f := list[|list| - 1];
      FundsCut(list[..|list| - 1], key, c) + if f.key == key && f.coin == c then f.value - f.value * 95 / 100 else 0
  }

  /** Volume and reserve of coin c once what is cut off its funds has been sold to it, one fund after the other. */
  ghost function CoinTaken(p: Prices, was: CoinData, list: seq<FrozenFund>, key: Key, c: Coin): CoinData {
    if list == [] then was
    else CutSold(p, CoinTaken(p, was, list[..|list| - 1], key, c), list[|list| - 1], key, c)
  }

  /** Volume and reserve of coin c once five percent of a fund of the candidate has been sold to it. */
  ghost function CutSold(p: Prices, y: CoinData, f: FrozenFund, key: Key, c: Coin): CoinData {
    var cut := f.value - f.value * 95 / 100;
    if f.key != key || f.coin != c then y
    else y.(volume := y.volume - cut, reserve := y.reserve - p.saleReturn(y.volume, y.reserve, y.crr, cut))
  }

  /** Each coin has been sold what is cut off the funds in it, and base coin cut off or released by a reserve is slashed. */
  ghost predicate FundsTaken(p: Prices, b: Books, list: seq<FrozenFund>, key: Key, r: Books) {
    r.coins.Keys == b.coins.Keys
    && (forall c :: c in b.coins ==>
          r.coins[c] == if c == BASE then b.coins[c] else CoinTaken(p, b.coins[c], list, key, c))
    && r.slashed == b.slashed + FundsCut(list, key, BASE) + Reserves(b.coins) - Reserves(r.coins)
  }

  lemma {:induction false} SlashListCuts(p: Prices, b: Books, list: seq<FrozenFund>, key: Key)
    requires KnownFunds(b.coins, list)
    ensures FundsTaken(p, b, list, key, SlashList(p, b, list, key))
  {
    if list != [] {
      var n := |list| - 1;
      SlashListCuts(p, b, list[..n], key);
      hide SlashList, Reserves, FundsTaken, SlashedFor;
      TakenOnce(p, b, list, key, SlashList(p, b, list[..n], key));
      SlashListLast(p, b, list, key);
    }
  }

  lemma SlashListLast(p: Prices, b: Books, list: seq<FrozenFund>, key: Key)
    requires KnownFunds(b.coins, list) && list != []
    ensures SlashList(p, b, list, key) == SlashedFor(p, SlashList(p, b, list[..|list| - 1], key), list[|list| - 1], key)
  {
    hide SlashedFor;
  }

  lemma TakenOnce(p: Prices, b: Books, list: seq<FrozenFund>, key: Key, was: Books)
    requires list != [] && KnownFunds(b.coins, list) && FundsTaken(p, b, list[..|list| - 1], key, was)
    ensures FundsTaken(p, b, list, key, SlashedFor(p, was, list[|list| - 1], key))
  {
    hide Reserves, CoinTaken, FundsCut, Kept, Slashed;
    var f := list[|list| - 1];
    FundsCutLast(list, key);
    forall c | c in b.coins && c != BASE {
      CoinTakenLast(p, b.coins[c], list, key, c);
    }
    if f.key == key {
      SlashedCoins(p, was, f.coin, f.value - Kept(f.value, 95));
      assert FundsTaken(p, b, list, key, Slashed(p, was, f.coin, f.value - Kept(f.value, 95)));
    } else {
      assert FundsTaken(p, b, list, key, was);
    }
  }

  lemma FundsCutLast(list: seq<FrozenFund>, key: Key)
    requires list != []
    ensures var (n, f) := (|list| - 1, list[|list| - 1]);
            FundsCut(list, key, BASE)
            == FundsCut(list[..n], key, BASE)
               + if f.key == key && f.coin == BASE then f.value - Kept(f.value, 95) else 0
  {
  }

  lemma CoinTakenLast(p: Prices, was: CoinData, list: seq<FrozenFund>, key: Key, c: Coin)
    requires list != []
    ensures var (f, y) := (list[|list| - 1], CoinTaken(p, was, list[..|list| - 1], key, c));
            var cut := f.value - Kept(f.value, 95);
            CoinTaken(p, was, list, key, c)
            == if f.key != key || f.coin != c then y
               else y.(volume := y.volume - cut, reserve := y.reserve - Transactions.SaleReturn(p, y, cut))
  {
    hide Kept;
    var f := list[|list| - 1];
    KeptIs(f.value, 95);
  }

  /** The books once the funds frozen until h have been penalized. */
  function PunishedAt(p: Prices, b: Books, h: nat, key: Key): (r: Books)
    requires FundsKnown(b.coins, b.funds)
    ensures r.coins.Keys == b.coins.Keys && r == b.(coins := r.coins, slashed := r.slashed, funds := r.funds)
    ensures FundsKnown(r.coins, r.funds)
    ensures r.funds == if h in b.funds then b.funds[h := PunishedList(b.funds[h], key)] else b.funds
  {
    if h !in b.funds then b
    else
      PunishedKnown(b.coins, b.funds, h, key);
      SlashList(p, b, b.funds[h], key).(funds := b.funds[h := PunishedList(b.funds[h], key)])
  }

  lemma PunishedKnown(coins: map<Coin, CoinData>, funds: map<nat, seq<FrozenFund>>, h: nat, key: Key)
    requires FundsKnown(coins, funds) && h in funds
    ensures KnownFunds(coins, funds[h]) && FundsKnown(coins, funds[h := PunishedList(funds[h], key)])
  {
    hide Kept;
  }

  lemma PunishedAtConserves(p: Prices, b: Books, h: nat, key: Key)
    requires FundsKnown(b.coins, b.funds)
    ensures Conserves(b, PunishedAt(p, b, h, key))
  {
    hide SlashList, PunishedList, FundsOf, Frozen, Held, Reserves, Staked, Accrued;
    if h in b.funds {
      assert KnownFunds(b.coins, b.funds[h]);
      SlashListFacts(p, b, b.funds[h], key);
      forall c
        ensures Frozen(b.funds[h := PunishedList(b.funds[h], key)], c) == Frozen(b.funds, c) - Lost(b.funds[h], key, c)
      {
        FrozenSet(b.funds, h, PunishedList(b.funds[h], key), c);
      }
    }
  }

  /** Penalizes the funds of a candidate frozen until h. */
  method PunishFund(s: StateDB, p: Prices, h: nat, key: Key)
    requires FundsKnown(s.coins, s.funds) && h in s.funds
    modifies s
    ensures s.State() == PunishedAt(p, old(s.State()), h, key)
  {
    hide Kept, SlashList, Slashed;
    ghost var b := s.State();
    var list := s.funds[h];
    assert KnownFunds(b.coins, list);
    var newList: seq<FrozenFund> := [];
    StartOfList(p, b, list, key);
    for i := 0 to |list|
      invariant newList == PunishedList(list[..i], key)
      invariant s.State() == SlashList(p, b, list[..i], key)
    {
      var item := list[i];
      NextOfList(p, b, list, i, key);
      if item.key == key {
        var newValue := Slash(s, p, item.coin, item.value, 95);
        item := item.(value := newValue);
      }
      newList := newList + [item];
    }
    assert list[..|list|] == list;
    s.funds := s.funds[h := newList];
  }

  lemma StartOfList(p: Prices, b: Books, list: seq<FrozenFund>, key: Key)
    ensures list[..0] == [] && PunishedList(list[..0], key) == [] && SlashList(p, b, list[..0], key) == b
  {
  }

  lemma NextOfList(p: Prices, b: Books, list: seq<FrozenFund>, i: nat, key: Key)
    requires KnownFunds(b.coins, list) && i < |list|
    ensures PunishedList(list[..i + 1], key) == PunishedList(list[..i], key) + [Punished(list[i], key)]
    ensures SlashList(p, b, list[..i + 1], key) == SlashedFor(p, SlashList(p, b, list[..i], key), list[i], key)
  {
    hide Kept, Slashed;
    assert list[..i + 1][..i] == list[..i];
  }

  /** The books once the funds frozen until the n heights after first, and first itself, have been penalized. */
  ghost function PunishedFrom(p: Prices, b: Books, first: nat, n: nat, key: Key): (r: Books)
    requires FundsKnown(b.coins, b.funds)
    ensures r.coins.Keys == b.coins.Keys && r == b.(coins := r.coins, slashed := r.slashed, funds := r.funds)
    ensures FundsKnown(r.coins, r.funds)
  {
    if n == 0 then b else PunishedAt(p, PunishedFrom(p, b, first, n - 1, key), first + n - 1, key)
  }

  /** Each fund within the heights is penalized once, the others not at all, and nothing is lost. */
  lemma {:induction false} PunishedFromFacts(p: Prices, b: Books, first: nat, n: nat, key: Key)
    requires FundsKnown(b.coins, b.funds)
    ensures var r := PunishedFrom(p, b, first, n, key);
            Conserves(b, r) && r.funds.Keys == b.funds.Keys
            && forall h :: h in b.funds ==>
                 r.funds[h] == if first <= h < first + n then PunishedList(b.funds[h], key) else b.funds[h]
  {
    hide Conserves, PunishedList;
    if n == 0 {
      ConservesItself(b);
    } else {
      PunishedFromFacts(p, b, first, n - 1, key);
      var was := PunishedFrom(p, b, first, n - 1, key);
      PunishedAtConserves(p, was, first + n - 1, key);
      ConservesTrans(b, was, PunishedAt(p, was, first + n - 1, key));
    }
  }

  /** All funds frozen until the n heights from first on, one list after the other. */
  ghost function FundsFrom(funds: map<nat, seq<FrozenFund>>, first: nat, n: nat): seq<FrozenFund> {
    if n == 0 then [] else FundsFrom(funds, first, n - 1) + FundsAt(funds, first + n - 1)
  }

  /**
   * Evidence against the candidate with a key: each of its funds frozen until one of the heights keeps 95 percent,
   * with owner and coin, and all other funds are as they were.
   */
  ghost predicate FundsOutcome(p: Prices, b: Books, first: nat, n: nat, key: Key, r: Books) {
    r.funds.Keys == b.funds.Keys
    && (forall h :: h in b.funds ==> |r.funds[h]| == |b.funds[h]|)
    && (forall h, j :: h in b.funds && 0 <= j < |b.funds[h]| ==>
          var f := b.funds[h][j];
          r.funds[h][j] == if first <= h < first + n && f.key == key then f.(value := f.value * 95 / 100) else f)
    && FundsTaken(p, b, FundsFrom(b.funds, first, n), key, r)
    && r == b.(funds := r.funds, coins := r.coins, slashed := r.slashed)
  }

  lemma {:induction false} CoinJoins(p: Prices, was: CoinData, s: seq<FrozenFund>, t: seq<FrozenFund>, key: Key, c: Coin)
    ensures CoinTaken(p, was, s + t, key, c) == CoinTaken(p, CoinTaken(p, was, s, key, c), t, key, c)
  {
    if t == [] {
      assert s + t == s;
    } else {
      var n := |t| - 1;
      assert (s + t)[..|s + t| - 1] == s + t[..n];
      CoinJoins(p, was, s, t[..n], key, c);
      hide CutSold;
    }
  }

  lemma {:induction false} CutJoins(s: seq<FrozenFund>, t: seq<FrozenFund>, key: Key, c: Coin)
    ensures FundsCut(s + t, key, c) == FundsCut(s, key, c) + FundsCut(t, key, c)
  {
    if t == [] {
      assert s + t == s;
    } else {
      var n := |t| - 1;
      assert (s + t)[..|s + t| - 1] == s + t[..n];
      CutJoins(s, t[..n], key, c);
    }
  }

  lemma CutTwice(p: Prices, b: Books, s: seq<FrozenFund>, mid: Books, t: seq<FrozenFund>, key: Key, r: Books)
    requires FundsTaken(p, b, s, key, mid) && FundsTaken(p, mid, t, key, r)
    ensures FundsTaken(p, b, s + t, key, r)
  {
    hide CoinTaken, FundsCut, Reserves;
    CutJoins(s, t, key, BASE);
    forall c | c in b.coins && c != BASE {
      CoinJoins(p, b.coins[c], s, t, key, c);
    }
  }

  lemma {:induction false} PunishedCuts(p: Prices, b: Books, first: nat, n: nat, key: Key)
    requires FundsKnown(b.coins, b.funds)
    ensures FundsTaken(p, b, FundsFrom(b.funds, first, n), key, PunishedFrom(p, b, first, n, key))
  {
    hide FundsTaken, PunishedAt, SlashList;
    if n == 0 {
      NothingCut(p, b, key, b);
    } else {
      var (was, h) := (PunishedFrom(p, b, first, n - 1, key), first + n - 1);
      PunishedCuts(p, b, first, n - 1, key);
      PunishedFromFacts(p, b, first, n - 1, key);
      PunishedAtCuts(p, was, h, key);
      CutTwice(p, b, FundsFrom(b.funds, first, n - 1), was, FundsAt(b.funds, h), key, PunishedAt(p, was, h, key));
    }
  }

  lemma NothingCut(p: Prices, b: Books, key: Key, r: Books)
    requires r.coins == b.coins && r.slashed == b.slashed
    ensures FundsTaken(p, b, [], key, r)
  {
  }

  lemma PunishedAtCuts(p: Prices, b: Books, h: nat, key: Key)
    requires FundsKnown(b.coins, b.funds)
    ensures FundsTaken(p, b, FundsAt(b.funds, h), key, PunishedAt(p, b, h, key))
  {
    hide SlashList, FundsTaken, PunishedList;
    if h in b.funds {
      assert KnownFunds(b.coins, b.funds[h]);
      SlashListCuts(p, b, b.funds[h], key);
      CutFields(p, b, SlashList(p, b, b.funds[h], key), PunishedAt(p, b, h, key), b.funds[h], key);
    } else {
      NothingCut(p, b, key, b);
    }
  }

  lemma CutFields(p: Prices, b: Books, r: Books, r1: Books, list: seq<FrozenFund>, key: Key)
    requires FundsTaken(p, b, list, key, r) && r1.coins == r.coins && r1.slashed == r.slashed
    ensures FundsTaken(p, b, list, key, r1)
  {
    hide CoinTaken, FundsCut, Reserves;
  }

  lemma FundsAre(p: Prices, b: Books, first: nat, n: nat, key: Key)
    requires FundsKnown(b.coins, b.funds)
    ensures FundsOutcome(p, b, first, n, key, PunishedFrom(p, b, first, n, key))
  {
    hide FundsTaken, PunishedFrom, FundsFrom;
    PunishedCuts(p, b, first, n, key);
    PunishedFromFacts(p, b, first, n, key);
  }

  /** Penalizes the funds of a candidate frozen until any of the heights. */
  method PunishFrozenFunds(s: StateDB, p: Prices, fromBlock: nat, toBlock: nat, key: Key)
    requires FundsKnown(s.coins, s.funds) && fromBlock <= toBlock
    modifies s
    ensures s.State() == PunishedFrom(p, old(s.State()), fromBlock, toBlock + 1 - fromBlock, key)
    ensures FundsKnown(s.coins, s.funds) && Conserves(old(s.State()), s.State())
    ensures FundsOutcome(p, old(s.State()), fromBlock, toBlock + 1 - fromBlock, key, s.State())
    ensures s.funds.Keys == old(s.funds).Keys
    ensures forall h :: h in s.funds ==>
      s.funds[h] == if fromBlock <= h <= toBlock then PunishedList(old(s.funds)[h], key) else old(s.funds)[h]
  {
    hide PunishedList, PunishedAt, Conserves, FundsOutcome;
    ghost var b := s.State();
    FundsAre(p, b, fromBlock, toBlock + 1 - fromBlock, key);
    var i := fromBlock;
    while i <= toBlock
      invariant fromBlock <= i <= toBlock + 1
      invariant s.State() == PunishedFrom(p, b, fromBlock, i - fromBlock, key)
    {
      NoneAt(p, s.State(), i, key);
      if i in s.funds {
        PunishFund(s, p, i, key);
      }
      i := i + 1;
    }
    PunishedFromFacts(p, b, fromBlock, toBlock + 1 - fromBlock, key);
  }

  lemma NoneAt(p: Prices, b: Books, h: nat, key: Key)
    requires FundsKnown(b.coins, b.funds)
    ensures h !in b.funds ==> PunishedAt(p, b, h, key) == b
  {
  }
}
