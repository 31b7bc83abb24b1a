// The values the ledger holds and how much of each coin they contain.
module Ledger {
  import opened Common

  type Address = nat
  type Coin = nat

  /** A validator's public key, which also identifies its consensus address. */
  type Key = nat

  const BASE: Coin := 0

  type Balances = map<(Address, Coin), int>

  datatype CoinData = CoinData(volume: int, reserve: int, crr: nat, deleted: bool)

  datatype FrozenFund = FrozenFund(owner: Address, key: Key, coin: Coin, value: int)

  datatype Stake = Stake(owner: Address, coin: Coin, value: int, bipValue: int)

  datatype Candidate = Candidate(key: Key, rewardAddress: Address, commission: nat, totalBip: int,
                                 stakes: seq<Stake>, online: bool)

  datatype Validator = Validator(key: Key, rewardAddress: Address, commission: nat, totalBip: int,
                                 accum: int, absent: seq<bool>, toDrop: bool)

  // ---------------------------------------------------------------------------------
  // Sums over maps
  // ---------------------------------------------------------------------------------

  ghost function Sum<K(!new)>(m: map<K, int>): int {
    if m == map[] then 0
    else
      var k :| k in m;
      m[k] + Sum(m - {k})
  }

  lemma {:induction false} SumWithout<K(!new)>(m: map<K, int>, k: K)
    requires k in m
    ensures Sum(m) == m[k] + Sum(m - {k})
  {
    var j :| j in m && Sum(m) == m[j] + Sum(m - {j});
    if j != k {
      SumWithout(m - {j}, k);
      SumWithout(m - {k}, j);
      assert m - {j} - {k} == m - {k} - {j};
    }
  }

  lemma {:induction false} SumSplit<K(!new)>(m: map<K, int>, part: set<K>)
    requires part <= m.Keys
    ensures Sum(m) == Sum(m - part) + Sum(map k | k in part :: m[k])
    decreases |part|
  {
    if part == {} {
      assert m - part == m && (map k | k in part :: m[k]) == map[];
    } else {
      var x :| x in part;
      var inner := map k | k in part :: m[k];
      SumSplit(m - {x}, part - {x});
      SumWithout(m, x);
      SumWithout(inner, x);
      assert m - {x} - (part - {x}) == m - part;
      assert inner - {x} == map k | k in part - {x} :: (m - {x})[k];
    }
  }

  lemma SumUpdate<K(!new)>(m: map<K, int>, k: K, v: int)
    ensures Sum(m[k := v]) == Sum(m) - (if k in m then m[k] else 0) + v
  {
    SumWithout(m[k := v], k);
    if k in m {
      SumWithout(m, k);
      assert m[k := v] - {k} == m - {k};
    } else {
      assert m[k := v] - {k} == m;
    }
  }

  // ---------------------------------------------------------------------------------
  // Account balances
  // ---------------------------------------------------------------------------------

  /** An account without an entry has nothing. */
  function BalanceOf(b: Balances, a: Address, c: Coin): int {
    if (a, c) in b then b[(a, c)] else 0
  }

  /** amount more for a; nothing is written for an amount of zero. */
  function Credit(b: Balances, a: Address, c: Coin, amount: int): Balances {
    if amount == 0 then b else b[(a, c) := BalanceOf(b, a, c) + amount]
  }

  ghost function OfCoin(b: Balances, c: Coin): map<(Address, Coin), int> {
    map k | k in b && k.1 == c :: b[k]
  }

  /** What all accounts together have of coin c. */
  ghost function Held(b: Balances, c: Coin): int { Sum(OfCoin(b, c)) }

  lemma HeldSet(b: Balances, a: Address, c: Coin, v: int, d: Coin)
    ensures Held(b[(a, c) := v], d) == Held(b, d) + if c == d then v - BalanceOf(b, a, c) else 0
  {
    var u := OfCoin(b[(a, c) := v], d);
    if c == d {
      assert u == OfCoin(b, d)[(a, c) := v];
      SumUpdate(OfCoin(b, d), (a, c), v);
    } else {
      assert u == OfCoin(b, d);
    }
  }

  lemma HeldCredit(b: Balances, a: Address, c: Coin, amount: int, d: Coin)
    ensures Held(Credit(b, a, c, amount), d) == Held(b, d) + if c == d then amount else 0
  {
    HeldSet(b, a, c, BalanceOf(b, a, c) + amount, d);
  }

  // ---------------------------------------------------------------------------------
  // Reserves, frozen funds and stakes
  // ---------------------------------------------------------------------------------

  ghost function ReserveMap(coins: map<Coin, CoinData>): map<Coin, int> {
    map c | c in coins :: coins[c].reserve
  }

  ghost function Reserves(coins: map<Coin, CoinData>): int { Sum(ReserveMap(coins)) }

  lemma ReservesSet(coins: map<Coin, CoinData>, c: Coin, data: CoinData)
    ensures Reserves(coins[c := data])
         == Reserves(coins) - (if c in coins then coins[c].reserve else 0) + data.reserve
  {
    assert ReserveMap(coins[c := data]) == ReserveMap(coins)[c := data.reserve];
    SumUpdate(ReserveMap(coins), c, data.reserve);
  }

  /** What a list of frozen funds contains of coin c. */
  function FundsOf(list: seq<FrozenFund>, c: Coin): int {
    if list == [] then 0
    else FundsOf(list[..|list| - 1], c)
         + if list[|list| - 1].coin == c then list[|list| - 1].value else 0
  }

  lemma FundsSnoc(list: seq<FrozenFund>, f: FrozenFund, c: Coin)
    ensures FundsOf(list + [f], c) == FundsOf(list, c) + if f.coin == c then f.value else 0
  {
    assert (list + [f])[..|list|] == list;
  }

  lemma {:induction false} FundsSet(list: seq<FrozenFund>, i: nat, f: FrozenFund, c: Coin)
    requires i < |list|
    ensures FundsOf(list[i := f], c)
         == FundsOf(list, c) - (if list[i].coin == c then list[i].value else 0) + if f.coin == c then f.value else 0
  {
    var n := |list| - 1;
    if i < n {
      assert list[i := f][..n] == list[..n][i := f];
      FundsSet(list[..n], i, f, c);
    } else {
      assert list[i := f][..n] == list[..n];
    }
  }

  ghost function FundMap(funds: map<nat, seq<FrozenFund>>, c: Coin): map<nat, int> {
    map h | h in funds :: FundsOf(funds[h], c)
  }

  ghost function Frozen(funds: map<nat, seq<FrozenFund>>, c: Coin): int { Sum(FundMap(funds, c)) }

  lemma FrozenSet(funds: map<nat, seq<FrozenFund>>, h: nat, list: seq<FrozenFund>, c: Coin)
    ensures Frozen(funds[h := list], c)
         == Frozen(funds, c) - (if h in funds then FundsOf(funds[h], c) else 0) + FundsOf(list, c)
  {
    assert FundMap(funds[h := list], c) == FundMap(funds, c)[h := FundsOf(list, c)];
    SumUpdate(FundMap(funds, c), h, FundsOf(list, c));
  }

  /** What a candidate's stakes contain of coin c. */
  function StakedOf(stakes: seq<Stake>, c: Coin): int {
    if stakes == [] then 0
    else StakedOf(stakes[..|stakes| - 1], c)
         + if stakes[|stakes| - 1].coin == c then stakes[|stakes| - 1].value else 0
  }

  lemma StakedSnoc(stakes: seq<Stake>, s: Stake, c: Coin)
    ensures StakedOf(stakes + [s], c) == StakedOf(stakes, c) + if s.coin == c then s.value else 0
  {
    assert (stakes + [s])[..|stakes|] == stakes;
  }

  lemma {:induction false} StakedSet(stakes: seq<Stake>, j: nat, s: Stake, c: Coin)
    requires j < |stakes|
    ensures StakedOf(stakes[j := s], c)
         == StakedOf(stakes, c) - (if stakes[j].coin == c then stakes[j].value else 0)
            + if s.coin == c then s.value else 0
  {
    var n := |stakes| - 1;
    if j < n {
      assert stakes[j := s][..n] == stakes[..n][j := s];
      StakedSet(stakes[..n], j, s, c);
    } else {
      assert stakes[j := s][..n] == stakes[..n];
    }
  }

  /** The position of the first stake of an owner in a coin; past the end if there is none. */
  function StakeIndex(stakes: seq<Stake>, owner: Address, coin: Coin): (k: nat)
    ensures k <= |stakes|
    ensures k < |stakes| ==> stakes[k].owner == owner && stakes[k].coin == coin
    ensures forall m :: 0 <= m < k ==> !(stakes[m].owner == owner && stakes[m].coin == coin)
  {
    if stakes == [] || (stakes[0].owner == owner && stakes[0].coin == coin) then 0
    else 1 + StakeIndex(stakes[1..], owner, coin)
  }

  function Staked(candidates: seq<Candidate>, c: Coin): int {
    if candidates == [] then 0
    else Staked(candidates[..|candidates| - 1], c) + StakedOf(candidates[|candidates| - 1].stakes, c)
  }

  lemma StakedWith(candidates: seq<Candidate>, x: Candidate, c: Coin)
    ensures Staked(candidates + [x], c) == Staked(candidates, c) + StakedOf(x.stakes, c)
  {
    assert (candidates + [x])[..|candidates|] == candidates;
  }

  lemma {:induction false} StakedReplace(candidates: seq<Candidate>, i: nat, x: Candidate, c: Coin)
    requires i < |candidates|
    ensures Staked(candidates[i := x], c)
         == Staked(candidates, c) - StakedOf(candidates[i].stakes, c) + StakedOf(x.stakes, c)
  {
    var n := |candidates| - 1;
    if i < n {
      assert candidates[i := x][..n] == candidates[..n][i := x];
      StakedReplace(candidates[..n], i, x, c);
    } else {
      assert candidates[i := x][..n] == candidates[..n];
    }
  }

  /** The rewards validators have accumulated. */
  function Accrued(vals: seq<Validator>): int {
    if vals == [] then 0 else Accrued(vals[..|vals| - 1]) + vals[|vals| - 1].accum
  }

  lemma {:induction false} AccruedSet(vals: seq<Validator>, i: nat, v: Validator)
    requires i < |vals|
    ensures Accrued(vals[i := v]) == Accrued(vals) - vals[i].accum + v.accum
  {
    var n := |vals| - 1;
    if i < n {
      assert vals[i := v][..n] == vals[..n][i := v];
      AccruedSet(vals[..n], i, v);
    } else {
      assert vals[i := v][..n] == vals[..n];
    }
  }

  lemma {:induction false} StakedOfConcat(s: seq<Stake>, t: seq<Stake>, c: Coin)
    ensures StakedOf(s + t, c) == StakedOf(s, c) + StakedOf(t, c)
  {
    if t == [] {
      assert s + t == s;
    } else {
      var n := |t| - 1;
      assert (s + t)[..|s + t| - 1] == s + t[..n];
      StakedOfConcat(s, t[..n], c);
    }
  }

  lemma {:induction false} StakedConcat(s: seq<Candidate>, t: seq<Candidate>, c: Coin)
    ensures Staked(s + t, c) == Staked(s, c) + Staked(t, c)
  {
    if t == [] {
      assert s + t == s;
    } else {
      var n := |t| - 1;
      assert (s + t)[..|s + t| - 1] == s + t[..n];
      StakedConcat(s, t[..n], c);
    }
  }

  /** The base value of stakes, as last recalculated. */
  function BipSum(stakes: seq<Stake>): int {
    if stakes == [] then 0 else BipSum(stakes[..|stakes| - 1]) + stakes[|stakes| - 1].bipValue
  }

  lemma {:induction false} BipSumConcat(s: seq<Stake>, t: seq<Stake>)
    ensures BipSum(s + t) == BipSum(s) + BipSum(t)
  {
    if t == [] {
      assert s + t == s;
    } else {
      var n := |t| - 1;
      assert (s + t)[..|s + t| - 1] == s + t[..n];
      BipSumConcat(s, t[..n]);
    }
  }

  lemma {:induction false} BipSumSame(s: seq<Stake>, t: seq<Stake>)
    requires |s| == |t| && forall j :: 0 <= j < |s| ==> t[j].bipValue == s[j].bipValue
    ensures BipSum(t) == BipSum(s)
  {
    if s != [] {
      BipSumSame(s[..|s| - 1], t[..|t| - 1]);
    }
  }

  lemma {:induction false} BipSumBounds(s: seq<Stake>, j: nat)
    requires forall k :: 0 <= k < |s| ==> s[k].bipValue >= 0
    ensures BipSum(s) >= 0 && (j < |s| ==> s[j].bipValue <= BipSum(s))
  {
    if s != [] {
      BipSumBounds(s[..|s| - 1], j);
    }
  }

  /** The position of the candidate with a key, as GetStateCandidate finds it; past the end if there is none. */
  function CandidateIndex(cs: seq<Candidate>, key: Key): (i: nat)
    ensures i <= |cs| && (i < |cs| ==> cs[i].key == key)
    ensures forall m :: 0 <= m < i ==> cs[m].key != key
  {
    if cs == [] || cs[0].key == key then 0 else 1 + CandidateIndex(cs[1..], key)
  }

  // ---------------------------------------------------------------------------------
  // Stable sorting, largest first
  // ---------------------------------------------------------------------------------

  /** Where an element with this key goes: after every element at least as large. */
  function Position(keys: seq<int>, key: int): (k: nat)
    ensures k <= |keys| && (k < |keys| ==> keys[k] < key)
    ensures forall m :: 0 <= m < k ==> keys[m] >= key
  {
    if keys == [] || keys[0] < key then 0 else 1 + Position(keys[1..], key)
  }

  function Keys<T>(s: seq<T>, key: T -> int): (r: seq<int>)
    ensures |r| == |s| && forall i :: 0 <= i < |s| ==> r[i] == key(s[i])
  {
    seq(|s|, i requires 0 <= i < |s| => key(s[i]))
  }

  function Insert<T>(s: seq<T>, x: T, key: T -> int): seq<T> {
    var k := Position(Keys(s, key), key(x));
    s[..k] + [x] + s[k..]
  }

  function SortDesc<T>(s: seq<T>, key: T -> int): (r: seq<T>)
  {
    if s == [] then [] else Insert(SortDesc(s[..|s| - 1], key), s[|s| - 1], key)
  }

  ghost predicate Descending<T>(s: seq<T>, key: T -> int) {
    forall i, j :: 0 <= i < j < |s| ==> key(s[i]) >= key(s[j])
  }

  /** Sorting orders a permutation. */
  lemma {:induction false} SortDescSorts<T>(s: seq<T>, key: T -> int)
    ensures multiset(SortDesc(s, key)) == multiset(s) && |SortDesc(s, key)| == |s|
    ensures Descending(SortDesc(s, key), key)
  {
    if s != [] {
      var (n, x) := (|s| - 1, s[|s| - 1]);
      SortDescSorts(s[..n], key);
      var t := SortDesc(s[..n], key);
      assert s == s[..n] + [x];
      hide Insert, Descending;
      InsertAdds(t, x, key);
      InsertKeepsOrder(t, x, key);
    }
  }

  lemma InsertParts<T>(t: seq<T>, x: T, key: T -> int) returns (k: nat)
    ensures k <= |t| && Insert(t, x, key) == t[..k] + [x] + t[k..] && t == t[..k] + t[k..]
  {
    k := Position(Keys(t, key), key(x));
  }

  lemma InsertAdds<T>(t: seq<T>, x: T, key: T -> int)
    ensures multiset(Insert(t, x, key)) == multiset(t) + multiset([x]) && |Insert(t, x, key)| == |t| + 1
  {
    hide Insert;
    var k := InsertParts(t, x, key);
  }

  lemma InsertAt<T>(t: seq<T>, x: T, key: T -> int, i: nat)
    requires i <= |t|
    ensures var (k, u) := (Position(Keys(t, key), key(x)), Insert(t, x, key));
            k <= |t| && |u| == |t| + 1 && u[i] == if i < k then t[i] else if i == k then x else t[i - 1]
  {
    hide Position;
  }

  lemma PositionFacts<T>(t: seq<T>, x: T, key: T -> int)
    ensures var k := Position(Keys(t, key), key(x));
            k <= |t| && (k < |t| ==> key(t[k]) < key(x)) && forall m :: 0 <= m < k ==> key(t[m]) >= key(x)
  {
    var (keys, k) := (Keys(t, key), Position(Keys(t, key), key(x)));
    hide Position;
    forall m | 0 <= m < k
      ensures key(t[m]) >= key(x)
    {
      assert keys[m] == key(t[m]);
    }
  }

  lemma InsertKeepsOrder<T>(t: seq<T>, x: T, key: T -> int)
    requires Descending(t, key)
    ensures Descending(Insert(t, x, key), key)
  {
    var (k, u) := (Position(Keys(t, key), key(x)), Insert(t, x, key));
    hide Position, Insert;
    PositionFacts(t, x, key);
    InsertAt(t, x, key, 0);
    forall i, j | 0 <= i < j < |u|
      ensures key(u[i]) >= key(u[j])
    {
      InsertAt(t, x, key, i);
      InsertAt(t, x, key, j);
      if i == k && k < j - 1 {
        assert key(t[k]) >= key(t[j - 1]);
      }
    }
  }
}
