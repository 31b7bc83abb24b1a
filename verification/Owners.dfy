// Who owns what: an account's balance, its stakes and the funds frozen for it, coin by coin.
module Owners {
  import opened Common
  import opened Ledger
  import opened StateDb
  import opened Staking

  /** What account a has of coin c in a list of stakes. */
  ghost function StakesFor(stakes: seq<Stake>, a: Address, c: Coin): int {
    if stakes == [] then 0
    else
      var x := stakes[|stakes| - 1];
      StakesFor(stakes[..|stakes| - 1], a, c) + if x.owner == a && x.coin == c then x.value else 0
  }

  ghost function StakedFor(cs: seq<Candidate>, a: Address, c: Coin): int {
    if cs == [] then 0 else StakedFor(cs[..|cs| - 1], a, c) + StakesFor(cs[|cs| - 1].stakes, a, c)
  }

  /** What a list of frozen funds holds of coin c for account a. */
  ghost function FundsFor(list: seq<FrozenFund>, a: Address, c: Coin): int {
    if list == [] then 0
    else
      var f := list[|list| - 1];
      FundsFor(list[..|list| - 1], a, c) + if f.owner == a && f.coin == c then f.value else 0
  }

  ghost function FundsForMap(funds: map<nat, seq<FrozenFund>>, a: Address, c: Coin): map<nat, int> {
    map h | h in funds :: FundsFor(funds[h], a, c)
  }

  ghost function FrozenFor(funds: map<nat, seq<FrozenFund>>, a: Address, c: Coin): int { Sum(FundsForMap(funds, a, c)) }

  /** All that account a has of coin c. */
  ghost function Wealth(b: Books, a: Address, c: Coin): int {
    BalanceOf(b.balances, a, c) + StakedFor(b.candidates, a, c) + FrozenFor(b.funds, a, c)
  }

  /** Nobody has become richer or poorer. */
  ghost predicate WealthKept(b: Books, r: Books) { forall a, c :: Wealth(r, a, c) == Wealth(b, a, c) }

  lemma WealthTrans(b: Books, m: Books, r: Books)
    requires WealthKept(b, m) && WealthKept(m, r)
    ensures WealthKept(b, r)
  {
    hide Wealth;
  }

  // ---------------------------------------------------------------------------------
  // Stakes
  // ---------------------------------------------------------------------------------

  lemma StakesForSnoc(stakes: seq<Stake>, x: Stake, a: Address, c: Coin)
    ensures StakesFor(stakes + [x], a, c) == StakesFor(stakes, a, c) + if x.owner == a && x.coin == c then x.value else 0
  {
    assert (stakes + [x])[..|stakes|] == stakes;
  }

  lemma {:induction false} StakesForConcat(s: seq<Stake>, t: seq<Stake>, a: Address, c: Coin)
    ensures StakesFor(s + t, a, c) == StakesFor(s, a, c) + StakesFor(t, a, c)
  {
    if t == [] {
      assert s + t == s;
    } else {
      var n := |t| - 1;
      assert (s + t)[..|s + t| - 1] == s + t[..n];
      StakesForConcat(s, t[..n], a, c);
    }
  }

  lemma {:induction false} StakesForSet(stakes: seq<Stake>, j: nat, x: Stake, a: Address, c: Coin)
    requires j < |stakes| && x.owner == stakes[j].owner && x.coin == stakes[j].coin
    ensures StakesFor(stakes[j := x], a, c)
         == StakesFor(stakes, a, c) + if x.owner == a && x.coin == c then x.value - stakes[j].value else 0
  {
    var n := |stakes| - 1;
    if j < n {
      assert stakes[j := x][..n] == stakes[..n][j := x];
      StakesForSet(stakes[..n], j, x, a, c);
    } else {
      assert stakes[j := x][..n] == stakes[..n];
    }
  }

  lemma {:induction false} StakesForSame(s: seq<Stake>, t: seq<Stake>, a: Address, c: Coin)
    requires |s| == |t|
    requires forall j :: 0 <= j < |s| ==> t[j].owner == s[j].owner && t[j].coin == s[j].coin && t[j].value == s[j].value
    ensures StakesFor(t, a, c) == StakesFor(s, a, c)
  {
    if s != [] {
      StakesForSame(s[..|s| - 1], t[..|t| - 1], a, c);
    }
  }

  lemma {:induction false} StakedForConcat(s: seq<Candidate>, t: seq<Candidate>, a: Address, c: Coin)
    ensures StakedFor(s + t, a, c) == StakedFor(s, a, c) + StakedFor(t, a, c)
  {
    if t == [] {
      assert s + t == s;
    } else {
      var n := |t| - 1;
      assert (s + t)[..|s + t| - 1] == s + t[..n];
      StakedForConcat(s, t[..n], a, c);
    }
  }

  lemma StakedForSnoc(cs: seq<Candidate>, x: Candidate, a: Address, c: Coin)
    ensures StakedFor(cs + [x], a, c) == StakedFor(cs, a, c) + StakesFor(x.stakes, a, c)
  {
    assert (cs + [x])[..|cs|] == cs;
  }

  lemma {:induction false} StakedForReplace(cs: seq<Candidate>, i: nat, x: Candidate, a: Address, c: Coin)
    requires i < |cs|
    ensures StakedFor(cs[i := x], a, c)
         == StakedFor(cs, a, c) - StakesFor(cs[i].stakes, a, c) + StakesFor(x.stakes, a, c)
  {
    var n := |cs| - 1;
    if i < n {
      assert cs[i := x][..n] == cs[..n][i := x];
      StakedForReplace(cs[..n], i, x, a, c);
    } else {
      assert cs[i := x][..n] == cs[..n];
    }
  }

  lemma {:induction false} StakedForSame(cs: seq<Candidate>, ds: seq<Candidate>, a: Address, c: Coin)
    requires |ds| == |cs|
    requires forall i :: 0 <= i < |cs| ==> StakesFor(ds[i].stakes, a, c) == StakesFor(cs[i].stakes, a, c)
    ensures StakedFor(ds, a, c) == StakedFor(cs, a, c)
  {
    hide StakesFor;
    if cs != [] {
      StakedForSame(cs[..|cs| - 1], ds[..|ds| - 1], a, c);
    }
  }

  // ---------------------------------------------------------------------------------
  // Frozen funds
  // ---------------------------------------------------------------------------------

  lemma {:induction false} FundsForConcat(s: seq<FrozenFund>, t: seq<FrozenFund>, a: Address, c: Coin)
    ensures FundsFor(s + t, a, c) == FundsFor(s, a, c) + FundsFor(t, a, c)
  {
    if t == [] {
      assert s + t == s;
    } else {
      var n := |t| - 1;
      assert (s + t)[..|s + t| - 1] == s + t[..n];
      FundsForConcat(s, t[..n], a, c);
    }
  }

  lemma FrozenForSet(funds: map<nat, seq<FrozenFund>>, h: nat, list: seq<FrozenFund>, a: Address, c: Coin)
    ensures FrozenFor(funds[h := list], a, c)
         == FrozenFor(funds, a, c) - (if h in funds then FundsFor(funds[h], a, c) else 0) + FundsFor(list, a, c)
  {
    assert FundsForMap(funds[h := list], a, c) == FundsForMap(funds, a, c)[h := FundsFor(list, a, c)];
    SumUpdate(FundsForMap(funds, a, c), h, FundsFor(list, a, c));
  }

  /** Funds added to those frozen until h add to what their owners have frozen. */
  lemma AddedFor(funds: map<nat, seq<FrozenFund>>, h: nat, list: seq<FrozenFund>, a: Address, c: Coin)
    ensures FrozenFor(funds[h := FundsAt(funds, h) + list], a, c) == FrozenFor(funds, a, c) + FundsFor(list, a, c)
  {
    FrozenForSet(funds, h, FundsAt(funds, h) + list, a, c);
    FundsForConcat(FundsAt(funds, h), list, a, c);
  }

  lemma RemovedFor(funds: map<nat, seq<FrozenFund>>, h: nat, a: Address, c: Coin)
    requires h in funds
    ensures FrozenFor(funds - {h}, a, c) == FrozenFor(funds, a, c) - FundsFor(funds[h], a, c)
  {
    SumWithout(FundsForMap(funds, a, c), h);
    assert FundsForMap(funds, a, c) - {h} == FundsForMap(funds - {h}, a, c);
  }

  lemma OneFund(f: FrozenFund, a: Address, c: Coin)
    ensures FundsFor([f], a, c) == if f.owner == a && f.coin == c then f.value else 0
  {
    assert [f][..0] == [];
  }

  // ---------------------------------------------------------------------------------
  // Delegating and unbonding
  // ---------------------------------------------------------------------------------

  lemma WithStakeFor(stakes: seq<Stake>, owner: Address, coin: Coin, value: int, a: Address, c: Coin)
    ensures StakesFor(WithStake(stakes, owner, coin, value), a, c)
         == StakesFor(stakes, a, c) + if a == owner && c == coin then value else 0
  {
    hide StakesFor, StakeIndex;
    var k := StakeIndex(stakes, owner, coin);
    if k < |stakes| {
      StakesForSet(stakes, k, stakes[k].(value := stakes[k].value + value), a, c);
    } else {
      StakesForSnoc(stakes, Stake(owner, coin, value, 0), a, c);
    }
  }

  lemma WithoutStakeFor(stakes: seq<Stake>, owner: Address, coin: Coin, value: int, a: Address, c: Coin)
    requires StakeIndex(stakes, owner, coin) < |stakes|
    ensures StakesFor(WithoutStake(stakes, owner, coin, value), a, c)
         == StakesFor(stakes, a, c) - if a == owner && c == coin then value else 0
  {
    hide StakesFor, StakeIndex;
    var k := StakeIndex(stakes, owner, coin);
    StakesForSet(stakes, k, stakes[k].(value := stakes[k].value - value), a, c);
  }

  /** A delegation adds to the sender's stakes and nobody else's. */
  lemma DelegatedFor(cs: seq<Candidate>, ds: seq<Candidate>, sender: Address, key: Key, coin: Coin, value: int,
                     a: Address, c: Coin)
    requires OnlyCandidate(cs, ds, key, stakes => WithStake(stakes, sender, coin, value))
    requires DistinctCandidates(cs) && CandidateIndex(cs, key) < |cs|
    ensures StakedFor(ds, a, c) == StakedFor(cs, a, c) + if a == sender && c == coin then value else 0
  {
    hide WithStake, StakesFor, StakedFor;
    var i := CandidateIndex(cs, key);
    WithStakeFor(cs[i].stakes, sender, coin, value, a, c);
    OneChanged(cs, ds, i);
    StakedForReplace(cs, i, ds[i], a, c);
  }

  /** Unbonding takes from the sender's stakes and nobody else's. */
  lemma UnbondedFor(cs: seq<Candidate>, ds: seq<Candidate>, sender: Address, key: Key, coin: Coin, value: int,
                    a: Address, c: Coin)
    requires OnlyCandidate(cs, ds, key, stakes => WithoutStake(stakes, sender, coin, value))
    requires DistinctCandidates(cs) && CandidateIndex(cs, key) < |cs|
    requires var stakes := cs[CandidateIndex(cs, key)].stakes; StakeIndex(stakes, sender, coin) < |stakes|
    ensures StakedFor(ds, a, c) == StakedFor(cs, a, c) - if a == sender && c == coin then value else 0
  {
    hide WithoutStake, StakesFor, StakedFor;
    var i := CandidateIndex(cs, key);
    WithoutStakeFor(cs[i].stakes, sender, coin, value, a, c);
    OneChanged(cs, ds, i);
    StakedForReplace(cs, i, ds[i], a, c);
  }
}
