// Revaluing stakes: base values from one return per coin, and the totals they add up to.
module Elections {
  import opened Arith
  import opened Common
  import opened Conversion
  import opened Ledger
  import opened Slashing
  import opened StateDb
  import opened Staking
  import Transactions

  // ---------------------------------------------------------------------------------
  // Base values
  // ---------------------------------------------------------------------------------

  ghost predicate CacheSound(cache: map<Coin, CachedStake>) {
    forall c :: c in cache ==> cache[c].total >= 0 && cache[c].bip >= 0
  }

  /** A stake's part of the return its coin's stakes would have together. */
  function BipOf(cache: map<Coin, CachedStake>, s: Stake): int {
    if s.coin == BASE then s.value
    else if s.value == 0 || s.coin !in cache || cache[s.coin].total == 0 then 0
    else cache[s.coin].bip * s.value / cache[s.coin].total
  }

  /** The cache with an entry for a coin, computed from the stakes there are unless it was there. */
  function Cached(p: Prices, b: Books, c: Coin): map<Coin, CachedStake>
    requires c in b.coins
  {
    if c in b.stakeCache then b.stakeCache
    else
      var total := Staked(b.candidates, c);
      b.stakeCache[c := CachedStake(total, Transactions.SaleReturn(p, b.coins[c], total))]
  }

  method TotalStaked(cs: seq<Candidate>, c: Coin) returns (total: int)
    ensures total == Staked(cs, c)
  {
    total := 0;
    for i := 0 to |cs|
      invariant total == Staked(cs[..i], c)
    {
      var stakes := cs[i].stakes;
      ghost var before := total;
      for j := 0 to |stakes|
        invariant total == before + StakedOf(stakes[..j], c)
      {
        if stakes[j].coin == c {
          total := total + stakes[j].value;
        }
        assert stakes[..j + 1][..j] == stakes[..j];
      }
      assert stakes[..|stakes|] == stakes && cs[..i + 1][..i] == cs[..i];
    }
    assert cs[..|cs|] == cs;
  }

  method CalcBipValue(s: StateDB, p: Prices, stake: Stake) returns (value: int)
    requires stake.coin == BASE || stake.coin in s.coins
    modifies s
    ensures value == BipOf(s.stakeCache, stake)
    ensures s.State() == old(s.State()).(stakeCache :=
      if stake.coin == BASE || stake.value == 0 then old(s.stakeCache) else Cached(p, old(s.State()), stake.coin))
  {
    if stake.coin == BASE {
      return stake.value;
    }
    if stake.value == 0 {
      return 0;
    }
    if stake.coin !in s.stakeCache {
      var total := TotalStaked(s.candidates, stake.coin);
      s.stakeCache := s.stakeCache[stake.coin :=
        CachedStake(total, Transactions.SaleReturn(p, s.coins[stake.coin], total))];
    }
    var data := s.stakeCache[stake.coin];
    if data.total == 0 {
      return 0;
    }
    value := data.bip * stake.value / data.total;
  }

  function Valued(cache: map<Coin, CachedStake>, stakes: seq<Stake>): (r: seq<Stake>)
    ensures |r| == |stakes|
    ensures forall j :: 0 <= j < |stakes| ==> r[j] == stakes[j].(bipValue := BipOf(cache, stakes[j]))
  {
    seq(|stakes|, j requires 0 <= j < |stakes| => stakes[j].(bipValue := BipOf(cache, stakes[j])))
  }

  function Revalued(cache: map<Coin, CachedStake>, c: Candidate): Candidate {
    c.(stakes := Valued(cache, c.stakes), totalBip := BipSum(Valued(cache, c.stakes)))
  }

  /** cache has an entry for every coin these stakes need one for. */
  ghost predicate Covered(cache: map<Coin, CachedStake>, stakes: seq<Stake>) {
    forall j :: 0 <= j < |stakes| && stakes[j].coin != BASE && stakes[j].value != 0 ==> stakes[j].coin in cache
  }

  /** Entries are never changed, and new ones hold what the stakes in the coin come to. */
  ghost predicate Extends(p: Prices, coins: map<Coin, CoinData>, cs: seq<Candidate>,
                          was: map<Coin, CachedStake>, now: map<Coin, CachedStake>) {
    forall c :: c in now ==>
      if c in was then now[c] == was[c]
      else c in coins && now[c].total == Staked(cs, c)
           && now[c].bip == Transactions.SaleReturn(p, coins[c], Staked(cs, c))
  }

  ghost predicate Grows(was: map<Coin, CachedStake>, now: map<Coin, CachedStake>) {
    forall c :: c in was ==> c in now && now[c] == was[c]
  }

  lemma ValuedSame(was: map<Coin, CachedStake>, now: map<Coin, CachedStake>, stakes: seq<Stake>)
    requires Covered(was, stakes) && Grows(was, now)
    ensures Covered(now, stakes) && Valued(now, stakes) == Valued(was, stakes)
  {
    forall j | 0 <= j < |stakes|
      ensures BipOf(now, stakes[j]) == BipOf(was, stakes[j])
    {
      ValueSame(was, now, stakes[j]);
    }
    hide BipOf;
  }

  lemma ValueSame(was: map<Coin, CachedStake>, now: map<Coin, CachedStake>, s: Stake)
    requires Covered(was, [s]) && Grows(was, now)
    ensures BipOf(now, s) == BipOf(was, s)
  {
    assert s == [s][0];
  }

  ghost predicate SameValues(s: seq<Stake>, t: seq<Stake>) {
    |s| == |t| && forall j :: 0 <= j < |s| ==> t[j].coin == s[j].coin && t[j].value == s[j].value
  }

  lemma {:induction false} SameValuesStaked(s: seq<Stake>, t: seq<Stake>, c: Coin)
    requires SameValues(s, t)
    ensures StakedOf(t, c) == StakedOf(s, c)
  {
    if s != [] {
      SameValuesStaked(s[..|s| - 1], t[..|t| - 1], c);
    }
  }

  lemma CachedExtends(p: Prices, coins: map<Coin, CoinData>, cs: seq<Candidate>, b: Books, was: map<Coin, CachedStake>,
                      c: Coin)
    requires Extends(p, coins, cs, was, b.stakeCache) && Grows(was, b.stakeCache) && c in b.coins && b.coins == coins
    requires Staked(b.candidates, c) == Staked(cs, c)
    ensures Extends(p, coins, cs, was, Cached(p, b, c)) && Grows(was, Cached(p, b, c))
    ensures c in Cached(p, b, c) && Grows(b.stakeCache, Cached(p, b, c))
  {
    hide Staked;
  }

  lemma NoneValued(cache: map<Coin, CachedStake>, stakes: seq<Stake>)
    ensures Covered(cache, stakes[..0]) && Valued(cache, stakes[..0]) + stakes[0..] == stakes
    ensures BipSum(Valued(cache, stakes[..0])) == 0
  {
    assert Valued(cache, stakes[..0]) == [];
  }

  /** Valuing one more stake, with a cache that may have grown. */
  lemma OneMoreValued(was: map<Coin, CachedStake>, now: map<Coin, CachedStake>, stakes: seq<Stake>, j: nat)
    requires j < |stakes| && Covered(was, stakes[..j]) && Grows(was, now)
    requires stakes[j].coin != BASE && stakes[j].value != 0 ==> stakes[j].coin in now
    ensures Covered(now, stakes[..j + 1])
    ensures var x := stakes[j].(bipValue := BipOf(now, stakes[j]));
            var t := Valued(was, stakes[..j]) + stakes[j..];
            |t| == |stakes| && t[j] == stakes[j]
            && t[j := x] == Valued(now, stakes[..j + 1]) + stakes[j + 1..]
            && BipSum(Valued(now, stakes[..j + 1])) == BipSum(Valued(was, stakes[..j])) + x.bipValue
  {
    hide BipOf, BipSum;
    var x := stakes[j].(bipValue := BipOf(now, stakes[j]));
    ValuedSame(was, now, stakes[..j]);
    assert stakes[..j + 1] == stakes[..j] + [stakes[j]];
    ValuedSnoc(now, stakes[..j], stakes[j]);
    BipSumSnoc(Valued(was, stakes[..j]), x);
    hide Valued;
    Surgery(Valued(was, stakes[..j]), stakes, j, x);
  }

  lemma ValuedSnoc(cache: map<Coin, CachedStake>, stakes: seq<Stake>, s: Stake)
    ensures Valued(cache, stakes + [s]) == Valued(cache, stakes) + [s.(bipValue := BipOf(cache, s))]
  {
    hide BipOf;
  }

  lemma Surgery(done: seq<Stake>, stakes: seq<Stake>, j: nat, x: Stake)
    requires |done| == j < |stakes|
    ensures var t := done + stakes[j..]; |t| == |stakes| && t[j] == stakes[j] && t[j := x] == (done + [x]) + stakes[j + 1..]
  {
  }

  lemma ValuedPartStaked(cs: seq<Candidate>, i: nat, cache: map<Coin, CachedStake>, j: nat, c: Coin)
    requires i < |cs| && j <= |cs[i].stakes|
    ensures var t := Valued(cache, cs[i].stakes[..j]) + cs[i].stakes[j..];
            Staked(cs[i := cs[i].(stakes := t)], c) == Staked(cs, c)
  {
    var t := Valued(cache, cs[i].stakes[..j]) + cs[i].stakes[j..];
    SameValuesStaked(cs[i].stakes, t, c);
    StakedReplace(cs, i, cs[i].(stakes := t), c);
  }

  /** Gives every stake of candidate i its base value and returns their sum. */
  method RevalueStakes(s: StateDB, p: Prices, i: nat) returns (total: int)
    requires i < |s.candidates| && KnownStakes(s.coins, s.candidates[i].stakes)
    modifies s
    ensures var b := old(s.State());
            s.State() == b.(candidates := b.candidates[i := b.candidates[i].(
                              stakes := Valued(s.stakeCache, b.candidates[i].stakes))], stakeCache := s.stakeCache)
    ensures total == BipSum(Valued(s.stakeCache, old(s.candidates)[i].stakes))
    ensures Covered(s.stakeCache, old(s.candidates)[i].stakes) && Grows(old(s.stakeCache), s.stakeCache)
    ensures Extends(p, s.coins, old(s.candidates), old(s.stakeCache), s.stakeCache)
  {
    hide BipOf, Staked, StakedOf, Valued, Covered, Extends, Grows, Cached, BipSum;
    ghost var b := s.State();
    ghost var stakes := s.candidates[i].stakes;
    NoneValued(s.stakeCache, stakes);
    ItselfExtends(p, b.coins, b.candidates, b.stakeCache);
    assert b.candidates[i := b.candidates[i].(stakes := stakes)] == b.candidates;
    total := 0;
    for j := 0 to |s.candidates[i].stakes|
      invariant s.State() == b.(candidates := b.candidates[i := b.candidates[i].(
                                  stakes := Valued(s.stakeCache, stakes[..j]) + stakes[j..])], stakeCache := s.stakeCache)
      invariant total == BipSum(Valued(s.stakeCache, stakes[..j])) && Covered(s.stakeCache, stakes[..j])
      invariant Grows(b.stakeCache, s.stakeCache) && Extends(p, b.coins, b.candidates, b.stakeCache, s.stakeCache)
    {
      ghost var was := s.State();
      var stake := s.candidates[i].stakes[j];
      ValuedPartStaked(b.candidates, i, s.stakeCache, j, stake.coin);
      if stake.coin != BASE && stake.value != 0 {
        CachedExtends(p, b.coins, b.candidates, was, b.stakeCache, stake.coin);
      }
      var value := CalcBipValue(s, p, stake);
      GrowsItself(was.stakeCache);
      OneMoreValued(was.stakeCache, s.stakeCache, stakes, j);
      var now := s.candidates[i].stakes[j := stake.(bipValue := value)];
      s.candidates := s.candidates[i := s.candidates[i].(stakes := now)];
      total := total + value;
    }
    assert stakes[..|stakes|] == stakes;
    AllValued(s.stakeCache, stakes);
  }

  lemma AllValued(cache: map<Coin, CachedStake>, stakes: seq<Stake>)
    ensures Valued(cache, stakes) + stakes[|stakes|..] == Valued(cache, stakes)
  {
  }

  lemma ItselfExtends(p: Prices, coins: map<Coin, CoinData>, cs: seq<Candidate>, cache: map<Coin, CachedStake>)
    ensures Extends(p, coins, cs, cache, cache) && Grows(cache, cache)
  {
  }

  lemma GrowsItself(cache: map<Coin, CachedStake>)
    ensures Grows(cache, cache)
  {
  }

  // ---------------------------------------------------------------------------------
  // Recalculation
  // ---------------------------------------------------------------------------------

  /** The first n candidates revalued, the others untouched. */
  ghost predicate RevaluedUpTo(cache: map<Coin, CachedStake>, cs: seq<Candidate>, ds: seq<Candidate>, n: nat) {
    |ds| == |cs|
    && (forall k :: 0 <= k < |cs| && k < n ==> Covered(cache, cs[k].stakes) && ds[k] == Revalued(cache, cs[k]))
    && forall k :: n <= k < |cs| ==> ds[k] == cs[k]
  }

  /** The validators of the first n candidates carry their totals, the others what they had. */
  ghost predicate TotalsUpTo(cs: seq<Candidate>, ds: seq<Candidate>, vals: seq<Validator>, now: seq<Validator>, n: nat)
    requires |ds| == |cs|
  {
    |now| == |vals| && forall k :: 0 <= k < |vals| ==>
      var i := CandidateIndex(cs, vals[k].key);
      now[k] == if i < |cs| && i < n then vals[k].(totalBip := ds[i].totalBip) else vals[k]
  }

  method SetValidatorTotal(s: StateDB, key: Key, total: int)
    requires DistinctValidators(s.validators)
    modifies s
    ensures s.State() == old(s.State()).(validators := s.validators) && |s.validators| == |old(s.validators)|
    ensures forall k :: 0 <= k < |s.validators| ==>
      s.validators[k] == if old(s.validators)[k].key == key then old(s.validators)[k].(totalBip := total)
                         else old(s.validators)[k]
  {
    for j := 0 to |s.validators|
      invariant s.State() == old(s.State())
      invariant forall k :: 0 <= k < j ==> s.validators[k].key != key
    {
      if s.validators[j].key == key {
        s.validators := s.validators[j := s.validators[j].(totalBip := total)];
        break;
      }
    }
  }

  lemma RevaluedGrows(was: map<Coin, CachedStake>, now: map<Coin, CachedStake>, cs: seq<Candidate>, ds: seq<Candidate>,
                      n: nat)
    requires RevaluedUpTo(was, cs, ds, n) && Grows(was, now)
    ensures RevaluedUpTo(now, cs, ds, n)
  {
    forall k | 0 <= k < |cs| && k < n
      ensures Covered(now, cs[k].stakes) && ds[k] == Revalued(now, cs[k])
    {
      ValuedSame(was, now, cs[k].stakes);
    }
  }

  lemma TotalsNext(cs: seq<Candidate>, ds: seq<Candidate>, vals: seq<Validator>, was: seq<Validator>, now: seq<Validator>,
                   i: nat, x: Candidate)
    requires i < |cs| == |ds| && DistinctCandidates(cs) && TotalsUpTo(cs, ds, vals, was, i) && |now| == |was|
    requires forall k :: 0 <= k < |was| ==>
      now[k] == if was[k].key == cs[i].key then was[k].(totalBip := x.totalBip) else was[k]
    ensures TotalsUpTo(cs, ds[i := x], vals, now, i + 1)
  {
    IndexOf(cs, i);
  }

  lemma {:induction false} RevaluedStaked(cache: map<Coin, CachedStake>, cs: seq<Candidate>, ds: seq<Candidate>, n: nat,
                                          c: Coin)
    requires RevaluedUpTo(cache, cs, ds, n)
    ensures Staked(ds, c) == Staked(cs, c)
  {
    if cs != [] {
      var m := |cs| - 1;
      RevaluedStaked(cache, cs[..m], ds[..m], n, c);
      if m < n {
        SameValuesStaked(cs[m].stakes, Valued(cache, cs[m].stakes), c);
      }
    }
  }

  lemma ExtendsMore(p: Prices, coins: map<Coin, CoinData>, cs: seq<Candidate>, ds: seq<Candidate>,
                    a: map<Coin, CachedStake>, b: map<Coin, CachedStake>, c: map<Coin, CachedStake>)
    requires Extends(p, coins, cs, a, b) && Grows(a, b) && Extends(p, coins, ds, b, c) && Grows(b, c)
    requires forall d :: Staked(ds, d) == Staked(cs, d)
    ensures Extends(p, coins, cs, a, c) && Grows(a, c)
  {
    hide Staked;
  }

  /**
   * What a stake is worth in base coin: itself, or its part, rounded down, of what selling all stakes in its coin
   * together would return. That return is taken from the cache where there is an entry.
   */
  ghost predicate BaseValue(p: Prices, b: Books, s: Stake, bip: int) {
    if s.coin == BASE then bip == s.value
    else if s.value == 0 then bip == 0
    else
      s.coin in b.coins
      && var x := b.coins[s.coin];
         var cached := s.coin in b.stakeCache;
         var total := if cached then b.stakeCache[s.coin].total else Staked(b.candidates, s.coin);
         var whole := if cached then b.stakeCache[s.coin].bip else p.saleReturn(x.volume, x.reserve, x.crr, total);
         bip == if total == 0 then 0 else whole * s.value / total
  }

  /** A candidate with the base value of each of its stakes, and their sum as its total. */
  ghost predicate BaseValued(p: Prices, b: Books, x: Candidate, y: Candidate) {
    y == x.(stakes := y.stakes, totalBip := BipSum(y.stakes)) && |y.stakes| == |x.stakes|
    && forall j :: 0 <= j < |x.stakes| ==>
         y.stakes[j] == x.stakes[j].(bipValue := y.stakes[j].bipValue)
         && BaseValue(p, b, x.stakes[j], y.stakes[j].bipValue)
  }

  lemma BipIsBaseValue(p: Prices, b: Books, now: map<Coin, CachedStake>, s: Stake)
    requires Extends(p, b.coins, b.candidates, b.stakeCache, now) && Grows(b.stakeCache, now) && Covered(now, [s])
    requires s.coin == BASE || s.coin in b.coins
    ensures BaseValue(p, b, s, BipOf(now, s))
  {
    hide Staked;
    assert s == [s][0];
  }

  lemma RevaluedIsBaseValued(p: Prices, b: Books, now: map<Coin, CachedStake>, x: Candidate)
    requires Extends(p, b.coins, b.candidates, b.stakeCache, now) && Grows(b.stakeCache, now)
    requires Covered(now, x.stakes) && KnownStakes(b.coins, x.stakes)
    ensures BaseValued(p, b, x, Revalued(now, x))
  {
    hide BipOf, BaseValue, Extends, Grows, BipSum;
    forall j | 0 <= j < |x.stakes|
      ensures BaseValue(p, b, x.stakes[j], BipOf(now, x.stakes[j]))
    {
      BipIsBaseValue(p, b, now, x.stakes[j]);
    }
  }

  lemma AllBaseValued(p: Prices, b: Books, now: map<Coin, CachedStake>, ds: seq<Candidate>)
    requires Extends(p, b.coins, b.candidates, b.stakeCache, now) && Grows(b.stakeCache, now)
    requires RevaluedUpTo(now, b.candidates, ds, |ds|) && AllKnown(b.coins, b.candidates)
    ensures |ds| == |b.candidates| && forall i :: 0 <= i < |ds| ==> BaseValued(p, b, b.candidates[i], ds[i])
  {
    hide Extends, Grows, BaseValued, Revalued, Covered;
    forall i | 0 <= i < |ds|
      ensures BaseValued(p, b, b.candidates[i], ds[i])
    {
      RevaluedIsBaseValued(p, b, now, b.candidates[i]);
    }
  }

  /** Revalues every stake; candidates' totals and their validators' are the sums. */
  method RecalculateTotalStakeValues(s: StateDB, p: Prices)
    requires Sound(s.candidates, s.validators) && AllKnown(s.coins, s.candidates)
    modifies s
    ensures var b := old(s.State());
            s.State() == b.(candidates := s.candidates, validators := s.validators, stakeCache := s.stakeCache)
    ensures RevaluedUpTo(s.stakeCache, old(s.candidates), s.candidates, |s.candidates|)
    ensures TotalsUpTo(old(s.candidates), s.candidates, old(s.validators), s.validators, |s.candidates|)
    ensures Extends(p, s.coins, old(s.candidates), old(s.stakeCache), s.stakeCache)
    ensures Grows(old(s.stakeCache), s.stakeCache)
    ensures |s.candidates| == |old(s.candidates)|
    ensures forall i :: 0 <= i < |s.candidates| ==>
      BaseValued(p, old(s.State()), old(s.candidates)[i], s.candidates[i])
  {
    hide BaseValued, Sound, Staked, Extends, Grows, Covered, Valued, BipSum, AllKnown, RevaluedUpTo, TotalsUpTo, CandidateIndex;
    ghost var b := s.State();
    SoundParts(s.candidates, s.validators);
    RecalculationStart(p, b);
    for i := 0 to |s.candidates|
      invariant |s.candidates| == |b.candidates|
      invariant s.State() == b.(candidates := s.candidates, validators := s.validators, stakeCache := s.stakeCache)
      invariant RevaluedUpTo(s.stakeCache, b.candidates, s.candidates, i)
      invariant TotalsUpTo(b.candidates, s.candidates, b.validators, s.validators, i)
      invariant Extends(p, b.coins, b.candidates, b.stakeCache, s.stakeCache) && Grows(b.stakeCache, s.stakeCache)
    {
      ghost var was := s.State();
      RevaluedAt(s.stakeCache, b.candidates, s.candidates, i);
      KnownAt(b.coins, b.candidates, i);
      var total := RevalueStakes(s, p, i);
      s.candidates := s.candidates[i := s.candidates[i].(totalBip := total)];
      RevaluedNext(was.stakeCache, s.stakeCache, b.candidates, was.candidates, i);
      forall d
        ensures Staked(was.candidates, d) == Staked(b.candidates, d)
      {
        RevaluedStaked(was.stakeCache, b.candidates, was.candidates, i, d);
      }
      ExtendsMore(p, b.coins, b.candidates, was.candidates, b.stakeCache, was.stakeCache, s.stakeCache);
      TotalsKeys(b.candidates, was.candidates, b.validators, s.validators, i);
      SetValidatorTotal(s, s.candidates[i].key, total);
      TotalsNext(b.candidates, was.candidates, b.validators, was.validators, s.validators, i, s.candidates[i]);
      assert was.candidates[i := s.candidates[i]] == s.candidates;
    }
    AllBaseValued(p, b, s.stakeCache, s.candidates);
  }

  lemma RecalculationStart(p: Prices, b: Books)
    ensures RevaluedUpTo(b.stakeCache, b.candidates, b.candidates, 0)
    ensures TotalsUpTo(b.candidates, b.candidates, b.validators, b.validators, 0)
    ensures Extends(p, b.coins, b.candidates, b.stakeCache, b.stakeCache) && Grows(b.stakeCache, b.stakeCache)
  {
    ItselfExtends(p, b.coins, b.candidates, b.stakeCache);
  }

  lemma RevaluedAt(cache: map<Coin, CachedStake>, cs: seq<Candidate>, ds: seq<Candidate>, i: nat)
    requires RevaluedUpTo(cache, cs, ds, i) && i < |cs|
    ensures ds[i] == cs[i]
  {
  }

  lemma KnownAt(coins: map<Coin, CoinData>, cs: seq<Candidate>, i: nat)
    requires AllKnown(coins, cs) && i < |cs|
    ensures KnownStakes(coins, cs[i].stakes)
  {
  }

  lemma RevaluedNext(was: map<Coin, CachedStake>, now: map<Coin, CachedStake>, cs: seq<Candidate>, ds: seq<Candidate>,
                     i: nat)
    requires RevaluedUpTo(was, cs, ds, i) && Grows(was, now) && i < |cs| && Covered(now, cs[i].stakes)
    ensures RevaluedUpTo(now, cs, ds[i := Revalued(now, cs[i])], i + 1)
  {
    RevaluedGrows(was, now, cs, ds, i);
  }

  lemma TotalsKeys(cs: seq<Candidate>, ds: seq<Candidate>, vals: seq<Validator>, now: seq<Validator>, i: nat)
    requires |cs| == |ds| && TotalsUpTo(cs, ds, vals, now, i) && DistinctValidators(vals)
    ensures DistinctValidators(now)
  {
  }

  lemma {:induction false} StakedNotNegative(cs: seq<Candidate>, c: Coin)
    requires forall i :: 0 <= i < |cs| ==> SoundCandidate(cs[i])
    ensures Staked(cs, c) >= 0
  {
    if cs != [] {
      var n := |cs| - 1;
      StakedNotNegative(cs[..n], c);
      StakedOfNotNegative(cs[n].stakes, c);
    }
  }

  lemma {:induction false} StakedOfNotNegative(stakes: seq<Stake>, c: Coin)
    requires SoundStakes(stakes)
    ensures StakedOf(stakes, c) >= 0
  {
    if stakes != [] {
      StakedOfNotNegative(stakes[..|stakes| - 1], c);
    }
  }

  lemma CacheStaysSound(p: Prices, coins: map<Coin, CoinData>, cs: seq<Candidate>, was: map<Coin, CachedStake>,
                        now: map<Coin, CachedStake>)
    requires CacheSound(was) && Extends(p, coins, cs, was, now)
    requires forall i :: 0 <= i < |cs| ==> SoundCandidate(cs[i])
    ensures CacheSound(now)
  {
    hide Staked;
    forall c | c in now
      ensures now[c].total >= 0 && now[c].bip >= 0
    {
      StakedNotNegative(cs, c);
    }
  }

  lemma QuotientNotNegative(a: int, b: int, d: int)
    requires a >= 0 && b >= 0 && d > 0
    ensures a * b / d >= 0
  {
    MulMonotone(a, 0, b);
    DivModFacts(a * b, d);
    if a * b / d < 0 {
      MulMonotone(d, a * b / d, -1);
    }
  }

  lemma ValuedSound(cache: map<Coin, CachedStake>, stakes: seq<Stake>)
    requires CacheSound(cache) && SoundStakes(stakes)
    ensures SoundStakes(Valued(cache, stakes))
  {
    forall j | 0 <= j < |stakes|
      ensures BipOf(cache, stakes[j]) >= 0
    {
      var s := stakes[j];
      if s.coin != BASE && s.value != 0 && s.coin in cache && cache[s.coin].total != 0 {
        QuotientNotNegative(cache[s.coin].bip, s.value, cache[s.coin].total);
      }
    }
    hide BipOf;
  }

  ghost predicate TotalsExact(cs: seq<Candidate>) {
    forall i :: 0 <= i < |cs| ==> cs[i].totalBip == BipSum(cs[i].stakes)
  }

  /** Recalculation leaves every validator backed, by exactly the sum of its candidate's base values. */
  lemma RecalculationKeeps(cs: seq<Candidate>, ds: seq<Candidate>, vals: seq<Validator>, now: seq<Validator>,
                           cache: map<Coin, CachedStake>)
    requires Sound(cs, vals) && CacheSound(cache)
    requires RevaluedUpTo(cache, cs, ds, |cs|) && TotalsUpTo(cs, ds, vals, now, |cs|)
    ensures Sound(ds, now) && TotalsExact(ds) && Accrued(now) == Accrued(vals)
    ensures forall c :: Staked(ds, c) == Staked(cs, c)
  {
    hide Staked, Valued, BipSum, Revalued, CacheSound, CandidateIndex, Covered, SoundStakes;
    forall c
      ensures Staked(ds, c) == Staked(cs, c)
    {
      RevaluedStaked(cache, cs, ds, |cs|, c);
    }
    AccruedSame(vals, now);
    RevaluedSound(cs, ds, cache);
    RevaluedBacked(cs, ds, vals, now);
  }

  lemma RevaluedSound(cs: seq<Candidate>, ds: seq<Candidate>, cache: map<Coin, CachedStake>)
    requires CacheSound(cache) && RevaluedUpTo(cache, cs, ds, |cs|) && forall i :: 0 <= i < |cs| ==> SoundCandidate(cs[i])
    ensures |ds| == |cs|
    ensures forall i :: 0 <= i < |cs| ==>
      SoundCandidate(ds[i]) && ds[i].key == cs[i].key && ds[i].totalBip == BipSum(ds[i].stakes) >= 0
  {
    hide BipSum, Revalued, CacheSound, Covered, SoundCandidate;
    forall i | 0 <= i < |cs|
      ensures SoundCandidate(ds[i]) && ds[i].key == cs[i].key && ds[i].totalBip == BipSum(ds[i].stakes) >= 0
    {
      assert SoundCandidate(cs[i]);
      RevaluedCandidate(cache, cs[i]);
    }
  }

  lemma RevaluedBacked(cs: seq<Candidate>, ds: seq<Candidate>, vals: seq<Validator>, now: seq<Validator>)
    requires Sound(cs, vals) && |ds| == |cs| && TotalsUpTo(cs, ds, vals, now, |cs|)
    requires forall i :: 0 <= i < |cs| ==>
      SoundCandidate(ds[i]) && ds[i].key == cs[i].key && ds[i].totalBip == BipSum(ds[i].stakes) >= 0
    ensures Sound(ds, now)
  {
    hide BipSum, CandidateIndex, SoundCandidate;
    forall k | 0 <= k < |now|
      ensures Backed(now[k], ds)
    {
      assert Backed(vals[k], cs);
      IndexSame(cs, ds, vals[k].key);
    }
  }

  lemma RevaluedCandidate(cache: map<Coin, CachedStake>, c: Candidate)
    requires CacheSound(cache) && SoundCandidate(c)
    ensures var d := Revalued(cache, c);
            SoundCandidate(d) && d.key == c.key && d.totalBip == BipSum(d.stakes) >= 0
  {
    hide Valued;
    ValuedSound(cache, c.stakes);
    BipSumBounds(Valued(cache, c.stakes), 0);
  }

  lemma {:induction false} AccruedSame(vals: seq<Validator>, now: seq<Validator>)
    requires |vals| == |now| && forall k :: 0 <= k < |vals| ==> now[k].accum == vals[k].accum
    ensures Accrued(now) == Accrued(vals)
  {
    if vals != [] {
      AccruedSame(vals[..|vals| - 1], now[..|now| - 1]);
    }
  }

  // ---------------------------------------------------------------------------------
  // Base values never exceed what the reserve would pay
  // ---------------------------------------------------------------------------------

  function BipsOf(stakes: seq<Stake>, c: Coin): int {
    if stakes == [] then 0
    else BipsOf(stakes[..|stakes| - 1], c)
         + if stakes[|stakes| - 1].coin == c then stakes[|stakes| - 1].bipValue else 0
  }

  function AllBipsOf(cs: seq<Candidate>, c: Coin): int {
    if cs == [] then 0 else AllBipsOf(cs[..|cs| - 1], c) + BipsOf(cs[|cs| - 1].stakes, c)
  }

  lemma ScaledQuotient(b: int, v: int, t: int)
    requires t > 0
    ensures t * (b * v / t) <= b * v
  {
    DivModFacts(b * v, t);
  }

  lemma {:induction false} ValuedWithin(cache: map<Coin, CachedStake>, stakes: seq<Stake>, c: Coin)
    requires c != BASE && c in cache && cache[c].total > 0
    ensures cache[c].total * BipsOf(Valued(cache, stakes), c) <= cache[c].bip * StakedOf(stakes, c)
  {
    if stakes == [] {
      assert Valued(cache, stakes) == [];
    } else {
      var (n, s, t, b) := (|stakes| - 1, stakes[|stakes| - 1], cache[c].total, cache[c].bip);
      ValuedWithin(cache, stakes[..n], c);
      assert Valued(cache, stakes)[..n] == Valued(cache, stakes[..n]);
      var (x, y, q) := (BipsOf(Valued(cache, stakes[..n]), c), StakedOf(stakes[..n], c), BipOf(cache, s));
      if s.coin == c {
        ScaledQuotient(b, s.value, t);
        if s.value == 0 {
          TimesZero(t);
          TimesZero(b);
        }
        Distribute(t, x, q);
        Distribute(b, y, s.value);
      }
    }
  }

  lemma {:induction false} AllValuedWithin(cache: map<Coin, CachedStake>, cs: seq<Candidate>, ds: seq<Candidate>, c: Coin)
    requires c != BASE && c in cache && cache[c].total > 0 && |ds| == |cs|
    requires forall i :: 0 <= i < |cs| ==> ds[i] == Revalued(cache, cs[i])
    ensures cache[c].total * AllBipsOf(ds, c) <= cache[c].bip * Staked(cs, c)
  {
    if cs == [] {
      TimesZero(cache[c].total);
      TimesZero(cache[c].bip);
    } else {
      var n := |cs| - 1;
      AllValuedWithin(cache, cs[..n], ds[..n], c);
      ValuedWithin(cache, cs[n].stakes, c);
      Distribute(cache[c].total, AllBipsOf(ds[..n], c), BipsOf(ds[n].stakes, c));
      Distribute(cache[c].bip, Staked(cs[..n], c), StakedOf(cs[n].stakes, c));
    }
  }

  /** With a fresh cache entry, all base values in a coin add up to at most its stakes' return together. */
  lemma BipsWithinReturn(cache: map<Coin, CachedStake>, cs: seq<Candidate>, ds: seq<Candidate>, c: Coin)
    requires c != BASE && c in cache && cache[c].total == Staked(cs, c) > 0 && |ds| == |cs|
    requires forall i :: 0 <= i < |cs| ==> ds[i] == Revalued(cache, cs[i])
    ensures AllBipsOf(ds, c) <= cache[c].bip
  {
    AllValuedWithin(cache, cs, ds, c);
    var (t, x, b) := (cache[c].total, AllBipsOf(ds, c), cache[c].bip);
    SwapProduct(t, b);
    if x > b {
      MulMonotone(t, b + 1, x);
    }
  }

  lemma SwapProduct(t: int, b: int)
    ensures b * t == t * b && t * (b + 1) == t * b + t
  {
  }
}
