// Candidates, stakes and validators: the invariant that a validator's total covers the base values
// its reward is divided among, and delegating and unbonding, which keep it.
module Staking {
  import opened Arith
  import opened Common
  import opened Ledger
  import opened StateDb

  const UNBOND_PERIOD: nat := 518400
  const MAX_DELEGATORS: nat := 1000
  const ABSENT_WINDOW: nat := 24
  const MAX_ABSENT: nat := 12

  // ---------------------------------------------------------------------------------
  // The stake invariant
  // ---------------------------------------------------------------------------------

  ghost predicate DistinctCandidates(cs: seq<Candidate>) {
    forall i, j :: 0 <= i < j < |cs| ==> cs[i].key != cs[j].key
  }

  ghost predicate DistinctValidators(vals: seq<Validator>) {
    forall i, j :: 0 <= i < j < |vals| ==> vals[i].key != vals[j].key
  }

  ghost predicate SoundStakes(stakes: seq<Stake>) {
    forall j :: 0 <= j < |stakes| ==> stakes[j].value >= 0 && stakes[j].bipValue >= 0
  }

  ghost predicate SoundCandidate(c: Candidate) { SoundStakes(c.stakes) && c.commission <= 100 }

  /** A validator's total covers the base values of its candidate's stakes. */
  ghost predicate Backed(v: Validator, cs: seq<Candidate>) {
    var i := CandidateIndex(cs, v.key);
    v.commission <= 100 && v.accum >= 0 && v.totalBip >= 0 && |v.absent| == ABSENT_WINDOW
    && i < |cs| && BipSum(cs[i].stakes) <= v.totalBip
  }

  ghost predicate Sound(cs: seq<Candidate>, vals: seq<Validator>) {
    DistinctCandidates(cs) && DistinctValidators(vals)
    && (forall i :: 0 <= i < |cs| ==> SoundCandidate(cs[i]))
    && forall i :: 0 <= i < |vals| ==> Backed(vals[i], cs)
  }

  /** Keys decide where a candidate is found. */
  lemma {:induction false} IndexSame(cs: seq<Candidate>, ds: seq<Candidate>, key: Key)
    requires |cs| == |ds| && forall i :: 0 <= i < |cs| ==> ds[i].key == cs[i].key
    ensures CandidateIndex(cs, key) == CandidateIndex(ds, key)
  {
    if cs != [] && cs[0].key != key {
      IndexSame(cs[1..], ds[1..], key);
    }
  }

  lemma {:induction false} IndexOf(cs: seq<Candidate>, i: nat)
    requires i < |cs| && DistinctCandidates(cs)
    ensures CandidateIndex(cs, cs[i].key) == i
  {
  }

  /** Base values that do not grow keep every validator backed. */
  lemma SoundIfNoMore(cs: seq<Candidate>, ds: seq<Candidate>, vals: seq<Validator>)
    requires Sound(cs, vals) && |cs| == |ds|
    requires forall i :: 0 <= i < |cs| ==>
      ds[i].key == cs[i].key && SoundCandidate(ds[i]) && BipSum(ds[i].stakes) <= BipSum(cs[i].stakes)
    ensures Sound(ds, vals)
  {
    forall i | 0 <= i < |vals|
      ensures Backed(vals[i], ds)
    {
      assert Backed(vals[i], cs);
      IndexSame(cs, ds, vals[i].key);
    }
  }

  // ---------------------------------------------------------------------------------
  // Delegating and unbonding
  // ---------------------------------------------------------------------------------

  /** value more for the owner's stake, or a new stake without base value. */
  function WithStake(stakes: seq<Stake>, owner: Address, coin: Coin, value: int): seq<Stake> {
    var k := StakeIndex(stakes, owner, coin);
    if k < |stakes| then stakes[k := stakes[k].(value := stakes[k].value + value)]
    else stakes + [Stake(owner, coin, value, 0)]
  }

  lemma WithStakeFacts(stakes: seq<Stake>, owner: Address, coin: Coin, value: int)
    ensures BipSum(WithStake(stakes, owner, coin, value)) == BipSum(stakes)
    ensures forall d :: StakedOf(WithStake(stakes, owner, coin, value), d)
                        == StakedOf(stakes, d) + if d == coin then value else 0
    ensures SoundStakes(stakes) && value >= 0 ==> SoundStakes(WithStake(stakes, owner, coin, value))
  {
    var k := StakeIndex(stakes, owner, coin);
    hide StakedOf, StakeIndex, BipSum;
    if k < |stakes| {
      BipSumSame(stakes, stakes[k := stakes[k].(value := stakes[k].value + value)]);
      forall d {
        StakedSet(stakes, k, stakes[k].(value := stakes[k].value + value), d);
      }
    } else {
      BipSumSnoc(stakes, Stake(owner, coin, value, 0));
      forall d {
        StakedSnoc(stakes, Stake(owner, coin, value, 0), d);
      }
    }
  }

  lemma BipSumSnoc(stakes: seq<Stake>, s: Stake)
    ensures BipSum(stakes + [s]) == BipSum(stakes) + s.bipValue
  {
    assert (stakes + [s])[..|stakes|] == stakes;
  }

  method AddToStake(stakes: seq<Stake>, owner: Address, coin: Coin, value: int) returns (r: seq<Stake>)
    ensures r == WithStake(stakes, owner, coin, value)
  {
    for j := 0 to |stakes|
      invariant forall m :: 0 <= m < j ==> !(stakes[m].owner == owner && stakes[m].coin == coin)
    {
      if stakes[j].owner == owner && stakes[j].coin == coin {
        assert StakeIndex(stakes, owner, coin) == j;
        return stakes[j := stakes[j].(value := stakes[j].value + value)];
      }
    }
    assert StakeIndex(stakes, owner, coin) == |stakes|;
    r := stakes + [Stake(owner, coin, value, 0)];
  }

  /** Only the candidate with the key changes, to these stakes. */
  ghost predicate OnlyCandidate(cs: seq<Candidate>, ds: seq<Candidate>, key: Key, f: seq<Stake> -> seq<Stake>) {
    |cs| == |ds| && forall i :: 0 <= i < |cs| ==>
      ds[i] == if cs[i].key == key then cs[i].(stakes := f(cs[i].stakes)) else cs[i]
  }

  method Delegate(s: StateDB, sender: Address, key: Key, coin: Coin, value: int)
    modifies s
    ensures s.State() == old(s.State()).(candidates := s.candidates)
    ensures OnlyCandidate(old(s.candidates), s.candidates, key, stakes => WithStake(stakes, sender, coin, value))
  {
    hide WithStake;
    for i := 0 to |s.candidates|
      invariant s.State() == old(s.State()).(candidates := s.candidates) && |s.candidates| == |old(s.candidates)|
      invariant forall k :: 0 <= k < i ==>
        s.candidates[k] == if old(s.candidates)[k].key == key
          then old(s.candidates)[k].(stakes := WithStake(old(s.candidates)[k].stakes, sender, coin, value))
          else old(s.candidates)[k]
      invariant forall k :: i <= k < |s.candidates| ==> s.candidates[k] == old(s.candidates)[k]
    {
      if s.candidates[i].key == key {
        var stakes := AddToStake(s.candidates[i].stakes, sender, coin, value);
        s.candidates := s.candidates[i := s.candidates[i].(stakes := stakes)];
      }
    }
  }

  /** value less in the owner's stake; the stake must exist. */
  function WithoutStake(stakes: seq<Stake>, owner: Address, coin: Coin, value: int): seq<Stake> {
    var k := StakeIndex(stakes, owner, coin);
    if k < |stakes| then stakes[k := stakes[k].(value := stakes[k].value - value)] else stakes
  }

  method SubStake(s: StateDB, sender: Address, key: Key, coin: Coin, value: int)
    requires forall i :: 0 <= i < |s.candidates| && s.candidates[i].key == key ==>
      StakeIndex(s.candidates[i].stakes, sender, coin) < |s.candidates[i].stakes|
    modifies s
    ensures s.State() == old(s.State()).(candidates := s.candidates)
    ensures OnlyCandidate(old(s.candidates), s.candidates, key, stakes => WithoutStake(stakes, sender, coin, value))
  {
    for i := 0 to |s.candidates|
      invariant s.State() == old(s.State()).(candidates := s.candidates) && |s.candidates| == |old(s.candidates)|
      invariant forall k :: 0 <= k < i ==>
        s.candidates[k] == if old(s.candidates)[k].key == key
          then old(s.candidates)[k].(stakes := WithoutStake(old(s.candidates)[k].stakes, sender, coin, value))
          else old(s.candidates)[k]
      invariant forall k :: i <= k < |s.candidates| ==> s.candidates[k] == old(s.candidates)[k]
    {
      if s.candidates[i].key == key {
        var stakes := s.candidates[i].stakes;
        var k := StakeIndex(stakes, sender, coin);
        var now := stakes[k := stakes[k].(value := stakes[k].value - value)];
        s.candidates := s.candidates[i := s.candidates[i].(stakes := now)];
      }
    }
  }

  lemma WithoutStakeFacts(stakes: seq<Stake>, owner: Address, coin: Coin, value: int)
    ensures BipSum(WithoutStake(stakes, owner, coin, value)) == BipSum(stakes)
    ensures StakeIndex(stakes, owner, coin) < |stakes| ==>
      forall d :: StakedOf(WithoutStake(stakes, owner, coin, value), d)
                  == StakedOf(stakes, d) - if d == coin then value else 0
    ensures SoundStakes(stakes)
            && (StakeIndex(stakes, owner, coin) < |stakes| ==> value <= stakes[StakeIndex(stakes, owner, coin)].value)
            ==> SoundStakes(WithoutStake(stakes, owner, coin, value))
  {
    var k := StakeIndex(stakes, owner, coin);
    hide StakedOf, StakeIndex, BipSum;
    if k < |stakes| {
      BipSumSame(stakes, stakes[k := stakes[k].(value := stakes[k].value - value)]);
      forall d {
        StakedSet(stakes, k, stakes[k].(value := stakes[k].value - value), d);
      }
    }
  }

  /** Delegation is safe and puts exactly the value delegated into the stakes. */
  lemma DelegateKeeps(cs: seq<Candidate>, ds: seq<Candidate>, vals: seq<Validator>, sender: Address, key: Key,
                      coin: Coin, value: int)
    requires OnlyCandidate(cs, ds, key, stakes => WithStake(stakes, sender, coin, value))
    requires Sound(cs, vals) && value >= 0
    ensures Sound(ds, vals)
    ensures CandidateIndex(cs, key) < |cs| ==>
      forall d :: Staked(ds, d) == Staked(cs, d) + if d == coin then value else 0
  {
    hide WithStake, BipSum, Staked, StakedOf;
    forall i | 0 <= i < |cs|
      ensures SoundCandidate(ds[i]) && BipSum(ds[i].stakes) <= BipSum(cs[i].stakes)
    {
      assert SoundCandidate(cs[i]);
      WithStakeFacts(cs[i].stakes, sender, coin, value);
    }
    SoundIfNoMore(cs, ds, vals);
    var i := CandidateIndex(cs, key);
    if i < |cs| {
      WithStakeFacts(cs[i].stakes, sender, coin, value);
      OneChanged(cs, ds, i);
      forall d {
        StakedReplace(cs, i, ds[i], d);
      }
    }
  }

  lemma OneChanged(cs: seq<Candidate>, ds: seq<Candidate>, i: nat)
    requires i < |cs| == |ds| && DistinctCandidates(cs)
    requires forall k :: 0 <= k < |cs| && cs[k].key != cs[i].key ==> ds[k] == cs[k]
    ensures ds == cs[i := ds[i]]
  {
  }

  lemma SubStakeKeeps(cs: seq<Candidate>, ds: seq<Candidate>, vals: seq<Validator>, sender: Address, key: Key,
                      coin: Coin, value: int)
    requires OnlyCandidate(cs, ds, key, stakes => WithoutStake(stakes, sender, coin, value)) && Sound(cs, vals)
    requires CandidateIndex(cs, key) < |cs|
    requires var (stakes, k) := (cs[CandidateIndex(cs, key)].stakes,
                                 StakeIndex(cs[CandidateIndex(cs, key)].stakes, sender, coin));
             k < |stakes| && value <= stakes[k].value
    ensures Sound(ds, vals)
    ensures forall d :: Staked(ds, d) == Staked(cs, d) - if d == coin then value else 0
  {
    hide WithoutStake, BipSum, Staked, StakedOf;
    var i := CandidateIndex(cs, key);
    forall m | 0 <= m < |cs|
      ensures SoundCandidate(ds[m]) && BipSum(ds[m].stakes) <= BipSum(cs[m].stakes)
    {
      assert SoundCandidate(cs[m]);
      WithoutStakeFacts(cs[m].stakes, sender, coin, value);
      if m != i {
        assert cs[m].key != cs[i].key;
      }
    }
    SoundIfNoMore(cs, ds, vals);
    WithoutStakeFacts(cs[i].stakes, sender, coin, value);
    OneChanged(cs, ds, i);
    forall d {
      StakedReplace(cs, i, ds[i], d);
    }
  }
}
