// Choosing the validators of the next period: caps on candidates and stakes, then the new set.
module ValidatorSet {
  import opened Arith
  import opened Common
  import opened Conversion
  import opened Elections
  import opened Ledger
  import opened Owners
  import opened Slashing
  import opened StateDb
  import opened Staking

  /** How many validators there may be at a height. */
  function ValidatorsCount(height: nat, start: nat): nat {
    var count := 16 + ((height + start) / 518400) * 4;
    if count > 256 then 256 else count
  }

  /** Sixteen to begin with, four more every 518400 blocks, and never more than 256. */
  lemma CountIs(height: nat, start: nat)
    ensures ValidatorsCount(height, start)
         == if height + start >= 31104000 then 256 else 16 + 4 * ((height + start) / 518400)
  {
  }

  // ---------------------------------------------------------------------------------
  // Sorting keeps what is staked
  // ---------------------------------------------------------------------------------

  function TotalOf(c: Candidate): int { c.totalBip }

  function BipValueOf(s: Stake): int { s.bipValue }

  lemma SortStep<T>(s: seq<T>, key: T -> int)
    requires s != []
    ensures SortDesc(s, key) == Insert(SortDesc(s[..|s| - 1], key), s[|s| - 1], key)
  {
    hide Insert;
  }

  lemma InsertStaked(t: seq<Candidate>, x: Candidate, c: Coin)
    ensures Staked(Insert(t, x, TotalOf), c) == Staked(t, c) + StakedOf(x.stakes, c)
  {
    hide Staked, Insert;
    var k := InsertParts(t, x, TotalOf);
    StakedConcat(t[..k], t[k..], c);
    StakedWith(t[..k], x, c);
    StakedConcat(t[..k] + [x], t[k..], c);
  }

  lemma {:induction false} SortedCandidatesStaked(cs: seq<Candidate>, c: Coin)
    ensures Staked(SortDesc(cs, TotalOf), c) == Staked(cs, c)
  {
    hide SortDesc, Insert;
    if cs == [] {
      SortNothing<Candidate>(TotalOf);
    } else {
      var (n, x) := (|cs| - 1, cs[|cs| - 1]);
      SortedCandidatesStaked(cs[..n], c);
      SortStep(cs, TotalOf);
      InsertStaked(SortDesc(cs[..n], TotalOf), x, c);
    }
  }

  lemma SortNothing<T>(key: T -> int)
    ensures SortDesc([], key) == []
  {
  }

  lemma InsertStakes(t: seq<Stake>, x: Stake, c: Coin)
    ensures StakedOf(Insert(t, x, BipValueOf), c) == StakedOf(t, c) + if x.coin == c then x.value else 0
    ensures BipSum(Insert(t, x, BipValueOf)) == BipSum(t) + x.bipValue
  {
    hide StakedOf, BipSum, Insert;
    var k := InsertParts(t, x, BipValueOf);
    StakedOfConcat(t[..k], t[k..], c);
    StakedSnoc(t[..k], x, c);
    StakedOfConcat(t[..k] + [x], t[k..], c);
    BipSumConcat(t[..k], t[k..]);
    BipSumSnoc(t[..k], x);
    BipSumConcat(t[..k] + [x], t[k..]);
  }

  lemma {:induction false} SortedStakes(stakes: seq<Stake>, c: Coin)
    ensures var t := SortDesc(stakes, BipValueOf); StakedOf(t, c) == StakedOf(stakes, c) && BipSum(t) == BipSum(stakes)
  {
    hide SortDesc, Insert;
    if stakes == [] {
      SortNothing<Stake>(BipValueOf);
    } else {
      var (n, x) := (|stakes| - 1, stakes[|stakes| - 1]);
      SortedStakes(stakes[..n], c);
      SortStep(stakes, BipValueOf);
      InsertStakes(SortDesc(stakes[..n], BipValueOf), x, c);
    }
  }

  /** What holds of every element holds of every element sorted. */
  lemma SortedMembers<T>(s: seq<T>, key: T -> int)
    ensures |SortDesc(s, key)| == |s| && forall x :: x in SortDesc(s, key) <==> x in s
  {
    SortDescSorts(s, key);
    forall x
      ensures x in SortDesc(s, key) <==> x in s
    {
      assert x in SortDesc(s, key) <==> x in multiset(SortDesc(s, key));
      assert x in s <==> x in multiset(s);
    }
  }

  // ---------------------------------------------------------------------------------
  // Dropping the smallest candidates
  // ---------------------------------------------------------------------------------

  /** The funds frozen for all stakes of the dropped candidates. */
  function DroppedFunds(dropped: seq<Candidate>): seq<FrozenFund> {
    if dropped == [] then []
    else DroppedFunds(dropped[..|dropped| - 1])
         + ToFunds(dropped[|dropped| - 1].stakes, dropped[|dropped| - 1].key, 100)
  }

  lemma WholeReduced(stakes: seq<Stake>, c: Coin)
    ensures StakedOf(Reduced(stakes, 100), c) == StakedOf(stakes, c)
  {
    forall j | 0 <= j < |stakes|
      ensures Kept(stakes[j].value, 100) == stakes[j].value
    {
      WholeKept(stakes[j].value);
    }
    SameValuesStaked(stakes, Reduced(stakes, 100), c);
  }

  lemma WholeKept(value: int)
    ensures Kept(value, 100) == value
  {
    QuotientUnique(value * 100, 100, value, 0);
  }

  lemma {:induction false} DroppedFundsAmounts(dropped: seq<Candidate>, c: Coin)
    ensures FundsOf(DroppedFunds(dropped), c) == Staked(dropped, c)
  {
    if dropped != [] {
      var (n, x) := (|dropped| - 1, dropped[|dropped| - 1]);
      DroppedFundsAmounts(dropped[..n], c);
      hide FundsOf, ToFunds;
      FundsOfConcat(DroppedFunds(dropped[..n]), ToFunds(x.stakes, x.key, 100), c);
      ToFundsAmounts(x.stakes, x.key, 100, c);
      WholeReduced(x.stakes, c);
    } else {
      assert FundsOf([], c) == 0;
    }
  }

  method AddStakeFunds(s: StateDB, stakes: seq<Stake>, key: Key, h: nat)
    modifies s
    ensures s.State() == old(s.State()).(funds := WithFunds(old(s.funds), h, ToFunds(stakes, key, 100)))
  {
    hide WithFunds, WithFund, Kept;
    ghost var list := ToFunds(stakes, key, 100);
    NoFunds(s.funds, h);
    assert list[..0] == [];
    for j := 0 to |stakes|
      invariant s.State() == old(s.State()).(funds := WithFunds(old(s.funds), h, list[..j]))
    {
      WholeKept(stakes[j].value);
      s.AddFund(h, FrozenFund(stakes[j].owner, key, stakes[j].coin, stakes[j].value));
      WithOneMore(old(s.funds), h, list, j);
    }
    assert list[..|stakes|] == list;
  }

  lemma WithFundsTwice(funds: map<nat, seq<FrozenFund>>, h: nat, a: seq<FrozenFund>, b: seq<FrozenFund>)
    ensures WithFunds(WithFunds(funds, h, a), h, b) == WithFunds(funds, h, a + b)
  {
    if a == [] {
      assert a + b == b;
    } else if b == [] {
      assert a + b == a;
    } else {
      ConcatAssoc(FundsAt(funds, h), a, b);
      var x := FundsAt(funds, h) + a;
      assert funds[h := x][h := x + b] == funds[h := x + b];
    }
  }

  /** Keeps the candidates with the largest totals; what the others hold is frozen. */
  method ClearCandidates(s: StateDB, maxCandidates: nat)
    modifies s
    ensures |old(s.candidates)| <= maxCandidates ==> s.State() == old(s.State())
    ensures |old(s.candidates)| > maxCandidates ==>
      |SortDesc(old(s.candidates), TotalOf)| == |old(s.candidates)|
      && s.State() == var sorted := SortDesc(old(s.candidates), TotalOf);
           old(s.State()).(candidates := sorted[..maxCandidates],
             funds := WithFunds(old(s.funds), s.height + UNBOND_PERIOD, DroppedFunds(sorted[maxCandidates..])))
  {
    hide WithFunds, ToFunds, SortDesc;
    if |s.candidates| > maxCandidates {
      ghost var b := s.State();
      SortDescSorts(s.candidates, TotalOf);
      var sorted := SortDesc(s.candidates, TotalOf);
      var dropped := sorted[maxCandidates..];
      s.candidates := sorted[..maxCandidates];
      var h := s.height + UNBOND_PERIOD;
      NoFunds(s.funds, h);
      for i := 0 to |dropped|
        invariant s.State() == b.(candidates := sorted[..maxCandidates],
                                  funds := WithFunds(b.funds, h, DroppedFunds(dropped[..i])))
      {
        AddStakeFunds(s, dropped[i].stakes, dropped[i].key, h);
        WithFundsTwice(b.funds, h, DroppedFunds(dropped[..i]), ToFunds(dropped[i].stakes, dropped[i].key, 100));
        assert dropped[..i + 1][..i] == dropped[..i];
      }
      assert dropped[..|dropped|] == dropped;
    }
  }

  lemma {:induction false} DroppedKnown(coins: map<Coin, CoinData>, dropped: seq<Candidate>)
    requires AllKnown(coins, dropped)
    ensures KnownFunds(coins, DroppedFunds(dropped))
  {
    if dropped != [] {
      var (n, x) := (|dropped| - 1, dropped[|dropped| - 1]);
      assert KnownStakes(coins, x.stakes);
      assert AllKnown(coins, dropped[..n]) by {
        forall i | 0 <= i < n
          ensures KnownStakes(coins, dropped[..n][i].stakes)
        {
          assert KnownStakes(coins, dropped[i].stakes);
        }
      }
      DroppedKnown(coins, dropped[..n]);
    }
  }

  lemma ClearedFundsKnown(b: Books, maxCandidates: nat, r: Books)
    requires |b.candidates| > maxCandidates && |SortDesc(b.candidates, TotalOf)| == |b.candidates|
    requires r.coins == b.coins && r.funds == WithFunds(b.funds, b.height + UNBOND_PERIOD,
                                                        DroppedFunds(SortDesc(b.candidates, TotalOf)[maxCandidates..]))
    requires AllKnown(b.coins, b.candidates) && FundsKnown(b.coins, b.funds)
    ensures FundsKnown(r.coins, r.funds)
  {
    hide SortDesc, WithFunds, DroppedFunds, KnownStakes, FundsKnown;
    var sorted := SortDesc(b.candidates, TotalOf);
    SortDescSorts(b.candidates, TotalOf);
    assert sorted == sorted[..maxCandidates] + sorted[maxCandidates..];
    assert multiset(sorted[maxCandidates..]) <= multiset(b.candidates);
    KnownSubset(b.coins, b.candidates, sorted[maxCandidates..]);
    DroppedKnown(b.coins, sorted[maxCandidates..]);
    WithFundsKnown(b.coins, b.funds, b.height + UNBOND_PERIOD, DroppedFunds(sorted[maxCandidates..]));
  }

  lemma {:induction false} CreditAllKnown(coins: map<Coin, CoinData>, b: Balances, stakes: seq<Stake>)
    requires BalancesKnown(coins, b) && KnownStakes(coins, stakes)
    ensures BalancesKnown(coins, CreditAll(b, stakes))
  {
    hide BalancesKnown;
    if stakes != [] {
      var (n, x) := (|stakes| - 1, stakes[|stakes| - 1]);
      CreditAllKnown(coins, b, stakes[..n]);
      CreditKnown(coins, CreditAll(b, stakes[..n]), x.owner, x.coin, x.value);
    }
  }

  lemma {:induction false} ReturnedKnown(coins: map<Coin, CoinData>, cs: seq<Candidate>)
    requires AllKnown(coins, cs)
    ensures KnownStakes(coins, AllReturned(cs))
  {
    hide ReturnedStakes;
    if cs != [] {
      var n := |cs| - 1;
      assert KnownStakes(coins, cs[n].stakes);
      assert AllKnown(coins, cs[..n]) by {
        forall i | 0 <= i < n
          ensures KnownStakes(coins, cs[..n][i].stakes)
        {
          assert KnownStakes(coins, cs[i].stakes);
        }
      }
      ReturnedKnown(coins, cs[..n]);
      PartKnown(coins, cs[n].stakes);
    }
  }

  lemma PartKnown(coins: map<Coin, CoinData>, stakes: seq<Stake>)
    requires KnownStakes(coins, stakes)
    ensures KnownStakes(coins, ReturnedStakes(stakes))
  {
    hide SortDesc;
    SortedMembers(stakes, BipValueOf);
    var returned := ReturnedStakes(stakes);
    forall j | 0 <= j < |returned|
      ensures returned[j].coin == BASE || returned[j].coin in coins
    {
      assert returned[j] == SortDesc(stakes, BipValueOf)[MAX_DELEGATORS + j];
      assert returned[j] in stakes;
    }
  }

  lemma ClearCandidatesConserves(b: Books, maxCandidates: nat, r: Books)
    requires |b.candidates| > maxCandidates && |SortDesc(b.candidates, TotalOf)| == |b.candidates|
    requires var sorted := SortDesc(b.candidates, TotalOf);
             r == b.(candidates := sorted[..maxCandidates],
                     funds := WithFunds(b.funds, b.height + UNBOND_PERIOD, DroppedFunds(sorted[maxCandidates..])))
    ensures Conserves(b, r)
  {
    hide SortDesc, WithFunds, DroppedFunds, Held, Reserves, Staked, Frozen, Accrued, TotalOf;
    var sorted := SortDesc(b.candidates, TotalOf);
    var dropped := sorted[maxCandidates..];
    assert sorted == sorted[..maxCandidates] + dropped;
    forall c
      ensures Staked(r.candidates, c) + Frozen(r.funds, c) == Staked(b.candidates, c) + Frozen(b.funds, c)
    {
      SortedCandidatesStaked(b.candidates, c);
      StakedConcat(sorted[..maxCandidates], dropped, c);
      DroppedFundsAmounts(dropped, c);
      WithFundsFrozen(b.funds, b.height + UNBOND_PERIOD, DroppedFunds(dropped), c);
    }
  }

  // ---------------------------------------------------------------------------------
  // Dropping the smallest stakes
  // ---------------------------------------------------------------------------------

  function CreditAll(b: Balances, stakes: seq<Stake>): Balances {
    if stakes == [] then b
    else
      var s := stakes[|stakes| - 1];
      Credit(CreditAll(b, stakes[..|stakes| - 1]), s.owner, s.coin, s.value)
  }

  lemma {:induction false} CreditAllHeld(b: Balances, stakes: seq<Stake>, c: Coin)
    ensures Held(CreditAll(b, stakes), c) == Held(b, c) + StakedOf(stakes, c)
  {
    if stakes != [] {
      var (n, s) := (|stakes| - 1, stakes[|stakes| - 1]);
      CreditAllHeld(b, stakes[..n], c);
      HeldCredit(CreditAll(b, stakes[..n]), s.owner, s.coin, s.value, c);
    }
  }

  lemma {:induction false} CreditAllConcat(b: Balances, s: seq<Stake>, t: seq<Stake>)
    ensures CreditAll(CreditAll(b, s), t) == CreditAll(b, s + t)
  {
    if t == [] {
      assert s + t == s;
    } else {
      var n := |t| - 1;
      assert (s + t)[..|s + t| - 1] == s + t[..n];
      CreditAllConcat(b, s, t[..n]);
    }
  }

  /** The stakes a candidate keeps, and those it returns to their owners. */
  function KeptStakes(stakes: seq<Stake>): seq<Stake> {
    SortDescSorts(stakes, BipValueOf);
    if |stakes| <= MAX_DELEGATORS then stakes else SortDesc(stakes, BipValueOf)[..MAX_DELEGATORS]
  }

  function ReturnedStakes(stakes: seq<Stake>): seq<Stake> {
    SortDescSorts(stakes, BipValueOf);
    if |stakes| <= MAX_DELEGATORS then [] else SortDesc(stakes, BipValueOf)[MAX_DELEGATORS..]
  }

  /** At most a thousand stakes stay, none of them smaller than one returned; nothing is lost. */
  lemma KeptStakesFacts(stakes: seq<Stake>)
    ensures |KeptStakes(stakes)| == Min(|stakes|, MAX_DELEGATORS)
    ensures multiset(KeptStakes(stakes)) + multiset(ReturnedStakes(stakes)) == multiset(stakes)
    ensures forall x, y :: x in KeptStakes(stakes) && y in ReturnedStakes(stakes) ==> x.bipValue >= y.bipValue
    ensures forall c :: StakedOf(KeptStakes(stakes), c) + StakedOf(ReturnedStakes(stakes), c) == StakedOf(stakes, c)
    ensures SoundStakes(stakes) ==> SoundStakes(KeptStakes(stakes)) && BipSum(KeptStakes(stakes)) <= BipSum(stakes)
  {
    hide StakedOf, BipSum, SortDesc, SoundStakes;
    SortDescSorts(stakes, BipValueOf);
    if |stakes| <= MAX_DELEGATORS {
      forall c
        ensures StakedOf([], c) == 0
      {
        StakedNothing(c);
      }
    } else {
      var sorted := SortDesc(stakes, BipValueOf);
      assert sorted == sorted[..MAX_DELEGATORS] + sorted[MAX_DELEGATORS..];
      SplitFacts(stakes, sorted, sorted[..MAX_DELEGATORS], sorted[MAX_DELEGATORS..]);
    }
  }

  lemma SplitFacts(stakes: seq<Stake>, sorted: seq<Stake>, kept: seq<Stake>, returned: seq<Stake>)
    requires sorted == SortDesc(stakes, BipValueOf) == kept + returned
    ensures forall c :: StakedOf(kept, c) + StakedOf(returned, c) == StakedOf(stakes, c)
    ensures SoundStakes(stakes) ==> SoundStakes(kept) && BipSum(kept) <= BipSum(stakes)
  {
    hide StakedOf, BipSum, SortDesc;
    forall c
      ensures StakedOf(kept, c) + StakedOf(returned, c) == StakedOf(stakes, c)
    {
      SortedStakes(stakes, c);
      StakedOfConcat(kept, returned, c);
    }
    if SoundStakes(stakes) {
      SortedMembers(stakes, BipValueOf);
      SoundMembers(stakes, sorted);
      SoundSplit(kept, returned);
      SortedStakes(stakes, BASE);
      BipSumConcat(kept, returned);
      BipSumBounds(returned, 0);
    }
  }

  lemma SoundSplit(kept: seq<Stake>, returned: seq<Stake>)
    requires SoundStakes(kept + returned)
    ensures SoundStakes(kept) && SoundStakes(returned)
  {
    forall j | 0 <= j < |kept|
      ensures kept[j].value >= 0 && kept[j].bipValue >= 0
    {
      assert (kept + returned)[j] == kept[j];
    }
    forall j | 0 <= j < |returned|
      ensures returned[j].value >= 0 && returned[j].bipValue >= 0
    {
      assert (kept + returned)[|kept| + j] == returned[j];
    }
  }

  lemma StakedNothing(c: Coin)
    ensures StakedOf([], c) == 0
  {
  }

  lemma SoundMembers(stakes: seq<Stake>, sorted: seq<Stake>)
    requires SoundStakes(stakes) && forall x :: x in sorted ==> x in stakes
    ensures SoundStakes(sorted)
  {
    forall j | 0 <= j < |sorted|
      ensures sorted[j].value >= 0 && sorted[j].bipValue >= 0
    {
      assert sorted[j] in stakes;
    }
  }

  function AllReturned(cs: seq<Candidate>): seq<Stake> {
    if cs == [] then [] else AllReturned(cs[..|cs| - 1]) + ReturnedStakes(cs[|cs| - 1].stakes)
  }

  function Capped(c: Candidate): Candidate { c.(stakes := KeptStakes(c.stakes)) }

  method ReturnStakes(s: StateDB, dropped: seq<Stake>)
    modifies s
    ensures s.State() == old(s.State()).(balances := CreditAll(old(s.balances), dropped))
  {
    for j := 0 to |dropped|
      invariant s.State() == old(s.State()).(balances := CreditAll(old(s.balances), dropped[..j]))
    {
      s.AddBalance(dropped[j].owner, dropped[j].coin, dropped[j].value);
      assert dropped[..j + 1][..j] == dropped[..j];
    }
    assert dropped[..|dropped|] == dropped;
  }

  /** Caps every candidate's stakes, returning the smallest to their owners. */
  method ClearStakes(s: StateDB)
    modifies s
    ensures s.State() == old(s.State()).(candidates := s.candidates,
                                         balances := CreditAll(old(s.balances), AllReturned(old(s.candidates))))
    ensures |s.candidates| == |old(s.candidates)|
    ensures forall i :: 0 <= i < |s.candidates| ==> s.candidates[i] == Capped(old(s.candidates)[i])
  {
    hide SortDesc, CreditAll, AllReturned, ReturnedStakes, KeptStakes;
    ghost var b := s.State();
    NothingCredited(b.balances);
    NothingReturned();
    for i := 0 to |s.candidates|
      invariant |s.candidates| == |b.candidates|
      invariant s.State() == b.(candidates := s.candidates,
                                balances := CreditAll(b.balances, AllReturned(b.candidates[..i])))
      invariant forall k :: 0 <= k < i ==> s.candidates[k] == Capped(b.candidates[k])
      invariant forall k :: i <= k < |s.candidates| ==> s.candidates[k] == b.candidates[k]
    {
      var stakes := s.candidates[i].stakes;
      ReturnedNext(b.candidates, i);
      KeptParts(stakes);
      CreditAllConcat(b.balances, AllReturned(b.candidates[..i]), ReturnedStakes(stakes));
      if |stakes| > MAX_DELEGATORS {
        SortDescSorts(stakes, BipValueOf);
        var sorted := SortDesc(stakes, BipValueOf);
        var dropped := sorted[MAX_DELEGATORS..];
        s.candidates := s.candidates[i := s.candidates[i].(stakes := sorted[..MAX_DELEGATORS])];
        ReturnStakes(s, dropped);
      } else {
        NothingCredited(s.balances);
      }
    }
    assert b.candidates[..|b.candidates|] == b.candidates;
  }

  lemma NothingReturned()
    ensures AllReturned([]) == []
  {
  }

  lemma ReturnedNext(cs: seq<Candidate>, i: nat)
    requires i < |cs|
    ensures AllReturned(cs[..i + 1]) == AllReturned(cs[..i]) + ReturnedStakes(cs[i].stakes)
  {
    hide ReturnedStakes;
    assert cs[..i + 1][..i] == cs[..i];
  }

  lemma KeptParts(stakes: seq<Stake>)
    ensures |stakes| <= MAX_DELEGATORS ==> KeptStakes(stakes) == stakes && ReturnedStakes(stakes) == []
    ensures |stakes| > MAX_DELEGATORS ==>
      var sorted := SortDesc(stakes, BipValueOf);
      |sorted| == |stakes| && KeptStakes(stakes) == sorted[..MAX_DELEGATORS]
      && ReturnedStakes(stakes) == sorted[MAX_DELEGATORS..]
  {
    hide SortDesc;
    SortDescSorts(stakes, BipValueOf);
  }

  lemma NothingCredited(b: Balances)
    ensures CreditAll(b, []) == b
  {
  }

  lemma {:induction false} CappedStaked(cs: seq<Candidate>, ds: seq<Candidate>, c: Coin)
    requires |ds| == |cs| && forall i :: 0 <= i < |cs| ==> ds[i] == Capped(cs[i])
    ensures Staked(ds, c) + StakedOf(AllReturned(cs), c) == Staked(cs, c)
  {
    hide KeptStakes, ReturnedStakes;
    if cs == [] {
      StakedNothing(c);
    } else {
      var n := |cs| - 1;
      CappedStaked(cs[..n], ds[..n], c);
      KeptStakesFacts(cs[n].stakes);
      StakedOfConcat(AllReturned(cs[..n]), ReturnedStakes(cs[n].stakes), c);
    }
  }

  lemma ClearStakesKeeps(b: Books, r: Books)
    requires r == b.(candidates := r.candidates, balances := CreditAll(b.balances, AllReturned(b.candidates)))
    requires |r.candidates| == |b.candidates|
    requires forall i :: 0 <= i < |r.candidates| ==> r.candidates[i] == Capped(b.candidates[i])
    ensures Conserves(b, r)
    ensures (forall i :: 0 <= i < |b.candidates| ==> SoundCandidate(b.candidates[i])) ==>
      forall i :: 0 <= i < |b.candidates| ==>
        SoundCandidate(r.candidates[i]) && BipSum(r.candidates[i].stakes) <= BipSum(b.candidates[i].stakes)
  {
    hide Held, Reserves, Staked, Frozen, Accrued, AllReturned, KeptStakes, CreditAll, BipSum;
    forall c
      ensures Held(r.balances, c) + Staked(r.candidates, c) == Held(b.balances, c) + Staked(b.candidates, c)
    {
      CappedStaked(b.candidates, r.candidates, c);
      CreditAllHeld(b.balances, AllReturned(b.candidates), c);
    }
    if forall i :: 0 <= i < |b.candidates| ==> SoundCandidate(b.candidates[i]) {
      forall i | 0 <= i < |b.candidates|
        ensures SoundCandidate(r.candidates[i]) && BipSum(r.candidates[i].stakes) <= BipSum(b.candidates[i].stakes)
      {
        assert SoundCandidate(b.candidates[i]);
        KeptStakesFacts(b.candidates[i].stakes);
      }
    }
  }

  // ---------------------------------------------------------------------------------
  // The new validators
  // ---------------------------------------------------------------------------------

  /** The elements that satisfy f, in order. */
  function Filter<T>(s: seq<T>, f: T -> bool): seq<T> {
    if s == [] then [] else Filter(s[..|s| - 1], f) + if f(s[|s| - 1]) then [s[|s| - 1]] else []
  }

  lemma {:induction false} FilterSubset<T>(s: seq<T>, f: T -> bool)
    ensures multiset(Filter(s, f)) <= multiset(s) && |Filter(s, f)| <= |s|
  {
    if s != [] {
      var (n, x) := (|s| - 1, s[|s| - 1]);
      FilterSubset(s[..n], f);
      assert s == s[..n] + [x];
      assert multiset(s) == multiset(s[..n]) + multiset{x};
    }
  }

  lemma {:induction false} FilterAll<T>(s: seq<T>, f: T -> bool)
    ensures forall i :: 0 <= i < |Filter(s, f)| ==> f(Filter(s, f)[i])
  {
    if s != [] {
      FilterAll(s[..|s| - 1], f);
    }
  }

  method Selected<T>(s: seq<T>, f: T -> bool) returns (r: seq<T>)
    ensures r == Filter(s, f)
  {
    r := [];
    for i := 0 to |s|
      invariant r == Filter(s[..i], f)
    {
      assert s[..i + 1][..i] == s[..i];
      if f(s[i]) {
        r := r + [s[i]];
      }
    }
    assert s[..|s|] == s;
  }

  function IsOnline(c: Candidate): bool { c.online }

  function IsPositive(c: Candidate): bool { c.totalBip > 0 }

  function Online(cs: seq<Candidate>): seq<Candidate> { Filter(cs, IsOnline) }

  ghost predicate Permutes(arrange: seq<Candidate> -> seq<Candidate>) {
    forall s :: multiset(arrange(s)) == multiset(s)
  }

  /** r are count of the largest candidates in active, largest first. */
  ghost predicate Largest(active: seq<Candidate>, count: nat, r: seq<Candidate>) {
    multiset(r) <= multiset(active) && |r| == Min(count, |active|) && Descending(r, TotalOf)
    && forall x, y :: x in r && y in multiset(active) - multiset(r) ==> x.totalBip >= y.totalBip
  }

  /** The largest of the candidates that are online; ties stand in the order the first sort left them. */
  method GetCandidates(s: StateDB, count: nat, arrange: seq<Candidate> -> seq<Candidate>) returns (r: seq<Candidate>)
    requires Permutes(arrange)
    ensures Largest(Online(s.candidates), count, r)
  {
    hide SortDesc, TotalOf, Largest;
    var active := Selected(s.candidates, IsOnline);
    assert active == Online(s.candidates);
    hide Online;
    var arranged := arrange(active);
    SortDescSorts(arranged, TotalOf);
    SameSize(arranged, active);
    var sorted := SortDesc(arranged, TotalOf);
    var n := if |active| < count then |active| else count;
    LargestTaken(active, sorted, count, n);
    r := sorted[..n];
  }

  lemma SameSize<T>(s: seq<T>, t: seq<T>)
    requires multiset(s) == multiset(t)
    ensures |s| == |t|
  {
    assert |multiset(s)| == |multiset(t)|;
  }

  lemma LargestTaken(active: seq<Candidate>, sorted: seq<Candidate>, count: nat, n: nat)
    requires multiset(sorted) == multiset(active) && |sorted| == |active| && Descending(sorted, TotalOf)
    requires n == if |active| < count then |active| else count
    ensures Largest(active, count, sorted[..n])
  {
    assert sorted == sorted[..n] + sorted[n..];
    LargestFirst(sorted, n);
    hide TotalOf;
    assert multiset(active) - multiset(sorted[..n]) == multiset(sorted[n..]);
  }

  lemma LargestFirst(sorted: seq<Candidate>, n: nat)
    requires Descending(sorted, TotalOf) && n <= |sorted|
    ensures Descending(sorted[..n], TotalOf)
    ensures forall x, y :: x in sorted[..n] && y in sorted[n..] ==> x.totalBip >= y.totalBip
  {
    forall x, y | x in sorted[..n] && y in sorted[n..]
      ensures x.totalBip >= y.totalBip
    {
      var i :| 0 <= i < n && sorted[i] == x;
      var j :| n <= j < |sorted| && sorted[j] == y;
      assert TotalOf(sorted[i]) >= TotalOf(sorted[j]);
    }
  }

  /** The position of the validator with a key; past the end if there is none. */
  function ValidatorIndex(vals: seq<Validator>, key: Key): (i: nat)
    ensures i <= |vals| && (i < |vals| ==> vals[i].key == key)
    ensures forall m :: 0 <= m < i ==> vals[m].key != key
  {
    if vals == [] || vals[0].key == key then 0 else 1 + ValidatorIndex(vals[1..], key)
  }

  /** A validator made from a candidate, with what it accrued if it was one before. */
  function Elected(vals: seq<Validator>, c: Candidate): Validator {
    var i := ValidatorIndex(vals, c.key);
    if i < |vals|
    then Validator(c.key, c.rewardAddress, c.commission, c.totalBip, vals[i].accum, vals[i].absent, false)
    else Validator(c.key, c.rewardAddress, c.commission, c.totalBip, 0, NeverAbsent(), false)
  }

  method SetNewValidators(s: StateDB, candidates: seq<Candidate>)
    requires DistinctValidators(s.validators)
    modifies s
    ensures s.State() == old(s.State()).(validators := s.validators) && |s.validators| == |candidates|
    ensures forall i :: 0 <= i < |candidates| ==> s.validators[i] == Elected(old(s.validators), candidates[i])
  {
    var newVals: seq<Validator> := [];
    for i := 0 to |candidates|
      invariant |newVals| == i
      invariant forall k :: 0 <= k < i ==> newVals[k] == Elected(s.validators, candidates[k])
    {
      var c := candidates[i];
      var accum, absent := 0, NeverAbsent();
      ghost var at := ValidatorIndex(s.validators, c.key);
      for j := 0 to |s.validators|
        invariant j <= at ==> accum == 0 && absent == NeverAbsent()
        invariant at < j ==> accum == s.validators[at].accum && absent == s.validators[at].absent
      {
        if s.validators[j].key == c.key {
          accum, absent := s.validators[j].accum, s.validators[j].absent;
        }
      }
      newVals := newVals + [Validator(c.key, c.rewardAddress, c.commission, c.totalBip, accum, absent, false)];
    }
    s.validators := newVals;
  }

  // ---------------------------------------------------------------------------------
  // Keys stay distinct
  // ---------------------------------------------------------------------------------

  /** No two entries with one key, and no entry twice. */
  ghost predicate UniqueKeys(m: multiset<Candidate>) {
    (forall x :: m[x] <= 1) && forall x, y :: x in m && y in m && x.key == y.key ==> x == y
  }

  lemma UniqueSubset(m: multiset<Candidate>, n: multiset<Candidate>)
    requires n <= m && UniqueKeys(m)
    ensures UniqueKeys(n)
  {
  }

  lemma {:induction false} DistinctIsUnique(cs: seq<Candidate>)
    requires DistinctCandidates(cs)
    ensures UniqueKeys(multiset(cs))
  {
    if cs != [] {
      var (n, x) := (|cs| - 1, cs[|cs| - 1]);
      DistinctIsUnique(cs[..n]);
      assert cs == cs[..n] + [x];
      OneMoreUnique(multiset(cs[..n]), x);
    }
  }

  lemma OneMoreUnique(m: multiset<Candidate>, x: Candidate)
    requires UniqueKeys(m) && forall y :: y in m ==> y.key != x.key
    ensures UniqueKeys(m + multiset{x})
  {
    assert x !in m;
  }

  lemma UniqueIsDistinct(cs: seq<Candidate>)
    requires UniqueKeys(multiset(cs))
    ensures DistinctCandidates(cs)
  {
    forall i, j | 0 <= i < j < |cs|
      ensures cs[i].key != cs[j].key
    {
      if cs[i].key == cs[j].key {
        assert cs[i] in multiset(cs) && cs[j] in multiset(cs);
        TwiceInMultiset(cs, i, j);
      }
    }
  }

  lemma TwiceInMultiset(cs: seq<Candidate>, i: nat, j: nat)
    requires i < j < |cs| && cs[i] == cs[j]
    ensures multiset(cs)[cs[i]] >= 2
  {
    assert cs == cs[..j] + [cs[j]] + cs[j + 1..];
    assert cs[i] in cs[..j];
  }

  // ---------------------------------------------------------------------------------
  // Accruals across a change of validators
  // ---------------------------------------------------------------------------------

  predicate HasKey(vals: seq<Validator>, key: Key) { exists i :: 0 <= i < |vals| && vals[i].key == key }

  /** What validators that are not elected again had accrued. */
  function Leaving(vals: seq<Validator>, now: seq<Validator>): int {
    if vals == [] then 0
    else Leaving(vals[..|vals| - 1], now)
         + if HasKey(now, vals[|vals| - 1].key) then 0 else vals[|vals| - 1].accum
  }

  lemma {:induction false} LeavingBounds(vals: seq<Validator>, now: seq<Validator>, k: nat)
    requires forall i :: 0 <= i < |vals| ==> vals[i].accum >= 0
    ensures 0 <= Leaving(vals, now) <= Accrued(vals)
    ensures k < |vals| && !HasKey(now, vals[k].key) ==> vals[k].accum <= Leaving(vals, now)
  {
    if vals != [] {
      LeavingBounds(vals[..|vals| - 1], now, k);
    }
  }

  /** Nothing leaves exactly when everyone with an accrual is elected again. */
  lemma {:induction false} LeavingNothing(vals: seq<Validator>, now: seq<Validator>)
    requires forall i :: 0 <= i < |vals| ==> vals[i].accum >= 0
    ensures Leaving(vals, now) == 0 <==> forall i :: 0 <= i < |vals| && vals[i].accum > 0 ==> HasKey(now, vals[i].key)
  {
    if vals != [] {
      var n := |vals| - 1;
      LeavingNothing(vals[..n], now);
      LeavingBounds(vals[..n], now, 0);
      assert vals[n] == vals[|vals| - 1] && forall i :: 0 <= i < n ==> vals[..n][i] == vals[i];
    }
  }

  function AccumOf(vals: seq<Validator>, key: Key): int {
    var i := ValidatorIndex(vals, key);
    if i < |vals| then vals[i].accum else 0
  }

  lemma {:induction false} IndexInPrefix(vals: seq<Validator>, v: Validator, key: Key)
    ensures ValidatorIndex(vals + [v], key)
         == if ValidatorIndex(vals, key) < |vals| then ValidatorIndex(vals, key)
            else if v.key == key then |vals| else |vals| + 1
  {
    if vals != [] && vals[0].key != key {
      assert (vals + [v])[1..] == vals[1..] + [v];
      IndexInPrefix(vals[1..], v, key);
    } else if vals == [] {
      assert (vals + [v])[1..] == [];
    }
  }

  lemma {:induction false} LeavingNext(vals: seq<Validator>, now: seq<Validator>, w: Validator)
    requires DistinctValidators(vals) && !HasKey(now, w.key)
    ensures Leaving(vals, now + [w]) == Leaving(vals, now) - AccumOf(vals, w.key)
  {
    if vals != [] {
      var (n, v) := (|vals| - 1, vals[|vals| - 1]);
      assert vals == vals[..n] + [v];
      LeavingNext(vals[..n], now, w);
      IndexInPrefix(vals[..n], v, w.key);
      KeyInPrefix(now, w, v.key);
    }
  }

  lemma KeyInPrefix(now: seq<Validator>, w: Validator, key: Key)
    ensures HasKey(now + [w], key) <==> HasKey(now, key) || w.key == key
  {
    if HasKey(now, key) {
      var i :| 0 <= i < |now| && now[i].key == key;
      assert (now + [w])[i].key == key;
    }
    if w.key == key {
      assert (now + [w])[|now|].key == key;
    }
  }

  /** What the new validators carry is what was accrued but for what leaves with the old ones. */
  lemma {:induction false} ElectedAccrual(vals: seq<Validator>, cs: seq<Candidate>, now: seq<Validator>)
    requires DistinctValidators(vals) && DistinctCandidates(cs) && |now| == |cs|
    requires forall i :: 0 <= i < |cs| ==> now[i] == Elected(vals, cs[i])
    ensures Accrued(now) == Accrued(vals) - Leaving(vals, now)
  {
    if cs == [] {
      NobodyStays(vals);
    } else {
      var n := |cs| - 1;
      ElectedAccrual(vals, cs[..n], now[..n]);
      assert now == now[..n] + [now[n]];
      LeavingNext(vals, now[..n], now[n]);
    }
  }

  lemma {:induction false} NobodyStays(vals: seq<Validator>)
    ensures Leaving(vals, []) == Accrued(vals)
  {
    if vals != [] {
      NobodyStays(vals[..|vals| - 1]);
    }
  }

  // ---------------------------------------------------------------------------------
  // Where those elected come from
  // ---------------------------------------------------------------------------------

  /** There is a candidate with the key, and it is online. */
  predicate KeyOnline(cs: seq<Candidate>, key: Key) {
    CandidateIndex(cs, key) < |cs| && cs[CandidateIndex(cs, key)].online
  }

  ghost predicate Stems(cs: seq<Candidate>, d: Candidate) {
    exists i :: 0 <= i < |cs| && cs[i].key == d.key && cs[i].online == d.online
  }

  /** Every candidate of ds was one of cs, online or not as it is now. */
  ghost predicate Descends(cs: seq<Candidate>, ds: seq<Candidate>) {
    forall j :: 0 <= j < |ds| ==> Stems(cs, ds[j])
  }

  lemma DescendsTrans(cs: seq<Candidate>, ds: seq<Candidate>, es: seq<Candidate>)
    requires Descends(cs, ds) && Descends(ds, es)
    ensures Descends(cs, es)
  {
    forall j | 0 <= j < |es|
      ensures Stems(cs, es[j])
    {
      assert Stems(ds, es[j]);
      var i :| 0 <= i < |ds| && ds[i].key == es[j].key && ds[i].online == es[j].online;
      assert Stems(cs, ds[i]);
    }
  }

  lemma DescendsEach(cs: seq<Candidate>, ds: seq<Candidate>)
    requires |ds| == |cs| && forall i :: 0 <= i < |cs| ==> ds[i].key == cs[i].key && ds[i].online == cs[i].online
    ensures Descends(cs, ds)
  {
    forall j | 0 <= j < |ds|
      ensures Stems(cs, ds[j])
    {
      assert cs[j].key == ds[j].key;
    }
  }

  lemma DescendsSubset(cs: seq<Candidate>, ds: seq<Candidate>)
    requires multiset(ds) <= multiset(cs)
    ensures Descends(cs, ds)
  {
    forall j | 0 <= j < |ds|
      ensures Stems(cs, ds[j])
    {
      assert ds[j] in multiset(ds) && ds[j] in multiset(cs);
      var i :| 0 <= i < |cs| && cs[i] == ds[j];
    }
  }

  lemma StemsOnline(cs: seq<Candidate>, d: Candidate)
    requires DistinctCandidates(cs) && Stems(cs, d) && d.online
    ensures KeyOnline(cs, d.key)
  {
    var i :| 0 <= i < |cs| && cs[i].key == d.key && cs[i].online == d.online;
    IndexOf(cs, i);
  }

  // ---------------------------------------------------------------------------------
  // The whole update
  // ---------------------------------------------------------------------------------

  /** Candidates fit to be elected from: distinct, sound, their stakes within their totals. */
  ghost predicate Electable(cs: seq<Candidate>) {
    DistinctCandidates(cs)
    && forall i :: 0 <= i < |cs| ==> SoundCandidate(cs[i]) && BipSum(cs[i].stakes) <= cs[i].totalBip
  }

  lemma ElectableSubset(cs: seq<Candidate>, ds: seq<Candidate>)
    requires Electable(cs) && multiset(ds) <= multiset(cs)
    ensures Electable(ds)
  {
    hide BipSum, SoundCandidate;
    DistinctIsUnique(cs);
    UniqueSubset(multiset(cs), multiset(ds));
    UniqueIsDistinct(ds);
    forall i | 0 <= i < |ds|
      ensures SoundCandidate(ds[i]) && BipSum(ds[i].stakes) <= ds[i].totalBip
    {
      assert ds[i] in multiset(ds) && ds[i] in multiset(cs);
      assert ds[i] in cs;
    }
  }

  lemma PrefixSubset<T>(s: seq<T>, n: nat)
    requires n <= |s|
    ensures multiset(s[..n]) <= multiset(s)
  {
    assert s == s[..n] + s[n..];
  }

  /** Electing from electable candidates gives validators that are backed. */
  lemma ElectedSound(cs: seq<Candidate>, chosen: seq<Candidate>, vals: seq<Validator>, now: seq<Validator>)
    requires Electable(cs) && multiset(chosen) <= multiset(cs)
    requires forall i :: 0 <= i < |chosen| ==> chosen[i].totalBip > 0
    requires forall k :: 0 <= k < |vals| ==> vals[k].accum >= 0 && |vals[k].absent| == ABSENT_WINDOW
    requires |now| == |chosen| && forall i :: 0 <= i < |chosen| ==> now[i] == Elected(vals, chosen[i])
    ensures Sound(cs, now)
  {
    hide BipSum, SoundCandidate, CandidateIndex, ValidatorIndex;
    ElectableSubset(cs, chosen);
    forall i | 0 <= i < |now|
      ensures Backed(now[i], cs)
    {
      assert chosen[i] in multiset(chosen) && chosen[i] in multiset(cs);
      var j :| 0 <= j < |cs| && cs[j] == chosen[i];
      IndexOf(cs, j);
      CommissionOf(cs[j]);
    }
  }

  lemma CommissionOf(c: Candidate)
    requires SoundCandidate(c)
    ensures c.commission <= 100
  {
  }

  lemma SoundElectable(cs: seq<Candidate>, vals: seq<Validator>)
    requires Sound(cs, vals) && TotalsExact(cs)
    ensures Electable(cs)
  {
  }

  lemma SoundAccruals(cs: seq<Candidate>, vals: seq<Validator>)
    requires Sound(cs, vals)
    ensures forall k :: 0 <= k < |vals| ==> vals[k].accum >= 0 && |vals[k].absent| == ABSENT_WINDOW
  {
    forall k | 0 <= k < |vals|
      ensures vals[k].accum >= 0 && |vals[k].absent| == ABSENT_WINDOW
    {
      assert Backed(vals[k], cs);
    }
  }

  lemma CappedElectable(cs: seq<Candidate>, ds: seq<Candidate>)
    requires Electable(cs) && |ds| == |cs| && forall i :: 0 <= i < |cs| ==> ds[i] == Capped(cs[i])
    ensures Electable(ds)
  {
    hide BipSum, KeptStakes;
    forall i | 0 <= i < |cs|
      ensures SoundCandidate(ds[i]) && BipSum(ds[i].stakes) <= ds[i].totalBip
    {
      assert SoundCandidate(cs[i]);
      KeptStakesFacts(cs[i].stakes);
    }
  }

  /** b1 holds what b0 does; used where only stakes, funds and balances of equal amounts are exchanged. */
  lemma RecalculationConserves(b: Books, r: Books)
    requires r == b.(candidates := r.candidates, validators := r.validators, stakeCache := r.stakeCache)
    requires Accrued(r.validators) == Accrued(b.validators)
    requires forall c :: Staked(r.candidates, c) == Staked(b.candidates, c)
    ensures Conserves(b, r)
  {
    hide Held, Reserves, Staked, Frozen, Accrued;
  }

  // ---------------------------------------------------------------------------------
  // What is left to elect from
  // ---------------------------------------------------------------------------------

  /** All candidates, or as many of the largest as there may be. */
  ghost predicate KeptLargest(ds: seq<Candidate>, most: nat, kept: seq<Candidate>) {
    if |ds| <= most then kept == ds
    else
      |kept| == most && multiset(kept) <= multiset(ds)
      && forall x, y :: x in kept && y in multiset(ds) - multiset(kept) ==> x.totalBip >= y.totalBip
  }

  /** A candidate with all its stakes, or the thousand largest by base value. */
  ghost predicate StakesCapped(x: Candidate, y: Candidate) {
    y == x.(stakes := y.stakes)
    && if |x.stakes| <= 1000 then y.stakes == x.stakes
       else
         |y.stakes| == 1000 && multiset(y.stakes) <= multiset(x.stakes)
         && forall s, t :: s in y.stakes && t in multiset(x.stakes) - multiset(y.stakes) ==> s.bipValue >= t.bipValue
  }

  /** The candidates are b's with their base values, the largest of them, each with its largest stakes. */
  ghost predicate Prepared(p: Prices, b: Books, most: nat, now: seq<Candidate>) {
    exists ds: seq<Candidate>, kept: seq<Candidate> :: PreparedFrom(p, b, most, ds, kept, now)
  }

  ghost predicate PreparedFrom(p: Prices, b: Books, most: nat, ds: seq<Candidate>, kept: seq<Candidate>, now: seq<Candidate>) {
    |ds| == |b.candidates| && (forall i :: 0 <= i < |ds| ==> BaseValued(p, b, b.candidates[i], ds[i]))
    && KeptLargest(ds, most, kept)
    && |now| == |kept| && forall i :: 0 <= i < |kept| ==> StakesCapped(kept[i], now[i])
  }

  lemma SortedKeepsLargest(ds: seq<Candidate>, most: nat)
    requires |ds| > most
    ensures |SortDesc(ds, TotalOf)| == |ds| && KeptLargest(ds, most, SortDesc(ds, TotalOf)[..most])
  {
    hide SortDesc;
    SortDescSorts(ds, TotalOf);
    var sorted := SortDesc(ds, TotalOf);
    assert sorted == sorted[..most] + sorted[most..];
    LargestFirst(sorted, most);
    assert multiset(ds) - multiset(sorted[..most]) == multiset(sorted[most..]);
  }

  lemma CappedIs(x: Candidate)
    ensures StakesCapped(x, Capped(x))
  {
    hide KeptStakes, ReturnedStakes;
    KeptStakesFacts(x.stakes);
    KeptAll(x.stakes);
    assert multiset(x.stakes) - multiset(KeptStakes(x.stakes)) == multiset(ReturnedStakes(x.stakes));
  }

  lemma KeptAll(stakes: seq<Stake>)
    ensures |stakes| <= 1000 ==> KeptStakes(stakes) == stakes
  {
    hide SortDesc;
  }

  /** What is frozen until other heights is left alone. */
  ghost predicate FrozenOnlyAt(funds: map<nat, seq<FrozenFund>>, now: map<nat, seq<FrozenFund>>, h: nat) {
    forall k :: k != h ==> FundsAt(now, k) == FundsAt(funds, k)
  }

  lemma FrozenOnlyThere(funds: map<nat, seq<FrozenFund>>, h: nat, list: seq<FrozenFund>)
    ensures FrozenOnlyAt(funds, WithFunds(funds, h, list), h)
  {
  }

  // ---------------------------------------------------------------------------------
  // Nobody's wealth changes
  // ---------------------------------------------------------------------------------

  lemma InsertFor(t: seq<Candidate>, x: Candidate, a: Address, c: Coin)
    ensures StakedFor(Insert(t, x, TotalOf), a, c) == StakedFor(t, a, c) + StakesFor(x.stakes, a, c)
  {
    hide StakedFor, Insert;
    var k := InsertParts(t, x, TotalOf);
    StakedForConcat(t[..k], t[k..], a, c);
    StakedForSnoc(t[..k], x, a, c);
    StakedForConcat(t[..k] + [x], t[k..], a, c);
  }

  lemma {:induction false} SortedCandidatesFor(cs: seq<Candidate>, a: Address, c: Coin)
    ensures StakedFor(SortDesc(cs, TotalOf), a, c) == StakedFor(cs, a, c)
  {
    hide SortDesc, Insert;
    if cs == [] {
      SortNothing<Candidate>(TotalOf);
    } else {
      var (n, x) := (|cs| - 1, cs[|cs| - 1]);
      SortedCandidatesFor(cs[..n], a, c);
      SortStep(cs, TotalOf);
      InsertFor(SortDesc(cs[..n], TotalOf), x, a, c);
    }
  }

  lemma InsertStakeFor(t: seq<Stake>, x: Stake, a: Address, c: Coin)
    ensures StakesFor(Insert(t, x, BipValueOf), a, c)
         == StakesFor(t, a, c) + if x.owner == a && x.coin == c then x.value else 0
  {
    hide StakesFor, Insert;
    var k := InsertParts(t, x, BipValueOf);
    StakesForConcat(t[..k], t[k..], a, c);
    StakesForSnoc(t[..k], x, a, c);
    StakesForConcat(t[..k] + [x], t[k..], a, c);
  }

  lemma {:induction false} SortedStakesFor(stakes: seq<Stake>, a: Address, c: Coin)
    ensures StakesFor(SortDesc(stakes, BipValueOf), a, c) == StakesFor(stakes, a, c)
  {
    hide SortDesc, Insert;
    if stakes == [] {
      SortNothing<Stake>(BipValueOf);
    } else {
      var (n, x) := (|stakes| - 1, stakes[|stakes| - 1]);
      SortedStakesFor(stakes[..n], a, c);
      SortStep(stakes, BipValueOf);
      InsertStakeFor(SortDesc(stakes[..n], BipValueOf), x, a, c);
    }
  }

  lemma {:induction false} ToFundsFor(stakes: seq<Stake>, key: Key, a: Address, c: Coin)
    ensures FundsFor(ToFunds(stakes, key, 100), a, c) == StakesFor(stakes, a, c)
  {
    hide Kept;
    if stakes != [] {
      var n := |stakes| - 1;
      ToFundsFor(stakes[..n], key, a, c);
      WholeKept(stakes[n].value);
      assert ToFunds(stakes, key, 100)[..n] == ToFunds(stakes[..n], key, 100);
    }
  }

  /** What the dropped candidates' stakes were worth to an account is frozen for it. */
  lemma {:induction false} DroppedFundsFor(dropped: seq<Candidate>, a: Address, c: Coin)
    ensures FundsFor(DroppedFunds(dropped), a, c) == StakedFor(dropped, a, c)
  {
    if dropped != [] {
      var (n, x) := (|dropped| - 1, dropped[|dropped| - 1]);
      DroppedFundsFor(dropped[..n], a, c);
      hide FundsFor, ToFunds, StakesFor;
      FundsForConcat(DroppedFunds(dropped[..n]), ToFunds(x.stakes, x.key, 100), a, c);
      ToFundsFor(x.stakes, x.key, a, c);
    } else {
      assert FundsFor([], a, c) == 0;
    }
  }

  lemma WithFundsFor(funds: map<nat, seq<FrozenFund>>, h: nat, list: seq<FrozenFund>, a: Address, c: Coin)
    ensures FrozenFor(WithFunds(funds, h, list), a, c) == FrozenFor(funds, a, c) + FundsFor(list, a, c)
  {
    hide FrozenFor;
    if list != [] {
      AddedFor(funds, h, list, a, c);
    }
  }

  /** Dropping candidates makes nobody richer or poorer. */
  lemma ClearCandidatesWealth(b: Books, maxCandidates: nat, r: Books)
    requires |b.candidates| > maxCandidates && |SortDesc(b.candidates, TotalOf)| == |b.candidates|
    requires var sorted := SortDesc(b.candidates, TotalOf);
             r == b.(candidates := sorted[..maxCandidates],
                     funds := WithFunds(b.funds, b.height + UNBOND_PERIOD, DroppedFunds(sorted[maxCandidates..])))
    ensures WealthKept(b, r)
  {
    hide SortDesc, WithFunds, DroppedFunds, StakedFor, FrozenFor, TotalOf, BalanceOf;
    var sorted := SortDesc(b.candidates, TotalOf);
    var dropped := sorted[maxCandidates..];
    assert sorted == sorted[..maxCandidates] + dropped;
    forall a, c
      ensures Wealth(r, a, c) == Wealth(b, a, c)
    {
      SortedCandidatesFor(b.candidates, a, c);
      StakedForConcat(sorted[..maxCandidates], dropped, a, c);
      DroppedFundsFor(dropped, a, c);
      WithFundsFor(b.funds, b.height + UNBOND_PERIOD, DroppedFunds(dropped), a, c);
    }
  }

  lemma {:induction false} CreditAllFor(b: Balances, stakes: seq<Stake>, a: Address, c: Coin)
    ensures BalanceOf(CreditAll(b, stakes), a, c) == BalanceOf(b, a, c) + StakesFor(stakes, a, c)
  {
    if stakes != [] {
      CreditAllFor(b, stakes[..|stakes| - 1], a, c);
    }
  }

  lemma KeptFor(stakes: seq<Stake>, a: Address, c: Coin)
    ensures StakesFor(KeptStakes(stakes), a, c) + StakesFor(ReturnedStakes(stakes), a, c) == StakesFor(stakes, a, c)
  {
    hide SortDesc;
    SortDescSorts(stakes, BipValueOf);
    if |stakes| > MAX_DELEGATORS {
      var sorted := SortDesc(stakes, BipValueOf);
      assert sorted == sorted[..MAX_DELEGATORS] + sorted[MAX_DELEGATORS..];
      SortedStakesFor(stakes, a, c);
      StakesForConcat(sorted[..MAX_DELEGATORS], sorted[MAX_DELEGATORS..], a, c);
    } else {
      assert StakesFor([], a, c) == 0;
    }
    hide StakesFor;
  }

  lemma {:induction false} CappedFor(cs: seq<Candidate>, ds: seq<Candidate>, a: Address, c: Coin)
    requires |ds| == |cs| && forall i :: 0 <= i < |cs| ==> ds[i] == Capped(cs[i])
    ensures StakedFor(ds, a, c) + StakesFor(AllReturned(cs), a, c) == StakedFor(cs, a, c)
  {
    hide KeptStakes, ReturnedStakes;
    if cs == [] {
      assert StakesFor([], a, c) == 0;
    } else {
      var n := |cs| - 1;
      CappedFor(cs[..n], ds[..n], a, c);
      hide StakesFor;
      KeptFor(cs[n].stakes, a, c);
      StakesForConcat(AllReturned(cs[..n]), ReturnedStakes(cs[n].stakes), a, c);
    }
  }

  /** Returning stakes makes nobody richer or poorer. */
  lemma ClearStakesWealth(b: Books, r: Books)
    requires r == b.(candidates := r.candidates, balances := CreditAll(b.balances, AllReturned(b.candidates)))
    requires |r.candidates| == |b.candidates|
    requires forall i :: 0 <= i < |r.candidates| ==> r.candidates[i] == Capped(b.candidates[i])
    ensures WealthKept(b, r)
  {
    hide AllReturned, KeptStakes, CreditAll, StakedFor, StakesFor, FrozenFor, BalanceOf;
    forall a, c
      ensures Wealth(r, a, c) == Wealth(b, a, c)
    {
      CappedFor(b.candidates, r.candidates, a, c);
      CreditAllFor(b.balances, AllReturned(b.candidates), a, c);
    }
  }

  lemma RecalculationWealth(b: Books, r: Books)
    requires r == b.(candidates := r.candidates, validators := r.validators, stakeCache := r.stakeCache)
    requires RevaluedUpTo(r.stakeCache, b.candidates, r.candidates, |b.candidates|)
    ensures WealthKept(b, r)
  {
    hide StakedFor, StakesFor, FrozenFor, BalanceOf, BipOf, BipSum;
    forall a, c
      ensures Wealth(r, a, c) == Wealth(b, a, c)
    {
      forall i | 0 <= i < |b.candidates|
        ensures StakesFor(r.candidates[i].stakes, a, c) == StakesFor(b.candidates[i].stakes, a, c)
      {
        StakesForSame(b.candidates[i].stakes, Valued(r.stakeCache, b.candidates[i].stakes), a, c);
      }
      StakedForSame(b.candidates, r.candidates, a, c);
    }
  }

  lemma WealthItself(b: Books, r: Books)
    requires r.balances == b.balances && r.candidates == b.candidates && r.funds == b.funds
    ensures WealthKept(b, r)
  {
  }

  /** Everything before the election: revalue, cap the candidates, cap the stakes. */
  method PrepareElection(s: StateDB, p: Prices, maxCandidates: nat)
    requires Sound(s.candidates, s.validators) && CacheSound(s.stakeCache)
    requires CoinsKnown(s.State())
    modifies s
    ensures Electable(s.candidates) && |s.candidates| <= Min(maxCandidates, |old(s.candidates)|)
    ensures CacheSound(s.stakeCache) && Conserves(old(s.State()), s.State()) && WealthKept(old(s.State()), s.State())
    ensures DistinctValidators(s.validators) && Accrued(s.validators) == Accrued(old(s.validators))
    ensures forall k :: 0 <= k < |s.validators| ==> s.validators[k].accum >= 0 && |s.validators[k].absent| == ABSENT_WINDOW
    ensures SameAccruals(old(s.validators), s.validators) && SameAbsences(old(s.validators), s.validators)
    ensures forall i :: 0 <= i < |s.candidates| ==> |s.candidates[i].stakes| <= MAX_DELEGATORS
    ensures CoinsKnown(s.State()) && s.coins == old(s.coins) && Descends(old(s.candidates), s.candidates)
    ensures Prepared(p, old(s.State()), maxCandidates, s.candidates)
    ensures FrozenOnlyAt(old(s.funds), s.funds, s.height + 518400)
    ensures s.height == old(s.height) && s.pool == old(s.pool) && s.nonces == old(s.nonces)
    ensures s.State() == old(s.State()).(balances := s.balances, candidates := s.candidates, validators := s.validators,
                                         funds := s.funds, stakeCache := s.stakeCache)
  {
    hide Conserves, Sound, CacheSound, AllKnown, FundsKnown, BalancesKnown, Electable, RevaluedUpTo, TotalsUpTo, Extends, Grows,
         SortDesc, TotalsExact, WithFunds, DroppedFunds, AllReturned, CreditAll, KeptStakes, SoundCandidate,
         Staked, Accrued, BipSum, Descends, WealthKept, BaseValued, KeptLargest, StakesCapped, FrozenOnlyAt;
    ghost var b0 := s.State();
    RecalculateTotalStakeValues(s, p);
    ghost var b1 := s.State();
    SoundCandidates(b0.candidates, b0.validators);
    CacheStaysSound(p, b0.coins, b0.candidates, b0.stakeCache, b1.stakeCache);
    RevaluedSize(b1.stakeCache, b0.candidates, b1.candidates);
    RecalculationKeeps(b0.candidates, b1.candidates, b0.validators, b1.validators, b1.stakeCache);
    RecalculationConserves(b0, b1);
    RecalculationWealth(b0, b1);
    SoundElectable(b1.candidates, b1.validators);
    SoundAccruals(b1.candidates, b1.validators);
    SoundParts(b1.candidates, b1.validators);
    AccrualsKept(b0.candidates, b1.candidates, b0.validators, b1.validators);
    ClearCandidates(s, maxCandidates);
    ghost var b2 := s.State();
    if |b1.candidates| > maxCandidates {
      ClearCandidatesConserves(b1, maxCandidates, b2);
      ClearCandidatesWealth(b1, maxCandidates, b2);
      SortedKeepsLargest(b1.candidates, maxCandidates);
      FrozenOnlyThere(b1.funds, b1.height + UNBOND_PERIOD, DroppedFunds(SortDesc(b1.candidates, TotalOf)[maxCandidates..]));
      SortDescSorts(b1.candidates, TotalOf);
      PrefixSubset(SortDesc(b1.candidates, TotalOf), maxCandidates);
      ElectableSubset(b1.candidates, b2.candidates);
    } else {
      ConservesItself(b1);
      WealthItself(b1, b2);
      KeptWhole(b1, maxCandidates);
    }
    ConservesTrans(b0, b1, b2);
    WealthTrans(b0, b1, b2);
    ClearStakes(s);
    ClearStakesKeeps(b2, s.State());
    ConservesTrans(b0, b2, s.State());
    ClearStakesWealth(b2, s.State());
    WealthTrans(b0, b2, s.State());
    CappedElectable(b2.candidates, s.candidates);
    RevaluedKnown(b0.coins, b1.stakeCache, b0.candidates, b1.candidates);
    if |b1.candidates| > maxCandidates {
      KnownSubset(b0.coins, b1.candidates, b2.candidates);
      ClearedFundsKnown(b1, maxCandidates, b2);
    }
    CappedKnown(b0.coins, b2.candidates, s.candidates);
    ReturnedKnown(b0.coins, b2.candidates);
    CreditAllKnown(b0.coins, b0.balances, AllReturned(b2.candidates));
    PreparedDescends(b1.stakeCache, b0.candidates, b1.candidates, b2.candidates, s.candidates);
    forall i | 0 <= i < |s.candidates|
      ensures |s.candidates[i].stakes| <= MAX_DELEGATORS && StakesCapped(b2.candidates[i], s.candidates[i])
    {
      KeptStakesFacts(b2.candidates[i].stakes);
      CappedIs(b2.candidates[i]);
    }
    assert PreparedFrom(p, b0, maxCandidates, b1.candidates, b2.candidates, s.candidates);
  }

  lemma KeptWhole(b: Books, most: nat)
    requires |b.candidates| <= most
    ensures KeptLargest(b.candidates, most, b.candidates) && FrozenOnlyAt(b.funds, b.funds, b.height + 518400)
  {
  }

  lemma PreparedDescends(cache: map<Coin, CachedStake>, cs: seq<Candidate>, ds: seq<Candidate>, es: seq<Candidate>,
                         now: seq<Candidate>)
    requires RevaluedUpTo(cache, cs, ds, |cs|) && multiset(es) <= multiset(ds)
    requires |now| == |es| && forall i :: 0 <= i < |es| ==> now[i] == Capped(es[i])
    ensures Descends(cs, now)
  {
    DescendsEach(cs, ds);
    DescendsSubset(ds, es);
    DescendsEach(es, now);
    hide Stems, RevaluedUpTo;
    DescendsTrans(cs, ds, es);
    DescendsTrans(cs, es, now);
  }

  lemma RevaluedKnown(coins: map<Coin, CoinData>, cache: map<Coin, CachedStake>, cs: seq<Candidate>, ds: seq<Candidate>)
    requires AllKnown(coins, cs) && RevaluedUpTo(cache, cs, ds, |cs|)
    ensures AllKnown(coins, ds)
  {
    hide BipOf, BipSum;
    forall i | 0 <= i < |ds|
      ensures KnownStakes(coins, ds[i].stakes)
    {
      assert KnownStakes(coins, cs[i].stakes);
    }
  }

  lemma KnownSubset(coins: map<Coin, CoinData>, cs: seq<Candidate>, ds: seq<Candidate>)
    requires AllKnown(coins, cs) && multiset(ds) <= multiset(cs)
    ensures AllKnown(coins, ds)
  {
    forall i | 0 <= i < |ds|
      ensures KnownStakes(coins, ds[i].stakes)
    {
      assert ds[i] in multiset(ds) && ds[i] in multiset(cs);
      assert ds[i] in cs;
    }
  }

  lemma CappedKnown(coins: map<Coin, CoinData>, cs: seq<Candidate>, ds: seq<Candidate>)
    requires AllKnown(coins, cs) && |ds| == |cs| && forall i :: 0 <= i < |cs| ==> ds[i] == Capped(cs[i])
    ensures AllKnown(coins, ds)
  {
    forall i | 0 <= i < |ds|
      ensures KnownStakes(coins, ds[i].stakes)
    {
      assert KnownStakes(coins, cs[i].stakes);
      KeptKnown(coins, cs[i].stakes);
    }
  }

  lemma KeptKnown(coins: map<Coin, CoinData>, stakes: seq<Stake>)
    requires KnownStakes(coins, stakes)
    ensures KnownStakes(coins, KeptStakes(stakes))
  {
    hide SortDesc;
    SortedMembers(stakes, BipValueOf);
    var kept := KeptStakes(stakes);
    forall j | 0 <= j < |kept|
      ensures kept[j].coin == BASE || kept[j].coin in coins
    {
      assert kept[j] in stakes by {
        if |stakes| > MAX_DELEGATORS {
          assert kept[j] == SortDesc(stakes, BipValueOf)[j];
        }
      }
    }
  }

  ghost predicate SameAccruals(vals: seq<Validator>, now: seq<Validator>) {
    |now| == |vals| && forall k :: 0 <= k < |vals| ==> now[k].key == vals[k].key && now[k].accum == vals[k].accum
  }

  ghost predicate SameAbsences(vals: seq<Validator>, now: seq<Validator>) {
    |now| == |vals| && forall k :: 0 <= k < |vals| ==> now[k].absent == vals[k].absent
  }

  lemma AccrualsKept(cs: seq<Candidate>, ds: seq<Candidate>, vals: seq<Validator>, now: seq<Validator>)
    requires |ds| == |cs| && TotalsUpTo(cs, ds, vals, now, |cs|)
    ensures SameAccruals(vals, now) && SameAbsences(vals, now)
  {
  }

  lemma RevaluedSize(cache: map<Coin, CachedStake>, cs: seq<Candidate>, ds: seq<Candidate>)
    requires RevaluedUpTo(cache, cs, ds, |ds|)
    ensures |ds| == |cs|
  {
  }

  lemma SoundCandidates(cs: seq<Candidate>, vals: seq<Validator>)
    requires Sound(cs, vals)
    ensures forall i :: 0 <= i < |cs| ==> SoundCandidate(cs[i])
  {
  }

  lemma {:induction false} LeavingSame(vals: seq<Validator>, was: seq<Validator>, now: seq<Validator>)
    requires SameAccruals(vals, was)
    ensures Leaving(was, now) == Leaving(vals, now)
  {
    if vals != [] {
      LeavingSame(vals[..|vals| - 1], was[..|was| - 1], now);
    }
  }

  lemma ElectedOnline(cs: seq<Candidate>, ds: seq<Candidate>, chosen: seq<Candidate>, now: seq<Validator>)
    requires DistinctCandidates(cs) && Descends(cs, ds) && multiset(chosen) <= multiset(ds)
    requires |now| == |chosen| && forall i :: 0 <= i < |chosen| ==> now[i].key == chosen[i].key && chosen[i].online
    ensures forall i :: 0 <= i < |now| ==> KeyOnline(cs, now[i].key)
  {
    hide Stems, KeyOnline;
    DescendsSubset(ds, chosen);
    DescendsTrans(cs, ds, chosen);
    forall i | 0 <= i < |now|
      ensures KeyOnline(cs, now[i].key)
    {
      assert Stems(cs, chosen[i]);
      StemsOnline(cs, chosen[i]);
    }
  }

  /** The seat of a candidate: its own data, and what the validator with its key had accrued and missed, if there was one. */
  ghost predicate SeatOf(vals: seq<Validator>, c: Candidate, v: Validator) {
    v == Validator(c.key, c.rewardAddress, c.commission, c.totalBip, v.accum, v.absent, false)
    && (forall k :: 0 <= k < |vals| && vals[k].key == c.key ==> v.accum == vals[k].accum && v.absent == vals[k].absent)
    && ((forall k :: 0 <= k < |vals| ==> vals[k].key != c.key) ==> v.accum == 0 && v.absent == seq(24, _ => false))
  }

  lemma ElectedSeats(vals: seq<Validator>, was: seq<Validator>, chosen: seq<Candidate>, now: seq<Validator>)
    requires SameAccruals(vals, was) && SameAbsences(vals, was) && DistinctValidators(was) && |now| == |chosen|
    requires forall i :: 0 <= i < |chosen| ==> now[i] == Elected(was, chosen[i])
    ensures forall i :: 0 <= i < |chosen| ==> SeatOf(vals, chosen[i], now[i])
  {
    hide ValidatorIndex;
    forall i, k | 0 <= i < |chosen| && 0 <= k < |vals| && vals[k].key == chosen[i].key
      ensures now[i].accum == vals[k].accum && now[i].absent == vals[k].absent
    {
      assert was[k].key == chosen[i].key;
      assert ValidatorIndex(was, chosen[i].key) == k;
    }
  }

  /**
   * Replaces the validators. The stake invariant is re-established, and all that is lost to the ledger
   * is what validators that are not elected again had accrued.
   */
  method UpdateValidators(s: StateDB, p: Prices, start: nat, arrange: seq<Candidate> -> seq<Candidate>)
    returns (chosen: seq<Candidate>)
    requires Sound(s.candidates, s.validators) && CacheSound(s.stakeCache)
    requires CoinsKnown(s.State())
    requires Permutes(arrange)
    modifies s
    ensures Sound(s.candidates, s.validators) && CacheSound(s.stakeCache)
    ensures |s.validators| == |chosen| <= ValidatorsCount(s.height, start)
    ensures |s.candidates| <= 3 * ValidatorsCount(s.height, start)
    ensures forall i :: 0 <= i < |chosen| ==>
      s.validators[i].key == chosen[i].key && s.validators[i].totalBip == chosen[i].totalBip > 0
      && !s.validators[i].toDrop
    ensures forall i :: 0 <= i < |s.candidates| ==> |s.candidates[i].stakes| <= MAX_DELEGATORS
    ensures Base(s.State()) == Base(old(s.State())) - Leaving(old(s.validators), s.validators)
    ensures CoinsKnown(s.State()) && s.coins == old(s.coins)
    ensures forall c :: c in s.coins && c != BASE ==> Gap(s.State(), c) == Gap(old(s.State()), c)
    ensures s.height == old(s.height) && s.pool == old(s.pool) && WealthKept(old(s.State()), s.State())
    ensures forall i :: 0 <= i < |s.validators| ==> KeyOnline(old(s.candidates), s.validators[i].key)
    ensures ElectedFrom(s.candidates, ValidatorsCount(s.height, start), s.validators)
    ensures Prepared(p, old(s.State()), 3 * ValidatorsCount(s.height, start), s.candidates)
    ensures FrozenOnlyAt(old(s.funds), s.funds, s.height + 518400) && multiset(chosen) <= multiset(s.candidates)
    ensures forall i :: 0 <= i < |chosen| ==> SeatOf(old(s.validators), chosen[i], s.validators[i])
    ensures s.State() == old(s.State()).(balances := s.balances, candidates := s.candidates, validators := s.validators,
                                         funds := s.funds, stakeCache := s.stakeCache)
  {
    hide Sound, CacheSound, AllKnown, FundsKnown, BalancesKnown, Descends, KeyOnline, Electable, Base, Gap,
         Largest, Accrued, Leaving, Elected, Permutes, Online, ElectedFrom, WealthKept, Prepared, FrozenOnlyAt, SeatOf;
    ghost var b0 := s.State();
    SoundParts(b0.candidates, b0.validators);
    PrepareElection(s, p, 3 * ValidatorsCount(s.height, start));
    ghost var b1 := s.State();
    var largest := GetCandidates(s, ValidatorsCount(s.height, start), arrange);
    chosen := Selected(largest, IsPositive);
    ChosenFacts(s.candidates, ValidatorsCount(s.height, start), largest, chosen);
    SetNewValidators(s, chosen);
    ElectedSound(b1.candidates, chosen, b1.validators, s.validators);
    ElectableSubset(b1.candidates, chosen);
    ElectedFields(b1.validators, chosen, s.validators);
    ElectedSeats(b0.validators, b1.validators, chosen, s.validators);
    ElectedAccrual(b1.validators, chosen, s.validators);
    LeavingSame(b0.validators, b1.validators, s.validators);
    ElectedOnline(b0.candidates, b1.candidates, chosen, s.validators);
    SeatsOfLargest(b1.candidates, ValidatorsCount(b1.height, start), largest, chosen, s.validators);
    AccrualLeft(b1, s.State());
    WealthItself(b1, s.State());
    WealthTrans(b0, b1, s.State());
  }

  lemma ElectedFields(vals: seq<Validator>, chosen: seq<Candidate>, now: seq<Validator>)
    requires |now| == |chosen| && forall i :: 0 <= i < |chosen| ==> now[i] == Elected(vals, chosen[i])
    ensures forall i :: 0 <= i < |chosen| ==>
      now[i].key == chosen[i].key && now[i].totalBip == chosen[i].totalBip && !now[i].toDrop
  {
  }

  lemma ChosenFacts(cs: seq<Candidate>, count: nat, largest: seq<Candidate>, chosen: seq<Candidate>)
    requires Largest(Online(cs), count, largest) && chosen == Filter(largest, IsPositive) && Electable(cs)
    ensures multiset(chosen) <= multiset(cs) && |chosen| <= count && DistinctCandidates(chosen)
    ensures forall i :: 0 <= i < |chosen| ==> chosen[i].totalBip > 0 && chosen[i].online
  {
    FilterSubset(cs, IsOnline);
    FilterAll(cs, IsOnline);
    FilterSubset(largest, IsPositive);
    FilterAll(largest, IsPositive);
    hide Filter;
    assert forall i :: 0 <= i < |chosen| ==> IsPositive(chosen[i]);
    ElectableSubset(cs, chosen);
    forall i | 0 <= i < |chosen|
      ensures chosen[i].online
    {
      assert chosen[i] in multiset(chosen) && chosen[i] in multiset(Online(cs));
      var k :| 0 <= k < |Online(cs)| && Online(cs)[k] == chosen[i];
      assert IsOnline(Online(cs)[k]);
    }
  }

  // ---------------------------------------------------------------------------------
  // Who gets a seat
  // ---------------------------------------------------------------------------------

  ghost predicate Seated(c: Candidate, v: Validator) { c.key == v.key && c.online && c.totalBip == v.totalBip > 0 }

  ghost predicate SeatedFrom(cs: seq<Candidate>, v: Validator) { exists j :: 0 <= j < |cs| && Seated(cs[j], v) }

  /** All seats are taken, each by a total at least this large. */
  ghost predicate NoSeatFor(now: seq<Validator>, count: nat, total: int) {
    |now| == count && forall i :: 0 <= i < |now| ==> now[i].totalBip >= total
  }

  /** The seats go to the largest online candidates with a positive total, as many as there are seats. */
  ghost predicate ElectedFrom(cs: seq<Candidate>, count: nat, now: seq<Validator>) {
    |now| <= count
    && (forall i :: 0 <= i < |now| ==> SeatedFrom(cs, now[i]))
    && forall j :: 0 <= j < |cs| && cs[j].online && cs[j].totalBip > 0 && !HasKey(now, cs[j].key) ==>
         NoSeatFor(now, count, cs[j].totalBip)
  }

  lemma SeatsOfLargest(cs: seq<Candidate>, count: nat, largest: seq<Candidate>, chosen: seq<Candidate>,
                       now: seq<Validator>)
    requires Largest(Online(cs), count, largest) && chosen == Filter(largest, IsPositive) && Electable(cs)
    requires |now| == |chosen|
    requires forall i :: 0 <= i < |chosen| ==> now[i].key == chosen[i].key && now[i].totalBip == chosen[i].totalBip
    ensures ElectedFrom(cs, count, now)
  {
    hide Electable, Largest, Online, Filter;
    ChosenFacts(cs, count, largest, chosen);
    forall i | 0 <= i < |now|
      ensures SeatedFrom(cs, now[i])
    {
      assert chosen[i] in multiset(chosen) && chosen[i] in multiset(cs);
      var j :| 0 <= j < |cs| && cs[j] == chosen[i];
      assert Seated(cs[j], now[i]);
    }
    forall j | 0 <= j < |cs| && cs[j].online && cs[j].totalBip > 0 && !HasKey(now, cs[j].key)
      ensures NoSeatFor(now, count, cs[j].totalBip)
    {
      LeftOut(cs, count, largest, chosen, now, j);
    }
  }

  /** A candidate fit for a seat but without one: those chosen are all that were looked at, and none is smaller. */
  lemma LeftOut(cs: seq<Candidate>, count: nat, largest: seq<Candidate>, chosen: seq<Candidate>, now: seq<Validator>, j: nat)
    requires Largest(Online(cs), count, largest) && chosen == Filter(largest, IsPositive)
    requires |now| == |chosen| && j < |cs| && cs[j].online && cs[j].totalBip > 0 && !HasKey(now, cs[j].key)
    requires forall i :: 0 <= i < |chosen| ==> now[i].key == chosen[i].key && now[i].totalBip == chosen[i].totalBip
    ensures NoSeatFor(now, count, cs[j].totalBip)
  {
    var c := cs[j];
    FilterKeeps(cs, IsOnline, c);
    if c in largest {
      PositiveSeated(largest, chosen, now, c);
      assert false;
    }
    hide Filter;
    var active := Online(cs);
    assert c in multiset(active) - multiset(largest);
    assert |multiset(active)| == |active| && |multiset(largest)| == |largest|;
    SmallerPart(multiset(largest), multiset(active), c);
    forall x | x in largest
      ensures IsPositive(x)
    {
    }
    FilterWhole(largest, IsPositive);
  }

  lemma PositiveSeated(largest: seq<Candidate>, chosen: seq<Candidate>, now: seq<Validator>, c: Candidate)
    requires chosen == Filter(largest, IsPositive) && c in largest && c.totalBip > 0
    requires |now| == |chosen| && forall i :: 0 <= i < |chosen| ==> now[i].key == chosen[i].key
    ensures HasKey(now, c.key)
  {
    FilterKeeps(largest, IsPositive, c);
    var i :| 0 <= i < |chosen| && chosen[i] == c;
    assert now[i].key == c.key;
  }

  lemma SmallerPart(m: multiset<Candidate>, n: multiset<Candidate>, c: Candidate)
    requires m <= n && c in n - m
    ensures |m| < |n|
  {
    assert n == m + (n - m);
  }

  lemma {:induction false} FilterKeeps<T>(s: seq<T>, f: T -> bool, x: T)
    requires x in s && f(x)
    ensures x in Filter(s, f)
  {
    var n := |s| - 1;
    if x in s[..n] {
      FilterKeeps(s[..n], f, x);
    }
  }

  lemma {:induction false} FilterWhole<T>(s: seq<T>, f: T -> bool)
    requires forall x :: x in s ==> f(x)
    ensures Filter(s, f) == s
  {
    if s != [] {
      var n := |s| - 1;
      FilterWhole(s[..n], f);
      assert s == s[..n] + [s[n]];
    }
  }

  /** The candidate with the key is fit for a seat, and not all seats are taken by totals at least as large. */
  ghost predicate LargeEnough(cs: seq<Candidate>, count: nat, now: seq<Validator>, key: Key) {
    exists j :: 0 <= j < |cs| && cs[j].key == key && cs[j].online && cs[j].totalBip > 0
                && !NoSeatFor(now, count, cs[j].totalBip)
  }

  /** The candidate with the key is online and has a positive total. */
  ghost predicate Fit(cs: seq<Candidate>, key: Key) {
    exists j :: 0 <= j < |cs| && cs[j].key == key && cs[j].online && cs[j].totalBip > 0
  }

  /** Whoever is large enough is elected, and whoever is elected is fit; only a tie for the last seat lies between. */
  lemma SeatFor(cs: seq<Candidate>, count: nat, now: seq<Validator>, key: Key)
    requires ElectedFrom(cs, count, now)
    ensures LargeEnough(cs, count, now, key) ==> HasKey(now, key)
    ensures HasKey(now, key) ==> Fit(cs, key)
  {
    if HasKey(now, key) {
      var i :| 0 <= i < |now| && now[i].key == key;
      assert SeatedFrom(cs, now[i]);
      var k :| 0 <= k < |cs| && Seated(cs[k], now[i]);
    }
  }

  lemma AccrualLeft(b: Books, r: Books)
    requires r == b.(validators := r.validators)
    ensures Base(r) == Base(b) - Accrued(b.validators) + Accrued(r.validators)
    ensures forall c :: c in b.coins ==> Gap(r, c) == Gap(b, c)
  {
  }
}
