// Blocks end to end, and what any run of them keeps: the stake invariant, every custom coin's gap,
// and a base coin supply that follows the emission schedule.
module Chain {
  import opened Blocks
  import opened Common
  import opened Conversion
  import opened Departures
  import opened Elections
  import opened FundPenalty
  import opened Ledger
  import opened Liquidation
  import opened Marks
  import opened Owners
  import opened Payout
  import opened Slashing
  import opened StakeTx
  import opened Steps
  import opened StateDb
  import opened Staking
  import opened ValidatorSet
  import Emission
  import RunTx

  // ---------------------------------------------------------------------------------
  // Switching candidates on and off
  // ---------------------------------------------------------------------------------

  method SetStatus(s: StateDB, key: Key, online: bool)
    modifies s
    ensures s.State() == old(s.State()).(candidates := s.candidates)
    ensures OnlySwitched(old(s.candidates), s.candidates, key, online)
  {
    for i := 0 to |s.candidates|
      invariant s.State() == old(s.State()).(candidates := s.candidates) && |s.candidates| == |old(s.candidates)|
      invariant forall k :: 0 <= k < i ==>
        s.candidates[k] == if old(s.candidates)[k].key == key then old(s.candidates)[k].(online := online)
                           else old(s.candidates)[k]
      invariant forall k :: i <= k < |s.candidates| ==> s.candidates[k] == old(s.candidates)[k]
    {
      if s.candidates[i].key == key {
        s.candidates := s.candidates[i := s.candidates[i].(online := online)];
      }
    }
  }

  method SetCandidateOnline(s: StateDB, key: Key)
    modifies s
    ensures s.State() == old(s.State()).(candidates := s.candidates)
    ensures OnlySwitched(old(s.candidates), s.candidates, key, true)
  {
    SetStatus(s, key, true);
  }

  /** Its validator, if it has one, leaves with the block. */
  method SetCandidateOffline(s: StateDB, key: Key)
    modifies s
    ensures s.State() == old(s.State()).(candidates := s.candidates, validators := s.validators)
    ensures OnlySwitched(old(s.candidates), s.candidates, key, false)
    ensures OnlyDropped(old(s.validators), s.validators, key)
  {
    SetStatus(s, key, false);
    for i := 0 to |s.validators|
      invariant s.State() == old(s.State()).(candidates := s.candidates, validators := s.validators)
      invariant OnlySwitched(old(s.candidates), s.candidates, key, false) && |s.validators| == |old(s.validators)|
      invariant forall k :: 0 <= k < i ==>
        s.validators[k] == if old(s.validators)[k].key == key then old(s.validators)[k].(toDrop := true)
                           else old(s.validators)[k]
      invariant forall k :: i <= k < |s.validators| ==> s.validators[k] == old(s.validators)[k]
    {
      if s.validators[i].key == key {
        s.validators := s.validators[i := s.validators[i].(toDrop := true)];
      }
    }
  }

  lemma {:induction false} SameStaked(cs: seq<Candidate>, ds: seq<Candidate>, c: Coin)
    requires |ds| == |cs| && forall i :: 0 <= i < |cs| ==> ds[i].stakes == cs[i].stakes
    ensures Ledger.Staked(ds, c) == Ledger.Staked(cs, c)
  {
    if cs != [] {
      SameStaked(cs[..|cs| - 1], ds[..|ds| - 1], c);
    }
  }

  lemma SwitchedKeeps(b: Books, r: Books, key: Key, online: bool)
    requires Orderly(b) && r == b.(candidates := r.candidates, validators := r.validators)
    requires OnlySwitched(b.candidates, r.candidates, key, online)
    requires r.validators == b.validators || OnlyDropped(b.validators, r.validators, key)
    ensures Orderly(r) && Conserves(b, r)
  {
    SwitchedSound(b.candidates, r.candidates, b.validators, r.validators, key, online);
    hide Sound, CacheSound, Held, Reserves, Ledger.Staked, Frozen, Accrued;
    forall c
      ensures Ledger.Staked(r.candidates, c) == Ledger.Staked(b.candidates, c)
    {
      SameStaked(b.candidates, r.candidates, c);
    }
    AccruedSame(b.validators, r.validators);
    forall i | 0 <= i < |r.candidates|
      ensures KnownStakes(r.coins, r.candidates[i].stakes)
    {
      assert KnownStakes(b.coins, b.candidates[i].stakes);
    }
  }

  lemma SwitchedSound(cs: seq<Candidate>, ds: seq<Candidate>, vals: seq<Validator>, now: seq<Validator>, key: Key,
                      online: bool)
    requires Sound(cs, vals) && OnlySwitched(cs, ds, key, online) && (now == vals || OnlyDropped(vals, now, key))
    ensures Sound(ds, now)
  {
    hide BipSum, CandidateIndex;
    forall i | 0 <= i < |cs|
      ensures SoundCandidate(ds[i])
    {
      assert SoundCandidate(cs[i]);
    }
    SoundIfNoMore(cs, ds, vals);
    forall i | 0 <= i < |now|
      ensures Backed(now[i], ds)
    {
      assert Backed(vals[i], ds);
    }
  }

  // ---------------------------------------------------------------------------------
  // Beginning a block
  // ---------------------------------------------------------------------------------

  /** Owners credited with their funds. */
  function Released(b: Balances, list: seq<FrozenFund>): Balances {
    if list == [] then b
    else
      var f := list[|list| - 1];
      Credit(Released(b, list[..|list| - 1]), f.owner, f.coin, f.value)
  }

  lemma {:induction false} ReleasedHeld(b: Balances, list: seq<FrozenFund>, c: Coin)
    ensures Held(Released(b, list), c) == Held(b, c) + FundsOf(list, c)
  {
    if list != [] {
      var (n, f) := (|list| - 1, list[|list| - 1]);
      ReleasedHeld(b, list[..n], c);
      HeldCredit(Released(b, list[..n]), f.owner, f.coin, f.value, c);
    }
  }

  lemma {:induction false} ReleasedBalance(b: Balances, list: seq<FrozenFund>, a: Address, c: Coin)
    ensures BalanceOf(Released(b, list), a, c) == BalanceOf(b, a, c) + FundsFor(list, a, c)
  {
    if list != [] {
      ReleasedBalance(b, list[..|list| - 1], a, c);
    }
  }

  /** What is released was frozen for those who get it. */
  lemma ReleasedIs(b: Books)
    ensures b.height in b.funds ==>
      ReleasedOutcome(b, b.(balances := Released(b.balances, b.funds[b.height]), funds := b.funds - {b.height}))
    ensures b.height !in b.funds ==> ReleasedOutcome(b, b)
  {
    hide StakedFor, FrozenFor, FundsFor, Released, BalanceOf;
    if b.height in b.funds {
      forall a, c {
        ReleasedBalance(b.balances, b.funds[b.height], a, c);
      }
      forall a, c {
        RemovedFor(b.funds, b.height, a, c);
      }
    } else {
      NothingReleased(b);
    }
  }

  lemma NothingReleased(b: Books)
    requires b.height !in b.funds
    ensures b.funds - {b.height} == b.funds && forall a, c :: FundsFor(FundsAt(b.funds, b.height), a, c) == 0
  {
  }

  /** Funds frozen until this block go back to their owners. */
  method ReleaseFunds(s: StateDB)
    modifies s
    ensures s.State() == if s.height in old(s.funds)
      then old(s.State()).(balances := Released(old(s.balances), old(s.funds)[s.height]), funds := old(s.funds) - {s.height})
      else old(s.State())
    ensures ReleasedOutcome(old(s.State()), s.State())
  {
    hide ReleasedOutcome;
    ReleasedIs(s.State());
    if s.height in s.funds {
      var list := s.funds[s.height];
      for i := 0 to |list|
        invariant s.State() == old(s.State()).(balances := Released(old(s.balances), list[..i]))
      {
        assert list[..i + 1][..i] == list[..i];
        s.AddBalance(list[i].owner, list[i].coin, list[i].value);
      }
      assert list[..|list|] == list;
      s.funds := s.funds - {s.height};
    }
  }

  lemma ReleasedConserves(b: Books)
    requires b.height in b.funds
    ensures Conserves(b, b.(balances := Released(b.balances, b.funds[b.height]), funds := b.funds - {b.height}))
  {
    hide Held, Reserves, Ledger.Staked, Accrued, FundsOf;
    var list := b.funds[b.height];
    forall c
      ensures Held(Released(b.balances, list), c) + Frozen(b.funds - {b.height}, c) == Held(b.balances, c) + Frozen(b.funds, c)
    {
      ReleasedHeld(b.balances, list, c);
      SumWithout(FundMap(b.funds, c), b.height);
      assert FundMap(b.funds, c) - {b.height} == FundMap(b.funds - {b.height}, c);
    }
  }

  /** A validator whose record of absences changes is backed as before. */
  lemma PresentSound(cs: seq<Candidate>, vals: seq<Validator>, now: seq<Validator>)
    requires Sound(cs, vals) && |now| == |vals|
    requires forall k :: 0 <= k < |vals| ==> now[k] == vals[k].(absent := now[k].absent) && |now[k].absent| == ABSENT_WINDOW
    ensures Sound(cs, now) && Accrued(now) == Accrued(vals)
  {
    AccruedSame(vals, now);
    hide BipSum, SoundCandidate, CandidateIndex, Accrued;
    forall i | 0 <= i < |now|
      ensures Backed(now[i], cs)
    {
      assert Backed(vals[i], cs);
    }
  }

  lemma PresentKeeps(b: Books, r: Books, key: Key)
    requires Orderly(b) && r == b.(validators := r.validators)
    requires forall k :: 0 <= k < |b.validators| ==> |b.validators[k].absent| == ABSENT_WINDOW
    requires OnlyPresent(b.validators, r.validators, key, b.height)
    ensures Orderly(r) && Conserves(b, r)
  {
    hide Sound, CacheSound, AllKnown, FundsKnown, BalancesKnown, Held, Reserves, Ledger.Staked, Frozen, Accrued;
    PresentSound(b.candidates, b.validators, r.validators);
  }

  /** Marks a validator as having signed, or penalizes it. */
  method CountVote(s: StateDB, p: Prices, vote: Vote, ghost b: Books, ghost votes: seq<Vote>)
    requires Orderly(s.State()) && Voted(b, votes, s.State())
    modifies s
    ensures Orderly(s.State()) && Conserves(old(s.State()), s.State()) && s.pool == old(s.pool)
    ensures Voted(b, votes + [vote], s.State()) && VoteOutcome(p, old(s.State()), vote, s.State())
  {
    hide Sound, AllKnown, FundsKnown, BalancesKnown, CacheSound, Conserves, AbsentBooks, AbsentOutcome, VotedSeat;
    ghost var was := s.State();
    if vote.signed {
      SoundAccruals(s.candidates, s.validators);
      SetValidatorPresent(s, vote.key);
      PresentKeeps(was, s.State(), vote.key);
      SignedVote(b, votes, was, s.State(), vote.key);
    } else {
      SetValidatorAbsent(s, p, vote.key);
      PenaltyKeepsRest(p, was, vote.key, s.State());
      MissingVoteCounted(p, b, votes, was, s.State(), vote.key);
    }
    assert vote == Vote(vote.key, vote.signed);
  }

  lemma MissingVoteCounted(p: Prices, b: Books, votes: seq<Vote>, was: Books, now: Books, key: Key)
    requires Orderly(was) && Voted(b, votes, was)
    requires forall vi :: 0 <= vi < |was.validators| && was.validators[vi].key == key ==>
      CandidateIndex(was.candidates, key) < |was.candidates| && |was.validators[vi].absent| == ABSENT_WINDOW
      && now == AbsentBooks(p, was, vi, CandidateIndex(was.candidates, key))
    requires (forall vi :: 0 <= vi < |was.validators| ==> was.validators[vi].key != key) ==> now == was
    ensures Voted(b, votes + [Vote(key, false)], now)
  {
    hide Sound, AllKnown, FundsKnown, BalancesKnown, CacheSound, AbsentBooks, VotedSeat, CandidateIndex;
    if vi :| 0 <= vi < |was.validators| && was.validators[vi].key == key {
      MissingVote(p, b, votes, was, now, vi);
    } else {
      StrangersVote(b, votes, was, Vote(key, false));
    }
  }

  /** Penalizes what a byzantine validator's candidate has at stake and what was unbonded from it. */
  method Penalize(s: StateDB, p: Prices, key: Key, ghost b: Books, ghost votes: seq<Vote>, ghost keys: seq<Key>)
    requires Orderly(s.State()) && Accused(b, votes, keys, s.State())
    modifies s
    ensures Orderly(s.State()) && Conserves(old(s.State()), s.State()) && s.pool == old(s.pool)
    ensures Accused(b, votes, keys + [key], s.State()) && AccusedOutcome(p, old(s.State()), key, s.State())
  {
    hide Sound, AllKnown, FundsKnown, BalancesKnown, CacheSound, Conserves, PunishedBooks, PunishedFrom, Accused,
         FundsOutcome, EvidenceOutcome;
    ghost var was := s.State();
    ConservesItself(was);
    var ci := CandidateIndex(s.candidates, key);
    if ci == |s.candidates| || !s.candidates[ci].online {
      IdleEvidence(b, votes, keys, was, key);
      return;
    }
    PunishFrozenFunds(s, p, s.height, s.height + UNBOND_PERIOD, key);
    ghost var mid := s.State();
    KnownStill(was.coins, mid.coins, mid.candidates);
    KnownByKeys(was.coins, mid.coins, mid.balances);
    PunishByzantineValidator(s, p, key);
    PunishKeepsRest(p, mid, key, s.State());
    Evidence(p, b, votes, keys, was, mid, s.State(), key);
    assert StakesOutcome(p, was, mid, key, s.State());
    ConservesTrans(was, mid, s.State());
  }

  lemma KnownStill(coins: map<Coin, CoinData>, now: map<Coin, CoinData>, cs: seq<Candidate>)
    requires AllKnown(coins, cs) && now.Keys == coins.Keys
    ensures AllKnown(now, cs)
  {
    forall i | 0 <= i < |cs|
      ensures KnownStakes(now, cs[i].stakes)
    {
      assert KnownStakes(coins, cs[i].stakes);
    }
  }

  /** Penalties, then released funds; the pool starts empty. */
  method BeginBlock(s: StateDB, p: Prices, block: Block) returns (present: set<Key>)
    requires Orderly(s.State())
    modifies s
    ensures Orderly(s.State()) && s.pool == 0 && present == Present(block.votes)
    ensures Conserves(old(s.State()).(pool := 0), s.State())
    ensures Accused(old(s.State()), block.votes, block.byzantine, s.State())
    ensures BeginOutcome(p, old(s.State()), block, s.State())
  {
    hide Orderly, Conserves, Released, Voted, Accused, VoteOutcome, AccusedOutcome, ReleasedOutcome;
    ghost var b0 := s.State();
    s.pool := 0;
    Emptied(b0);
    ghost var b := s.State();
    present := {};
    ConservesItself(b);
    assert block.votes[..0] == [] && block.byzantine[..0] == [];
    ghost var t := [b];
    for i := 0 to |block.votes|
      invariant Orderly(s.State()) && Conserves(b, s.State()) && s.pool == 0
      invariant present == Present(block.votes[..i]) && Voted(b0, block.votes[..i], s.State())
      invariant VotesOutcome(p, block.votes[..i], t) && t[0] == b && t[i] == s.State()
    {
      ghost var was := s.State();
      assert block.votes[..i + 1] == block.votes[..i] + [block.votes[i]];
      CountVote(s, p, block.votes[i], b0, block.votes[..i]);
      ConservesTrans(b, was, s.State());
      t := t + [s.State()];
      present := if block.votes[i].signed then present + {block.votes[i].key} else present - {block.votes[i].key};
    }
    assert block.votes[..|block.votes|] == block.votes;
    NoEvidence(b0, block.votes, s.State());
    ghost var u := [s.State()];
    for i := 0 to |block.byzantine|
      invariant Orderly(s.State()) && Conserves(b, s.State()) && s.pool == 0
      invariant Accused(b0, block.votes, block.byzantine[..i], s.State())
      invariant EvidencesOutcome(p, block.byzantine[..i], u) && u[0] == t[|block.votes|] && u[i] == s.State()
    {
      ghost var was := s.State();
      assert block.byzantine[..i + 1] == block.byzantine[..i] + [block.byzantine[i]];
      Penalize(s, p, block.byzantine[i], b0, block.votes, block.byzantine[..i]);
      u := u + [s.State()];
      ConservesTrans(b, was, s.State());
    }
    assert block.byzantine[..|block.byzantine|] == block.byzantine;
    ghost var was := s.State();
    ReleaseFunds(s);
    assert Began(p, b0, block, t, u, s.State());
    if was.height in was.funds {
      ReleasedConserves(was);
      ConservesTrans(b, was, s.State());
      ReleasedOrderly(was, s.State());
      AccusedStill(b0, block.votes, block.byzantine, was, s.State());
    }
  }

  lemma Emptied(b: Books)
    requires Orderly(b)
    ensures Orderly(b.(pool := 0)) && Voted(b, [], b.(pool := 0))
  {
    NoVotes(b, b.(pool := 0));
  }

  lemma AccusedStill(b: Books, votes: seq<Vote>, keys: seq<Key>, was: Books, now: Books)
    requires Accused(b, votes, keys, was)
    requires now.validators == was.validators && now.candidates == was.candidates && now.height == was.height
    ensures Accused(b, votes, keys, now)
  {
  }

  lemma ReleasedOrderly(b: Books, r: Books)
    requires Orderly(b) && b.height in b.funds
    requires r == b.(balances := Released(b.balances, b.funds[b.height]), funds := b.funds - {b.height})
    ensures Orderly(r)
  {
    hide Sound, CacheSound, AllKnown, BalancesKnown, Released;
    ReleasedKnown(b.coins, b.balances, b.funds[b.height]);
  }

  lemma {:induction false} ReleasedKnown(coins: map<Coin, CoinData>, b: Balances, list: seq<FrozenFund>)
    requires BalancesKnown(coins, b) && KnownFunds(coins, list)
    ensures BalancesKnown(coins, Released(b, list))
  {
    hide BalancesKnown;
    if list != [] {
      var (n, f) := (|list| - 1, list[|list| - 1]);
      ReleasedKnown(coins, b, list[..n]);
      CreditKnown(coins, Released(b, list[..n]), f.owner, f.coin, f.value);
    }
  }

  /** Penalties leave alone what is not staked, and stakes stay in known coins. */
  ghost predicate RestKept(b: Books, r: Books) {
    r == b.(candidates := r.candidates, validators := r.validators, coins := r.coins, slashed := r.slashed, funds := r.funds)
    && r.coins.Keys == b.coins.Keys && CoinsKnown(r)
  }

  lemma PenaltyKeepsRest(p: Prices, b: Books, key: Key, r: Books)
    requires Orderly(b)
    requires forall vi :: 0 <= vi < |b.validators| && b.validators[vi].key == key ==>
      CandidateIndex(b.candidates, key) < |b.candidates| && |b.validators[vi].absent| == ABSENT_WINDOW
      && r == AbsentBooks(p, b, vi, CandidateIndex(b.candidates, key))
    requires (forall vi :: 0 <= vi < |b.validators| ==> b.validators[vi].key != key) ==> r == b
    ensures RestKept(b, r)
  {
    hide RestKept, AbsentBooks, Sound, CacheSound, CandidateIndex, AllKnown, FundsKnown, BalancesKnown;
    if vi :| 0 <= vi < |b.validators| && b.validators[vi].key == key {
      AbsentKeepsRest(p, b, vi, CandidateIndex(b.candidates, key));
    } else {
      RestKeptItself(b);
    }
  }

  lemma RestKeptItself(b: Books)
    requires CoinsKnown(b)
    ensures RestKept(b, b)
  {
  }

  lemma AbsentKeepsRest(p: Prices, b: Books, vi: nat, ci: nat)
    requires vi < |b.validators| && ci < |b.candidates| && |b.validators[vi].absent| == ABSENT_WINDOW
    requires CoinsKnown(b)
    ensures RestKept(b, AbsentBooks(p, b, vi, ci))
  {
    hide SlashAll, CountAbsent, ValueSum, FundsKnown, BalancesKnown;
    assert KnownStakes(b.coins, b.candidates[ci].stakes);
    ReplacedKnown(b, ci, AbsentBooks(p, b, vi, ci));
    FundsStillKnown(b.coins, AbsentBooks(p, b, vi, ci).coins, b.funds);
    KnownByKeys(b.coins, AbsentBooks(p, b, vi, ci).coins, b.balances);
  }

  lemma FundsStillKnown(coins: map<Coin, CoinData>, now: map<Coin, CoinData>, funds: map<nat, seq<FrozenFund>>)
    requires FundsKnown(coins, funds) && now.Keys == coins.Keys
    ensures FundsKnown(now, funds)
  {
    forall h | h in funds
      ensures KnownFunds(now, funds[h])
    {
      assert KnownFunds(coins, funds[h]);
    }
  }

  lemma PunishKeepsRest(p: Prices, b: Books, key: Key, r: Books)
    requires Orderly(b)
    requires forall vi :: 0 <= vi < |b.validators| && b.validators[vi].key == key ==>
      CandidateIndex(b.candidates, key) < |b.candidates|
      && r == PunishedBooks(p, b, vi, CandidateIndex(b.candidates, key))
    requires (forall vi :: 0 <= vi < |b.validators| ==> b.validators[vi].key != key) ==> r == b
    ensures RestKept(b, r)
  {
    hide Sound, CacheSound, CandidateIndex, SlashAll, WithFunds, BalancesKnown;
    if vi :| 0 <= vi < |b.validators| && b.validators[vi].key == key {
      var ci := CandidateIndex(b.candidates, key);
      var c := b.candidates[ci];
      assert KnownStakes(b.coins, c.stakes);
      WithFundsKnown(b.coins, b.funds, b.height + UNBOND_PERIOD, ToFunds(c.stakes, c.key, 95));
      ReplacedKnown(b, ci, r);
      KnownByKeys(b.coins, r.coins, b.balances);
    }
  }

  lemma ReplacedKnown(b: Books, ci: nat, r: Books)
    requires ci < |b.candidates| == |r.candidates| && AllKnown(b.coins, b.candidates) && r.coins.Keys == b.coins.Keys
    requires forall k :: 0 <= k < |b.candidates| && k != ci ==> r.candidates[k] == b.candidates[k]
    requires KnownStakes(b.coins, r.candidates[ci].stakes)
    ensures AllKnown(r.coins, r.candidates)
  {
    forall i | 0 <= i < |r.candidates|
      ensures KnownStakes(r.coins, r.candidates[i].stakes)
    {
      assert KnownStakes(b.coins, b.candidates[i].stakes);
    }
  }

  // ---------------------------------------------------------------------------------
  // Delivering transactions
  // ---------------------------------------------------------------------------------

  lemma TransferKeeps(p: Prices, b: Books, tx: Tx, r: Books)
    requires Orderly(b) && RunTx.Ready(b.coins, tx) && RunTx.Outcome(p, b, tx, r) && b.height >= UPGRADE_BLOCK_0
    ensures Orderly(r) && Conserves(b, r) && r.height == b.height && r.validators == b.validators
    ensures r.candidates == b.candidates
  {
    TransferKnown(p, b, tx, r);
    RunTx.OutcomeConserves(p, b, tx, r);
    hide Sound, CacheSound, Base, Gap, CommissionInBaseCoin, AllKnown, FundsKnown, BalancesKnown, RunTx.Given, RunTx.Credited;
    KnownStill(b.coins, r.coins, b.candidates);
    FundsStillKnown(b.coins, r.coins, b.funds);
  }

  /** Only coins that were looked up are given or received. */
  lemma TransferKnown(p: Prices, b: Books, tx: Tx, r: Books)
    requires BalancesKnown(b.coins, b.balances) && RunTx.Ready(b.coins, tx) && RunTx.Outcome(p, b, tx, r)
    ensures BalancesKnown(r.coins, r.balances)
  {
    GivenKnown(p, b, tx);
    hide RunTx.Given, RunTx.Credited, RunTx.Lost, CommissionInBaseCoin, Base, Gap;
    var (c1, x1, c2, x2) := RunTx.Given(p, b, tx);
    forall k | k in r.balances && r.balances[k] > 0
      ensures k.1 == BASE || k.1 in r.coins
    {
      assert r.balances[k] == BalanceOf(r.balances, k.0, k.1);
      if k.1 != c1 && k.1 != c2 && k.1 != RunTx.CreditedCoin(tx.data) {
        assert BalanceOf(b.balances, k.0, k.1) > 0;
        assert k == (k.0, k.1) && k in b.balances;
      }
    }
  }

  lemma GivenKnown(p: Prices, b: Books, tx: Tx)
    requires RunTx.Ready(b.coins, tx)
    ensures var (c1, x1, c2, x2) := RunTx.Given(p, b, tx);
            (c1 == BASE || c1 in b.coins) && (c2 == BASE || c2 in b.coins)
    ensures RunTx.CreditedCoin(tx.data) == BASE || RunTx.CreditedCoin(tx.data) in b.coins
  {
  }

  method Deliver(s: StateDB, p: Prices, op: Op, ghost b: Books, ghost votes: seq<Vote>, ghost keys: seq<Key>,
                 ghost ops: seq<Op>)
    requires Orderly(s.State()) && s.height >= UPGRADE_BLOCK_0 && Operated(b, votes, keys, ops, s.State())
    modifies s
    ensures Orderly(s.State()) && Conserves(old(s.State()), s.State())
    ensures Operated(b, votes, keys, ops + [op], s.State()) && OpOutcome(p, old(s.State()), op, s.State())
  {
    hide Orderly, Conserves, RunTx.Outcome, RunTx.Accepted, Accepted, Operated, Acted, KeyOnline, StakingPaid, OnlySwitched,
         OnlyDropped, NoDebts;
    ghost var was := s.State();
    ConservesItself(was);
    match op
    case Transfer(tx) =>
      var code := RunTx.Run(s, p, tx, false);
      if code == OK {
        TransferKeeps(p, was, tx, s.State());
      }
      OtherOp(b, votes, keys, ops, was, s.State(), op);
    case Stake(tx) =>
      var code := RunStaking(s, p, tx);
      if code == OK {
        StakingOnline(was, tx, s.State());
        AcceptedGas(p, was, tx);
        ChargedFields(p, was, tx);
      }
      OtherOp(b, votes, keys, ops, was, s.State(), op);
    case Online(key) =>
      SetCandidateOnline(s, key);
      SwitchedKeeps(was, s.State(), key, true);
      Switched(b, votes, keys, ops, was, s.State(), key, true);
    case Offline(key) =>
      SetCandidateOffline(s, key);
      SwitchedKeeps(was, s.State(), key, false);
      Switched(b, votes, keys, ops, was, s.State(), key, false);
  }

  lemma StakingOnline(b: Books, tx: StakingTx, r: Books)
    requires Orderly(b) && Acted(b, tx, r)
    ensures forall k :: 0 <= k < |b.validators| ==>
      (KeyOnline(r.candidates, b.validators[k].key) <==> KeyOnline(b.candidates, b.validators[k].key))
  {
    hide Acted, KeyOnline, CandidateIndex, BipSum, CacheSound;
    forall k | 0 <= k < |b.validators|
      ensures KeyOnline(r.candidates, b.validators[k].key) <==> KeyOnline(b.candidates, b.validators[k].key)
    {
      assert Backed(b.validators[k], b.candidates);
      ActedOnline(b, tx, r, b.validators[k].key);
    }
  }

  // ---------------------------------------------------------------------------------
  // Ending a block
  // ---------------------------------------------------------------------------------

  lemma AccruedSupply(b: Books, present: set<Key>, reward: int)
    requires Orderly(b) && reward >= 0
    ensures var r := AccruedBooks(b, present, reward);
            Supply(r) == Base(b) + reward && Orderly(r) && r.height == b.height && r.candidates == b.candidates
            && r.coins == b.coins && forall c :: c in b.coins ==> Gap(r, c) == Gap(b, c)
  {
    hide Sound, CacheSound, Held, Reserves, Ledger.Staked, Frozen, Accrued, AllKnown, FundsKnown, BalancesKnown,
         SharesSum, WithShares, FirstDropped;
    AccrualKeeps(b, present, reward);
  }

  lemma AccruedCount(b: Books, present: set<Key>, reward: int)
    ensures |AccruedBooks(b, present, reward).validators| == |b.validators|
  {
    hide SharesSum, Blocks.Share, Power, FirstDropped;
  }

  lemma AccruedDrops(b: Books, present: set<Key>, reward: int)
    ensures NoDrops(AccruedBooks(b, present, reward).validators) <==> NoDrops(b.validators)
  {
    var r := AccruedBooks(b, present, reward);
    AccruedCount(b, present, reward);
    hide AccruedBooks;
    forall k | 0 <= k < |b.validators|
      ensures r.validators[k].toDrop == b.validators[k].toDrop
    {
      AccruedSeat(b, present, reward, k);
    }
  }

  lemma Multiples(h: nat)
    requires h % 120 == 0
    ensures h % 12 == 0
  {
  }

  /** Once paid, validators have nothing that could leave with them. */
  lemma {:induction false} NothingAccruedLeaves(vals: seq<Validator>, now: seq<Validator>)
    requires Accrued(vals) == 0 && forall k :: 0 <= k < |vals| ==> vals[k].accum >= 0
    ensures Leaving(vals, now) == 0
  {
    LeavingBounds(vals, now, 0);
  }

  /** Shares out the reward, pays accruals every 12th block, changes validators every 120th or when one is dropped. */
  method EndBlock(s: StateDB, p: Prices, present: set<Key>, start: nat, arrange: seq<Candidate> -> seq<Candidate>)
    requires Orderly(s.State()) && Permutes(arrange)
    modifies s
    ensures Orderly(s.State()) && s.height == old(s.height) && s.coins == old(s.coins) && NoDrops(s.validators)
    ensures var reward := Emission.RewardAt(s.height + start);
            Supply(s.State()) == Base(old(s.State())) + reward - LeftBehind(old(s.State()), present, reward, s.validators)
    ensures forall c :: c in s.coins && c != BASE ==> Gap(s.State(), c) == Gap(old(s.State()), c)
    ensures s.height % 120 == 0 || !NoDrops(old(s.validators)) ==>
      forall i :: 0 <= i < |s.validators| ==> KeyOnline(old(s.candidates), s.validators[i].key)
    ensures s.height % 120 == 0 || !NoDrops(old(s.validators)) ==>
      ElectedFrom(s.candidates, ValidatorsCount(s.height, start), s.validators)
    ensures EndOutcome(p, old(s.State()), present, Emission.RewardAt(s.height + start), start, s.State())
  {
    hide Sound, CacheSound, AllKnown, FundsKnown, BalancesKnown, Base, Gap, Emission.RewardAt, AccruedBooks, PaidAll,
         Permutes, Leaving, Accrued, KeyOnline, ElectedFrom, AccrualOutcome, PaidOutcome, Prepared, SeatOf, WealthKept,
         FrozenOnlyAt, PaidTo;
    ghost var b := s.State();
    ghost var none: seq<Candidate> := [];
    var reward := Emission.RewardAt(s.height + start);
    Emission.RewardBounds(s.height + start);
    OrderlyTotals(b);
    AccruedSupply(b, present, reward);
    AccruedDrops(b, present, reward);
    var hasDropped := AccrueRewards(s, present, reward);
    ghost var d: nat :| AccrualOutcome(b, present, reward, d, s.State());
    ghost var accrued := s.State();
    if s.height % 12 == 0 {
      ghost var was := s.State();
      PayRewards(s);
      PaidRest(was, s.State());
      PaidIsOutcome(was, s.State());
    }
    ghost var paid := s.State();
    if s.height % 120 == 0 || hasDropped {
      ghost var was := s.State();
      var chosen := UpdateValidators(s, p, start, arrange);
      if was.height % 120 == 0 {
        Multiples(was.height);
      }
      if was.height % 12 == 0 {
        SoundAccruals(was.candidates, was.validators);
        NothingAccruedLeaves(was.validators, s.validators);
      }
      assert UpdatedOutcome(p, paid, start, chosen, s.State());
      assert Ended(p, b, present, reward, start, d, accrued, paid, chosen, s.State());
    } else {
      assert Ended(p, b, present, reward, start, d, accrued, paid, none, s.State());
    }
  }

  lemma PaidIsOutcome(b: Books, r: Books)
    requires Sound(b.candidates, b.validators) && r == PaidAll(b, |b.validators|) && Conserves(b, r)
    requires forall a, c ::
      BalanceOf(r.balances, a, c) == BalanceOf(b.balances, a, c) + if c == BASE then PaidTo(b.validators, b.candidates, a) else 0
    requires |r.validators| == |b.validators|
    requires forall k :: 0 <= k < |b.validators| ==> r.validators[k] == b.validators[k].(accum := 0)
    ensures PaidOutcome(b, r)
  {
    hide Sound, PaidAll, Base, Gap, PaidTo, BalanceOf;
    PaidAllKeeps(b, |b.validators|);
  }

  lemma OrderlyTotals(b: Books)
    requires Orderly(b)
    ensures forall k :: 0 <= k < |b.validators| ==> b.validators[k].totalBip >= 0
  {
    SoundTotals(b.candidates, b.validators);
  }

  lemma PaidRest(b: Books, r: Books)
    requires Orderly(b) && r == PaidAll(b, |b.validators|) && Conserves(b, r) && Sound(r.candidates, r.validators)
    ensures Orderly(r) && Supply(r) == Supply(b) && r.height == b.height && r.coins == b.coins
    ensures r.candidates == b.candidates && (NoDrops(b.validators) ==> NoDrops(r.validators))
    ensures forall c :: c in b.coins && c != BASE ==> Gap(r, c) == Gap(b, c)
  {
    hide Sound, CacheSound, AllKnown, FundsKnown, BalancesKnown, Base, Gap, PaidAll;
    PaidAllKeeps(b, |b.validators|);
    PaidKnown(b, |b.validators|);
    if NoDrops(b.validators) {
      PaidMarks(b, r);
    }
  }

  lemma PaidMarks(b: Books, r: Books)
    requires Sound(b.candidates, b.validators) && r == PaidAll(b, |b.validators|) && NoDrops(b.validators)
    ensures NoDrops(r.validators)
  {
    hide Sound, PaidAll;
    PaidAllKeeps(b, |b.validators|);
  }

  // ---------------------------------------------------------------------------------
  // Committing a block
  // ---------------------------------------------------------------------------------

  function IsStake(x: Ledger.Stake): bool { x.value != 0 }

  function Cleared(c: Candidate): Candidate { c.(stakes := Filter(c.stakes, IsStake)) }

  lemma FilterStep(stakes: seq<Ledger.Stake>, x: Ledger.Stake)
    ensures Filter(stakes + [x], IsStake) == Filter(stakes, IsStake) + if IsStake(x) then [x] else []
  {
    assert (stakes + [x])[..|stakes|] == stakes;
  }

  lemma NoStakes()
    ensures Filter([], IsStake) == []
  {
  }

  lemma SoundSnoc(stakes: seq<Ledger.Stake>, x: Ledger.Stake)
    ensures SoundStakes(stakes + [x]) <==> SoundStakes(stakes) && x.value >= 0 && x.bipValue >= 0
  {
    assert SoundStakes(stakes + [x]) ==> (stakes + [x])[|stakes|] == x;
    forall j | 0 <= j < |stakes|
      ensures (stakes + [x])[j] == stakes[j]
    {
    }
  }

  lemma {:induction false} ClearedAmounts(stakes: seq<Ledger.Stake>, c: Coin)
    ensures StakedOf(Filter(stakes, IsStake), c) == StakedOf(stakes, c)
    ensures SoundStakes(stakes) ==> SoundStakes(Filter(stakes, IsStake)) && BipSum(Filter(stakes, IsStake)) <= BipSum(stakes)
  {
    hide StakedOf, BipSum, Filter, SoundStakes;
    if stakes == [] {
      NoStakes();
    } else {
      var (n, x) := (|stakes| - 1, stakes[|stakes| - 1]);
      assert stakes == stakes[..n] + [x];
      ClearedAmounts(stakes[..n], c);
      FilterStep(stakes[..n], x);
      var kept := Filter(stakes[..n], IsStake);
      StakedSnoc(stakes[..n], x, c);
      BipSumSnoc(stakes[..n], x);
      StakedSnoc(kept, x, c);
      BipSumSnoc(kept, x);
      SoundSnoc(stakes[..n], x);
      SoundSnoc(kept, x);
      assert kept + [] == kept;
    }
  }

  lemma {:induction false} ClearedStaked(cs: seq<Candidate>, ds: seq<Candidate>, c: Coin)
    requires |ds| == |cs| && forall i :: 0 <= i < |cs| ==> ds[i] == Cleared(cs[i])
    ensures Ledger.Staked(ds, c) == Ledger.Staked(cs, c)
  {
    if cs != [] {
      ClearedStaked(cs[..|cs| - 1], ds[..|ds| - 1], c);
      ClearedAmounts(cs[|cs| - 1].stakes, c);
    }
  }

  lemma {:induction false} FilterKnown(coins: map<Coin, CoinData>, stakes: seq<Ledger.Stake>)
    requires KnownStakes(coins, stakes)
    ensures KnownStakes(coins, Filter(stakes, IsStake))
  {
    if stakes != [] {
      FilterKnown(coins, stakes[..|stakes| - 1]);
    }
  }

  lemma ClearedKeeps(b: Books, r: Books)
    requires Orderly(b) && |r.candidates| == |b.candidates|
    requires r == b.(candidates := r.candidates, stakeCache := map[], height := b.height + 1)
    requires forall i :: 0 <= i < |b.candidates| ==> r.candidates[i] == Cleared(b.candidates[i])
    ensures Orderly(r) && Conserves(b, r)
  {
    hide Held, Reserves, Ledger.Staked, Frozen, Accrued, BipSum, Filter, FundsKnown, BalancesKnown;
    forall c
      ensures Ledger.Staked(r.candidates, c) == Ledger.Staked(b.candidates, c)
    {
      ClearedStaked(b.candidates, r.candidates, c);
    }
    forall i | 0 <= i < |b.candidates|
      ensures SoundCandidate(r.candidates[i]) && BipSum(r.candidates[i].stakes) <= BipSum(b.candidates[i].stakes)
      ensures KnownStakes(r.coins, r.candidates[i].stakes)
    {
      assert SoundCandidate(b.candidates[i]) && KnownStakes(b.coins, b.candidates[i].stakes);
      ClearedAmounts(b.candidates[i].stakes, BASE);
      FilterKnown(b.coins, b.candidates[i].stakes);
    }
    SoundIfNoMore(b.candidates, r.candidates, b.validators);
  }

  /** The coins of which there is nothing, and all others. */
  function EmptyCoins(coins: map<Coin, CoinData>): map<Coin, CoinData> { map c | c in coins && coins[c].volume == 0 :: coins[c] }

  function LiveCoins(coins: map<Coin, CoinData>): map<Coin, CoinData> { map c | c in coins && coins[c].volume != 0 :: coins[c] }

  lemma LiveKeys(coins: map<Coin, CoinData>)
    ensures LiveCoins(coins).Keys <= coins.Keys
  {
  }

  lemma ReservesSplit(coins: map<Coin, CoinData>)
    ensures Reserves(coins) == Reserves(LiveCoins(coins)) + Reserves(EmptyCoins(coins))
  {
    var part := EmptyCoins(coins).Keys;
    SumSplit(ReserveMap(coins), part);
    assert ReserveMap(coins) - part == ReserveMap(LiveCoins(coins));
    assert (map c | c in part :: ReserveMap(coins)[c]) == ReserveMap(EmptyCoins(coins));
  }

  /** Without its empty coins the ledger lacks their reserves and nothing else. */
  lemma ForgottenCoins(b: Books)
    ensures var r := b.(coins := LiveCoins(b.coins));
            Base(r) == Base(b) - Reserves(EmptyCoins(b.coins)) && forall c :: c in r.coins ==> Gap(r, c) == Gap(b, c)
  {
    hide Held, Reserves, Ledger.Staked, Frozen, Accrued;
    ReservesSplit(b.coins);
  }

  /** b is the state before a commit that removes coins; nothing is owned of them. */
  ghost predicate EmptyUnheld(b: Books) {
    forall c :: c in b.coins && c != BASE && b.coins[c].volume == 0 ==> Gap(b, c) == 0 && HoldingsSound(b, c)
  }

  /** Then only frozen funds of nothing can still mention a removed coin. */
  ghost predicate OnlyFundsOfNothing(coins: map<Coin, CoinData>, r: Books) {
    AllKnown(coins, r.candidates) && BalancesKnown(coins, r.balances)
    && forall h, i :: h in r.funds && 0 <= i < |r.funds[h]| ==>
         r.funds[h][i].coin == BASE || r.funds[h][i].coin in coins || r.funds[h][i].value == 0
  }

  lemma NothingHeldOf(b: Books, c: Coin)
    requires c in b.coins && c != BASE && b.coins[c].volume == 0 && Gap(b, c) == 0 && HoldingsSound(b, c)
    ensures Held(b.balances, c) == 0 && Ledger.Staked(b.candidates, c) == 0 && Frozen(b.funds, c) == 0
  {
    hide Held, Ledger.Staked, Frozen;
    HeldBounds(b.balances, c, 0);
    CandidatesBounds(b.candidates, c, 0);
    FrozenBounds(b.funds, c, 0);
  }

  lemma RemovedUnheld(b: Books, ds: seq<Candidate>)
    requires CoinsKnown(b) && EmptyUnheld(b) && |ds| == |b.candidates|
    requires forall i :: 0 <= i < |ds| ==> ds[i] == Cleared(b.candidates[i])
    ensures OnlyFundsOfNothing(LiveCoins(b.coins), b.(candidates := ds))
  {
    hide Filter, HoldingsSound, Gap;
    var live := LiveCoins(b.coins);
    forall i, j | 0 <= i < |ds| && 0 <= j < |ds[i].stakes|
      ensures ds[i].stakes[j].coin == BASE || ds[i].stakes[j].coin in live
    {
      RemovedStake(b, i, ds[i].stakes, j);
    }
    forall k | k in b.balances && b.balances[k] > 0
      ensures k.1 == BASE || k.1 in live
    {
      RemovedBalance(b, k.0, k.1);
    }
    forall h, i | h in b.funds && 0 <= i < |b.funds[h]|
      ensures b.funds[h][i].coin == BASE || b.funds[h][i].coin in live || b.funds[h][i].value == 0
    {
      RemovedFund(b, h, i);
    }
  }

  lemma RemovedStake(b: Books, i: nat, stakes: seq<Ledger.Stake>, j: nat)
    requires CoinsKnown(b) && EmptyUnheld(b) && i < |b.candidates| && stakes == Filter(b.candidates[i].stakes, IsStake)
    requires j < |stakes|
    ensures stakes[j].coin == BASE || stakes[j].coin in LiveCoins(b.coins)
  {
    hide Held, Ledger.Staked, Frozen, FundsKnown, BalancesKnown, HoldingsSound, Gap, Filter, StakedOf;
    var (c, all) := (stakes[j].coin, b.candidates[i].stakes);
    FilterSubset(all, IsStake);
    FilterAll(all, IsStake);
    assert IsStake(stakes[j]) && stakes[j] in multiset(stakes) && stakes[j] in multiset(all);
    var k :| 0 <= k < |all| && all[k] == stakes[j];
    assert KnownStakes(b.coins, all);
    if c != BASE && b.coins[c].volume == 0 {
      NothingHeldOf(b, c);
      StakesHold(b, c, i, k);
    }
  }

  lemma StakesHold(b: Books, c: Coin, i: nat, k: nat)
    requires HoldingsSound(b, c) && i < |b.candidates| && k < |b.candidates[i].stakes| && b.candidates[i].stakes[k].coin == c
    ensures 0 <= b.candidates[i].stakes[k].value <= Ledger.Staked(b.candidates, c)
  {
    hide Ledger.Staked, StakedOf;
    CandidatesBounds(b.candidates, c, i);
    assert StakesSound(b.candidates[i].stakes, c);
    StakesBounds(b.candidates[i].stakes, c, k);
  }

  lemma RemovedBalance(b: Books, a: Address, c: Coin)
    requires CoinsKnown(b) && EmptyUnheld(b) && (a, c) in b.balances && b.balances[(a, c)] > 0
    ensures c == BASE || c in LiveCoins(b.coins)
  {
    hide Held, Ledger.Staked, Frozen, AllKnown, FundsKnown, Gap;
    assert BalanceOf(b.balances, a, c) > 0;
    if c != BASE && b.coins[c].volume == 0 {
      NothingHeldOf(b, c);
      HeldBounds(b.balances, c, a);
    }
  }

  lemma RemovedFund(b: Books, h: nat, i: nat)
    requires CoinsKnown(b) && EmptyUnheld(b) && h in b.funds && i < |b.funds[h]|
    ensures b.funds[h][i].coin == BASE || b.funds[h][i].coin in LiveCoins(b.coins) || b.funds[h][i].value == 0
  {
    hide Held, Ledger.Staked, Frozen, AllKnown, BalancesKnown, Gap;
    var c := b.funds[h][i].coin;
    assert KnownFunds(b.coins, b.funds[h]);
    if c != BASE && b.coins[c].volume == 0 {
      NothingHeldOf(b, c);
      FrozenBounds(b.funds, c, h);
      FundsBounds(b.funds[h], c, i);
    }
  }

  lemma SameMentions(coins: map<Coin, CoinData>, b: Books, r: Books)
    requires OnlyFundsOfNothing(coins, b)
    requires r.candidates == b.candidates && r.balances == b.balances && r.funds == b.funds
    ensures OnlyFundsOfNothing(coins, r)
  {
  }

  method ForgetEmptyCoins(s: StateDB)
    modifies s
    ensures s.State() == old(s.State()).(coins := LiveCoins(old(s.coins)))
  {
    var left := s.coins.Keys;
    while left != {}
      invariant s.State() == old(s.State()).(coins := s.coins) && left <= s.coins.Keys <= old(s.coins).Keys
      invariant forall c :: c in s.coins ==> s.coins[c] == old(s.coins)[c]
      invariant forall c :: c in old(s.coins) ==> c in left || (c in s.coins <==> old(s.coins)[c].volume != 0)
      decreases |left|
    {
      var c :| c in left;
      left := left - {c};
      if s.coins[c].volume == 0 {
        s.coins := s.coins - {c};
      }
    }
    assert s.coins == LiveCoins(old(s.coins));
  }

  /**
   * Removes stakes of nothing and coins of which nothing is left, forgets cached values and moves to the next
   * height. What is lost is the reserve a removed coin still has.
   */
  method Commit(s: StateDB)
    requires Orderly(s.State())
    modifies s
    ensures Steady(s.State()) && s.height == old(s.height) + 1 && s.pool == old(s.pool) && s.validators == old(s.validators)
    ensures s.coins == LiveCoins(old(s.coins))
    ensures Base(s.State()) == Base(old(s.State())) - Reserves(EmptyCoins(old(s.coins)))
    ensures forall c :: c in s.coins && c != BASE ==> Gap(s.State(), c) == Gap(old(s.State()), c)
    ensures |s.candidates| == |old(s.candidates)|
    ensures forall i :: 0 <= i < |s.candidates| ==> s.candidates[i] == Cleared(old(s.candidates)[i])
    ensures EmptyUnheld(old(s.State())) ==> OnlyFundsOfNothing(s.coins, s.State())
    ensures CommitOutcome(old(s.State()), s.State())
  {
    hide Sound, CacheSound, CoinsKnown, Filter, Base, Gap, LiveCoins, EmptyCoins, Reserves, EmptyUnheld, OnlyFundsOfNothing,
         CommitOutcome;
    ghost var b := s.State();
    ForgetEmptyCoins(s);
    ghost var coins := s.coins;
    for i := 0 to |s.candidates|
      invariant s.State() == b.(coins := coins, candidates := s.candidates) && |s.candidates| == |b.candidates|
      invariant forall k :: 0 <= k < i ==> s.candidates[k] == Cleared(b.candidates[k])
      invariant forall k :: i <= k < |s.candidates| ==> s.candidates[k] == b.candidates[k]
    {
      var stakes := Selected(s.candidates[i].stakes, IsStake);
      s.candidates := s.candidates[i := s.candidates[i].(stakes := stakes)];
    }
    s.stakeCache := map[];
    s.height := s.height + 1;
    ghost var cleared := s.State().(coins := b.coins);
    ClearedKeeps(b, cleared);
    ForgottenCoins(cleared);
    LiveKeys(b.coins);
    if EmptyUnheld(b) {
      RemovedUnheld(b, s.candidates);
      SameMentions(s.coins, b.(candidates := s.candidates), s.State());
    }
    CommittedIs(b, s.State());
  }

  lemma {:induction false} FilteredFor(stakes: seq<Ledger.Stake>, a: Address, c: Coin)
    ensures StakesFor(Filter(stakes, IsStake), a, c) == StakesFor(stakes, a, c)
  {
    hide StakesFor, Filter;
    if stakes == [] {
      NoStakes();
    } else {
      var (n, x) := (|stakes| - 1, stakes[|stakes| - 1]);
      assert stakes == stakes[..n] + [x];
      FilteredFor(stakes[..n], a, c);
      FilterStep(stakes[..n], x);
      var kept := Filter(stakes[..n], IsStake);
      StakesForSnoc(stakes[..n], x, a, c);
      StakesForSnoc(kept, x, a, c);
      assert kept + [] == kept;
    }
  }

  lemma FilteredMembers(stakes: seq<Ledger.Stake>)
    ensures var r := Filter(stakes, IsStake);
            multiset(r) <= multiset(stakes) && forall x :: x in stakes ==> (x in r <==> x.value != 0)
  {
    FilterSubset(stakes, IsStake);
    FilterAll(stakes, IsStake);
    hide Filter;
    forall x | x in stakes
      ensures x in Filter(stakes, IsStake) <==> x.value != 0
    {
      if x.value != 0 {
        FilterKeeps(stakes, IsStake, x);
      }
    }
  }

  /** Stakes and coins that go were worth nothing to anyone. */
  lemma CommittedIs(b: Books, r: Books)
    requires |r.candidates| == |b.candidates|
    requires r == b.(coins := LiveCoins(b.coins), candidates := r.candidates, stakeCache := map[], height := b.height + 1)
    requires forall i :: 0 <= i < |b.candidates| ==> r.candidates[i] == Cleared(b.candidates[i])
    ensures CommitOutcome(b, r)
  {
    hide Filter, StakesFor, StakedFor, FrozenFor, BalanceOf;
    forall i | 0 <= i < |b.candidates| {
      FilteredMembers(b.candidates[i].stakes);
    }
    forall a, c
      ensures StakedFor(r.candidates, a, c) == StakedFor(b.candidates, a, c)
    {
      forall i | 0 <= i < |b.candidates| {
        FilteredFor(b.candidates[i].stakes, a, c);
      }
      StakedForSame(b.candidates, r.candidates, a, c);
    }
  }

  // ---------------------------------------------------------------------------------
  // One block
  // ---------------------------------------------------------------------------------

  /** A block leads from b to r; m are the books after its transactions, before rewards. */
  ghost predicate BlockRuns(b: Books, block: Block, reward: int, m: Books, r: Books) {
    Orderly(m) && Conserves(b.(pool := 0), m) && Operated(b, block.votes, block.byzantine, block.ops, m)
    && Supply(r) == Supply(b) + reward - LeftBehind(m, Present(block.votes), reward, r.validators)
                    - Reserves(EmptyCoins(m.coins))
    && r.coins == LiveCoins(m.coins) && r.height == b.height + 1
    && (forall c :: c in r.coins && c != BASE ==> c in b.coins && Gap(r, c) == Gap(b, c))
    && (m.height % 120 == 0 || !NoDrops(m.validators) ==>
          forall i :: 0 <= i < |r.validators| ==> KeyOnline(m.candidates, r.validators[i].key))
  }

  lemma EmptyPool(b: Books)
    ensures Base(b.(pool := 0)) == Supply(b)
    ensures forall c :: c in b.coins ==> Gap(b.(pool := 0), c) == Gap(b, c)
  {
  }

  /** One block, with nothing assumed of what it brings. */
  method RunBlock(s: StateDB, p: Prices, block: Block, start: nat, arrange: seq<Candidate> -> seq<Candidate>)
    returns (ghost m: Books)
    requires Orderly(s.State()) && s.height >= UPGRADE_BLOCK_0 && Permutes(arrange)
    modifies s
    ensures Steady(s.State()) && NoDrops(s.validators)
    ensures BlockRuns(old(s.State()), block, Emission.RewardAt(old(s.height) + start), m, s.State())
    ensures m.height % 120 == 0 || !NoDrops(m.validators) ==>
      ElectedFrom(s.candidates, ValidatorsCount(m.height, start), s.validators)
    ensures BlockOutcome(p, old(s.State()), block, Emission.RewardAt(old(s.height) + start), start, m, s.State())
  {
    hide Sound, CacheSound, CoinsKnown, Base, Gap, Emission.RewardAt, Permutes, Accused, Operated, KeyOnline, LeftBehind,
         NoDrops, EmptyCoins, LiveCoins, Reserves, ElectedFrom, Cleared, BeginOutcome, OpOutcome, EndOutcome, CommitOutcome;
    ghost var b := s.State();
    EmptyPool(b);
    var present := BeginBlock(s, p, block);
    NoOps(b, block.votes, block.byzantine, s.State());
    assert block.ops[..0] == [];
    ghost var t := [s.State()];
    for i := 0 to |block.ops|
      invariant Orderly(s.State()) && Conserves(b.(pool := 0), s.State()) && s.height == b.height
      invariant Operated(b, block.votes, block.byzantine, block.ops[..i], s.State())
      invariant OpsOutcome(p, block.ops[..i], t) && t[i] == s.State() && BeginOutcome(p, b, block, t[0])
    {
      ghost var was := s.State();
      assert block.ops[..i + 1] == block.ops[..i] + [block.ops[i]];
      Deliver(s, p, block.ops[i], b, block.votes, block.byzantine, block.ops[..i]);
      t := t + [s.State()];
      ConservesTrans(b.(pool := 0), was, s.State());
      OperatedHeight(b, block.votes, block.byzantine, block.ops[..i + 1], s.State());
    }
    assert block.ops[..|block.ops|] == block.ops;
    m := s.State();
    EndBlock(s, p, present, start, arrange);
    LiveKeys(m.coins);
    ghost var e := s.State();
    Commit(s);
    assert BlockSteps(p, b, block, Emission.RewardAt(b.height + start), start, t, m, e, s.State());
    if m.height % 120 == 0 || !NoDrops(m.validators) {
      StillElected(e.candidates, s.candidates, ValidatorsCount(m.height, start), s.validators);
    }
  }

  /** Dropping empty stakes does not change who is elected from whom. */
  lemma StillElected(cs: seq<Candidate>, ds: seq<Candidate>, count: nat, now: seq<Validator>)
    requires ElectedFrom(cs, count, now) && |ds| == |cs| && forall i :: 0 <= i < |cs| ==> ds[i] == Cleared(cs[i])
    ensures ElectedFrom(ds, count, now)
  {
    hide Filter, HasKey;
    forall i | 0 <= i < |now|
      ensures SeatedFrom(ds, now[i])
    {
      assert SeatedFrom(cs, now[i]);
      var j :| 0 <= j < |cs| && Seated(cs[j], now[i]);
      assert Seated(ds[j], now[i]);
    }
    forall j | 0 <= j < |ds| && ds[j].online && ds[j].totalBip > 0 && !HasKey(now, ds[j].key)
      ensures NoSeatFor(now, count, ds[j].totalBip)
    {
      assert ds[j] == Cleared(cs[j]);
    }
  }
}
