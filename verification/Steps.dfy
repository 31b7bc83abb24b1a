// The steps of a block, each by what it makes of the books, and a whole block as one step after the other.
module Steps {
  import opened Blocks
  import opened Conversion
  import opened Elections
  import opened FundPenalty
  import opened Ledger
  import opened Marks
  import opened Owners
  import opened Payout
  import opened Slashing
  import opened StakeTx
  import opened StateDb
  import opened Staking
  import opened ValidatorSet
  import RunTx

  // ---------------------------------------------------------------------------------
  // Beginning a block
  // ---------------------------------------------------------------------------------

  /** A signature clears its height in the validator's record; a missing one is an absence. */
  ghost predicate VoteOutcome(p: Prices, b: Books, vote: Vote, r: Books) {
    if vote.signed then
      r == b.(validators := r.validators) && |r.validators| == |b.validators|
      && forall k :: 0 <= k < |b.validators| ==>
           |b.validators[k].absent| == 24
           && r.validators[k] == if b.validators[k].key == vote.key
                                 then b.validators[k].(absent := b.validators[k].absent[b.height % 24 := false])
                                 else b.validators[k]
    else
      var ci := CandidateIndex(b.candidates, vote.key);
      (forall vi :: 0 <= vi < |b.validators| && b.validators[vi].key == vote.key ==>
         ci < |b.candidates| && |b.validators[vi].absent| == 24 && AbsentOutcome(p, b, vi, ci, r))
      && ((forall vi :: 0 <= vi < |b.validators| ==> b.validators[vi].key != vote.key) ==> r == b)
  }

  ghost predicate VotesOutcome(p: Prices, votes: seq<Vote>, trace: seq<Books>) {
    |trace| == |votes| + 1 && forall i :: 0 <= i < |votes| ==> VoteOutcome(p, trace[i], votes[i], trace[i + 1])
  }

  /**
   * Evidence against a candidate that is online: first what was unbonded from it and is frozen until this or any of
   * the next 518400 heights is penalized, then what is staked with it, if it is a validator.
   */
  ghost predicate AccusedOutcome(p: Prices, b: Books, key: Key, r: Books) {
    var ci := CandidateIndex(b.candidates, key);
    if ci == |b.candidates| || !b.candidates[ci].online then r == b
    else exists m: Books :: FundsOutcome(p, b, b.height, 518401, key, m) && StakesOutcome(p, b, m, key, r)
  }

  ghost predicate StakesOutcome(p: Prices, b: Books, m: Books, key: Key, r: Books) {
    var ci := CandidateIndex(b.candidates, key);
    m.candidates == b.candidates && m.validators == b.validators
    && (forall vi :: 0 <= vi < |b.validators| && b.validators[vi].key == key ==>
          ci < |b.candidates| && EvidenceOutcome(p, m, vi, ci, r))
    && ((forall vi :: 0 <= vi < |b.validators| ==> b.validators[vi].key != key) ==> r == m)
  }

  ghost predicate EvidencesOutcome(p: Prices, keys: seq<Key>, trace: seq<Books>) {
    |trace| == |keys| + 1 && forall i :: 0 <= i < |keys| ==> AccusedOutcome(p, trace[i], keys[i], trace[i + 1])
  }

  /** What is frozen until this block goes to its owners, coin by coin, and nobody gets anything else. */
  ghost predicate ReleasedOutcome(b: Books, r: Books) {
    (forall a, c ::
       BalanceOf(r.balances, a, c) == BalanceOf(b.balances, a, c) + FundsFor(FundsAt(b.funds, b.height), a, c))
    && r == b.(balances := r.balances, funds := b.funds - {b.height}) && WealthKept(b, r)
  }

  ghost predicate BeginOutcome(p: Prices, b: Books, block: Block, r: Books) {
    exists t: seq<Books>, u: seq<Books> :: Began(p, b, block, t, u, r)
  }

  /** Votes are counted from an empty pool on, then evidence, and then funds are released. */
  ghost predicate Began(p: Prices, b: Books, block: Block, t: seq<Books>, u: seq<Books>, r: Books) {
    VotesOutcome(p, block.votes, t) && t[0] == b.(pool := 0)
    && EvidencesOutcome(p, block.byzantine, u) && u[0] == t[|block.votes|] && ReleasedOutcome(u[|block.byzantine|], r)
  }

  // ---------------------------------------------------------------------------------
  // Transactions
  // ---------------------------------------------------------------------------------

  ghost predicate OpOutcome(p: Prices, b: Books, op: Op, r: Books) {
    match op
    case Transfer(tx) =>
      (r == b || (RunTx.Ready(b.coins, tx) && RunTx.Outcome(p, b, tx, r)))
      && (NoDebts(b.balances) ==>
            if RunTx.Accepted(p, b, tx) then RunTx.Ready(b.coins, tx) && RunTx.Outcome(p, b, tx, r) else r == b)
    case Stake(tx) =>
      if Accepted(p, b, tx) then
        Acted(b, tx, r) && StakingPaid(p, b, tx, r)
        && r == b.(balances := r.balances, coins := r.coins, pool := r.pool, candidates := r.candidates, funds := r.funds,
                   stakeCache := r.stakeCache, nonces := b.nonces[tx.sender := tx.nonce])
      else r == b
    case Online(key) =>
      r == b.(candidates := r.candidates) && OnlySwitched(b.candidates, r.candidates, key, true)
    case Offline(key) =>
      r == b.(candidates := r.candidates, validators := r.validators)
      && OnlySwitched(b.candidates, r.candidates, key, false) && OnlyDropped(b.validators, r.validators, key)
  }

  ghost predicate OpsOutcome(p: Prices, ops: seq<Op>, trace: seq<Books>) {
    |trace| == |ops| + 1 && forall i :: 0 <= i < |ops| ==> OpOutcome(p, trace[i], ops[i], trace[i + 1])
  }

  // ---------------------------------------------------------------------------------
  // Ending a block
  // ---------------------------------------------------------------------------------

  /** Every account gets its part of the accruals, which are then gone; what nobody gets is slashed. */
  ghost predicate PaidOutcome(b: Books, r: Books) {
    (forall a, c ::
       BalanceOf(r.balances, a, c)
       == BalanceOf(b.balances, a, c) + if c == BASE then PaidTo(b.validators, b.candidates, a) else 0)
    && |r.validators| == |b.validators|
    && (forall k :: 0 <= k < |b.validators| ==> r.validators[k] == b.validators[k].(accum := 0))
    && Base(r) == Base(b) && r == b.(balances := r.balances, validators := r.validators, slashed := r.slashed)
  }

  /** The validators are elected anew, from the largest candidates; nobody's wealth changes. */
  ghost predicate UpdatedOutcome(p: Prices, b: Books, start: nat, chosen: seq<Candidate>, r: Books) {
    var count := ValidatorsCount(b.height, start);
    Prepared(p, b, 3 * count, r.candidates) && multiset(chosen) <= multiset(r.candidates)
    && |r.validators| == |chosen| && (forall i :: 0 <= i < |chosen| ==> SeatOf(b.validators, chosen[i], r.validators[i]))
    && ElectedFrom(r.candidates, count, r.validators)
    && WealthKept(b, r) && FrozenOnlyAt(b.funds, r.funds, b.height + 518400)
    && r == b.(balances := r.balances, candidates := r.candidates, validators := r.validators, funds := r.funds,
               stakeCache := r.stakeCache)
  }

  /** The reward is shared out, every 12th block accruals are paid, and every 120th, or when one leaves, validators change. */
  ghost predicate EndOutcome(p: Prices, b: Books, present: set<Key>, reward: int, start: nat, r: Books) {
    exists d: nat, m: Books, e: Books, chosen: seq<Candidate> :: Ended(p, b, present, reward, start, d, m, e, chosen, r)
  }

  ghost predicate Ended(p: Prices, b: Books, present: set<Key>, reward: int, start: nat, d: nat, m: Books, e: Books,
                        chosen: seq<Candidate>, r: Books) {
    AccrualOutcome(b, present, reward, d, m)
    && (if b.height % 12 == 0 then PaidOutcome(m, e) else e == m)
    && (if b.height % 120 == 0 || !NoDrops(b.validators) then UpdatedOutcome(p, e, start, chosen, r) else r == e)
  }

  // ---------------------------------------------------------------------------------
  // Committing a block
  // ---------------------------------------------------------------------------------

  /** Stakes of nothing and coins without volume are gone, and nobody's wealth changes. */
  ghost predicate CommitOutcome(b: Books, r: Books) {
    r.height == b.height + 1 && r.stakeCache == map[]
    && (forall c :: c in r.coins <==> c in b.coins && b.coins[c].volume != 0)
    && (forall c :: c in r.coins ==> r.coins[c] == b.coins[c])
    && |r.candidates| == |b.candidates|
    && (forall i :: 0 <= i < |b.candidates| ==>
          r.candidates[i] == b.candidates[i].(stakes := r.candidates[i].stakes)
          && multiset(r.candidates[i].stakes) <= multiset(b.candidates[i].stakes)
          && forall x :: x in b.candidates[i].stakes ==> (x in r.candidates[i].stakes <==> x.value != 0))
    && WealthKept(b, r)
    && r == b.(coins := r.coins, candidates := r.candidates, stakeCache := r.stakeCache, height := r.height)
  }

  /** A whole block: m are the books after its transactions. */
  ghost predicate BlockOutcome(p: Prices, b: Books, block: Block, reward: int, start: nat, m: Books, r: Books) {
    exists t: seq<Books>, e: Books :: BlockSteps(p, b, block, reward, start, t, m, e, r)
  }

  ghost predicate BlockSteps(p: Prices, b: Books, block: Block, reward: int, start: nat, t: seq<Books>, m: Books,
                             e: Books, r: Books) {
    OpsOutcome(p, block.ops, t) && BeginOutcome(p, b, block, t[0]) && t[|block.ops|] == m
    && EndOutcome(p, m, Present(block.votes), reward, start, e) && CommitOutcome(e, r)
  }
}
