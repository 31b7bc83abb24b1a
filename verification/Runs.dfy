// Runs of blocks: what each block adds to the supply and exactly when it adds less than its reward.
module Runs {
  import opened Blocks
  import opened Chain
  import opened Conversion
  import opened Departures
  import opened Elections
  import opened Ledger
  import opened Liquidation
  import opened Marks
  import opened Slashing
  import opened StakeTx
  import opened StateDb
  import opened Staking
  import opened Steps
  import opened ValidatorSet
  import Emission
  import RunTx

  // ---------------------------------------------------------------------------------
  // When a block loses accruals
  // ---------------------------------------------------------------------------------

  /** The validators marked when a block's transactions are done are those the block makes leave. */
  lemma BlockMarks(b: Books, block: Block, reward: int, m: Books, r: Books, k: nat)
    requires BlockRuns(b, block, reward, m, r) && k < |b.validators|
    ensures m.height == b.height && |m.validators| == |b.validators|
    ensures m.validators[k].key == b.validators[k].key && m.validators[k].accum == b.validators[k].accum
    ensures m.validators[k].toDrop <==> b.validators[k].toDrop || Dropped(b, block, k)
  {
    hide DroppedByVotes, DroppedByEvidence, KeyOnline, LeftBehind;
  }

  /** Nobody is absent once too often, accused while online, or switched off. */
  predicate Harmless(b: Books, block: Block) {
    forall k :: 0 <= k < |b.validators| ==> !Dropped(b, block, k)
  }

  lemma HarmlessMarks(b: Books, block: Block, reward: int, m: Books, r: Books)
    requires BlockRuns(b, block, reward, m, r) && NoDrops(b.validators)
    ensures m.height == b.height && |m.validators| == |b.validators|
    ensures NoDrops(m.validators) <==> Harmless(b, block)
  {
    hide BlockRuns, Dropped;
    BlockShape(b, block, reward, m, r);
    forall k | 0 <= k < |b.validators|
      ensures m.validators[k].toDrop <==> Dropped(b, block, k)
    {
      BlockMarks(b, block, reward, m, r, k);
    }
  }

  lemma BlockShape(b: Books, block: Block, reward: int, m: Books, r: Books)
    requires BlockRuns(b, block, reward, m, r)
    ensures m.height == b.height && |m.validators| == |b.validators| && Sound(m.candidates, m.validators) && m.pool >= 0
    ensures Supply(r) == Supply(b) + reward - LeftBehind(m, Present(block.votes), reward, r.validators)
                         - Reserves(EmptyCoins(m.coins))
  {
    hide DroppedByVotes, DroppedByEvidence, KeyOnline, LeftBehind, Sound, CoinsKnown, Base, Gap, EmptyCoins, LiveCoins, Reserves;
  }

  /** A block pays out, or drops nobody, or elects all that have accrued anything again. */
  predicate KeepsAccruals(b: Books, block: Block, reward: int, m: Books, r: Books) {
    b.height % 12 == 0 || Harmless(b, block) || AllElectedAgain(m, Present(block.votes), reward, r.validators)
  }

  /** But for reserves of removed coins, the supply grows by the whole reward exactly then, and never by more. */
  lemma SupplyIff(b: Books, block: Block, reward: int, m: Books, r: Books)
    requires BlockRuns(b, block, reward, m, r) && NoDrops(b.validators) && reward >= 0
    ensures LeftBehind(m, Present(block.votes), reward, r.validators) >= 0
    ensures Supply(r) == Supply(b) + reward - Reserves(EmptyCoins(m.coins)) <==> KeepsAccruals(b, block, reward, m, r)
  {
    hide BlockRuns, Harmless, LeftBehind, NoDrops, Sound, Base, EmptyCoins, Reserves, AllElectedAgain;
    BlockShape(b, block, reward, m, r);
    HarmlessMarks(b, block, reward, m, r);
    LeftIff(m, Present(block.votes), reward, r.validators);
  }

  /** No coin that is removed has any reserve left. */
  predicate EmptiesSpent(coins: map<Coin, CoinData>) {
    forall c :: c in coins && coins[c].volume == 0 ==> coins[c].reserve == 0
  }

  lemma ReservesOfEmpties(coins: map<Coin, CoinData>)
    requires forall c :: c in coins && coins[c].volume == 0 ==> coins[c].reserve >= 0
    ensures Reserves(EmptyCoins(coins)) >= 0
    ensures Reserves(EmptyCoins(coins)) == 0 <==> EmptiesSpent(coins)
  {
    var m := ReserveMap(EmptyCoins(coins));
    hide Sum;
    SumNotNegative(m);
    if EmptiesSpent(coins) {
      SumOfZeros(m);
    } else {
      var c :| c in coins && coins[c].volume == 0 && coins[c].reserve != 0;
      SumOfNonNegative(m, c);
    }
  }

  /** With reserves that are not negative, the supply grows by the whole reward exactly when nothing at all is lost. */
  lemma WholeSupplyIff(b: Books, block: Block, reward: int, m: Books, r: Books)
    requires BlockRuns(b, block, reward, m, r) && NoDrops(b.validators) && reward >= 0
    requires forall c :: c in m.coins && m.coins[c].volume == 0 ==> m.coins[c].reserve >= 0
    ensures Supply(r) <= Supply(b) + reward
    ensures Supply(r) == Supply(b) + reward <==> KeepsAccruals(b, block, reward, m, r) && EmptiesSpent(m.coins)
  {
    hide BlockRuns, KeepsAccruals, LeftBehind, NoDrops, Sound, Base, EmptyCoins, Reserves, EmptiesSpent;
    BlockShape(b, block, reward, m, r);
    SupplyIff(b, block, reward, m, r);
    ReservesOfEmpties(m.coins);
  }

  /** Of two validators a block makes leave, the later takes its accrual along unless its candidate is switched on again. */
  lemma LaterOneLoses(b: Books, block: Block, reward: int, m: Books, r: Books, j: nat, k: nat)
    requires BlockRuns(b, block, reward, m, r) && reward >= 0 && b.height % 12 != 0 && NoDrops(b.validators)
    requires j < k < |b.validators| && Dropped(b, block, j) && Dropped(b, block, k)
    requires Online(b.validators[k].key) !in block.ops
    ensures Supply(r) <= Supply(b) + reward - b.validators[k].accum - Reserves(EmptyCoins(m.coins))
  {
    BlockMarks(b, block, reward, m, r, j);
    BlockMarks(b, block, reward, m, r, k);
    BlockShape(b, block, reward, m, r);
    assert !NoDrops(m.validators);
    NotElected(b, block, reward, m, r, k);
    hide BlockRuns, LeftBehind, Dropped, Sound, Base, EmptyCoins, Reserves, HasKey;
    DroppedLoses(m, Present(block.votes), reward, r.validators, k);
  }

  lemma NotElected(b: Books, block: Block, reward: int, m: Books, r: Books, k: nat)
    requires BlockRuns(b, block, reward, m, r) && NoDrops(b.validators) && !NoDrops(m.validators)
    requires k < |b.validators| && k < |m.validators| && m.validators[k].toDrop && Online(b.validators[k].key) !in block.ops
    requires m.validators[k].key == b.validators[k].key
    ensures !HasKey(r.validators, m.validators[k].key)
  {
    hide DroppedByVotes, DroppedByEvidence, KeyOnline, LeftBehind, Sound, CoinsKnown, Base, Gap, EmptyCoins, LiveCoins, Reserves;
  }

  // ---------------------------------------------------------------------------------
  // Absences that do no harm
  // ---------------------------------------------------------------------------------

  lemma {:induction false} OneMoreAbsence(absent: seq<bool>, i: nat)
    requires i < |absent|
    ensures CountAbsent(absent[i := true]) <= CountAbsent(absent) + 1
  {
    if i > 0 {
      assert absent[i := true][1..] == absent[1..][i - 1 := true];
      OneMoreAbsence(absent[1..], i - 1);
    } else {
      assert absent[0 := true][1..] == absent[1..];
    }
  }

  /** Short of twelve absences, no vote makes a validator leave. */
  lemma FewAbsences(b: Books, votes: seq<Vote>, k: nat)
    requires k < |b.validators| && |b.validators[k].absent| == ABSENT_WINDOW && CountAbsent(b.validators[k].absent) < MAX_ABSENT
    ensures !DroppedByVotes(b, votes, k)
  {
    OneMoreAbsence(b.validators[k].absent, b.height % ABSENT_WINDOW);
    hide CountAbsent, KeyOnline, DroppedByVotes;
    DroppedByVotesIff(b, votes, k);
  }

  // ---------------------------------------------------------------------------------
  // A block that loses an accrual
  // ---------------------------------------------------------------------------------

  function Twin(key: Key): Candidate { Candidate(key, 1, 10, 0, [], true) }

  function Seat(key: Key, accum: int): Validator { Validator(key, 1, 10, 0, accum, NeverAbsent(), false) }

  /** Two validators with accruals, one block after a payout. */
  function TwoValidators(): Books {
    Books(map[], map[], map[], map[], [Twin(1), Twin(2)], [Seat(1, 10), Seat(2, 20)], 0, 0, 5761, map[])
  }

  /** Both are switched off. */
  const SWITCHED_OFF: Block := Block([], [], [Offline(1), Offline(2)])

  lemma TwoValidatorsOrderly()
    ensures Orderly(TwoValidators()) && NoDrops(TwoValidators().validators)
    ensures TwoValidators().height >= UPGRADE_BLOCK_0 && TwoValidators().height % 12 != 0
  {
    var b := TwoValidators();
    assert CandidateIndex(b.candidates, 1) == 0;
    assert b.candidates[1..] == [Twin(2)];
    assert CandidateIndex(b.candidates, 2) == 1;
  }

  lemma BothDropped()
    ensures var b := TwoValidators();
            |b.validators| == 2 && b.validators[1].key == 2 && b.validators[1].accum == 20 && b.coins == map[]
            && Dropped(b, SWITCHED_OFF, 0) && Dropped(b, SWITCHED_OFF, 1) && Online(2) !in SWITCHED_OFF.ops
  {
    hide KeyOnline, DroppedByVotes;
  }

  /** However the block runs, the supply falls short of the reward by the second accrual at least. */
  lemma LosingBlock(reward: int, m: Books, r: Books)
    requires BlockRuns(TwoValidators(), SWITCHED_OFF, reward, m, r) && reward >= 0
    ensures Supply(r) <= Supply(TwoValidators()) + reward - 20
  {
    hide TwoValidators, BlockRuns, Dropped, NoDrops, EmptyCoins, Reserves, Base;
    TwoValidatorsOrderly();
    BothDropped();
    LaterOneLoses(TwoValidators(), SWITCHED_OFF, reward, m, r, 0, 1);
    NoCoins(TwoValidators(), SWITCHED_OFF, reward, m, r);
  }

  lemma NoCoins(b: Books, block: Block, reward: int, m: Books, r: Books)
    requires BlockRuns(b, block, reward, m, r) && b.coins == map[]
    ensures Reserves(EmptyCoins(m.coins)) == 0
  {
    hide DroppedByVotes, DroppedByEvidence, KeyOnline, LeftBehind, Sound, CoinsKnown, Base, Gap, Operated;
    assert m.coins == map[];
    assert ReserveMap(EmptyCoins(m.coins)) == map[];
  }

  // ---------------------------------------------------------------------------------
  // A transaction after which a commit loses a reserve
  // ---------------------------------------------------------------------------------

  /** Curves by which everything costs and yields a hundred. */
  function HundredEach(): Prices {
    Prices((v, r, c, x) => 100, (v, r, c, x) => 100, (v, r, c, x) => 100, (v, r, c, x) => 100, (v, r, c, x) => 100)
  }

  /** An account with all there is of coin 1, whose reserve is the commission of a send and seven more. */
  function GasBooks(): Books {
    Books(map[(7, 1) := 100], map[], map[1 := CoinData(100, 10_000_000_000_000_007, 50, false)], map[], [], [], 0, 0,
          5761, map[])
  }

  /** Sends nothing, and pays for the gas with coin 1. */
  const GAS_TX: Tx := Tx(7, 1, 1, 1, 0, 0, Send(BASE, 7, 0))

  lemma GasAccepted()
    ensures Orderly(GasBooks()) && NoDrops(GasBooks().validators) && GasBooks().height >= UPGRADE_BLOCK_0
    ensures RunTx.Accepted(HundredEach(), GasBooks(), GAS_TX)
  {
    assert CommissionInBaseCoin(GAS_TX) == 10_000_000_000_000_000;
    hide Held, Reserves, Ledger.Staked, Frozen;
  }

  lemma {:induction false} HeldByNobody(b: Balances, c: Coin)
    requires forall a :: BalanceOf(b, a, c) == 0
    ensures Held(b, c) == 0
  {
    forall k | k in OfCoin(b, c)
      ensures OfCoin(b, c)[k] == 0
    {
      assert b[k] == BalanceOf(b, k.0, c);
    }
    SumOfZeros(OfCoin(b, c));
  }

  lemma GasGiven()
    ensures RunTx.Ready(GasBooks().coins, GAS_TX)
    ensures RunTx.Given(HundredEach(), GasBooks(), GAS_TX) == (BASE, 0, 1, 100)
    ensures RunTx.Credited(HundredEach(), GasBooks(), GAS_TX) == 0 && RunTx.CreditedCoin(GAS_TX.data) == BASE
    ensures RunTx.Receiver(GAS_TX) == GAS_TX.sender == 7 && CommissionInBaseCoin(GAS_TX) == 10_000_000_000_000_000
  {
  }

  /** What the transaction does to every balance. */
  lemma GasBalances(m: Books)
    requires RunTx.Ready(GasBooks().coins, GAS_TX) && RunTx.Outcome(HundredEach(), GasBooks(), GAS_TX, m)
    ensures forall a :: BalanceOf(m.balances, a, 1) == 0 && BalanceOf(m.balances, a, BASE) == 0
    ensures m == GasBooks().(balances := m.balances, coins := m.coins, pool := 10_000_000_000_000_000, nonces := m.nonces)
  {
    GasGiven();
    var b := GasBooks().balances;
    hide Base, Gap, RunTx.Given, RunTx.Credited, RunTx.Lost, RunTx.Receiver, RunTx.CreditedCoin, CommissionInBaseCoin, HundredEach;
    forall a
      ensures BalanceOf(m.balances, a, 1) == 0 && BalanceOf(m.balances, a, BASE) == 0
    {
      assert BalanceOf(b, a, BASE) == 0 && BalanceOf(b, a, 1) == if a == 7 then 100 else 0;
      assert BalanceOf(m.balances, a, 1) == BalanceOf(b, a, 1) - if a == 7 then 100 else 0;
    }
  }

  lemma GasSheet()
    ensures Base(GasBooks()) == 10_000_000_000_000_007 && Gap(GasBooks(), 1) == 0
  {
    var b := GasBooks();
    hide Sum;
    OneReserve(b.coins);
    HeldByNobody(b.balances, BASE);
    SumWithout(OfCoin(b.balances, 1), (7, 1));
    assert OfCoin(b.balances, 1) - {(7, 1)} == map[];
    SumOfZeros<(Address, Coin)>(map[]);
    SumOfZeros(FundMap(b.funds, 1));
    SumOfZeros(FundMap(b.funds, BASE));
  }

  /** It leaves nothing of the coin, but seven of its reserve. */
  lemma GasTakesAll(m: Books)
    requires RunTx.Ready(GasBooks().coins, GAS_TX) && RunTx.Outcome(HundredEach(), GasBooks(), GAS_TX, m)
    ensures m.coins.Keys == {1} && m.coins[1].volume == 0 && m.coins[1].reserve == 7 && NoDrops(m.validators)
  {
    GasBalances(m);
    GasSheet();
    hide Sum, Reserves;
    HeldByNobody(m.balances, 1);
    HeldByNobody(m.balances, BASE);
    assert Base(m) == Base(GasBooks()) && Gap(m, 1) == Gap(GasBooks(), 1);
    OneReserve(m.coins);
    SumOfZeros(FundMap(m.funds, 1));
    SumOfZeros(FundMap(m.funds, BASE));
  }

  lemma OneReserve(coins: map<Coin, CoinData>)
    requires coins.Keys == {1}
    ensures Reserves(coins) == coins[1].reserve
  {
    var m := ReserveMap(coins);
    SumWithout(m, 1);
    assert m - {1} == map[];
  }

  /** A block whose transactions end so removes the coin, reserve and all: the supply is short by seven. */
  lemma RemovalLosesReserve(block: Block, reward: int, b: Books, m: Books, r: Books)
    requires BlockRuns(b, block, reward, m, r)
    requires RunTx.Ready(GasBooks().coins, GAS_TX) && RunTx.Outcome(HundredEach(), GasBooks(), GAS_TX, m)
    ensures r.coins == map[] && Supply(r) == Supply(b) + reward - 7
  {
    hide Orderly, Operated, Base, Gap, KeyOnline, Reserves, NoDrops, RunTx.Outcome;
    GasTakesAll(m);
    assert EmptyCoins(m.coins) == m.coins && LiveCoins(m.coins) == map[];
    OneReserve(m.coins);
    NothingDroppedNothingLeft(m, Present(block.votes), reward, r.validators);
    hide LeftBehind;
  }

  lemma NothingDroppedNothingLeft(m: Books, present: set<Key>, reward: int, now: seq<Validator>)
    requires NoDrops(m.validators)
    ensures LeftBehind(m, present, reward, now) == 0
  {
  }

  // ---------------------------------------------------------------------------------
  // Whole runs
  // ---------------------------------------------------------------------------------

  /** Every 120th block, and when somebody has to leave, the seats go to the largest of the candidates. */
  ghost predicate Elects(m: Books, r: Books, start: nat) {
    m.height % 120 == 0 || !NoDrops(m.validators) ==>
      ElectedFrom(r.candidates, ValidatorsCount(m.height, start), r.validators)
  }

  /** Block i leads from trace[i] to trace[i + 1]; ends[i] are the books after its transactions. */
  ghost predicate Leads(trace: seq<Books>, ends: seq<Books>, blocks: seq<Block>, start: nat, i: nat)
    requires i < |ends| <= |blocks| && |trace| == |ends| + 1
  {
    NoDrops(trace[i].validators)
    && BlockRuns(trace[i], blocks[i], Emission.RewardAt(trace[i].height + start), ends[i], trace[i + 1])
    && Elects(ends[i], trace[i + 1], start)
  }

  ghost predicate Runs(trace: seq<Books>, ends: seq<Books>, blocks: seq<Block>, start: nat) {
    |trace| == |ends| + 1 && |ends| <= |blocks| && forall i :: 0 <= i < |ends| ==> Leads(trace, ends, blocks, start, i)
  }

  function AccrualsLostAt(trace: seq<Books>, ends: seq<Books>, blocks: seq<Block>, start: nat, i: nat): int
    requires i < |ends| <= |blocks| && |trace| == |ends| + 1
  {
    LeftBehind(ends[i], Present(blocks[i].votes), Emission.RewardAt(trace[i].height + start), trace[i + 1].validators)
  }

  /** The accruals the first n blocks left behind. */
  function AccrualsLost(trace: seq<Books>, ends: seq<Books>, blocks: seq<Block>, start: nat, n: nat): int
    requires n <= |ends| <= |blocks| && |trace| == |ends| + 1
  {
    if n == 0 then 0
    else AccrualsLost(trace, ends, blocks, start, n - 1) + AccrualsLostAt(trace, ends, blocks, start, n - 1)
  }

  /** The reserves of the coins the first n commits removed. */
  ghost function ReservesLost(ends: seq<Books>, n: nat): int
    requires n <= |ends|
  {
    if n == 0 then 0 else ReservesLost(ends, n - 1) + Reserves(EmptyCoins(ends[n - 1].coins))
  }

  predicate KeepsAt(trace: seq<Books>, ends: seq<Books>, blocks: seq<Block>, start: nat, i: nat)
    requires i < |ends| <= |blocks| && |trace| == |ends| + 1
  {
    KeepsAccruals(trace[i], blocks[i], Emission.RewardAt(trace[i].height + start), ends[i], trace[i + 1])
  }

  /** A run loses no accrual exactly when each of its blocks keeps them. */
  lemma {:induction false} RunIff(trace: seq<Books>, ends: seq<Books>, blocks: seq<Block>, start: nat, n: nat)
    requires Runs(trace, ends, blocks, start) && n <= |ends|
    ensures AccrualsLost(trace, ends, blocks, start, n) >= 0
    ensures AccrualsLost(trace, ends, blocks, start, n) == 0 <==>
              forall i :: 0 <= i < n ==> KeepsAt(trace, ends, blocks, start, i)
  {
    hide Leads, AccrualsLostAt, KeepsAt;
    if n != 0 {
      RunIff(trace, ends, blocks, start, n - 1);
      assert Leads(trace, ends, blocks, start, n - 1);
      LossAt(trace, ends, blocks, start, n - 1);
    }
  }

  lemma LossAt(trace: seq<Books>, ends: seq<Books>, blocks: seq<Block>, start: nat, i: nat)
    requires i < |ends| <= |blocks| && |trace| == |ends| + 1 && Leads(trace, ends, blocks, start, i)
    ensures AccrualsLostAt(trace, ends, blocks, start, i) >= 0
    ensures AccrualsLostAt(trace, ends, blocks, start, i) == 0 <==> KeepsAt(trace, ends, blocks, start, i)
  {
    hide BlockRuns, NoDrops, KeepsAccruals, Base, LeftBehind, EmptyCoins, Reserves, Emission.RewardAt;
    var reward := Emission.RewardAt(trace[i].height + start);
    Emission.RewardBounds(trace[i].height + start);
    BlockShape(trace[i], blocks[i], reward, ends[i], trace[i + 1]);
    SupplyIff(trace[i], blocks[i], reward, ends[i], trace[i + 1]);
  }

  /** One more block at the end of a run. */
  lemma RunOneMore(trace: seq<Books>, ends: seq<Books>, blocks: seq<Block>, start: nat, m: Books, r: Books)
    requires Runs(trace, ends, blocks, start) && |ends| < |blocks| && NoDrops(trace[|ends|].validators)
    requires BlockRuns(trace[|ends|], blocks[|ends|], Emission.RewardAt(trace[|ends|].height + start), m, r)
    requires Elects(m, r, start)
    ensures Runs(trace + [r], ends + [m], blocks, start)
  {
    hide Leads, Emission.RewardAt, BlockRuns, NoDrops, Elects;
    LastLeads(trace, ends, blocks, start, m, r);
    forall i | 0 <= i < |ends|
      ensures Leads(trace + [r], ends + [m], blocks, start, i)
    {
      assert Leads(trace, ends, blocks, start, i);
      EarlierLeads(trace, ends, blocks, start, m, r, i);
    }
  }

  lemma LossOneMore(trace: seq<Books>, ends: seq<Books>, blocks: seq<Block>, start: nat, m: Books, r: Books)
    requires |trace| == |ends| + 1 && |ends| < |blocks|
    ensures var n := |ends|;
            AccrualsLost(trace + [r], ends + [m], blocks, start, n + 1)
              == AccrualsLost(trace, ends, blocks, start, n)
                 + LeftBehind(m, Present(blocks[n].votes), Emission.RewardAt(trace[n].height + start), r.validators)
    ensures ReservesLost(ends + [m], |ends| + 1) == ReservesLost(ends, |ends|) + Reserves(EmptyCoins(m.coins))
  {
    hide LeftBehind, EmptyCoins, Reserves, Emission.RewardAt;
    SamePrefix(trace, ends, blocks, start, m, r, |ends|);
  }

  lemma EarlierLeads(trace: seq<Books>, ends: seq<Books>, blocks: seq<Block>, start: nat, m: Books, r: Books, i: nat)
    requires |trace| == |ends| + 1 && |ends| < |blocks| && i < |ends| && Leads(trace, ends, blocks, start, i)
    ensures Leads(trace + [r], ends + [m], blocks, start, i)
  {
    hide BlockRuns, NoDrops, Elects, Emission.RewardAt;
  }

  lemma LastLeads(trace: seq<Books>, ends: seq<Books>, blocks: seq<Block>, start: nat, m: Books, r: Books)
    requires |trace| == |ends| + 1 && |ends| < |blocks| && NoDrops(trace[|ends|].validators) && Elects(m, r, start)
    requires BlockRuns(trace[|ends|], blocks[|ends|], Emission.RewardAt(trace[|ends|].height + start), m, r)
    ensures Leads(trace + [r], ends + [m], blocks, start, |ends|)
  {
    hide BlockRuns, NoDrops, Elects, Emission.RewardAt;
  }

  lemma {:induction false} SamePrefix(trace: seq<Books>, ends: seq<Books>, blocks: seq<Block>, start: nat, m: Books,
                                      r: Books, n: nat)
    requires |trace| == |ends| + 1 && n <= |ends| < |blocks|
    ensures AccrualsLost(trace + [r], ends + [m], blocks, start, n) == AccrualsLost(trace, ends, blocks, start, n)
    ensures ReservesLost(ends + [m], n) == ReservesLost(ends, n)
  {
    hide LeftBehind, EmptyCoins, Reserves, Emission.RewardAt;
    if n != 0 {
      SamePrefix(trace, ends, blocks, start, m, r, n - 1);
    }
  }

  /** Every block of a run is its steps, one after the other. */
  ghost predicate Stepwise(p: Prices, trace: seq<Books>, ends: seq<Books>, blocks: seq<Block>, start: nat) {
    |trace| == |ends| + 1 && |ends| <= |blocks|
    && forall i :: 0 <= i < |ends| ==>
         BlockOutcome(p, trace[i], blocks[i], Emission.RewardAt(trace[i].height + start), start, ends[i], trace[i + 1])
  }

  lemma StepOneMore(p: Prices, trace: seq<Books>, ends: seq<Books>, blocks: seq<Block>, start: nat, m: Books, r: Books)
    requires Stepwise(p, trace, ends, blocks, start) && |ends| < |blocks|
    requires BlockOutcome(p, trace[|ends|], blocks[|ends|], Emission.RewardAt(trace[|ends|].height + start), start, m, r)
    ensures Stepwise(p, trace + [r], ends + [m], blocks, start)
  {
    hide BlockOutcome, Emission.RewardAt;
    var (t, e) := (trace + [r], ends + [m]);
    forall i | 0 <= i < |e|
      ensures BlockOutcome(p, t[i], blocks[i], Emission.RewardAt(t[i].height + start), start, e[i], t[i + 1])
    {
      if i < |ends| {
        assert t[i] == trace[i] && e[i] == ends[i] && t[i + 1] == trace[i + 1];
      }
    }
  }

  /**
   * Any run of blocks. The base coin supply is what it was plus the emission of the heights passed, less the
   * accruals that left with validators and the reserves that went with removed coins; every custom coin there
   * still is keeps its gap; and the stake invariant holds throughout. The run goes on for as long as no coin is
   * removed that a stake, a frozen fund or an account still mentions.
   */
  method RunBlocks(s: StateDB, p: Prices, blocks: seq<Block>, start: nat, arrange: seq<Candidate> -> seq<Candidate>)
    returns (done: nat, ghost trace: seq<Books>, ghost ends: seq<Books>)
    requires Orderly(s.State()) && NoDrops(s.validators) && s.height >= UPGRADE_BLOCK_0 && Permutes(arrange)
    modifies s
    ensures done == |ends| && Runs(trace, ends, blocks, start) && Stepwise(p, trace, ends, blocks, start)
    ensures trace[0] == old(s.State()) && trace[done] == s.State()
    ensures Steady(s.State()) && NoDrops(s.validators) && s.height == old(s.height) + done
    ensures done < |blocks| ==> !CoinsKnown(s.State())
    ensures Supply(s.State())
         == Supply(old(s.State())) + Emission.Rewards(old(s.height) + start - 1, done)
            - AccrualsLost(trace, ends, blocks, start, done) - ReservesLost(ends, done)
    ensures forall c :: c in s.coins && c != BASE ==> c in old(s.coins) && Gap(s.State(), c) == Gap(old(s.State()), c)
  {
    hide Sound, CacheSound, AllKnown, FundsKnown, BalancesKnown, Base, Gap, Emission.RewardAt, Permutes, NoDrops, BlockRuns,
         LeftBehind, EmptyCoins, Reserves, LiveCoins, AccrualsLostAt, ElectedFrom, BlockOutcome, Stepwise;
    ghost var b := s.State();
    FirstStep(p, b, blocks, start);
    trace, ends, done := [b], [], 0;
    while done < |blocks| && AllKnown(s.coins, s.candidates) && FundsKnown(s.coins, s.funds)
                          && BalancesKnown(s.coins, s.balances)
      invariant done == |ends| <= |blocks| && Runs(trace, ends, blocks, start) && Stepwise(p, trace, ends, blocks, start)
      invariant trace[0] == b && trace[done] == s.State()
      invariant Steady(s.State()) && NoDrops(s.validators) && s.height == b.height + done
      invariant Supply(s.State())
             == Supply(b) + Emission.Rewards(b.height + start - 1, done)
                - AccrualsLost(trace, ends, blocks, start, done) - ReservesLost(ends, done)
      invariant forall c :: c in s.coins && c != BASE ==> c in b.coins && Gap(s.State(), c) == Gap(b, c)
    {
      ghost var was := s.State();
      ghost var m := RunBlock(s, p, blocks[done], start, arrange);
      RunOneMore(trace, ends, blocks, start, m, s.State());
      LossOneMore(trace, ends, blocks, start, m, s.State());
      StepOneMore(p, trace, ends, blocks, start, m, s.State());
      BlockEffect(was, blocks[done], Emission.RewardAt(was.height + start), m, s.State());
      trace, ends := trace + [s.State()], ends + [m];
      done := done + 1;
    }
  }

  lemma FirstStep(p: Prices, b: Books, blocks: seq<Block>, start: nat)
    ensures Stepwise(p, [b], [], blocks, start)
  {
  }

  lemma BlockEffect(b: Books, block: Block, reward: int, m: Books, r: Books)
    requires BlockRuns(b, block, reward, m, r)
    ensures r.height == b.height + 1
    ensures Supply(r) == Supply(b) + reward - LeftBehind(m, Present(block.votes), reward, r.validators)
                         - Reserves(EmptyCoins(m.coins))
    ensures forall c :: c in r.coins && c != BASE ==> c in b.coins && Gap(r, c) == Gap(b, c)
  {
    hide DroppedByVotes, DroppedByEvidence, KeyOnline, LeftBehind, Sound, CoinsKnown, Base, Gap, EmptyCoins, LiveCoins, Reserves;
  }
}
