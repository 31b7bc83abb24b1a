// What leaves the ledger with validators that are replaced before they are paid.
module Departures {
  import opened Blocks
  import opened Ledger
  import opened Marks
  import opened StateDb
  import opened Staking
  import opened ValidatorSet
  import Payout

  /** The accruals lost with a block, m being the books after its transactions and now the validators it ends with. */
  function LeftBehind(m: Books, present: set<Key>, reward: int, now: seq<Validator>): int {
    if m.height % 12 == 0 || NoDrops(m.validators) then 0
    else Leaving(AccruedBooks(m, present, reward).validators, now)
  }

  /** All that have accrued anything once the block's reward is shared out are elected again. */
  predicate AllElectedAgain(m: Books, present: set<Key>, reward: int, now: seq<Validator>) {
    forall k :: 0 <= k < |AccruedBooks(m, present, reward).validators|
                && AccruedBooks(m, present, reward).validators[k].accum > 0 ==>
      HasKey(now, AccruedBooks(m, present, reward).validators[k].key)
  }

  /** Told from the recalculated candidates: large enough is sufficient for each accrual, fit is necessary. */
  lemma ElectedAgainIf(m: Books, present: set<Key>, reward: int, cs: seq<Candidate>, count: nat, now: seq<Validator>)
    requires ElectedFrom(cs, count, now)
    ensures var vals := AccruedBooks(m, present, reward).validators;
            (forall k :: 0 <= k < |vals| && vals[k].accum > 0 ==> LargeEnough(cs, count, now, vals[k].key)) ==>
              AllElectedAgain(m, present, reward, now)
    ensures AllElectedAgain(m, present, reward, now) ==>
              var vals := AccruedBooks(m, present, reward).validators;
              forall k :: 0 <= k < |vals| && vals[k].accum > 0 ==> Fit(cs, vals[k].key)
  {
    hide AccruedBooks, ElectedFrom, LargeEnough, Fit, HasKey;
    var vals := AccruedBooks(m, present, reward).validators;
    forall k | 0 <= k < |vals|
      ensures LargeEnough(cs, count, now, vals[k].key) ==> HasKey(now, vals[k].key)
      ensures HasKey(now, vals[k].key) ==> Fit(cs, vals[k].key)
    {
      SeatFor(cs, count, now, vals[k].key);
    }
  }

  /** It is a payout block, or nobody has to leave, or all that have accrued anything are elected again. */
  predicate NothingLeft(m: Books, present: set<Key>, reward: int, now: seq<Validator>) {
    m.height % 12 == 0 || NoDrops(m.validators) || AllElectedAgain(m, present, reward, now)
  }

  /** Exactly then no accrual is lost; in any case none is lost more than once. */
  lemma LeftIff(m: Books, present: set<Key>, reward: int, now: seq<Validator>)
    requires Sound(m.candidates, m.validators) && reward >= 0 && m.pool >= 0
    ensures LeftBehind(m, present, reward, now) >= 0
    ensures LeftBehind(m, present, reward, now) == 0 <==> NothingLeft(m, present, reward, now)
  {
    hide Sound, Leaving, HasKey, AccruedBooks, NoDrops, Accrued;
    AccrualKeeps(m, present, reward);
    var r := AccruedBooks(m, present, reward);
    SoundAccruals(r.candidates, r.validators);
    LeavingBounds(r.validators, now, 0);
    LeavingNothing(r.validators, now);
  }

  /** The first validator to be dropped has its accrual returned; another keeps it, and gains no share. */
  lemma AccruedSeat(m: Books, present: set<Key>, reward: int, k: nat)
    requires k < |m.validators|
    ensures var r := AccruedBooks(m, present, reward);
            |r.validators| == |m.validators| && r.validators[k].key == m.validators[k].key
            && r.validators[k].toDrop == m.validators[k].toDrop
            && (m.validators[k].toDrop ==>
                  r.validators[k].accum == if k == FirstDropped(m.validators) then 0 else m.validators[k].accum)
  {
    hide SharesSum, Power, Payout.Portion, FirstDropped;
  }

  /** A dropped validator other than the first takes its accrual with it unless it is elected again. */
  lemma DroppedLoses(m: Books, present: set<Key>, reward: int, now: seq<Validator>, k: nat)
    requires Sound(m.candidates, m.validators) && reward >= 0 && m.pool >= 0 && m.height % 12 != 0
    requires k < |m.validators| && m.validators[k].toDrop && k != FirstDropped(m.validators)
    requires !HasKey(now, m.validators[k].key)
    ensures m.validators[k].accum <= LeftBehind(m, present, reward, now)
  {
    assert !NoDrops(m.validators);
    hide Sound, Leaving, HasKey, AccruedBooks, NoDrops, Accrued;
    AccruedSeat(m, present, reward, k);
    AccrualKeeps(m, present, reward);
    var r := AccruedBooks(m, present, reward);
    SoundAccruals(r.candidates, r.validators);
    LeavingBounds(r.validators, now, k);
  }
}
