// Block rewards: what a block brings is shared out among the validators that signed it.
module Blocks {
  import opened Arith
  import opened Common
  import opened Conversion
  import opened Elections
  import opened Ledger
  import opened Slashing
  import opened StateDb
  import opened Staking
  import opened Payout
  import opened ValidatorSet

  // ---------------------------------------------------------------------------------
  // Accrual
  // ---------------------------------------------------------------------------------

  /** Validators that are kept and signed the last block share the reward. */
  predicate Shares(v: Validator, present: set<Key>) { !v.toDrop && v.key in present }

  function Power(vals: seq<Validator>, present: set<Key>): int {
    if vals == [] then 0
    else Power(vals[..|vals| - 1], present)
         + if Shares(vals[|vals| - 1], present) then vals[|vals| - 1].totalBip else 0
  }

  function Share(v: Validator, present: set<Key>, reward: int, power: int): int {
    if Shares(v, present) then Portion(reward, v.totalBip, power) else 0
  }

  function SharesSum(vals: seq<Validator>, present: set<Key>, reward: int, power: int): int {
    if vals == [] then 0
    else SharesSum(vals[..|vals| - 1], present, reward, power) + Share(vals[|vals| - 1], present, reward, power)
  }

  lemma {:induction false} PowerBounds(vals: seq<Validator>, present: set<Key>, k: nat)
    requires forall i :: 0 <= i < |vals| ==> vals[i].totalBip >= 0
    ensures Power(vals, present) >= 0
    ensures k < |vals| && Shares(vals[k], present) ==> vals[k].totalBip <= Power(vals, present)
  {
    if vals != [] {
      PowerBounds(vals[..|vals| - 1], present, k);
    }
  }

  lemma {:induction false} SharesScaled(vals: seq<Validator>, present: set<Key>, reward: int, power: int)
    requires reward >= 0 && power >= 0
    requires forall i :: 0 <= i < |vals| ==>
      vals[i].totalBip >= 0 && (Shares(vals[i], present) ==> vals[i].totalBip <= power)
    ensures power * SharesSum(vals, present, reward, power) <= reward * Power(vals, present)
    ensures power == 0 ==> SharesSum(vals, present, reward, power) == 0
  {
    hide Portion;
    if vals == [] {
      TimesZero(power);
      TimesZero(reward);
    } else {
      var (n, v) := (|vals| - 1, vals[|vals| - 1]);
      SharesScaled(vals[..n], present, reward, power);
      if Shares(v, present) {
        PortionBounds(reward, v.totalBip, power);
        Distribute(reward, Power(vals[..n], present), v.totalBip);
      }
      Distribute(power, SharesSum(vals[..n], present, reward, power), Share(v, present, reward, power));
      if power == 0 {
        NoPortion(reward, v.totalBip);
      }
    }
  }

  lemma NoPortion(reward: int, weight: int)
    ensures Portion(reward, weight, 0) == 0
  {
  }

  /** The rounded-down shares never come to more than the reward. */
  lemma SharesWithin(vals: seq<Validator>, present: set<Key>, reward: int)
    requires reward >= 0 && forall i :: 0 <= i < |vals| ==> vals[i].totalBip >= 0
    ensures SharesSum(vals, present, reward, Power(vals, present)) <= reward
  {
    var power := Power(vals, present);
    forall k | 0 <= k < |vals| && Shares(vals[k], present)
      ensures vals[k].totalBip <= power
    {
      PowerBounds(vals, present, k);
    }
    PowerBounds(vals, present, 0);
    SharesScaled(vals, present, reward, power);
    if power > 0 {
      NotAbove(power, SharesSum(vals, present, reward, power), reward);
    }
  }

  /** The first validator to be dropped; past the end if there is none. */
  function FirstDropped(vals: seq<Validator>): (i: nat)
    ensures i <= |vals| && (i < |vals| ==> vals[i].toDrop) && forall k :: 0 <= k < i ==> !vals[k].toDrop
  {
    if vals == [] || vals[0].toDrop then 0 else 1 + FirstDropped(vals[1..])
  }

  /** Its accrual goes back to the pool. */
  function Returned(b: Books): Books {
    var i := FirstDropped(b.validators);
    if i == |b.validators| then b
    else b.(pool := b.pool + b.validators[i].accum, validators := b.validators[i := b.validators[i].(accum := 0)])
  }

  function WithShares(vals: seq<Validator>, present: set<Key>, reward: int): (r: seq<Validator>)
    ensures |r| == |vals|
    ensures forall k :: 0 <= k < |vals| ==>
      r[k] == vals[k].(accum := vals[k].accum + Share(vals[k], present, reward, Power(vals, present)))
  {
    seq(|vals|, k requires 0 <= k < |vals| =>
      vals[k].(accum := vals[k].accum + Share(vals[k], present, reward, Power(vals, present))))
  }

  /** The books once a block's reward, its fees and a dropped validator's accrual are shared out. */
  function AccruedBooks(b: Books, present: set<Key>, blockReward: int): Books {
    var b1 := Returned(b);
    var reward := blockReward + b1.pool;
    b1.(validators := WithShares(b1.validators, present, reward),
        slashed := b1.slashed + reward - SharesSum(b1.validators, present, reward, Power(b1.validators, present)))
  }

  method ReturnDropped(s: StateDB) returns (hasDropped: bool)
    modifies s
    ensures s.State() == Returned(old(s.State()))
    ensures hasDropped <==> exists k :: 0 <= k < |old(s.validators)| && old(s.validators)[k].toDrop
  {
    hasDropped := false;
    for i := 0 to |s.validators|
      invariant s.State() == old(s.State()) && i <= FirstDropped(s.validators)
    {
      if s.validators[i].toDrop {
        s.pool := s.pool + s.validators[i].accum;
        s.validators := s.validators[i := s.validators[i].(accum := 0)];
        return true;
      }
    }
  }

  method TotalPower(vals: seq<Validator>, present: set<Key>) returns (totalPower: int)
    ensures totalPower == if Power(vals, present) == 0 then 1 else Power(vals, present)
  {
    totalPower := 0;
    for i := 0 to |vals|
      invariant totalPower == Power(vals[..i], present)
    {
      assert vals[..i + 1][..i] == vals[..i];
      if vals[i].toDrop || vals[i].key !in present {
        continue;
      }
      totalPower := totalPower + vals[i].totalBip;
    }
    assert vals[..|vals|] == vals;
    if totalPower == 0 {
      totalPower := 1;
    }
  }

  /** With no power at all each share is nothing, whatever it is divided by. */
  lemma ShareOfPower(vals: seq<Validator>, present: set<Key>, reward: int, i: nat)
    requires i < |vals| && Shares(vals[i], present) && forall k :: 0 <= k < |vals| ==> vals[k].totalBip >= 0
    ensures var power := Power(vals, present); var divisor := if power == 0 then 1 else power;
            divisor > 0 && reward * vals[i].totalBip / divisor == Share(vals[i], present, reward, power)
  {
    PowerBounds(vals, present, i);
    if vals[i].totalBip == 0 {
      TimesZero(reward);
      ZeroDivided(if Power(vals, present) == 0 then 1 else Power(vals, present));
    }
  }

  lemma ZeroDivided(d: int)
    requires d > 0
    ensures 0 / d == 0
  {
    QuotientUnique(0, d, 0, 0);
  }

  /** Gives every sharing validator its part of the reward and returns what is left of it. */
  method ShareOut(s: StateDB, present: set<Key>, reward: int) returns (remainder: int)
    requires forall k :: 0 <= k < |s.validators| ==> s.validators[k].totalBip >= 0
    modifies s
    ensures s.State() == old(s.State()).(validators := WithShares(old(s.validators), present, reward))
    ensures remainder == reward - SharesSum(old(s.validators), present, reward, Power(old(s.validators), present))
  {
    hide Power, SharesSum, Share;
    var totalPower := TotalPower(s.validators, present);
    remainder := reward;
    ghost var b := s.State();
    ghost var power := Power(b.validators, present);
    NoShares(b.validators, present, reward, power);
    for i := 0 to |s.validators|
      invariant s.State() == b.(validators := s.validators) && |s.validators| == |b.validators|
      invariant forall k :: i <= k < |b.validators| ==> s.validators[k] == b.validators[k]
      invariant forall k :: 0 <= k < i ==>
        s.validators[k] == b.validators[k].(accum := b.validators[k].accum + Share(b.validators[k], present, reward, power))
      invariant remainder == reward - SharesSum(b.validators[..i], present, reward, power)
    {
      SharesNext(b.validators, present, reward, power, i);
      var v := s.validators[i];
      if v.toDrop || v.key !in present {
        continue;
      }
      ShareOfPower(b.validators, present, reward, i);
      var r := reward * v.totalBip / totalPower;
      remainder := remainder - r;
      s.validators := s.validators[i := v.(accum := v.accum + r)];
    }
    assert b.validators[..|b.validators|] == b.validators;
    assert s.validators == WithShares(b.validators, present, reward);
  }

  /** The stake behind the validators that are kept and signed. */
  ghost function SignedPower(vals: seq<Validator>, present: set<Key>): int {
    if vals == [] then 0
    else
      var v := vals[|vals| - 1];
      SignedPower(vals[..|vals| - 1], present) + if !v.toDrop && v.key in present then v.totalBip else 0
  }

  /**
   * The block's reward, the pool and the accrual of validator d, the first to be dropped if there is one, are divided
   * by stake among the validators that are kept and signed, rounded down, and what is left is slashed.
   */
  ghost predicate AccrualOutcome(b: Books, present: set<Key>, blockReward: int, d: nat, r: Books) {
    var reward := blockReward + b.pool + if d < |b.validators| then b.validators[d].accum else 0;
    var power := SignedPower(b.validators, present);
    (d < |b.validators| ==> b.validators[d].toDrop) && (forall k :: 0 <= k < d && k < |b.validators| ==> !b.validators[k].toDrop)
    && |r.validators| == |b.validators|
    && (forall k :: 0 <= k < |b.validators| ==>
          var v := b.validators[k];
          r.validators[k]
          == v.(accum := (if k == d then 0 else v.accum)
                         + if !v.toDrop && v.key in present && power != 0 then reward * v.totalBip / power else 0))
    && r.pool == reward - blockReward
    && r == b.(validators := r.validators, pool := r.pool, slashed := r.slashed)
  }

  lemma {:induction false} PowerIs(vals: seq<Validator>, present: set<Key>)
    ensures Power(vals, present) == SignedPower(vals, present)
  {
    if vals != [] {
      PowerIs(vals[..|vals| - 1], present);
    }
  }

  lemma ShareIs(v: Validator, present: set<Key>, reward: int, power: int)
    requires power >= 0
    ensures Share(v, present, reward, power)
         == if !v.toDrop && v.key in present && power != 0 then reward * v.totalBip / power else 0
  {
    if v.totalBip == 0 && power != 0 {
      TimesZero(reward);
      ZeroDivided(power);
    }
  }

  lemma SharedIs(vals: seq<Validator>, present: set<Key>, reward: int, k: nat)
    requires k < |vals| && forall i :: 0 <= i < |vals| ==> vals[i].totalBip >= 0
    ensures var (v, power) := (vals[k], SignedPower(vals, present));
            WithShares(vals, present, reward)[k]
            == v.(accum := v.accum + if !v.toDrop && v.key in present && power != 0 then reward * v.totalBip / power else 0)
  {
    hide Power, SignedPower, Share;
    PowerIs(vals, present);
    PowerBounds(vals, present, k);
    ShareIs(vals[k], present, reward, Power(vals, present));
  }

  lemma {:induction false} PowerOfReturned(vals: seq<Validator>, now: seq<Validator>, present: set<Key>)
    requires |now| == |vals| && forall k :: 0 <= k < |vals| ==> now[k] == vals[k].(accum := now[k].accum)
    ensures SignedPower(now, present) == SignedPower(vals, present)
  {
    if vals != [] {
      PowerOfReturned(vals[..|vals| - 1], now[..|vals| - 1], present);
    }
  }

  lemma ReturnedIs(b: Books)
    ensures var (r, d) := (Returned(b), FirstDropped(b.validators));
            |r.validators| == |b.validators| && r == b.(validators := r.validators, pool := r.pool)
            && r.pool == b.pool + (if d < |b.validators| then b.validators[d].accum else 0)
            && (forall k :: 0 <= k < |b.validators| ==>
                  r.validators[k] == b.validators[k].(accum := if k == d then 0 else b.validators[k].accum))
  {
    hide FirstDropped;
  }

  lemma AccruedIs(b: Books, present: set<Key>, blockReward: int)
    requires forall k :: 0 <= k < |b.validators| ==> b.validators[k].totalBip >= 0
    ensures AccrualOutcome(b, present, blockReward, FirstDropped(b.validators), AccruedBooks(b, present, blockReward))
  {
    hide Power, SignedPower, SharesSum, FirstDropped, WithShares, Returned;
    var b1 := Returned(b);
    ReturnedIs(b);
    PowerOfReturned(b.validators, b1.validators, present);
    forall k | 0 <= k < |b1.validators| {
      SharedIs(b1.validators, present, blockReward + b1.pool, k);
    }
  }

  method AccrueRewards(s: StateDB, present: set<Key>, blockReward: int) returns (hasDropped: bool)
    requires forall k :: 0 <= k < |s.validators| ==> s.validators[k].totalBip >= 0
    modifies s
    ensures s.State() == AccruedBooks(old(s.State()), present, blockReward)
    ensures exists d: nat :: AccrualOutcome(old(s.State()), present, blockReward, d, s.State())
    ensures hasDropped <==> exists k :: 0 <= k < |old(s.validators)| && old(s.validators)[k].toDrop
  {
    hide AccrualOutcome, Power, SharesSum, FirstDropped, Share, WithShares;
    AccruedIs(s.State(), present, blockReward);
    hasDropped := ReturnDropped(s);
    var reward := blockReward + s.pool;
    var remainder := ShareOut(s, present, reward);
    s.AddTotalSlashed(remainder);
  }

  lemma NoShares(vals: seq<Validator>, present: set<Key>, reward: int, power: int)
    ensures SharesSum(vals[..0], present, reward, power) == 0
  {
  }

  lemma SharesNext(vals: seq<Validator>, present: set<Key>, reward: int, power: int, i: nat)
    requires i < |vals|
    ensures SharesSum(vals[..i + 1], present, reward, power)
         == SharesSum(vals[..i], present, reward, power) + Share(vals[i], present, reward, power)
    ensures !Shares(vals[i], present) ==> Share(vals[i], present, reward, power) == 0
  {
    assert vals[..i + 1][..i] == vals[..i];
  }

  lemma {:induction false} SharesAccrued(vals: seq<Validator>, now: seq<Validator>, present: set<Key>, reward: int, power: int)
    requires |now| == |vals|
    requires forall k :: 0 <= k < |vals| ==>
      now[k] == vals[k].(accum := vals[k].accum + Share(vals[k], present, reward, power))
    ensures Accrued(now) == Accrued(vals) + SharesSum(vals, present, reward, power)
  {
    hide Share;
    if vals != [] {
      SharesAccrued(vals[..|vals| - 1], now[..|now| - 1], present, reward, power);
    }
  }

  /** All base coin outside the block's pool. */
  ghost function Supply(b: Books): int { Base(b) - b.pool }

  /**
   * Accruals and slashed coin grow by exactly the block's reward and its pool, nothing is negative,
   * and the stake invariant holds.
   */
  lemma AccrualKeeps(b: Books, present: set<Key>, blockReward: int)
    requires Sound(b.candidates, b.validators) && blockReward >= 0 && b.pool >= 0
    ensures var r := AccruedBooks(b, present, blockReward);
            Sound(r.candidates, r.validators) && r.slashed >= b.slashed
            && Accrued(r.validators) + r.slashed == Accrued(b.validators) + b.slashed + blockReward + b.pool
            && r.pool >= b.pool
  {
    hide Sound, SharesSum, Power, Accrued, Share, FirstDropped;
    var b1 := Returned(b);
    var reward := blockReward + b1.pool;
    ReturnedKeeps(b);
    SoundTotals(b1.candidates, b1.validators);
    SharesWithin(b1.validators, present, reward);
    SharesAccrued(b1.validators, WithShares(b1.validators, present, reward), present, reward, Power(b1.validators, present));
    SharesSound(b1, present, reward);
  }

  lemma SoundTotals(cs: seq<Candidate>, vals: seq<Validator>)
    requires Sound(cs, vals)
    ensures forall k :: 0 <= k < |vals| ==> vals[k].totalBip >= 0
  {
    forall k | 0 <= k < |vals|
      ensures vals[k].totalBip >= 0
    {
      assert Backed(vals[k], cs);
    }
  }

  lemma ReturnedKeeps(b: Books)
    requires Sound(b.candidates, b.validators)
    ensures var r := Returned(b);
            Sound(r.candidates, r.validators) && r.pool >= b.pool && r.slashed == b.slashed
            && r.candidates == b.candidates && Accrued(r.validators) + r.pool == Accrued(b.validators) + b.pool
  {
    hide Sound, Accrued;
    var i := FirstDropped(b.validators);
    if i < |b.validators| {
      SoundBacked(b.candidates, b.validators, i);
      ValidatorReplaced(b.candidates, b.validators, i, b.validators[i].(accum := 0));
      AccruedSet(b.validators, i, b.validators[i].(accum := 0));
    }
  }

  lemma SharesSound(b: Books, present: set<Key>, reward: int)
    requires Sound(b.candidates, b.validators) && reward >= 0
    ensures Sound(b.candidates, WithShares(b.validators, present, reward))
  {
    hide Power, Portion, BipSum, CandidateIndex;
    var now := WithShares(b.validators, present, reward);
    SoundTotals(b.candidates, b.validators);
    forall k | 0 <= k < |now|
      ensures Backed(now[k], b.candidates)
    {
      assert Backed(b.validators[k], b.candidates);
      PowerBounds(b.validators, present, k);
      if Shares(b.validators[k], present) {
        PortionBounds(reward, b.validators[k].totalBip, Power(b.validators, present));
      }
    }
  }
}
