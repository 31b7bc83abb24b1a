// Which validators a block makes leave, told from the books it starts with.
module Marks {
  import opened Conversion
  import opened FundPenalty
  import opened Ledger
  import opened Slashing
  import opened StakeTx
  import opened StateDb
  import opened Staking
  import opened ValidatorSet

  datatype Op = Transfer(tx: Tx) | Stake(stakingTx: StakingTx) | Online(key: Key) | Offline(key: Key)

  /** Whether a validator signed the block before. */
  datatype Vote = Vote(key: Key, signed: bool)

  /** What reaches the application in a block: votes, evidence and transactions. */
  datatype Block = Block(votes: seq<Vote>, byzantine: seq<Key>, ops: seq<Op>)

  /** Those whose last vote was a signature. */
  function Present(votes: seq<Vote>): set<Key> {
    if votes == [] then {}
    else
      var (n, v) := (|votes| - 1, votes[|votes| - 1]);
      if v.signed then Present(votes[..n]) + {v.key} else Present(votes[..n]) - {v.key}
  }

  predicate NoDrops(vals: seq<Validator>) { forall k :: 0 <= k < |vals| ==> !vals[k].toDrop }

  // ---------------------------------------------------------------------------------
  // The marks
  // ---------------------------------------------------------------------------------

  /** One more absence at this height is one too many. */
  predicate TooAbsent(v: Validator, height: nat) {
    |v.absent| == ABSENT_WINDOW && CountAbsent(v.absent[height % ABSENT_WINDOW := true]) > MAX_ABSENT
  }

  predicate VoteDrops(b: Books, v: Vote, k: nat)
    requires k < |b.validators|
  {
    !v.signed && v.key == b.validators[k].key && KeyOnline(b.candidates, v.key) && TooAbsent(b.validators[k], b.height)
  }

  predicate DroppedByVotes(b: Books, votes: seq<Vote>, k: nat)
    requires k < |b.validators|
  {
    votes != [] && (DroppedByVotes(b, votes[..|votes| - 1], k) || VoteDrops(b, votes[|votes| - 1], k))
  }

  predicate DroppedByEvidence(b: Books, keys: seq<Key>, k: nat)
    requires k < |b.validators|
  {
    b.validators[k].key in keys && KeyOnline(b.candidates, b.validators[k].key)
  }

  /** The block makes validator k leave: absent once too often, on evidence, or switched off. */
  predicate Dropped(b: Books, block: Block, k: nat)
    requires k < |b.validators|
  {
    DroppedByVotes(b, block.votes, k) || DroppedByEvidence(b, block.byzantine, k)
    || Offline(b.validators[k].key) in block.ops
  }

  /** A single vote in the list is enough, and nothing else. */
  lemma {:induction false} DroppedByVotesIff(b: Books, votes: seq<Vote>, k: nat)
    requires k < |b.validators|
    ensures DroppedByVotes(b, votes, k) <==> exists i :: 0 <= i < |votes| && VoteDrops(b, votes[i], k)
  {
    if votes != [] {
      var n := |votes| - 1;
      hide VoteDrops;
      DroppedByVotesIff(b, votes[..n], k);
      if i :| 0 <= i < n && VoteDrops(b, votes[..n][i], k) {
        assert VoteDrops(b, votes[i], k);
      }
      if i :| 0 <= i < |votes| && VoteDrops(b, votes[i], k) {
        assert i < n ==> votes[..n][i] == votes[i];
      }
    }
  }

  // ---------------------------------------------------------------------------------
  // Votes
  // ---------------------------------------------------------------------------------

  /** The same validators in the same order, with the same accruals. */
  ghost predicate SameSeats(b: Books, r: Books) {
    r.height == b.height && SameAccruals(b.validators, r.validators)
  }

  /** Validator k after votes: marked exactly when they drop it, and then offline. */
  ghost predicate VotedSeat(b: Books, votes: seq<Vote>, r: Books, k: nat)
    requires k < |b.validators| == |r.validators|
  {
    var (v, w, dropped) := (b.validators[k], r.validators[k], DroppedByVotes(b, votes, k));
    (w.toDrop <==> v.toDrop || dropped)
    && (KeyOnline(r.candidates, v.key) <==> KeyOnline(b.candidates, v.key) && !dropped)
    && |v.absent| == |w.absent| == ABSENT_WINDOW
    && (!dropped ==> w.absent[b.height % ABSENT_WINDOW := true] == v.absent[b.height % ABSENT_WINDOW := true])
  }

  ghost predicate Voted(b: Books, votes: seq<Vote>, r: Books) {
    SameSeats(b, r) && forall k :: 0 <= k < |b.validators| ==> VotedSeat(b, votes, r, k)
  }

  lemma NoVotes(b: Books, r: Books)
    requires Sound(b.candidates, b.validators)
    requires r.validators == b.validators && r.candidates == b.candidates && r.height == b.height
    ensures Voted(b, [], r)
  {
    SoundAccruals(b.candidates, b.validators);
    hide KeyOnline, Sound;
  }

  /** A signature clears one absence and drops nobody. */
  lemma SignedVote(b: Books, votes: seq<Vote>, was: Books, now: Books, key: Key)
    requires Voted(b, votes, was) && now == was.(validators := now.validators)
    requires forall k :: 0 <= k < |was.validators| ==> |was.validators[k].absent| == ABSENT_WINDOW
    requires OnlyPresent(was.validators, now.validators, key, was.height)
    ensures Voted(b, votes + [Vote(key, true)], now)
  {
    var all := votes + [Vote(key, true)];
    assert all[..|votes|] == votes;
    hide KeyOnline, CountAbsent;
    forall k | 0 <= k < |b.validators|
      ensures VotedSeat(b, all, now, k)
    {
      assert VotedSeat(b, votes, was, k);
      SetTwice(was.validators[k].absent, b.height % ABSENT_WINDOW);
    }
  }

  lemma SetTwice(s: seq<bool>, i: nat)
    requires i < |s|
    ensures s[i := false][i := true] == s[i := true] && s[i := true][i := true] == s[i := true]
  {
  }

  /** A vote by someone who is no validator changes nothing. */
  lemma StrangersVote(b: Books, votes: seq<Vote>, was: Books, vote: Vote)
    requires Voted(b, votes, was) && forall k :: 0 <= k < |was.validators| ==> was.validators[k].key != vote.key
    ensures Voted(b, votes + [vote], was)
  {
    hide KeyOnline, TooAbsent;
    assert (votes + [vote])[..|votes|] == votes;
    forall k | 0 <= k < |b.validators|
      ensures VotedSeat(b, votes + [vote], was, k)
    {
      assert VotedSeat(b, votes, was, k) && was.validators[k].key == b.validators[k].key;
    }
  }

  /** A missing vote drops its validator exactly when it was absent too often before. */
  lemma MissingVote(p: Prices, b: Books, votes: seq<Vote>, was: Books, now: Books, vi: nat)
    requires Voted(b, votes, was) && Sound(was.candidates, was.validators) && vi < |was.validators|
    requires |was.validators[vi].absent| == ABSENT_WINDOW && AllKnown(was.coins, was.candidates)
    requires CandidateIndex(was.candidates, was.validators[vi].key) < |was.candidates|
    requires now == AbsentBooks(p, was, vi, CandidateIndex(was.candidates, was.validators[vi].key))
    ensures Voted(b, votes + [Vote(was.validators[vi].key, false)], now)
  {
    hide VotedSeat, Sound, AbsentBooks, CountAbsent, KeyOnline, AllKnown, CandidateIndex;
    OtherSeats(p, was, vi, CandidateIndex(was.candidates, was.validators[vi].key));
    forall k | 0 <= k < |b.validators|
      ensures VotedSeat(b, votes + [Vote(was.validators[vi].key, false)], now, k)
    {
      if k == vi {
        AbsentSeat(p, b, votes, was, now, vi);
      } else {
        OtherSeat(b, votes, was, now, vi, k);
      }
    }
  }

  lemma OtherSeat(b: Books, votes: seq<Vote>, was: Books, now: Books, vi: nat, k: nat)
    requires SameSeats(b, was) && SameSeats(was, now) && vi < |b.validators| && k < |b.validators|
    requires VotedSeat(b, votes, was, k) && was.validators[k].key != was.validators[vi].key
    requires now.validators[k] == was.validators[k]
    requires KeyOnline(now.candidates, was.validators[k].key) <==> KeyOnline(was.candidates, was.validators[k].key)
    ensures VotedSeat(b, votes + [Vote(was.validators[vi].key, false)], now, k)
  {
    hide KeyOnline, TooAbsent;
    assert (votes + [Vote(was.validators[vi].key, false)])[..|votes|] == votes;
  }

  lemma AbsentSeat(p: Prices, b: Books, votes: seq<Vote>, was: Books, now: Books, vi: nat)
    requires SameSeats(b, was) && vi < |b.validators| && VotedSeat(b, votes, was, vi)
    requires AllKnown(was.coins, was.candidates) && |was.validators[vi].absent| == ABSENT_WINDOW
    requires CandidateIndex(was.candidates, was.validators[vi].key) < |was.candidates|
    requires now == AbsentBooks(p, was, vi, CandidateIndex(was.candidates, was.validators[vi].key))
    requires SameSeats(was, now)
    ensures VotedSeat(b, votes + [Vote(was.validators[vi].key, false)], now, vi)
  {
    hide AllKnown, AbsentBooks, CountAbsent, CandidateIndex;
    var (v, key) := (was.validators[vi], was.validators[vi].key);
    var ci := CandidateIndex(was.candidates, key);
    AbsentShape(p, was, vi, ci);
    ReplacedOnline(was.candidates, now.candidates[ci], ci, key);
    SetTwice(v.absent, b.height % ABSENT_WINDOW);
    assert (votes + [Vote(key, false)])[..|votes|] == votes;
  }

  /** Recording an absence replaces one validator and its candidate. */
  lemma AbsentShape(p: Prices, b: Books, vi: nat, ci: nat)
    requires vi < |b.validators| && |b.validators[vi].absent| == ABSENT_WINDOW && AllKnown(b.coins, b.candidates)
    requires ci < |b.candidates|
    ensures var r := AbsentBooks(p, b, vi, ci);
            r.height == b.height && |r.validators| == |b.validators| && |r.candidates| == |b.candidates|
            && r.validators == b.validators[vi := r.validators[vi]] && r.candidates == b.candidates[ci := r.candidates[ci]]
    ensures var (v, c, r) := (b.validators[vi], b.candidates[ci], AbsentBooks(p, b, vi, ci));
            var (w, d) := (r.validators[vi], r.candidates[ci]);
            w.key == v.key && w.accum == v.accum && |w.absent| == ABSENT_WINDOW && d.key == c.key
            && d.online == (c.online && !TooAbsent(v, b.height))
            && w.toDrop == (v.toDrop || (c.online && TooAbsent(v, b.height)))
            && ((c.online && TooAbsent(v, b.height))
                || w.absent == if c.online then v.absent[b.height % ABSENT_WINDOW := true] else v.absent)
  {
    hide AllKnown, SlashAll, CountAbsent, ValueSum, Reduced;
    assert b.candidates[ci := b.candidates[ci]] == b.candidates;
  }

  /** Recording an absence leaves the other validators and their candidates alone. */
  lemma OtherSeats(p: Prices, b: Books, vi: nat, ci: nat)
    requires Sound(b.candidates, b.validators) && vi < |b.validators| && |b.validators[vi].absent| == ABSENT_WINDOW
    requires AllKnown(b.coins, b.candidates)
    requires ci == CandidateIndex(b.candidates, b.validators[vi].key) < |b.candidates|
    ensures SameSeats(b, AbsentBooks(p, b, vi, ci))
    ensures var r := AbsentBooks(p, b, vi, ci);
            forall k :: 0 <= k < |b.validators| && k != vi ==>
              b.validators[k].key != b.validators[vi].key && r.validators[k] == b.validators[k]
              && (KeyOnline(r.candidates, b.validators[k].key) <==> KeyOnline(b.candidates, b.validators[k].key))
  {
    SoundParts(b.candidates, b.validators);
    hide Sound, AbsentBooks, AllKnown, CandidateIndex, KeyOnline, TooAbsent;
    AbsentShape(p, b, vi, ci);
    var r := AbsentBooks(p, b, vi, ci);
    forall k | 0 <= k < |b.validators| && k != vi
      ensures KeyOnline(r.candidates, b.validators[k].key) <==> KeyOnline(b.candidates, b.validators[k].key)
    {
      ReplacedOnline(b.candidates, r.candidates[ci], ci, b.validators[k].key);
    }
  }

  /** Only the candidate replaced may be online or not other than before. */
  lemma ReplacedOnline(cs: seq<Candidate>, c: Candidate, ci: nat, key: Key)
    requires ci == CandidateIndex(cs, c.key) < |cs|
    ensures KeyOnline(cs[ci := c], key) == if key == c.key then c.online else KeyOnline(cs, key)
  {
    IndexSame(cs, cs[ci := c], key);
  }

  // ---------------------------------------------------------------------------------
  // Evidence
  // ---------------------------------------------------------------------------------

  ghost predicate Accused(b: Books, votes: seq<Vote>, keys: seq<Key>, r: Books) {
    SameSeats(b, r)
    && (forall k :: 0 <= k < |b.validators| ==>
          (r.validators[k].toDrop <==>
             b.validators[k].toDrop || DroppedByVotes(b, votes, k) || DroppedByEvidence(b, keys, k)))
    && forall k :: 0 <= k < |b.validators| ==>
         (KeyOnline(r.candidates, b.validators[k].key) <==>
            KeyOnline(b.candidates, b.validators[k].key)
            && !DroppedByVotes(b, votes, k) && !DroppedByEvidence(b, keys, k))
  }

  lemma NoEvidence(b: Books, votes: seq<Vote>, r: Books)
    requires Voted(b, votes, r)
    ensures Accused(b, votes, [], r)
  {
    hide DroppedByVotes, KeyOnline;
    forall k | 0 <= k < |b.validators|
      ensures r.validators[k].toDrop <==> b.validators[k].toDrop || DroppedByVotes(b, votes, k)
      ensures KeyOnline(r.candidates, b.validators[k].key)
           == (KeyOnline(b.candidates, b.validators[k].key) && !DroppedByVotes(b, votes, k))
    {
      assert VotedSeat(b, votes, r, k);
    }
  }

  /** Evidence against a candidate that is not online does nothing. */
  lemma IdleEvidence(b: Books, votes: seq<Vote>, keys: seq<Key>, was: Books, key: Key)
    requires Accused(b, votes, keys, was) && !KeyOnline(was.candidates, key)
    ensures Accused(b, votes, keys + [key], was)
  {
    hide DroppedByVotes, KeyOnline;
  }

  /** Evidence against a candidate that is online drops its validator, if it has one. */
  lemma Evidence(p: Prices, b: Books, votes: seq<Vote>, keys: seq<Key>, was: Books, mid: Books, now: Books, key: Key)
    requires Accused(b, votes, keys, was) && KeyOnline(was.candidates, key)
    requires Sound(mid.candidates, mid.validators) && AllKnown(mid.coins, mid.candidates)
    requires mid.validators == was.validators && mid.candidates == was.candidates && mid.height == was.height
    requires forall vi :: 0 <= vi < |mid.validators| && mid.validators[vi].key == key ==>
      CandidateIndex(mid.candidates, key) < |mid.candidates|
      && now == PunishedBooks(p, mid, vi, CandidateIndex(mid.candidates, key))
    requires (forall vi :: 0 <= vi < |mid.validators| ==> mid.validators[vi].key != key) ==> now == mid
    ensures Accused(b, votes, keys + [key], now)
  {
    hide DroppedByVotes, KeyOnline, Sound, AllKnown, CandidateIndex, PunishedBooks;
    if vi :| 0 <= vi < |mid.validators| && mid.validators[vi].key == key {
      PunishedSeats(p, mid, vi, CandidateIndex(mid.candidates, key));
    }
  }

  lemma PunishedSeats(p: Prices, b: Books, vi: nat, ci: nat)
    requires Sound(b.candidates, b.validators) && vi < |b.validators| && AllKnown(b.coins, b.candidates)
    requires ci == CandidateIndex(b.candidates, b.validators[vi].key) < |b.candidates|
    ensures var r := PunishedBooks(p, b, vi, ci);
            SameSeats(b, r) && r.validators[vi].toDrop && !KeyOnline(r.candidates, b.validators[vi].key)
            && forall k :: 0 <= k < |b.validators| && k != vi ==>
                 b.validators[k].key != b.validators[vi].key && r.validators[k] == b.validators[k]
                 && (KeyOnline(r.candidates, b.validators[k].key) <==> KeyOnline(b.candidates, b.validators[k].key))
  {
    var r := PunishedBooks(p, b, vi, ci);
    SoundParts(b.candidates, b.validators);
    hide Sound, SlashAll, AllKnown, WithFunds, ToFunds, CandidateIndex, KeyOnline;
    forall k | 0 <= k < |b.validators|
      ensures KeyOnline(r.candidates, b.validators[k].key)
           == (b.validators[k].key != b.validators[vi].key && KeyOnline(b.candidates, b.validators[k].key))
    {
      ReplacedOnline(b.candidates, r.candidates[ci], ci, b.validators[k].key);
    }
  }

  // ---------------------------------------------------------------------------------
  // Transactions
  // ---------------------------------------------------------------------------------

  /** Marks after transactions, and that those switched off and not on again are offline. */
  ghost predicate Operated(b: Books, votes: seq<Vote>, keys: seq<Key>, ops: seq<Op>, r: Books) {
    SameSeats(b, r)
    && (forall k :: 0 <= k < |b.validators| ==>
          (r.validators[k].toDrop <==>
             b.validators[k].toDrop || DroppedByVotes(b, votes, k) || DroppedByEvidence(b, keys, k)
             || Offline(b.validators[k].key) in ops))
    && forall k :: 0 <= k < |b.validators| ==>
         r.validators[k].toDrop && !b.validators[k].toDrop && Online(b.validators[k].key) !in ops ==>
           !KeyOnline(r.candidates, b.validators[k].key)
  }

  lemma OperatedHeight(b: Books, votes: seq<Vote>, keys: seq<Key>, ops: seq<Op>, r: Books)
    requires Operated(b, votes, keys, ops, r)
    ensures r.height == b.height
  {
  }

  lemma NoOps(b: Books, votes: seq<Vote>, keys: seq<Key>, r: Books)
    requires Accused(b, votes, keys, r)
    ensures Operated(b, votes, keys, [], r) && r.height == b.height
  {
    hide DroppedByVotes, KeyOnline, DroppedByEvidence;
  }

  /** An operation other than a switch: validators and who is online among them stay. */
  lemma OtherOp(b: Books, votes: seq<Vote>, keys: seq<Key>, ops: seq<Op>, was: Books, now: Books, op: Op)
    requires Operated(b, votes, keys, ops, was) && (op.Transfer? || op.Stake?)
    requires now.validators == was.validators && now.height == was.height
    requires forall k :: 0 <= k < |was.validators| ==>
      (KeyOnline(now.candidates, was.validators[k].key) <==> KeyOnline(was.candidates, was.validators[k].key))
    ensures Operated(b, votes, keys, ops + [op], now)
  {
    hide DroppedByVotes, KeyOnline, DroppedByEvidence;
  }

  ghost predicate OnlySwitched(cs: seq<Candidate>, ds: seq<Candidate>, key: Key, online: bool) {
    |ds| == |cs| && forall i :: 0 <= i < |cs| ==>
      ds[i] == if cs[i].key == key then cs[i].(online := online) else cs[i]
  }

  ghost predicate OnlyDropped(vals: seq<Validator>, now: seq<Validator>, key: Key) {
    |now| == |vals| && forall i :: 0 <= i < |vals| ==>
      now[i] == if vals[i].key == key then vals[i].(toDrop := true) else vals[i]
  }

  lemma SwitchedOnline(cs: seq<Candidate>, ds: seq<Candidate>, key: Key, online: bool, other: Key)
    requires OnlySwitched(cs, ds, key, online)
    ensures KeyOnline(ds, other) ==> if other == key then online else KeyOnline(cs, other)
  {
    IndexSame(cs, ds, other);
  }

  lemma Switched(b: Books, votes: seq<Vote>, keys: seq<Key>, ops: seq<Op>, was: Books, now: Books, key: Key, online: bool)
    requires Operated(b, votes, keys, ops, was) && now.height == was.height
    requires OnlySwitched(was.candidates, now.candidates, key, online)
    requires if online then now.validators == was.validators else OnlyDropped(was.validators, now.validators, key)
    ensures Operated(b, votes, keys, ops + [if online then Online(key) else Offline(key)], now)
  {
    hide DroppedByVotes, DroppedByEvidence, KeyOnline, OnlySwitched;
    forall k | 0 <= k < |b.validators|
      ensures KeyOnline(now.candidates, b.validators[k].key) ==>
                if b.validators[k].key == key then online else KeyOnline(was.candidates, b.validators[k].key)
    {
      SwitchedOnline(was.candidates, now.candidates, key, online, b.validators[k].key);
    }
  }

  /** A staking transaction leaves validators' candidates online or not as they were. */
  lemma ActedOnline(b: Books, tx: StakingTx, r: Books, key: Key)
    requires Acted(b, tx, r) && CandidateIndex(b.candidates, key) < |b.candidates|
    ensures KeyOnline(r.candidates, key) <==> KeyOnline(b.candidates, key)
  {
    hide WithStake, WithoutStake, WithFund;
    match tx.act
    case Delegating(k, coin, value, _) =>
      IndexSame(b.candidates, r.candidates, key);
    case Unbonding(k, coin, value) =>
      IndexSame(b.candidates, r.candidates, key);
    case Declaring(_, _, _, _, _, _) =>
      var bip :| bip >= 0 && r.candidates == b.candidates + [Declared(tx, bip)];
      IndexAppended(b.candidates, Declared(tx, bip), key);
  }
}
