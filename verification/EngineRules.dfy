/** What the engine makes of one vote, in terms of the validators' powers. */
module EngineRules {
  import opened Basics
  import opened Sums
  import opened Sorting
  import opened ValidatorSets
  import opened ChainTypes
  import opened Engine

  /** The validators of the set whose stored vote at (h, r) is for `c`. */
  ghost function Backers(votes: VoteMap, vals: ValSet, h: nat, r: nat, c: Option<Hash32>): set<Address> {
    set v <- vals.validators | VoteKey(h, r, v.address) in votes && votes[VoteKey(h, r, v.address)].blockHash == c
      :: v.address
  }

  /** They hold more than two thirds of the power. */
  ghost predicate Majority(votes: VoteMap, vals: ValSet, h: nat, r: nat, c: Option<Hash32>) {
    3 * Sum(Backers(votes, vals, h, r, c), a => PowerOf(vals.validators, a)) > 2 * vals.total
  }

  lemma MemberListed(vs: seq<Validator>, a: Address)
    ensures Member(vs, a) <==> exists v <- vs :: v.address == a
  {
    if Member(vs, a) {
      assert vs[Find(vs, a)] in vs;
    }
    if v :| v in vs && v.address == a {
      var i :| 0 <= i < |vs| && vs[i] == v;
      assert Find(vs, a) <= i;
    }
  }

  lemma MajorityIsQuorum(votes: VoteMap, vals: ValSet, h: nat, r: nat, c: Option<Hash32>)
    requires SoundPowers(vals)
    ensures Majority(votes, vals, h, r, c) <==> Quorum(votes, vals, h, r, c)
  {
    QuorumMeansTwoThirds(vals.total);
    forall a: Address
      ensures a in Backers(votes, vals, h, r, c) <==> a in Voters(votes, vals.validators, h, r, c)
    {
      MemberListed(vals.validators, a);
      assert VoteKey(h, r, a).validator == a;
    }
    assert Backers(votes, vals, h, r, c) == Voters(votes, vals.validators, h, r, c);
  }

  /** `v` is stored unless its author has voted at this position before; nothing is replaced. */
  predicate FirstKept(before: VoteMap, after: VoteMap, v: Vote) {
    var k := VoteKey(v.height, v.round, v.validator);
    && after.Keys == before.Keys + {k}
    && (forall x <- before.Keys :: after[x] == before[x])
    && (k !in before ==> after[k] == v)
  }

  /** The engine is at the vote's height and round, and its author is in the set. */
  predicate Counted(s: EngineState, v: Vote, t: VoteType) {
    && v.voteType == t && v.height == s.rs.height && v.round == s.rs.round
    && exists x <- s.vals.validators :: x.address == v.validator
  }

  /** A prevote: refused without effect unless it is for the current position by a member. Otherwise
      it is stored, and the answer is whether some block or nil has a majority. A majority ends the
      prevote step; one for a block also locks it, with the round, and makes it the valid block. */
  lemma PrevoteExactly(s: EngineState, v: Vote)
    requires SoundPowers(s.vals)
    ensures var (t, res) := ReceivePrevote(s, v);
      var h, r := s.rs.height, s.rs.round;
      && (res.Some? <==> Counted(s, v, Prevote)) && (res.None? ==> t == s)
      && (res.Some? ==>
            && FirstKept(s.prevotes, t.prevotes, v) && t == s.(prevotes := t.prevotes, rs := t.rs)
            && (res.value <==> exists c: Option<Hash32> :: Majority(t.prevotes, s.vals, h, r, c))
            && (!res.value ==> t.rs == s.rs)
            && (res.value && (forall b: Hash32 :: !Majority(t.prevotes, s.vals, h, r, Some(b))) ==>
                  t.rs == s.rs.(step := PrecommitStep))
            && forall b: Hash32 :: Majority(t.prevotes, s.vals, h, r, Some(b)) ==>
                 t.rs == s.rs.(step := PrecommitStep, lockedRound := Some(r), lockedBlock := Some(b),
                               validRound := Some(r), validBlock := Some(b)))
  {
    var h, r, votes := s.rs.height, s.rs.round, KeepFirst(s.prevotes, v);
    MemberListed(s.vals.validators, v.validator);
    forall c: Option<Hash32> ensures Majority(votes, s.vals, h, r, c) <==> Quorum(votes, s.vals, h, r, c) {
      MajorityIsQuorum(votes, s.vals, h, r, c);
    }
    var o := QuorumBlock(votes, s.vals, h, r);
    forall b: Hash32 | Majority(votes, s.vals, h, r, Some(b)) ensures o == Some(b) {
      UniqueQuorum(votes, s.vals, h, r, o, Some(b));
    }
  }

  /** `sigs` lists the stored precommits for `b` at (h, r), all of them and by ascending address. */
  ghost predicate Lists(sigs: seq<CommitSignature>, votes: VoteMap, h: nat, r: nat, b: Hash32) {
    && (forall i, j :: 0 <= i < j < |sigs| ==> sigs[i].validator < sigs[j].validator)
    && (forall c <- sigs ::
          var k := VoteKey(h, r, c.validator);
          && k in votes && votes[k].blockHash == Some(b)
          && c == CommitSignature(c.validator, votes[k].signature, 1_700_000_000))
    && (forall k <- votes.Keys :: k.height == h && k.round == r && votes[k].blockHash == Some(b) ==>
          exists c <- sigs :: c.validator == k.validator)
  }

  lemma CertificateLists(votes: VoteMap, h: nat, r: nat, b: Hash32)
    ensures Lists(Certificate(votes, h, r, b), votes, h, r, b)
  {
    var sigs := Certificate(votes, h, r, b);
    var key := (c: CommitSignature) => c.validator;
    assert forall i, j :: 0 <= i < j < |sigs| ==> key(sigs[i]) < key(sigs[j]);
    forall c <- sigs
      ensures VoteKey(h, r, c.validator) in votes && votes[VoteKey(h, r, c.validator)].blockHash == Some(b)
    {
      var k :| k in votes && k.height == h && k.round == r && votes[k].blockHash == Some(b)
               && k.validator == c.validator;
      assert k == VoteKey(h, r, c.validator);
    }
    forall k <- votes.Keys | k.height == h && k.round == r && votes[k].blockHash == Some(b)
      ensures exists c <- sigs :: c.validator == k.validator
    {
      assert k.validator in Precommitters(votes, h, r, b);
      assert SignatureOf(votes, h, r, k.validator) in sigs;
    }
  }

  /** There are signatures exactly when a block has a majority, and then they list its precommits. */
  ghost predicate Decides(votes: VoteMap, vals: ValSet, h: nat, r: nat, sigs: Option<seq<CommitSignature>>) {
    && (sigs.Some? <==> exists b: Hash32 :: Majority(votes, vals, h, r, Some(b)))
    && (sigs.Some? ==> forall b: Hash32 :: Majority(votes, vals, h, r, Some(b)) ==> Lists(sigs.value, votes, h, r, b))
  }

  lemma MajorityIsCertified(votes: VoteMap, vals: ValSet, h: nat, r: nat)
    requires SoundPowers(vals)
    ensures Decides(votes, vals, h, r, CertificateAt(votes, vals, h, r))
  {
    var o := QuorumBlock(votes, vals, h, r);
    if o.Some? {
      MajorityIsQuorum(votes, vals, h, r, o);
      CertificateLists(votes, h, r, o.value);
      assert Majority(votes, vals, h, r, Some(o.value));
    }
    forall b: Hash32 | Majority(votes, vals, h, r, Some(b)) ensures o == Some(b) {
      MajorityIsQuorum(votes, vals, h, r, Some(b));
      UniqueQuorum(votes, vals, h, r, o, Some(b));
    }
  }

  /** A precommit is refused and stored like a prevote; an answer with signatures makes the step the
      commit. */
  lemma PrecommitExactly(s: EngineState, v: Vote)
    ensures var (t, res) := ReceivePrecommit(s, v);
      && (res.Some? <==> Counted(s, v, Precommit)) && (res.None? ==> t == s)
      && (res.Some? ==>
            && FirstKept(s.precommits, t.precommits, v) && t == s.(precommits := t.precommits, rs := t.rs)
            && t.rs == if res.value.Some? then s.rs.(step := CommitStep) else s.rs)
  {
    MemberListed(s.vals.validators, v.validator);
  }

  /** And the answer has signatures exactly when a block has a majority, all its precommits. */
  lemma PrecommitAnswer(s: EngineState, v: Vote)
    requires SoundPowers(s.vals) && ReceivePrecommit(s, v).1.Some?
    ensures var (t, res) := ReceivePrecommit(s, v); Decides(t.precommits, s.vals, s.rs.height, s.rs.round, res.value)
  {
    MajorityIsCertified(KeepFirst(s.precommits, v), s.vals, s.rs.height, s.rs.round);
  }

  /** A proposal by a member is recorded for the height and round and starts the prevote step; any
      other changes nothing. */
  lemma ProposeExactly(s: EngineState, b: Hash32, proposer: Address)
    ensures var (t, ok) := ProposeBlock(s, b, proposer);
      && (ok <==> exists x <- s.vals.validators :: x.address == proposer)
      && t == if ok then s.(proposed := s.proposed[(s.rs.height, s.rs.round) := b], rs := s.rs.(step := PrevoteStep))
              else s
  {
    MemberListed(s.vals.validators, proposer);
  }

  /** A refreshed set lists the new validators with their new powers; those that were known keep
      their priority, newcomers bring their own. */
  lemma RefreshExactly(s: ValSet, fresh_: ValSet, i: nat)
    requires i < |fresh_.validators| && DistinctAddresses(s.validators)
    ensures var v, w := fresh_.validators[i], Refresh(s, fresh_).validators[i];
      && |Refresh(s, fresh_).validators| == |fresh_.validators| && Refresh(s, fresh_).total == fresh_.total
      && w.address == v.address && w.votingPower == v.votingPower
      && (forall x <- s.validators :: x.address == v.address ==> w.proposerPriority == x.proposerPriority)
      && ((forall x <- s.validators :: x.address != v.address) ==> w.proposerPriority == v.proposerPriority)
  {
    var v := fresh_.validators[i];
    MemberListed(s.validators, v.address);
    forall x <- s.validators | x.address == v.address
      ensures Refresh(s, fresh_).validators[i].proposerPriority == x.proposerPriority
    {
      var j :| 0 <= j < |s.validators| && s.validators[j] == x;
      assert s.validators[Find(s.validators, v.address)] == x;
    }
  }
}
