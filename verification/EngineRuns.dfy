/** What every sequence of calls on the consensus engine keeps. */
module EngineRuns {
  import opened Basics
  import opened Sums
  import opened Sorting
  import opened ValidatorSets
  import opened ChainTypes
  import opened Engine

  datatype EngineCall =
    | CallSetValidators(fresh_: ValSet)
    | CallStartHeight(h: nat)
    | CallSetRound(r: nat)
    | CallSelectProposer
    | CallPropose(b: Hash32, proposer: Address)
    | CallPrevote(v: Vote)
    | CallPrecommit(v: Vote)

  ghost function Do(s: EngineState, c: EngineCall): EngineState {
    match c
    case CallSetValidators(fresh_) => SetValidators(s, fresh_)
    case CallStartHeight(h) => StartHeight(s, h)
    case CallSetRound(r) => SetRound(s, r)
    case CallSelectProposer => if s.vals.validators == [] then s else s.(vals := Select(s.vals).0)
    case CallPropose(b, a) => ProposeBlock(s, b, a).0
    case CallPrevote(v) => ReceivePrevote(s, v).0
    case CallPrecommit(v) => ReceivePrecommit(s, v).0
  }

  ghost function Run(s: EngineState, calls: seq<EngineCall>): EngineState {
    if calls == [] then s else Do(Run(s, calls[..|calls| - 1]), calls[|calls| - 1])
  }

  ghost function NewEngine(h: nat, vals: ValSet): EngineState {
    EngineState(InitialRound(h), vals, map[], map[], map[])
  }

  // ---------------------------------------------------------------------------------
  // Invariants

  /** Every stored vote sits under its own key in the map of its own type. */
  ghost predicate Keyed(votes: VoteMap, t: VoteType) {
    forall k <- votes.Keys :: KeyOf(votes[k]) == k && votes[k].voteType == t
  }

  ghost predicate WellFormed(s: EngineState) {
    Keyed(s.prevotes, Prevote) && Keyed(s.precommits, Precommit)
  }

  ghost predicate FromMembers(votes: VoteMap, vs: seq<Validator>) {
    forall k <- votes.Keys :: Member(vs, k.validator)
  }

  /** A lock and the valid block are set together and name a block with a prevote quorum at
      the locked round. */
  ghost predicate LockSound(s: EngineState) {
    && s.rs.validRound == s.rs.lockedRound && s.rs.validBlock == s.rs.lockedBlock
    && (s.rs.lockedRound.Some? <==> s.rs.lockedBlock.Some?)
    && (s.rs.lockedBlock.Some? ==>
          Quorum(s.prevotes, s.vals, s.rs.height, s.rs.lockedRound.value, s.rs.lockedBlock))
  }

  ghost predicate Anchored(s: EngineState) {
    && SoundPowers(s.vals)
    && FromMembers(s.prevotes, s.vals.validators)
    && FromMembers(s.precommits, s.vals.validators)
    && LockSound(s)
  }

  /** Every replacement set in the run has sound powers. */
  ghost predicate SoundCalls(calls: seq<EngineCall>) {
    forall c <- calls :: c.CallSetValidators? ==> SoundPowers(c.fresh_)
  }

  /** The validator set was not replaced since the last start of a height. The driver always
      starts the height right after replacing the set. */
  ghost predicate Settled(calls: seq<EngineCall>) {
    if calls == [] then true else
      var c := calls[|calls| - 1];
      c.CallStartHeight? || (!c.CallSetValidators? && Settled(calls[..|calls| - 1]))
  }

  // ---------------------------------------------------------------------------------
  // Powers do not depend on priorities

  lemma {:induction false} SameFind(vs: seq<Validator>, ws: seq<Validator>, a: Address)
    requires |vs| == |ws|
    requires forall i :: 0 <= i < |vs| ==> vs[i].address == ws[i].address
    ensures Find(vs, a) == Find(ws, a)
  {
    if vs != [] { SameFind(vs[1..], ws[1..], a); }
  }

  lemma SameQuorums(votes: VoteMap, v: ValSet, w: ValSet, h: nat, r: nat, c: Option<Hash32>)
    requires SameMembers(v, w)
    ensures Quorum(votes, v, h, r, c) == Quorum(votes, w, h, r, c)
  {
    forall a: Address
      ensures Member(v.validators, a) == Member(w.validators, a)
      ensures PowerOf(v.validators, a) == PowerOf(w.validators, a)
    {
      SameFind(v.validators, w.validators, a);
    }
    var who := Voters(votes, v.validators, h, r, c);
    assert who == Voters(votes, w.validators, h, r, c);
    SumSame(who, a => PowerOf(v.validators, a), a => PowerOf(w.validators, a));
  }

  lemma SameSound(v: ValSet, w: ValSet)
    requires SameMembers(v, w) && SoundPowers(v)
    ensures SoundPowers(w)
  {
    TotalPowerSame(v.validators, w.validators);
  }

  lemma SelectSameMembers(v: ValSet)
    requires v.validators != []
    ensures SameMembers(v, Select(v).0)
  {
  }

  // ---------------------------------------------------------------------------------
  // Tallies only grow

  ghost predicate Extends(more: VoteMap, votes: VoteMap) {
    forall k <- votes.Keys :: k in more && more[k] == votes[k]
  }

  lemma QuorumGrows(votes: VoteMap, more: VoteMap, vals: ValSet, h: nat, r: nat, c: Option<Hash32>)
    requires Extends(more, votes) && Quorum(votes, vals, h, r, c)
    ensures Quorum(more, vals, h, r, c)
  {
    SumMonotone(Voters(votes, vals.validators, h, r, c), Voters(more, vals.validators, h, r, c),
                a => PowerOf(vals.validators, a));
  }

  // ---------------------------------------------------------------------------------
  // Steps

  lemma StepWellFormed(s: EngineState, c: EngineCall)
    requires WellFormed(s)
    ensures WellFormed(Do(s, c))
  {
  }

  lemma LockAfterPrevote(s: EngineState, v: Vote)
    requires LockSound(s) && Admissible(s, v, Prevote)
    ensures LockSound(ReceivePrevote(s, v).0)
  {
    var votes := KeepFirst(s.prevotes, v);
    var t := ReceivePrevote(s, v).0;
    assert t.prevotes == votes && t.vals == s.vals && t.rs.height == s.rs.height;
    if t.rs.lockedBlock == s.rs.lockedBlock && t.rs.lockedRound == s.rs.lockedRound {
      if s.rs.lockedBlock.Some? {
        QuorumGrows(s.prevotes, votes, s.vals, s.rs.height, s.rs.lockedRound.value, s.rs.lockedBlock);
      }
    } else {
      assert t.rs.lockedBlock == QuorumBlock(votes, s.vals, s.rs.height, s.rs.round);
    }
  }

  lemma MembersAfterVote(votes: VoteMap, vs: seq<Validator>, v: Vote)
    requires FromMembers(votes, vs) && Member(vs, v.validator)
    ensures FromMembers(KeepFirst(votes, v), vs)
  {
  }

  lemma AnchoredAfterVote(s: EngineState, v: Vote)
    requires Anchored(s)
    ensures Anchored(ReceivePrevote(s, v).0)
    ensures Anchored(ReceivePrecommit(s, v).0)
  {
    if Admissible(s, v, Prevote) {
      LockAfterPrevote(s, v);
      MembersAfterVote(s.prevotes, s.vals.validators, v);
    } else if Admissible(s, v, Precommit) {
      MembersAfterVote(s.precommits, s.vals.validators, v);
    }
  }

  lemma AnchoredAfterSelect(s: EngineState)
    requires Anchored(s)
    ensures Anchored(s.(vals := Select(s.vals).0))
  {
    var w := Select(s.vals).0;
    SelectSameMembers(s.vals);
    SameSound(s.vals, w);
    forall a: Address ensures Member(w.validators, a) == Member(s.vals.validators, a) {
      SameFind(s.vals.validators, w.validators, a);
    }
    if s.rs.lockedBlock.Some? {
      SameQuorums(s.prevotes, s.vals, w, s.rs.height, s.rs.lockedRound.value, s.rs.lockedBlock);
    }
  }

  lemma StepAnchored(s: EngineState, c: EngineCall)
    requires Anchored(s) && !c.CallSetValidators?
    ensures Anchored(Do(s, c))
  {
    match c
    case CallPrevote(v) => AnchoredAfterVote(s, v);
    case CallPrecommit(v) => AnchoredAfterVote(s, v);
    case CallSelectProposer => AnchoredAfterSelect(s);
    case _ =>
  }

  lemma RefreshSound(s: ValSet, fresh_: ValSet)
    requires SoundPowers(fresh_)
    ensures SoundPowers(Refresh(s, fresh_))
  {
    SameSound(fresh_, Refresh(s, fresh_));
  }

  lemma StepSound(s: EngineState, c: EngineCall)
    requires SoundPowers(s.vals) && (c.CallSetValidators? ==> SoundPowers(c.fresh_))
    ensures SoundPowers(Do(s, c).vals)
  {
    match c
    case CallSetValidators(f) => RefreshSound(s.vals, f);
    case CallSelectProposer => SelectSameMembers(s.vals); SameSound(s.vals, Select(s.vals).0);
    case _ =>
  }

  // ---------------------------------------------------------------------------------
  // Runs

  /** In every run votes stay under their own keys, and as long as the validator set was not
      replaced in mid-height, all stored votes are from active validators and a lock names the
      block with a prevote quorum at the locked round. */
  lemma {:induction false} ReachableEngine(h: nat, vals: ValSet, calls: seq<EngineCall>)
    requires SoundPowers(vals) && SoundCalls(calls)
    ensures var s := Run(NewEngine(h, vals), calls);
      WellFormed(s) && SoundPowers(s.vals) && (Settled(calls) ==> Anchored(s))
  {
    if calls != [] {
      var front, c := calls[..|calls| - 1], calls[|calls| - 1];
      ReachableEngine(h, vals, front);
      var s := Run(NewEngine(h, vals), front);
      StepWellFormed(s, c);
      StepSound(s, c);
      if !c.CallStartHeight? && Settled(calls) { StepAnchored(s, c); }
    }
  }

  /** What `find_conflicting_vote` returns is a genuine double vote, and it misses none: a
      stored vote that equivocates with `v` is found. */
  lemma ConflictsAreEquivocations(h: nat, vals: ValSet, calls: seq<EngineCall>, v: Vote)
    requires SoundPowers(vals) && SoundCalls(calls)
    ensures var s := Run(NewEngine(h, vals), calls);
      && (FindConflicting(s, v).Some? ==> IsValidEquivocation(FindConflicting(s, v).value, v))
      && forall w :: w in s.prevotes.Values + s.precommits.Values && IsValidEquivocation(w, v)
           ==> FindConflicting(s, v) == Some(w)
  {
    ReachableEngine(h, vals, calls);
    var s := Run(NewEngine(h, vals), calls);
    forall w | w in s.prevotes.Values + s.precommits.Values && IsValidEquivocation(w, v)
      ensures FindConflicting(s, v) == Some(w)
    {
      if w in s.prevotes.Values {
        var k :| k in s.prevotes && s.prevotes[k] == w;
        assert k == KeyOf(v);
      } else {
        var k :| k in s.precommits && s.precommits[k] == w;
        assert k == KeyOf(v);
      }
    }
  }

  // ---------------------------------------------------------------------------------
  // Commit certificates

  function Signers(sigs: seq<CommitSignature>): set<Address> {
    set c | c in sigs :: c.validator
  }

  /** The signers of a certificate are the active validators that precommitted its block. */
  lemma SignersAreVoters(votes: VoteMap, vs: seq<Validator>, h: nat, r: nat, b: Hash32)
    requires FromMembers(votes, vs)
    ensures Signers(Certificate(votes, h, r, b)) == Voters(votes, vs, h, r, Some(b))
    ensures forall c <- Certificate(votes, h, r, b) ::
      var k := VoteKey(h, r, c.validator);
      k in votes && votes[k].blockHash == Some(b) && c.signature == votes[k].signature
  {
    forall a | a in Precommitters(votes, h, r, b)
      ensures VoteKey(h, r, a) in votes && votes[VoteKey(h, r, a)].blockHash == Some(b)
      ensures a in Signers(Certificate(votes, h, r, b))
    {
      var k :| k in votes && k.height == h && k.round == r && votes[k].blockHash == Some(b) && k.validator == a;
      assert k == VoteKey(h, r, a);
      assert SignatureOf(votes, h, r, a) in Certificate(votes, h, r, b);
    }
  }

  /** Certificate soundness: returned signatures are strictly sorted by address, come from
      active validators whose stored precommit in this round is for one same block, and those
      validators hold more than two thirds of the power. */
  lemma CertificateSound(s: EngineState, v: Vote) returns (b: Hash32)
    requires Anchored(s)
    requires ReceivePrecommit(s, v).1.Some? && ReceivePrecommit(s, v).1.value.Some?
    ensures var (t, res) := ReceivePrecommit(s, v);
      var sigs := res.value.value;
      && StrictlySortedBy(sigs, (c: CommitSignature) => c.validator)
      && (forall c <- sigs ::
            var k := VoteKey(s.rs.height, s.rs.round, c.validator);
            && Member(s.vals.validators, c.validator)
            && k in t.precommits && t.precommits[k].blockHash == Some(b)
            && c.signature == t.precommits[k].signature)
      && 3 * Power(s.vals.validators, Signers(sigs)) > 2 * s.vals.total
      && Some(b) == QuorumBlock(t.precommits, s.vals, s.rs.height, s.rs.round)
  {
    var votes := KeepFirst(s.precommits, v);
    b := QuorumBlock(votes, s.vals, s.rs.height, s.rs.round).value;
    MembersAfterVote(s.precommits, s.vals.validators, v);
    SignersAreVoters(votes, s.vals.validators, s.rs.height, s.rs.round, b);
    QuorumMeansTwoThirds(s.vals.total);
  }

  /** Calls that neither restart the height nor replace the validators. */
  ghost predicate SameHeight(calls: seq<EngineCall>) {
    forall c <- calls :: !c.CallStartHeight? && !c.CallSetValidators?
  }

  /** `t` holds the precommits of `s` and perhaps more, for the same validators. */
  ghost predicate Continues(t: EngineState, s: EngineState) {
    Extends(t.precommits, s.precommits) && SameMembers(s.vals, t.vals) && t.rs.height == s.rs.height
  }

  lemma StepContinues(s: EngineState, c: EngineCall)
    requires !c.CallStartHeight? && !c.CallSetValidators?
    ensures Continues(Do(s, c), s)
  {
    match c
    case CallSelectProposer => if s.vals.validators != [] { SelectSameMembers(s.vals); }
    case CallPrevote(v) => assert Do(s, c).precommits == s.precommits && Do(s, c).vals == s.vals;
    case CallPrecommit(v) => assert Extends(KeepFirst(s.precommits, v), s.precommits);
    case _ =>
  }

  lemma {:induction false} PrecommitsOnlyGrow(s: EngineState, calls: seq<EngineCall>)
    requires Anchored(s) && SameHeight(calls)
    ensures Anchored(Run(s, calls)) && Continues(Run(s, calls), s)
  {
    if calls != [] {
      PrecommitsOnlyGrow(s, calls[..|calls| - 1]);
      StepAnchored(Run(s, calls[..|calls| - 1]), calls[|calls| - 1]);
      StepContinues(Run(s, calls[..|calls| - 1]), calls[|calls| - 1]);
    }
  }

  lemma SameBlockLater(votes: VoteMap, vals: ValSet, more: VoteMap, vals': ValSet, h: nat, r: nat)
    requires SoundPowers(vals') && SameMembers(vals, vals') && Extends(more, votes)
    requires QuorumBlock(votes, vals, h, r).Some?
    ensures QuorumBlock(more, vals', h, r) == QuorumBlock(votes, vals, h, r)
  {
    var b := QuorumBlock(votes, vals, h, r);
    QuorumGrows(votes, more, vals, h, r, b);
    SameQuorums(more, vals, vals', h, r, b);
    UniqueQuorum(more, vals', h, r, b, QuorumBlock(more, vals', h, r));
  }

  lemma LaterCertificate(s: EngineState, t: EngineState, w: Vote)
    requires SoundPowers(t.vals) && Continues(t, s) && Admissible(t, w, Precommit)
    requires QuorumBlock(s.precommits, s.vals, t.rs.height, t.rs.round).Some?
    ensures var (t1, res) := ReceivePrecommit(t, w);
      var b := QuorumBlock(s.precommits, s.vals, t.rs.height, t.rs.round);
      && QuorumBlock(t1.precommits, t1.vals, t.rs.height, t.rs.round) == b
      && res.value.Some?
      && forall c <- Certificate(s.precommits, t.rs.height, t.rs.round, b.value) :: c in res.value.value
  {
    var more := KeepFirst(t.precommits, w);
    SameBlockLater(s.precommits, s.vals, more, t.vals, t.rs.height, t.rs.round);
    var b := QuorumBlock(s.precommits, s.vals, t.rs.height, t.rs.round).value;
    CertificateExtends(s.precommits, more, t.rs.height, t.rs.round, b);
  }

  /** Once a certificate exists for a round, every further precommit accepted in that round
      returns a certificate for the same block that contains all earlier signatures. */
  lemma CertificatesOnlyGrow(s: EngineState, v: Vote, calls: seq<EngineCall>, w: Vote)
    requires Anchored(s) && SameHeight(calls)
    requires ReceivePrecommit(s, v).1.Some? && ReceivePrecommit(s, v).1.value.Some?
    requires var t := Run(ReceivePrecommit(s, v).0, calls);
      t.rs.round == s.rs.round && Admissible(t, w, Precommit)
    ensures var (s1, res1) := ReceivePrecommit(s, v);
      var (t1, res2) := ReceivePrecommit(Run(s1, calls), w);
      && res2.value.Some?
      && QuorumBlock(t1.precommits, t1.vals, s.rs.height, s.rs.round)
           == QuorumBlock(s1.precommits, s.vals, s.rs.height, s.rs.round)
      && forall c <- res1.value.value :: c in res2.value.value
  {
    var s1 := ReceivePrecommit(s, v).0;
    AnchoredAfterVote(s, v);
    PrecommitsOnlyGrow(s1, calls);
    LaterCertificate(s1, Run(s1, calls), w);
  }

  lemma CertificateExtends(votes: VoteMap, more: VoteMap, h: nat, r: nat, b: Hash32)
    requires Extends(more, votes)
    ensures forall c <- Certificate(votes, h, r, b) :: c in Certificate(more, h, r, b)
  {
    forall c | c in Certificate(votes, h, r, b)
      ensures c in Certificate(more, h, r, b)
    {
      var k :| k in votes && k.height == h && k.round == r
               && votes[k].blockHash == Some(b) && k.validator == c.validator;
      assert k == VoteKey(h, r, c.validator);
    }
  }
}
