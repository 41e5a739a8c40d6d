/** The two-step BFT consensus engine: vote tallies, quorum search, locking and commit
    certificates. */
module Engine {
  import opened Basics
  import opened Sums
  import opened Sorting
  import opened ValidatorSets
  import opened ChainTypes

  datatype VoteType = Prevote | Precommit

  /** A signed vote; a missing block hash is a vote for nil. */
  datatype Vote = Vote(
    voteType: VoteType, height: nat, round: nat, blockHash: Option<Hash32>,
    validator: Address, signature: Bytes)

  datatype VoteKey = VoteKey(height: nat, round: nat, validator: Address)

  function KeyOf(v: Vote): VoteKey {
    VoteKey(v.height, v.round, v.validator)
  }

  /** `is_valid_equivocation` over the two votes of an evidence record. */
  predicate IsValidEquivocation(a: Vote, b: Vote) {
    && a.validator == b.validator
    && a.height == b.height
    && a.round == b.round
    && a.voteType == b.voteType
    && a.blockHash != b.blockHash
  }

  datatype RoundStep = NewHeight | NewRound | ProposeStep | PrevoteStep | PrecommitStep | CommitStep

  datatype RoundState = RoundState(
    height: nat, round: nat, step: RoundStep,
    lockedRound: Option<nat>, lockedBlock: Option<Hash32>,
    validRound: Option<nat>, validBlock: Option<Hash32>)

  type VoteMap = map<VoteKey, Vote>

  datatype EngineState = EngineState(
    rs: RoundState, vals: ValSet, prevotes: VoteMap, precommits: VoteMap,
    proposed: map<(nat, nat), Hash32>)

  // ---------------------------------------------------------------------------------
  // Tallies

  /** The validators among `keys` whose vote at (h, r) is `c`. */
  ghost function VotersAmong(votes: VoteMap, keys: set<VoteKey>, vs: seq<Validator>,
                             h: nat, r: nat, c: Option<Hash32>): set<Address> {
    set k | k in keys && k in votes && k.height == h && k.round == r
            && votes[k].blockHash == c && Member(vs, k.validator) :: k.validator
  }

  ghost function Voters(votes: VoteMap, vs: seq<Validator>, h: nat, r: nat, c: Option<Hash32>): set<Address> {
    VotersAmong(votes, votes.Keys, vs, h, r, c)
  }

  ghost function Tally(votes: VoteMap, vs: seq<Validator>, h: nat, r: nat, c: Option<Hash32>): nat {
    Power(vs, Voters(votes, vs, h, r, c))
  }

  /** Choice `c` has more than two thirds of the power at (h, r). */
  ghost predicate Quorum(votes: VoteMap, vals: ValSet, h: nat, r: nat, c: Option<Hash32>) {
    HasQuorum(vals.total, Tally(votes, vals.validators, h, r, c))
  }

  /** Powers that add up to the cached total, small enough for `u64` quorum arithmetic. */
  ghost predicate SoundPowers(vals: ValSet) {
    vals.validators != [] && 0 < vals.total == TotalPower(vals.validators) < TWO_63
  }

  /** Unique quorum: at one height and round at most one choice, nil included, has a quorum. */
  lemma UniqueQuorum(votes: VoteMap, vals: ValSet, h: nat, r: nat, c: Option<Hash32>, d: Option<Hash32>)
    requires SoundPowers(vals)
    requires Quorum(votes, vals, h, r, c) && Quorum(votes, vals, h, r, d)
    ensures c == d
  {
    var p, q := Voters(votes, vals.validators, h, r, c), Voters(votes, vals.validators, h, r, d);
    assert Power(vals.validators, {}) == 0;
    var a := QuorumsShareHonest(vals, p, q, {});
    var k :| k in votes && k.validator == a && k.height == h && k.round == r && votes[k].blockHash == c;
    var l :| l in votes && l.validator == a && l.height == h && l.round == r && votes[l].blockHash == d;
    assert k == l;
  }

  /** The block with a quorum, if any. By `UniqueQuorum` there is no choice to make. */
  ghost function QuorumBlock(votes: VoteMap, vals: ValSet, h: nat, r: nat): (o: Option<Hash32>)
    ensures o.Some? ==> Quorum(votes, vals, h, r, o)
    ensures o.None? ==> forall b: Hash32 :: !Quorum(votes, vals, h, r, Some(b))
  {
    if b: Hash32 :| Quorum(votes, vals, h, r, Some(b)) then Some(b) else None
  }

  ghost predicate AnyQuorum(votes: VoteMap, vals: ValSet, h: nat, r: nat) {
    exists c: Option<Hash32> :: Quorum(votes, vals, h, r, c)
  }

  // ---------------------------------------------------------------------------------
  // Transitions

  function InitialRound(h: nat): RoundState {
    RoundState(h, 0, NewHeight, None, None, None, None)
  }

  function StartHeight(s: EngineState, h: nat): EngineState {
    s.(rs := InitialRound(h).(step := ProposeStep), prevotes := map[], precommits := map[], proposed := map[])
  }

  function SetRound(s: EngineState, r: nat): EngineState {
    s.(rs := s.rs.(round := r))
  }

  function SetValidators(s: EngineState, fresh_: ValSet): EngineState {
    s.(vals := Refresh(s.vals, fresh_))
  }

  /** `propose_block`; a proposer outside the set is refused. */
  function ProposeBlock(s: EngineState, b: Hash32, proposer: Address): (EngineState, bool) {
    if Member(s.vals.validators, proposer) then
      (s.(proposed := s.proposed[(s.rs.height, s.rs.round) := b], rs := s.rs.(step := PrevoteStep)), true)
    else (s, false)
  }

  /** Only the first vote of a validator per height and round is kept. */
  function KeepFirst(votes: VoteMap, v: Vote): VoteMap {
    if KeyOf(v) in votes then votes else votes[KeyOf(v) := v]
  }

  predicate Admissible(s: EngineState, v: Vote, t: VoteType) {
    v.voteType == t && v.height == s.rs.height && v.round == s.rs.round
    && Member(s.vals.validators, v.validator)
  }

  /** `receive_prevote`: `None` is the error case, otherwise whether some choice has a quorum. */
  ghost function ReceivePrevote(s: EngineState, v: Vote): (EngineState, Option<bool>) {
    if !Admissible(s, v, Prevote) then (s, None)
    else
      var votes := KeepFirst(s.prevotes, v);
      var h, r := s.rs.height, s.rs.round;
      var b := QuorumBlock(votes, s.vals, h, r);
      var rs :=
        if !AnyQuorum(votes, s.vals, h, r) then s.rs
        else if b.None? then s.rs.(step := PrecommitStep)
        else s.rs.(step := PrecommitStep, lockedRound := Some(r), lockedBlock := b,
                   validRound := Some(r), validBlock := b);
      (s.(prevotes := votes, rs := rs), Some(AnyQuorum(votes, s.vals, h, r)))
  }

  /** The validators whose stored vote at (h, r) is for block `b`. */
  ghost function Precommitters(votes: VoteMap, h: nat, r: nat, b: Hash32): set<Address> {
    set k | k in votes && k.height == h && k.round == r && votes[k].blockHash == Some(b) :: k.validator
  }

  const COMMIT_TIMESTAMP: nat := 1_700_000_000

  ghost function SignatureOf(votes: VoteMap, h: nat, r: nat, a: Address): CommitSignature {
    CommitSignature(a, if VoteKey(h, r, a) in votes then votes[VoteKey(h, r, a)].signature else [],
                    COMMIT_TIMESTAMP)
  }

  ghost function SignaturesOf(votes: VoteMap, h: nat, r: nat, who: seq<Address>): (sigs: seq<CommitSignature>)
    ensures |sigs| == |who|
    ensures forall i :: 0 <= i < |who| ==> sigs[i] == SignatureOf(votes, h, r, who[i])
  {
    seq(|who|, i requires 0 <= i < |who| => SignatureOf(votes, h, r, who[i]))
  }

  /** `aggregate_commit_signatures`: one signature per precommitter, by ascending address. */
  ghost function Certificate(votes: VoteMap, h: nat, r: nat, b: Hash32): (sigs: seq<CommitSignature>)
    ensures StrictlySortedBy(sigs, (c: CommitSignature) => c.validator)
    ensures forall c :: c in sigs <==>
      c.validator in Precommitters(votes, h, r, b) && c == SignatureOf(votes, h, r, c.validator)
  {
    var who := Ascending(Precommitters(votes, h, r, b));
    var sigs := SignaturesOf(votes, h, r, who);
    assert forall c :: c in sigs <==> c.validator in who && c == SignatureOf(votes, h, r, c.validator) by {
      forall c: CommitSignature | c.validator in who && c == SignatureOf(votes, h, r, c.validator) ensures c in sigs {
        var i :| 0 <= i < |who| && who[i] == c.validator;
        assert sigs[i] == c;
      }
    }
    sigs
  }

  /** `sigs` is the certificate of some block with a quorum. */
  ghost predicate Certifies(votes: VoteMap, vals: ValSet, h: nat, r: nat, sigs: seq<CommitSignature>) {
    exists b: Hash32 :: Quorum(votes, vals, h, r, Some(b)) && sigs == Certificate(votes, h, r, b)
  }

  lemma CertifiesBlock(votes: VoteMap, vals: ValSet, h: nat, r: nat, b: Hash32)
    requires Quorum(votes, vals, h, r, Some(b))
    ensures Certifies(votes, vals, h, r, Certificate(votes, h, r, b))
  {
  }

  /** The certificate of the block with a precommit quorum, if any. */
  ghost function CertificateAt(votes: VoteMap, vals: ValSet, h: nat, r: nat): Option<seq<CommitSignature>> {
    var b := QuorumBlock(votes, vals, h, r);
    if b.None? then None else Some(Certificate(votes, h, r, b.value))
  }

  /** `receive_precommit`: `None` is the error case, otherwise the certificate once a block has
      a precommit quorum. */
  ghost function ReceivePrecommit(s: EngineState, v: Vote): (EngineState, Option<Option<seq<CommitSignature>>>) {
    if !Admissible(s, v, Precommit) then (s, None)
    else
      var votes := KeepFirst(s.precommits, v);
      var sigs := CertificateAt(votes, s.vals, s.rs.height, s.rs.round);
      (s.(precommits := votes, rs := if sigs.Some? then s.rs.(step := CommitStep) else s.rs), Some(sigs))
  }

  /** `find_conflicting_vote`. */
  function FindConflicting(s: EngineState, v: Vote): Option<Vote> {
    var votes := if v.voteType == Prevote then s.prevotes else s.precommits;
    if KeyOf(v) in votes && votes[KeyOf(v)].blockHash != v.blockHash then Some(votes[KeyOf(v)]) else None
  }

  // ---------------------------------------------------------------------------------
  // The engine object

  class BftConsensusEngine {
    var rs: RoundState
    var valSet: ValidatorSet
    var prevotes: VoteMap
    var precommits: VoteMap
    var proposed: map<(nat, nat), Hash32>

    ghost function State(): EngineState
      reads this, valSet
    {
      EngineState(rs, valSet.State(), prevotes, precommits, proposed)
    }

    constructor (initialHeight: nat, vs: ValidatorSet)
      ensures valSet == vs
      ensures State() == EngineState(InitialRound(initialHeight), vs.State(), map[], map[], map[])
    {
      rs, valSet := InitialRound(initialHeight), vs;
      prevotes, precommits, proposed := map[], map[], map[];
    }

    method SetValidatorSet(newSet: ValidatorSet)
      requires newSet != valSet
      modifies this`valSet, newSet
      ensures valSet == newSet
      ensures State() == SetValidators(old(State()), old(newSet.State()))
    {
      var n := |newSet.validators|;
      for i := 0 to n
        invariant |newSet.validators| == n && newSet.total == old(newSet.total)
        invariant valSet == old(valSet) && unchanged(valSet)
        invariant forall j :: 0 <= j < i ==>
          newSet.validators[j] == CarryOne(valSet.validators, old(newSet.validators)[j])
        invariant forall j :: i <= j < n ==> newSet.validators[j] == old(newSet.validators)[j]
      {
        var f := Find(valSet.validators, newSet.validators[i].address);
        if f < |valSet.validators| {
          newSet.validators := newSet.validators[i := newSet.validators[i].(
            proposerPriority := valSet.validators[f].proposerPriority)];
        }
      }
      assert newSet.validators == Carry(valSet.validators, old(newSet.validators));
      valSet := newSet;
    }

    method BeginHeight(h: nat)
      modifies this
      ensures valSet == old(valSet) && State() == StartHeight(old(State()), h)
    {
      rs := InitialRound(h);
      prevotes, precommits, proposed := map[], map[], map[];
      rs := rs.(step := ProposeStep);
    }

    method BeginRound(r: nat)
      modifies this`rs
      ensures State() == SetRound(old(State()), r)
    {
      rs := rs.(round := r);
    }

    method SelectProposer() returns (chosen: Validator)
      requires valSet.validators != []
      modifies valSet
      ensures State() == old(State()).(vals := Select(old(State()).vals).0)
      ensures chosen == valSet.validators[Select(old(State()).vals).1]
    {
      chosen := valSet.SelectProposer();
    }

    method Propose(b: Hash32, proposer: Address) returns (ok: bool)
      modifies this`rs, this`proposed
      ensures (State(), ok) == ProposeBlock(old(State()), b, proposer)
    {
      if Find(valSet.validators, proposer) >= |valSet.validators| { return false; }
      proposed := proposed[(rs.height, rs.round) := b];
      rs := rs.(step := PrevoteStep);
      ok := true;
    }

    /** The accumulation loop of the quorum queries, over the votes in no particular order. */
    method PowerByChoice(votes: VoteMap, h: nat, r: nat) returns (power: map<Option<Hash32>, nat>)
      ensures forall c :: c in power ==> power[c] == Tally(votes, valSet.validators, h, r, c)
      ensures forall c :: c !in power ==> Voters(votes, valSet.validators, h, r, c) == {}
    {
      power := map[];
      var todo := votes.Keys;
      ghost var vs := valSet.validators;
      while todo != {}
        invariant todo <= votes.Keys
        invariant forall c :: c in power ==>
          power[c] == Power(vs, VotersAmong(votes, votes.Keys - todo, vs, h, r, c))
        invariant forall c :: c !in power ==> VotersAmong(votes, votes.Keys - todo, vs, h, r, c) == {}
        decreases todo
      {
        var k :| k in todo;
        ghost var done := votes.Keys - todo;
        assert votes.Keys - (todo - {k}) == done + {k};
        var f := Find(valSet.validators, k.validator);
        if k.height == h && k.round == r && f < |valSet.validators| {
          var c := votes[k].blockHash;
          CountOne(votes, done, vs, k);
          power := power[c := (if c in power then power[c] else 0) + valSet.validators[f].votingPower];
        } else {
          SkipOne(votes, done, vs, h, r, k);
        }
        todo := todo - {k};
      }
      assert votes.Keys - todo == votes.Keys;
    }

    method HasPrevoteQuorum(h: nat, r: nat) returns (found: bool)
      ensures found == AnyQuorum(prevotes, valSet.State(), h, r)
    {
      var power := PowerByChoice(prevotes, h, r);
      var todo := power.Keys;
      found := false;
      while todo != {}
        invariant todo <= power.Keys
        invariant found <==> exists c :: c in power.Keys - todo && HasQuorum(valSet.total, power[c])
        decreases todo
      {
        var c :| c in todo;
        if HasQuorum(valSet.total, power[c]) { found := true; }
        todo := todo - {c};
      }
      NoVotersNoQuorum(prevotes, valSet.State(), h, r);
      assert power.Keys - todo == power.Keys;
      assert forall c :: c in power ==>
        (HasQuorum(valSet.total, power[c]) <==> Quorum(prevotes, valSet.State(), h, r, c));
    }

    /** The scan for a block with a quorum, over the hash map in no particular order. */
    method BlockWithQuorum(votes: VoteMap, h: nat, r: nat) returns (found: Option<Hash32>)
      ensures found.Some? ==> Quorum(votes, valSet.State(), h, r, found)
      ensures found.None? ==> forall b: Hash32 :: !Quorum(votes, valSet.State(), h, r, Some(b))
      ensures SoundPowers(valSet.State()) ==> found == QuorumBlock(votes, valSet.State(), h, r)
    {
      var power := PowerByChoice(votes, h, r);
      var todo := power.Keys;
      found := None;
      while todo != {} && found.None?
        invariant todo <= power.Keys
        invariant found.Some? ==> Quorum(votes, valSet.State(), h, r, found)
        invariant found.None? ==> forall b: Hash32 :: Some(b) in power.Keys - todo ==>
          !Quorum(votes, valSet.State(), h, r, Some(b))
        decreases todo
      {
        var c :| c in todo;
        if c.Some? && HasQuorum(valSet.total, power[c]) { found := c; }
        todo := todo - {c};
      }
      NoVotersNoQuorum(votes, valSet.State(), h, r);
      if SoundPowers(valSet.State()) {
        var spec := QuorumBlock(votes, valSet.State(), h, r);
        if found.Some? { UniqueQuorum(votes, valSet.State(), h, r, found, spec); }
      }
    }

    /** `receive_prevote`. Which block is locked depends on the iteration order of a hash map only
        if several have a quorum, which sound powers rule out. */
    method Prevoted(v: Vote) returns (res: Option<bool>)
      modifies this`rs, this`prevotes
      ensures SoundPowers(old(State()).vals) ==> (State(), res) == ReceivePrevote(old(State()), v)
      ensures res.Some? <==> Admissible(old(State()), v, Prevote)
      ensures prevotes == if res.Some? then KeepFirst(old(prevotes), v) else old(prevotes)
      ensures res.Some? ==> res.value == AnyQuorum(prevotes, valSet.State(), rs.height, rs.round)
      ensures rs.height == old(rs.height) && rs.round == old(rs.round)
      ensures rs.lockedBlock == old(rs.lockedBlock)
        || (rs.lockedBlock.Some? && Quorum(prevotes, valSet.State(), rs.height, rs.round, rs.lockedBlock))
    {
      if v.voteType != Prevote || v.height != rs.height || v.round != rs.round { return None; }
      if Find(valSet.validators, v.validator) >= |valSet.validators| { return None; }
      if KeyOf(v) !in prevotes { prevotes := prevotes[KeyOf(v) := v]; }
      var q := HasPrevoteQuorum(rs.height, rs.round);
      if q {
        var b := BlockWithQuorum(prevotes, rs.height, rs.round);
        rs := rs.(step := PrecommitStep);
        if b.Some? {
          rs := rs.(lockedRound := Some(rs.round), lockedBlock := b,
                    validRound := Some(rs.round), validBlock := b);
        }
      }
      res := Some(q);
    }

    method FindConflictingVote(v: Vote) returns (w: Option<Vote>)
      ensures w == FindConflicting(State(), v)
    {
      var votes := if v.voteType == Prevote then prevotes else precommits;
      if KeyOf(v) in votes && votes[KeyOf(v)].blockHash != v.blockHash { return Some(votes[KeyOf(v)]); }
      w := None;
    }

    method AggregateCommitSignatures(h: nat, r: nat, b: Hash32) returns (sigs: seq<CommitSignature>)
      ensures sigs == Certificate(precommits, h, r, b)
    {
      var raw: seq<CommitSignature> := [];
      var todo := precommits.Keys;
      while todo != {}
        invariant todo <= precommits.Keys
        invariant forall i, j :: 0 <= i < j < |raw| ==> raw[i].validator != raw[j].validator
        invariant forall c :: c in raw <==>
          && VoteKey(h, r, c.validator) in precommits.Keys - todo
          && precommits[VoteKey(h, r, c.validator)].blockHash == Some(b)
          && c == SignatureOf(precommits, h, r, c.validator)
        decreases todo
      {
        var k :| k in todo;
        if k.height == h && k.round == r && precommits[k].blockHash == Some(b) {
          assert k == VoteKey(h, r, k.validator);
          raw := raw + [CommitSignature(k.validator, precommits[k].signature, COMMIT_TIMESTAMP)];
        }
        todo := todo - {k};
      }
      sigs := SortBy(raw, (c: CommitSignature) => c.validator);
      CertificateIsSorted(precommits, h, r, b, raw);
    }

    /** `receive_precommit`; the same holds of the block that is certified. */
    method Precommitted(v: Vote) returns (res: Option<Option<seq<CommitSignature>>>)
      modifies this`rs, this`precommits
      ensures SoundPowers(old(State()).vals) ==> (State(), res) == ReceivePrecommit(old(State()), v)
      ensures res.Some? <==> Admissible(old(State()), v, Precommit)
      ensures precommits == if res.Some? then KeepFirst(old(precommits), v) else old(precommits)
      ensures rs.height == old(rs.height) && rs.round == old(rs.round)
      ensures res.Some? && res.value.Some? ==>
        Certifies(precommits, valSet.State(), rs.height, rs.round, res.value.value)
    {
      if v.voteType != Precommit || v.height != rs.height || v.round != rs.round { return None; }
      if Find(valSet.validators, v.validator) >= |valSet.validators| { return None; }
      if KeyOf(v) !in precommits { precommits := precommits[KeyOf(v) := v]; }
      assert precommits == KeepFirst(old(precommits), v);
      var sigs := CertifiedSignatures();
      res := Some(sigs);
      if sigs.Some? { rs := rs.(step := CommitStep); }
    }

    /** The certificate of the block with a precommit quorum at the current position, if any. */
    method CertifiedSignatures() returns (sigs: Option<seq<CommitSignature>>)
      ensures sigs.Some? ==> Certifies(precommits, valSet.State(), rs.height, rs.round, sigs.value)
      ensures SoundPowers(valSet.State()) ==> sigs == CertificateAt(precommits, valSet.State(), rs.height, rs.round)
    {
      var b := BlockWithQuorum(precommits, rs.height, rs.round);
      if b.None? { return None; }
      var cert := AggregateCommitSignatures(rs.height, rs.round, b.value);
      CertifiesBlock(precommits, valSet.State(), rs.height, rs.round, b.value);
      sigs := Some(cert);
    }
  }

  lemma NoVotersNoQuorum(votes: VoteMap, vals: ValSet, h: nat, r: nat)
    ensures forall c :: Voters(votes, vals.validators, h, r, c) == {} ==> !Quorum(votes, vals, h, r, c)
  {
  }

  /** Counting one more vote of a member raises the tally of its choice by the member's power. */
  lemma CountOne(votes: VoteMap, done: set<VoteKey>, vs: seq<Validator>, k: VoteKey)
    requires k in votes && k !in done && Member(vs, k.validator)
    ensures forall c :: c != votes[k].blockHash ==>
      VotersAmong(votes, done + {k}, vs, k.height, k.round, c) == VotersAmong(votes, done, vs, k.height, k.round, c)
    ensures Power(vs, VotersAmong(votes, done + {k}, vs, k.height, k.round, votes[k].blockHash))
      == Power(vs, VotersAmong(votes, done, vs, k.height, k.round, votes[k].blockHash)) + PowerOf(vs, k.validator)
    ensures VotersAmong(votes, done + {k}, vs, k.height, k.round, votes[k].blockHash) != {}
  {
    var c := votes[k].blockHash;
    var before := VotersAmong(votes, done, vs, k.height, k.round, c);
    assert VotersAmong(votes, done + {k}, vs, k.height, k.round, c) == before + {k.validator};
    assert forall l: VoteKey :: l.height == k.height && l.round == k.round && l.validator == k.validator ==> l == k;
    SumAdd(before, a => PowerOf(vs, a), k.validator);
  }

  lemma SkipOne(votes: VoteMap, done: set<VoteKey>, vs: seq<Validator>, h: nat, r: nat, k: VoteKey)
    requires !(k.height == h && k.round == r && Member(vs, k.validator))
    ensures forall c :: VotersAmong(votes, done + {k}, vs, h, r, c) == VotersAmong(votes, done, vs, h, r, c)
  {
  }

  lemma CertificateIsSorted(votes: VoteMap, h: nat, r: nat, b: Hash32, raw: seq<CommitSignature>)
    requires forall i, j :: 0 <= i < j < |raw| ==> raw[i].validator != raw[j].validator
    requires forall c :: c in raw <==>
      && VoteKey(h, r, c.validator) in votes
      && votes[VoteKey(h, r, c.validator)].blockHash == Some(b)
      && c == SignatureOf(votes, h, r, c.validator)
    ensures SortBy(raw, (c: CommitSignature) => c.validator) == Certificate(votes, h, r, b)
  {
    var key := (c: CommitSignature) => c.validator;
    var sorted := SortBy(raw, key);
    SortKeeps(raw, key);
    forall i, j | 0 <= i < j < |sorted|
      ensures key(sorted[i]) < key(sorted[j])
    {
      if key(sorted[i]) == key(sorted[j]) {
        DistinctKeysOnce(raw, key, sorted[i]);
        assert sorted[i] in raw && sorted[j] in raw;
        assert sorted[i] == sorted[j];
        TwicePresent(sorted, i, j);
        assert false;
      }
    }
    forall c
      ensures c in Certificate(votes, h, r, b) <==> c in sorted
    {
      if c.validator in Precommitters(votes, h, r, b) {
        var k :| k in votes && k.height == h && k.round == r && votes[k].blockHash == Some(b)
                 && k.validator == c.validator;
        assert k == VoteKey(h, r, c.validator);
      }
    }
    StrictlySortedUnique(sorted, Certificate(votes, h, r, b), key);
  }

  lemma {:induction false} DistinctKeysOnce<T(!new)>(s: seq<T>, key: T -> int, x: T)
    requires forall i, j :: 0 <= i < j < |s| ==> key(s[i]) != key(s[j])
    ensures multiset(s)[x] <= 1
  {
    if s != [] {
      var front := s[..|s| - 1];
      assert s == front + [s[|s| - 1]];
      DistinctKeysOnce(front, key, x);
      assert forall i :: 0 <= i < |front| ==> key(front[i]) != key(s[|s| - 1]);
    }
  }

  lemma TwicePresent<T>(s: seq<T>, i: nat, j: nat)
    requires i < j < |s| && s[i] == s[j]
    ensures multiset(s)[s[i]] >= 2
  {
    assert s == s[..j] + [s[j]] + s[j + 1..];
    assert s[i] in s[..j];
  }
}
