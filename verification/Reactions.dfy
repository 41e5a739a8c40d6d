/** The reactions of a driver one by one, and whose blocks it votes for: a driver prevotes a block,
    and lets an announced block into its ledger, only if the scheduled proposer made it. */
module Reactions {
  import opened Basics
  import opened ValidatorSets
  import opened Engine
  import opened EngineRuns
  import opened Driver
  import opened Honesty

  // ---------------------------------------------------------------------------------
  // Single reactions

  /** A prevote or precommit of this driver at its current attempt. */
  function Ballot(n: NodeState, t: VoteType, c: Option<Hash32>): Vote {
    Vote(t, n.lastAttempted, n.currentRound, c, n.me, [])
  }

  /** `b` has a prevote quorum at the current attempt, as far as the driver has counted. */
  ghost predicate Leads(n: NodeState, b: Hash32) {
    Quorum(n.engine.prevotes, n.engine.vals, n.lastAttempted, n.currentRound, Some(b))
  }

  /** The reactive precommit: sent exactly when the driver has not precommitted in this attempt and
      some block has a prevote quorum, and then for such a block. */
  lemma PrecommitExactly(n: NodeState)
    ensures var m := MaybePrecommit(n).0;
      if !n.precommitted && exists b: Hash32 :: Leads(n, b)
      then m.precommitted && exists b: Hash32 :: Leads(n, b) && m.sent == n.sent + [Ballot(n, Precommit, Some(b))]
      else m == n
  {
    var b := QuorumBlock(n.engine.prevotes, n.engine.vals, n.lastAttempted, n.currentRound);
    if !n.precommitted && b.Some? {
      var v := Ballot(n, Precommit, b);
      FeedPrecommitFrame(n.(precommitted := true, sent := n.sent + [v]), v);
      assert Leads(n, b.value);
    } else {
      assert n.precommitted || forall c: Hash32 :: !Leads(n, c);
    }
  }

  /** At most one more vote, and that a precommit. */
  predicate AtMostPrecommit(n: NodeState, before: seq<Vote>, after: seq<Vote>) {
    after == before || exists b: Hash32 :: after == before + [Ballot(n, Precommit, Some(b))]
  }

  /** A prevote for a block is sent first; at most a precommit follows. */
  lemma PrevoteBlockSends(n: NodeState, b: Hash32)
    ensures var m := PrevoteBlock(n, b);
      && AtMostPrecommit(n, n.sent + [Ballot(n, Prevote, Some(b))], m.sent)
      && m.ledger == n.ledger && !m.phase.Awaiting?
      && m.lastAttempted == n.lastAttempted && m.currentRound == n.currentRound && m.me == n.me
  {
    var c := CastPrevote(n, Some(b));
    PrecommitExactly(c);
    MaybePrecommitCarries(c);
  }

  /** The ledger takes the block of a proposal: it has passed the height, or the block is a valid
      successor of its tip. */
  predicate Takes(ledger: seq<Hash32>, p: Proposal) {
    || p.headerHeight < |ledger|
    || (p.headerHeight == |ledger| && ledger != [] && p.headerParent == ledger[|ledger| - 1] && p.valid)
  }

  /** An announcement for the current attempt: a block of the awaited proposer that the ledger takes
      is prevoted, and appended unless the ledger has passed its height; anything else is answered
      by one nil prevote, which ends the attempt and leaves the ledger alone. */
  lemma ProposalExactly(n: NodeState, p: Proposal)
    requires n.phase.Awaiting? && n.phase.proposer != n.me && p.height == n.lastAttempted && p.round == n.currentRound
    ensures var m := Handle(n, ProposalArrives(p));
      if p.headerProposer == n.phase.proposer && Takes(n.ledger, p)
      then AtMostPrecommit(n, n.sent + [Ballot(n, Prevote, Some(p.block))], m.sent) && !m.phase.Awaiting?
           && m.ledger == if p.headerHeight < |n.ledger| then n.ledger else n.ledger + [p.block]
      else m.sent == n.sent + [Ballot(n, Prevote, None)] && m.ledger == n.ledger && m.phase.Idle?
           && m.stamps == n.stamps
  {
    if p.headerProposer == n.phase.proposer && Takes(n.ledger, p) {
      var k := n.(ledger := ApplyProposal(n.ledger, p).value,
                  engine := ProposeBlock(n.engine, p.block, n.phase.proposer).0);
      PrevoteBlockSends(k, p.block);
      assert Ballot(k, Prevote, Some(p.block)) == Ballot(n, Prevote, Some(p.block));
      assert forall b: Hash32 :: Ballot(k, Precommit, Some(b)) == Ballot(n, Precommit, Some(b));
    }
  }

  /** An announcement for another height or round, or in another phase, changes nothing. */
  lemma OtherProposal(n: NodeState, p: Proposal)
    requires !n.phase.Awaiting? || n.phase.proposer == n.me || p.height != n.lastAttempted || p.round != n.currentRound
    ensures Handle(n, ProposalArrives(p)) == n
  {
  }

  /** The own turn: without a block the attempt ends silently; a mined block joins the ledger, and is
      prevoted if this driver is in the set. At other times mining is no affair of the driver. */
  lemma LocalExactly(n: NodeState, mined: Option<Hash32>)
    ensures var m := Handle(n, LocalProposal(mined));
      if n.phase != Awaiting(n.me) then m == n
      else if mined.None? then m == n.(phase := Idle)
      else
        && m.ledger == n.ledger + [mined.value] && !m.phase.Awaiting?
        && if Member(n.engine.vals.validators, n.me)
           then AtMostPrecommit(n, n.sent + [Ballot(n, Prevote, mined)], m.sent)
           else m.sent == n.sent && m.phase.Idle?
  {
    if n.phase == Awaiting(n.me) && mined.Some? {
      var k := n.(ledger := n.ledger + [mined.value], engine := ProposeBlock(n.engine, mined.value, n.me).0);
      PrevoteBlockSends(k, mined.value);
      assert Ballot(k, Prevote, mined) == Ballot(n, Prevote, mined);
      assert forall b: Hash32 :: Ballot(k, Precommit, Some(b)) == Ballot(n, Precommit, Some(b));
    }
  }

  /** Timeouts: a missing proposal is answered by a nil prevote, an undecided round just ends. */
  lemma TimeoutsExactly(n: NodeState)
    ensures var m := Handle(n, ProposalTimeout);
      if n.phase.Awaiting? && n.phase.proposer != n.me
      then m.sent == n.sent + [Ballot(n, Prevote, None)] && m.ledger == n.ledger && m.phase.Idle?
           && m.stamps == n.stamps
      else m == n
    ensures Handle(n, RoundTimeout) == if n.phase.Tallying? then n.(phase := Idle) else n
  {
  }

  /** The driver is tallying, and `v` is a vote of its attempt by a member of its set. */
  predicate Counts(n: NodeState, v: Vote) {
    && n.phase.Tallying? && v.height == n.lastAttempted && v.round == n.currentRound
    && Member(n.engine.vals.validators, v.validator)
  }

  /** A vote: only one of the current attempt by a member of the set is counted, in the tallying
      phase; it never changes the ledger and triggers at most a precommit. */
  lemma VoteExactly(n: NodeState, v: Vote)
    ensures var m := Handle(n, VoteArrives(v));
      && m.ledger == n.ledger && AtMostPrecommit(n, n.sent, m.sent)
      && (!Counts(n, v) ==> m == n)
  {
    CountCarries(n, v);
    CountSends(n, v);
  }

  lemma CountSends(n: NodeState, v: Vote)
    ensures AtMostPrecommit(n, n.sent, Count(n, v).0.sent)
  {
    var k := Report(n, v);
    FeedPrecommitFrame(k, v);
    ReactiveSends(k, ReceivePrevote(k.engine, v).0);
    SameBallots(n, k, FeedPrevote(k, v).0.sent);
  }

  lemma SameBallots(n: NodeState, k: NodeState, after: seq<Vote>)
    requires k.me == n.me && k.lastAttempted == n.lastAttempted && k.currentRound == n.currentRound
    requires AtMostPrecommit(k, n.sent, after)
    ensures AtMostPrecommit(n, n.sent, after)
  {
    if after != n.sent {
      var b: Hash32 :| after == n.sent + [Ballot(k, Precommit, Some(b))];
      assert Ballot(k, Precommit, Some(b)) == Ballot(n, Precommit, Some(b));
    }
  }

  lemma ReactiveSends(n: NodeState, e: EngineState)
    ensures AtMostPrecommit(n, n.sent, MaybePrecommit(n.(engine := e)).0.sent)
  {
    PrecommitExactly(n.(engine := e));
    assert forall b: Hash32 :: Ballot(n.(engine := e), Precommit, Some(b)) == Ballot(n, Precommit, Some(b));
  }

  /** A start: the next height of the ledger, a fresh round, and the proposer that the schedule
      chooses from the refreshed set. Without a set only the position moves. */
  lemma StartExactly(n: NodeState, active: Option<ValSet>)
    requires n.phase.Idle?
    ensures var m := Handle(n, BeginAttempt(active));
      && m.ledger == n.ledger && m.sent == n.sent && m.stamps == n.stamps && m.lastAttempted == |n.ledger|
      && m.currentRound == (if n.lastAttempted == |n.ledger| then (n.currentRound + 1) % TWO_32 else 0)
      && (if active.None? || active.value.validators == [] then m.phase.Idle? && m.engine == n.engine
          else
            var (vals, i) := Select(Refresh(n.engine.vals, active.value));
            && m.phase == Awaiting(Refresh(n.engine.vals, active.value).validators[i].address) && !m.precommitted
            && m.engine == EngineState(RoundState(|n.ledger|, m.currentRound, ProposeStep, None, None, None, None),
                                       vals, map[], map[], map[]))
  {
    if active.Some? && active.value.validators != [] {
      SelectSameMembers(Refresh(n.engine.vals, active.value));
    }
  }

  // ---------------------------------------------------------------------------------
  // Whose blocks

  /** The proposers that the schedule chose in a run, by height and round. */
  ghost function Duties(n: NodeState, events: seq<Event>): map<(nat, nat), Address>
    decreases |events|
  {
    if events == [] then map[]
    else Duty(n, events[0]) + Duties(Handle(n, events[0]), events[1..])
  }

  /** What a start with a set adds: the proposer chosen for the new attempt. */
  ghost function Duty(n: NodeState, e: Event): map<(nat, nat), Address> {
    if e.BeginAttempt? && n.phase.Idle? && e.active.Some? && e.active.value.validators != [] then
      var vals := Refresh(n.engine.vals, e.active.value);
      var round := if n.lastAttempted == |n.ledger| then (n.currentRound + 1) % TWO_32 else 0;
      map[(|n.ledger|, round) := vals.validators[Select(vals).1].address]
    else map[]
  }

  /** The chosen proposer made the block that `v` prevotes. */
  predicate ForDuty(v: Vote, d: map<(nat, nat), Address>, hd: Headers) {
    v.voteType == Prevote && v.blockHash.Some? ==>
      (v.height, v.round) in d && d[(v.height, v.round)] == hd.proposerOf(v.blockHash.value)
  }

  ghost predicate ByDuty(n: NodeState, d: map<(nat, nat), Address>, hd: Headers) {
    && (n.phase.Awaiting? ==>
          (n.lastAttempted, n.currentRound) in d && d[(n.lastAttempted, n.currentRound)] == n.phase.proposer)
    && forall v <- n.sent :: ForDuty(v, d, hd)
  }

  lemma StartByDuty(n: NodeState, active: Option<ValSet>, d: map<(nat, nat), Address>, hd: Headers)
    requires n.phase.Idle? && ByDuty(n, d, hd) && Own(n) && n.lastAttempted <= |n.ledger| && !Wraps(n)
    requires n.currentRound < TWO_32
    ensures var e := BeginAttempt(active); ByDuty(Handle(n, e), d + Duty(n, e), hd)
  {
    var e := BeginAttempt(active);
    var m := Handle(n, e);
    StartExactly(n, active);
    forall v <- m.sent ensures ForDuty(v, d + Duty(n, e), hd) {
      assert v in n.sent && ForDuty(v, d, hd);
      NewDuty(n, e, v);
    }
  }

  /** The driver has not voted yet where it is about to start. */
  lemma NewDuty(n: NodeState, e: Event, v: Vote)
    requires Own(n) && n.lastAttempted <= |n.ledger| && !Wraps(n) && n.currentRound < TWO_32 && v in n.sent
    ensures (v.height, v.round) !in Duty(n, e)
  {
    assert n.lastAttempted == |n.ledger| ==> (n.currentRound + 1) % TWO_32 == n.currentRound + 1;
  }

  /** New votes of a reaction that are no prevotes for a block other than `b` of the proposer on duty. */
  lemma SentByDuty(n: NodeState, m: NodeState, first: seq<Vote>, b: Option<Hash32>,
                   d: map<(nat, nat), Address>, hd: Headers)
    requires ByDuty(n, d, hd) && AtMostPrecommit(n, n.sent + first, m.sent) && !m.phase.Awaiting?
    requires first == [] || (first == [Ballot(n, Prevote, b)] && n.phase.Awaiting?)
    requires first != [] && b.Some? ==> hd.proposerOf(b.value) == n.phase.proposer
    ensures ByDuty(m, d, hd)
  {
    forall v <- m.sent ensures ForDuty(v, d, hd) {
      assert v in n.sent ==> ForDuty(v, d, hd);
      assert v in n.sent || v in first || v.voteType == Precommit;
    }
  }

  lemma StepByDuty(n: NodeState, e: Event, d: map<(nat, nat), Address>, hd: Headers)
    requires Disciplined(n, hd) && Plausible(n, e, hd) && ByDuty(n, d, hd)
    ensures ByDuty(Handle(n, e), d + Duty(n, e), hd)
  {
    var m := Handle(n, e);
    if e.BeginAttempt? && n.phase.Idle? {
      StartByDuty(n, e.active, d, hd);
    } else {
      assert d + Duty(n, e) == d;
      match e
      case BeginAttempt(_) =>
      case LocalProposal(mined) => LocalByDuty(n, mined, d, hd);
      case ProposalArrives(p) => ArrivalByDuty(n, p, d, hd);
      case ProposalTimeout =>
        TimeoutsExactly(n);
        if m != n { SentByDuty(n, m, [Ballot(n, Prevote, None)], None, d, hd); }
      case VoteArrives(v) =>
        VoteExactly(n, v);
        assert n.sent + [] == n.sent;
        if m != n { SentByDuty(n, m, [], None, d, hd); }
      case RoundTimeout => TimeoutsExactly(n);
      case LedgerGrows(b) =>
    }
  }

  lemma LocalByDuty(n: NodeState, mined: Option<Hash32>, d: map<(nat, nat), Address>, hd: Headers)
    requires Plausible(n, LocalProposal(mined), hd) && ByDuty(n, d, hd)
    ensures ByDuty(Handle(n, LocalProposal(mined)), d, hd)
  {
    var m := Handle(n, LocalProposal(mined));
    LocalExactly(n, mined);
    if n.phase == Awaiting(n.me) && m.sent != n.sent {
      SentByDuty(n, m, [Ballot(n, Prevote, mined)], mined, d, hd);
    }
  }

  lemma ArrivalByDuty(n: NodeState, p: Proposal, d: map<(nat, nat), Address>, hd: Headers)
    requires Plausible(n, ProposalArrives(p), hd) && ByDuty(n, d, hd)
    ensures ByDuty(Handle(n, ProposalArrives(p)), d, hd)
  {
    var m := Handle(n, ProposalArrives(p));
    if n.phase.Awaiting? && n.phase.proposer != n.me && p.height == n.lastAttempted && p.round == n.currentRound {
      ProposalExactly(n, p);
      if p.headerProposer == n.phase.proposer && Takes(n.ledger, p) {
        SentByDuty(n, m, [Ballot(n, Prevote, Some(p.block))], Some(p.block), d, hd);
      } else {
        SentByDuty(n, m, [Ballot(n, Prevote, None)], None, d, hd);
      }
    }
  }

  lemma {:induction false} RunByDuty(n: NodeState, events: seq<Event>, d: map<(nat, nat), Address>, hd: Headers)
    requires Disciplined(n, hd) && PlausibleRun(n, events, hd) && ByDuty(n, d, hd)
    ensures ByDuty(HandleAll(n, events), d + Duties(n, events), hd)
    decreases |events|
  {
    if events == [] {
      assert d + Duties(n, events) == d;
    } else {
      var e, rest := events[0], events[1..];
      HandleKeeps(n, e, hd);
      StepByDuty(n, e, d, hd);
      RunByDuty(Handle(n, e), rest, d + Duty(n, e), hd);
      MergeThree(d, Duty(n, e), Duties(Handle(n, e), rest));
    }
  }

  lemma MergeThree(a: map<(nat, nat), Address>, b: map<(nat, nat), Address>, c: map<(nat, nat), Address>)
    ensures a + b + c == a + (b + c)
  {
  }

  /** A driver votes only for the proposer on duty: over every run of a new driver, each block that
      it prevotes was made by the proposer that the schedule chose for that height and round. */
  lemma VotesForDuty(me: Address, ledger: seq<Hash32>, vals: ValSet, events: seq<Event>, hd: Headers, v: Vote)
    requires var n := NewNode(me, ledger, vals);
      PlausibleRun(n, events, hd) && v in HandleAll(n, events).sent && v.voteType == Prevote && v.blockHash.Some?
    ensures var d := Duties(NewNode(me, ledger, vals), events);
      (v.height, v.round) in d && d[(v.height, v.round)] == hd.proposerOf(v.blockHash.value)
  {
    var n := NewNode(me, ledger, vals);
    RunByDuty(n, events, map[], hd);
    assert map[] + Duties(n, events) == Duties(n, events);
    assert ForDuty(v, Duties(n, events), hd);
  }

  /** And only their blocks enter its ledger through announcements or its own mining: whenever such
      an event of a run changes the ledger, it appends one block, of the proposer on duty. */
  lemma LedgerForDuty(me: Address, ledger: seq<Hash32>, vals: ValSet, events: seq<Event>, hd: Headers, e: Event)
    requires PlausibleRun(NewNode(me, ledger, vals), events, hd) && !e.LedgerGrows?
    requires Plausible(HandleAll(NewNode(me, ledger, vals), events), e, hd)
    requires var n := HandleAll(NewNode(me, ledger, vals), events); Handle(n, e).ledger != n.ledger
    ensures var n := HandleAll(NewNode(me, ledger, vals), events);
      var d := Duties(NewNode(me, ledger, vals), events);
      exists b: Hash32 ::
        && Handle(n, e).ledger == n.ledger + [b] && (n.lastAttempted, n.currentRound) in d
        && d[(n.lastAttempted, n.currentRound)] == hd.proposerOf(b)
  {
    var s := NewNode(me, ledger, vals);
    var n := HandleAll(s, events);
    RunByDuty(s, events, map[], hd);
    assert map[] + Duties(s, events) == Duties(s, events);
    var b := Appended(n, e, hd);
  }

  /** Only the own turn and an announcement of the awaited proposer append a block. */
  lemma Appended(n: NodeState, e: Event, hd: Headers) returns (b: Hash32)
    requires Possible(n, e, hd) && !e.LedgerGrows? && Handle(n, e).ledger != n.ledger
    ensures Handle(n, e).ledger == n.ledger + [b] && n.phase == Awaiting(hd.proposerOf(b))
  {
    b := ZERO_HASH;
    match e
    case BeginAttempt(active) => if n.phase.Idle? { StartExactly(n, active); }
    case LocalProposal(mined) =>
      LocalExactly(n, mined);
      b := mined.value;
    case ProposalArrives(p) =>
      if n.phase.Awaiting? && n.phase.proposer != n.me && p.height == n.lastAttempted && p.round == n.currentRound {
        ProposalExactly(n, p);
        b := p.block;
      }
    case ProposalTimeout => TimeoutsExactly(n);
    case VoteArrives(v) => VoteExactly(n, v);
    case RoundTimeout => TimeoutsExactly(n);
  }
}
