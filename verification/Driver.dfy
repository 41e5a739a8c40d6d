/** The consensus driver of one validator: attempts, proposals, prevotes, reactive precommits.
    Waiting for a message is an event; a timeout is an event that may happen at any time. */
module Driver {
  import opened Basics
  import opened ValidatorSets
  import opened Engine
  import opened EngineRuns
  import opened ChainTypes

  /** Where the driver is suspended. The height and round of the attempt are
      `lastAttempted` and `currentRound`. */
  datatype Phase = Idle | Awaiting(proposer: Address) | Tallying

  /** Commit signatures written onto a block of the ledger, and the hash they are for. */
  datatype Stamp = Stamp(certified: Hash32, signatures: seq<CommitSignature>)

  /** `ledger` lists the hashes of the node's blocks by height, `stamps` its finalized heights,
      `reported` the equivocations it has handed to the staking keeper. */
  datatype NodeState = NodeState(
    me: Address, ledger: seq<Hash32>, engine: EngineState,
    lastAttempted: nat, currentRound: nat, precommitted: bool,
    phase: Phase, sent: seq<Vote>, stamps: map<nat, Stamp>, reported: seq<(Vote, Vote)>)

  /** A received proposal: the announced height and round, the hash of the block, and the
      header fields that the driver and the ledger look at. `valid` tells whether the ledger
      accepts the block behind its parent: chain id, execution and roots. */
  datatype Proposal = Proposal(
    height: nat, round: nat, block: Hash32,
    headerHeight: nat, headerProposer: Address, headerParent: Hash32, valid: bool)

  datatype Event =
    | BeginAttempt(active: Option<ValSet>)
    | LocalProposal(mined: Option<Hash32>)
    | ProposalArrives(p: Proposal)
    | ProposalTimeout
    | VoteArrives(v: Vote)
    | RoundTimeout
    | LedgerGrows(b: Hash32)

  // ---------------------------------------------------------------------------------
  // Reactions

  function MakeVote(n: NodeState, t: VoteType, c: Option<Hash32>): Vote {
    Vote(t, n.lastAttempted, n.currentRound, c, n.me, [])
  }

  /** The round of the next attempt: one more, as a `u32`, for a retry of the same height, else
      zero. */
  function NextRound(n: NodeState): nat {
    if |n.ledger| == n.lastAttempted then (n.currentRound + 1) % TWO_32 else 0
  }

  /** Start of `run_one_height`, up to the choice of the proposer. */
  function Begin(n: NodeState, active: Option<ValSet>): NodeState {
    var m := n.(lastAttempted := |n.ledger|, currentRound := NextRound(n));
    if active.None? || active.value.validators == [] then m
    else
      var e := SetRound(StartHeight(SetValidators(n.engine, active.value), m.lastAttempted), m.currentRound);
      var (vals, i) := Select(e.vals);
      m.(engine := e.(vals := vals), precommitted := false, phase := Awaiting(vals.validators[i].address))
  }

  /** Broadcast a prevote and feed it to the own engine. */
  ghost function CastPrevote(n: NodeState, c: Option<Hash32>): NodeState {
    var v := MakeVote(n, Prevote, c);
    n.(sent := n.sent + [v], engine := ReceivePrevote(n.engine, v).0)
  }

  ghost function CastNil(n: NodeState): NodeState {
    CastPrevote(n, None).(phase := Idle)
  }

  /** The hash that the precommits held by an engine certify. */
  ghost function Certified(e: EngineState): Hash32 {
    var b := QuorumBlock(e.precommits, e.vals, e.rs.height, e.rs.round);
    if b.Some? then b.value else ZERO_HASH
  }

  /** `finalize_height`: the signatures go onto whatever block the ledger holds at `h`. */
  ghost function Finalize(n: NodeState, h: nat, sigs: seq<CommitSignature>): NodeState {
    if h < |n.ledger| then n.(stamps := n.stamps[h := Stamp(Certified(n.engine), sigs)]) else n
  }

  /** Feeds a precommit to the own engine; the flag says whether the height was finalized. */
  ghost function FeedPrecommit(n: NodeState, v: Vote): (NodeState, bool) {
    var (e, res) := ReceivePrecommit(n.engine, v);
    if res.Some? && res.value.Some? then (Finalize(n.(engine := e), v.height, res.value.value), true)
    else (n.(engine := e), false)
  }

  /** `maybe_cast_reactive_precommit`: the precommit goes to the block with a prevote quorum,
      whichever block this node has prevoted. */
  ghost function MaybePrecommit(n: NodeState): (NodeState, bool) {
    var b := QuorumBlock(n.engine.prevotes, n.engine.vals, n.lastAttempted, n.currentRound);
    if n.precommitted || b.None? then (n, false)
    else
      var v := MakeVote(n, Precommit, b);
      FeedPrecommit(n.(precommitted := true, sent := n.sent + [v]), v)
  }

  function Settle(n: NodeState, finalized: bool): NodeState {
    n.(phase := if finalized then Idle else Tallying)
  }

  /** The prevote for a block and what follows immediately. */
  ghost function PrevoteBlock(n: NodeState, b: Hash32): NodeState {
    var (m, done) := MaybePrecommit(CastPrevote(n, Some(b)));
    Settle(m, done)
  }

  /** `propose_as_local`: mining extends the own ledger before the prevote. */
  ghost function Propose(n: NodeState, mined: Option<Hash32>): NodeState {
    if mined.None? then n.(phase := Idle)
    else
      var (e, ok) := ProposeBlock(n.engine, mined.value, n.me);
      var m := n.(ledger := n.ledger + [mined.value], engine := e);
      if ok then PrevoteBlock(m, mined.value) else m.(phase := Idle)
  }

  /** `apply_block` as the driver sees it: an old height is accepted and ignored. */
  function ApplyProposal(ledger: seq<Hash32>, p: Proposal): Option<seq<Hash32>> {
    if p.headerHeight < |ledger| then Some(ledger)
    else if p.headerHeight == |ledger| && ledger != [] && p.headerParent == ledger[|ledger| - 1] && p.valid
    then Some(ledger + [p.block])
    else None
  }

  /** The end of `await_proposal` for a proposal of the right height and round. */
  ghost function Accept(n: NodeState, p: Proposal, expected: Address): NodeState {
    if p.headerProposer != expected then CastNil(n)
    else
      var applied := ApplyProposal(n.ledger, p);
      if applied.None? then CastNil(n)
      else PrevoteBlock(n.(ledger := applied.value,
                           engine := ProposeBlock(n.engine, p.block, expected).0), p.block)
  }

  /** Evidence against the author of `v`, if the engine holds a conflicting vote. */
  function Report(n: NodeState, v: Vote): NodeState {
    var w := FindConflicting(n.engine, v);
    if w.Some? && IsValidEquivocation(w.value, v) then n.(reported := n.reported + [(w.value, v)]) else n
  }

  /** A prevote that the engine has not seen, and the reaction to it. */
  ghost function FeedPrevote(n: NodeState, v: Vote): (NodeState, bool) {
    var (e, res) := ReceivePrevote(n.engine, v);
    if res == Some(true) then MaybePrecommit(n.(engine := e)) else (n.(engine := e), false)
  }

  /** `handle_inbound_vote` for a vote whose signature verified. */
  ghost function Count(n: NodeState, v: Vote): (NodeState, bool) {
    if !Member(n.engine.vals.validators, v.validator) then (n, false)
    else if v.voteType == Prevote then FeedPrevote(Report(n, v), v)
    else FeedPrecommit(Report(n, v), v)
  }

  ghost function Tell(n: NodeState, v: Vote): NodeState {
    if v.height != n.lastAttempted || v.round != n.currentRound then n
    else var (m, done) := Count(n, v); Settle(m, done)
  }

  /** The reaction to an event; events that the current phase does not wait for change nothing. */
  ghost function Handle(n: NodeState, e: Event): NodeState {
    match e
    case BeginAttempt(active) => if n.phase.Idle? then Begin(n, active) else n
    case LocalProposal(mined) =>
      if n.phase == Awaiting(n.me) then Propose(n, mined) else n
    case ProposalArrives(p) =>
      if n.phase.Awaiting? && n.phase.proposer != n.me
         && p.height == n.lastAttempted && p.round == n.currentRound
      then Accept(n, p, n.phase.proposer) else n
    case ProposalTimeout =>
      if n.phase.Awaiting? && n.phase.proposer != n.me then CastNil(n) else n
    case VoteArrives(v) => if n.phase.Tallying? then Tell(n, v) else n
    case RoundTimeout => if n.phase.Tallying? then n.(phase := Idle) else n
    case LedgerGrows(b) => n.(ledger := n.ledger + [b])
  }

  ghost function HandleAll(n: NodeState, events: seq<Event>): NodeState
    decreases |events|
  {
    if events == [] then n else HandleAll(Handle(n, events[0]), events[1..])
  }

  lemma {:induction false} HandleConcat(n: NodeState, xs: seq<Event>, ys: seq<Event>)
    ensures HandleAll(n, xs + ys) == HandleAll(HandleAll(n, xs), ys)
    decreases |xs|
  {
    if xs == [] {
      assert xs + ys == ys;
    } else {
      HandleConcat(Handle(n, xs[0]), xs[1..], ys);
      assert (xs + ys)[1..] == xs[1..] + ys;
    }
  }

  /** The driver when the node starts. */
  function NewNode(me: Address, ledger: seq<Hash32>, vals: ValSet): NodeState {
    NodeState(me, ledger, EngineState(InitialRound(|ledger|), vals, map[], map[], map[]),
              0, 0, false, Idle, [], map[], [])
  }

  // ---------------------------------------------------------------------------------
  // The driver object

  class ConsensusDriver {
    const me: Address
    const engine: BftConsensusEngine
    var ledger: seq<Hash32>
    var lastAttempted: nat
    var currentRound: nat
    var precommitted: bool
    var phase: Phase
    var sent: seq<Vote>
    var stamps: map<nat, Stamp>
    var reported: seq<(Vote, Vote)>

    ghost function State(): NodeState
      reads this, engine, engine.valSet
    {
      NodeState(me, ledger, engine.State(), lastAttempted, currentRound, precommitted, phase, sent, stamps, reported)
    }

    /** Powers for which the quorum queries have one answer. */
    ghost predicate Sound()
      reads this, engine, engine.valSet
    {
      SoundPowers(engine.valSet.State())
    }

    constructor (me: Address, ledger: seq<Hash32>, vals: ValidatorSet)
      ensures fresh(engine) && engine.valSet == vals
      ensures State() == NewNode(me, ledger, vals.State())
    {
      this.me := me;
      var e := new BftConsensusEngine(|ledger|, vals);
      engine := e;
      this.ledger, lastAttempted, currentRound := ledger, 0, 0;
      precommitted, phase, sent, stamps, reported := false, Idle, [], map[], [];
    }

    /** The beginning of an attempt. `active` is the answer of the staking keeper. */
    method BeginHeight(active: ValidatorSet?)
      requires active != null ==> active != engine.valSet && active.validators != []
      modifies this, engine, active
      ensures active != null ==> engine.valSet == active
      ensures active == null ==> engine.valSet == old(engine.valSet)
      ensures State() == Begin(old(State()), if active == null then None else Some(old(active.State())))
    {
      var nextHeight := |ledger|;
      if nextHeight == lastAttempted {
        currentRound := (currentRound + 1) % TWO_32;
      } else {
        lastAttempted, currentRound := nextHeight, 0;
      }
      if active == null { return; }
      engine.SetValidatorSet(active);
      engine.BeginHeight(nextHeight);
      engine.BeginRound(currentRound);
      precommitted := false;
      var proposer := engine.SelectProposer();
      phase := Awaiting(proposer.address);
    }

    /** `broadcast_and_feed_vote` for a prevote. */
    method CastVote(c: Option<Hash32>)
      modifies this`sent, engine
      ensures engine.valSet == old(engine.valSet) && |sent| == |old(sent)| + 1
      ensures old(Sound()) ==> State() == CastPrevote(old(State()), c)
    {
      var v := Vote(Prevote, lastAttempted, currentRound, c, me, []);
      sent := sent + [v];
      var _ := engine.Prevoted(v);
    }

    method CastNilPrevote()
      modifies this`sent, this`phase, engine
      ensures engine.valSet == old(engine.valSet) && phase.Idle?
      ensures old(Sound()) ==> State() == CastNil(old(State()))
    {
      CastVote(None);
      phase := Idle;
    }

    /** `finalize_height`: nothing compares the certified hash with that of the block. */
    method FinalizeHeight(h: nat, sigs: seq<CommitSignature>)
      modifies this`stamps
      ensures old(Sound()) ==> State() == Finalize(old(State()), h, sigs)
      ensures stamps.Keys == old(stamps).Keys + if h < |ledger| then {h} else {}
    {
      var b := engine.BlockWithQuorum(engine.precommits, engine.rs.height, engine.rs.round);
      if h < |ledger| {
        stamps := stamps[h := Stamp(if b.Some? then b.value else ZERO_HASH, sigs)];
      }
    }

    /** `broadcast_and_feed_vote` for a precommit, and the end of `handle_inbound_vote`. */
    method ReceivePrecommitVote(v: Vote) returns (finalized: bool)
      modifies this`stamps, engine
      ensures engine.valSet == old(engine.valSet)
      ensures old(Sound()) ==> (State(), finalized) == FeedPrecommit(old(State()), v)
    {
      var res := engine.Precommitted(v);
      finalized := res.Some? && res.value.Some?;
      if finalized { FinalizeHeight(v.height, res.value.value); }
    }

    method MaybeCastReactivePrecommit() returns (finalized: bool)
      modifies this`sent, this`precommitted, this`stamps, engine
      ensures engine.valSet == old(engine.valSet)
      ensures old(precommitted) ==> !finalized && sent == old(sent)
      ensures old(Sound()) ==> (State(), finalized) == MaybePrecommit(old(State()))
    {
      if precommitted { return false; }
      var b := engine.BlockWithQuorum(engine.prevotes, lastAttempted, currentRound);
      if b.None? { return false; }
      var v := Vote(Precommit, lastAttempted, currentRound, b, me, []);
      precommitted := true;
      sent := sent + [v];
      finalized := ReceivePrecommitVote(v);
    }

    method CastBlockPrevote(b: Hash32)
      modifies this, engine
      ensures engine.valSet == old(engine.valSet) && !phase.Awaiting?
      ensures old(Sound()) ==> State() == PrevoteBlock(old(State()), b)
    {
      CastVote(Some(b));
      var finalized := MaybeCastReactivePrecommit();
      phase := if finalized then Idle else Tallying;
    }

    /** `propose_as_local`. `mined` is the hash of the block mined on the ledger, if any. */
    method ProposeAsLocal(mined: Option<Hash32>)
      modifies this, engine
      ensures engine.valSet == old(engine.valSet) && !phase.Awaiting?
      ensures old(Sound()) ==> State() == Propose(old(State()), mined)
    {
      if mined.None? { phase := Idle; return; }
      ledger := ledger + [mined.value];
      var ok := engine.Propose(mined.value, me);
      if ok { CastBlockPrevote(mined.value); } else { phase := Idle; }
    }

    /** `await_proposal`: drains announcements of other heights and rounds; running out of
        announcements is the timeout. */
    method AwaitProposal(inbox: seq<Proposal>)
      requires phase.Awaiting? && phase.proposer != me
      modifies this, engine
      ensures engine.valSet == old(engine.valSet) && !phase.Awaiting?
      ensures old(Sound()) ==> State() == AwaitSpec(old(State()), inbox)
    {
      var i := 0;
      while i < |inbox| && !(inbox[i].height == lastAttempted && inbox[i].round == currentRound)
        invariant i <= |inbox|
        invariant AwaitSpec(State(), inbox[i..]) == AwaitSpec(State(), inbox)
        invariant State() == old(State()) && engine.valSet == old(engine.valSet)
      {
        assert inbox[i..][1..] == inbox[i + 1..];
        i := i + 1;
      }
      if i == |inbox| {
        CastNilPrevote();
        return;
      }
      var p, expected := inbox[i], phase.proposer;
      if p.headerProposer != expected {
        CastNilPrevote();
        return;
      }
      var applied := ApplyProposal(ledger, p);
      if applied.None? {
        CastNilPrevote();
        return;
      }
      ledger := applied.value;
      var _ := engine.Propose(p.block, expected);
      CastBlockPrevote(p.block);
    }

    /** `handle_inbound_vote`, after the signature check. */
    method HandleInboundVote(v: Vote) returns (finalized: bool)
      modifies this, engine
      ensures engine.valSet == old(engine.valSet) && phase == old(phase)
      ensures lastAttempted == old(lastAttempted) && currentRound == old(currentRound)
      ensures old(Sound()) ==> (State(), finalized) == Count(old(State()), v)
    {
      if Find(engine.valSet.validators, v.validator) >= |engine.valSet.validators| { return false; }
      var w := engine.FindConflictingVote(v);
      if w.Some? && IsValidEquivocation(w.value, v) { reported := reported + [(w.value, v)]; }
      if v.voteType == Prevote {
        var res := engine.Prevoted(v);
        if res == Some(true) {
          finalized := MaybeCastReactivePrecommit();
        } else {
          finalized := false;
        }
      } else {
        finalized := ReceivePrecommitVote(v);
      }
    }

    /** `process_votes_until_finalized`: running out of votes is the timeout. */
    method ProcessVotesUntilFinalized(inbox: seq<Vote>)
      requires phase.Tallying?
      modifies this, engine
      ensures engine.valSet == old(engine.valSet) && phase.Idle?
      ensures old(Sound()) ==> State() == TallySpec(old(State()), inbox)
    {
      var i := 0;
      while i < |inbox| && phase.Tallying?
        invariant i <= |inbox| && engine.valSet == old(engine.valSet) && Sound() == old(Sound())
        invariant old(Sound()) ==> TallySpec(State(), inbox[i..]) == TallySpec(old(State()), inbox)
        invariant !phase.Awaiting?
      {
        assert inbox[i..][1..] == inbox[i + 1..];
        if inbox[i].height == lastAttempted && inbox[i].round == currentRound {
          var finalized := HandleInboundVote(inbox[i]);
          phase := if finalized then Idle else Tallying;
        }
        i := i + 1;
      }
      phase := Idle;
    }

    /** One attempt at the next height. Its effect on the driver is that of a run of events. */
    method RunOneHeight(active: ValidatorSet?, mined: Option<Hash32>, proposals: seq<Proposal>, votes: seq<Vote>)
      requires phase.Idle?
      requires active != null ==> active != engine.valSet && active.validators != []
      modifies this, engine, active
      ensures phase.Idle?
      ensures (active != null ==> SoundPowers(old(active.State()))) ==>
        State() == HandleAll(old(State()),
          AttemptEvents(if active == null then None else Some(old(active.State())), mined, proposals, votes))
    {
      ghost var n, a := State(), if active == null then None else Some(active.State());
      AttemptIsEvents(n, a, mined, proposals, votes);
      BeginHeight(active);
      if active == null { return; }
      if SoundPowers(a.value) { BeginKeepsSound(n, a.value); }
      if phase.proposer == me {
        ProposeAsLocal(mined);
      } else {
        AwaitLoopIsEvents(State(), proposals);
        AwaitProposal(proposals);
      }
      if phase.Tallying? { ProcessVotesUntilFinalized(votes); }
    }
  }

  lemma BeginKeepsSound(n: NodeState, active: ValSet)
    requires SoundPowers(active)
    ensures SoundPowers(Begin(n, Some(active)).engine.vals)
  {
    RefreshSound(n.engine.vals, active);
    var vals := Refresh(n.engine.vals, active);
    SelectSameMembers(vals);
    SameSound(vals, Select(vals).0);
  }

  /** Waiting for a proposal: the first announcement of the attempt decides. */
  ghost function AwaitSpec(n: NodeState, inbox: seq<Proposal>): NodeState
    requires n.phase.Awaiting?
  {
    if inbox == [] then CastNil(n)
    else if inbox[0].height == n.lastAttempted && inbox[0].round == n.currentRound
    then Accept(n, inbox[0], n.phase.proposer)
    else AwaitSpec(n, inbox[1..])
  }

  /** Tallying: votes are counted until the height is finalized or time is up. */
  ghost function TallySpec(n: NodeState, inbox: seq<Vote>): NodeState
    decreases |inbox|
  {
    if !n.phase.Tallying? then n
    else if inbox == [] then n.(phase := Idle)
    else TallySpec(Tell(n, inbox[0]), inbox[1..])
  }

  // ---------------------------------------------------------------------------------
  // The receive loops are runs of events

  ghost function AwaitEvents(inbox: seq<Proposal>): seq<Event> {
    if inbox == [] then [ProposalTimeout] else [ProposalArrives(inbox[0])] + AwaitEvents(inbox[1..])
  }

  ghost function TallyEvents(inbox: seq<Vote>): seq<Event> {
    if inbox == [] then [RoundTimeout] else [VoteArrives(inbox[0])] + TallyEvents(inbox[1..])
  }

  /** Proposals that arrive when none is awaited have no effect. */
  lemma {:induction false} AwaitEventsIgnored(n: NodeState, inbox: seq<Proposal>)
    requires n.phase.Awaiting? ==> n.phase.proposer == n.me
    ensures HandleAll(n, AwaitEvents(inbox)) == n
  {
    if inbox != [] {
      AwaitEventsIgnored(n, inbox[1..]);
      assert AwaitEvents(inbox)[1..] == AwaitEvents(inbox[1..]);
    }
  }

  lemma {:induction false} AwaitLoopIsEvents(n: NodeState, inbox: seq<Proposal>)
    requires n.phase.Awaiting? && n.phase.proposer != n.me
    ensures HandleAll(n, AwaitEvents(inbox)) == AwaitSpec(n, inbox)
    ensures !AwaitSpec(n, inbox).phase.Awaiting?
  {
    if inbox != [] {
      assert AwaitEvents(inbox)[1..] == AwaitEvents(inbox[1..]);
      if inbox[0].height == n.lastAttempted && inbox[0].round == n.currentRound {
        AwaitEventsIgnored(Accept(n, inbox[0], n.phase.proposer), inbox[1..]);
      } else {
        AwaitLoopIsEvents(n, inbox[1..]);
      }
    }
  }

  lemma {:induction false} TallyLoopIsEvents(n: NodeState, inbox: seq<Vote>)
    requires !n.phase.Awaiting?
    ensures HandleAll(n, TallyEvents(inbox)) == TallySpec(n, inbox)
    decreases |inbox|
  {
    if inbox != [] {
      assert TallyEvents(inbox)[1..] == TallyEvents(inbox[1..]);
      TallyLoopIsEvents(Handle(n, VoteArrives(inbox[0])), inbox[1..]);
    }
  }

  /** The events of one attempt, in order; those of the path not taken are ignored. */
  ghost function AttemptEvents(active: Option<ValSet>, mined: Option<Hash32>,
                               proposals: seq<Proposal>, votes: seq<Vote>): seq<Event> {
    [BeginAttempt(active), LocalProposal(mined)] + AwaitEvents(proposals) + TallyEvents(votes)
  }

  lemma AttemptIsEvents(n: NodeState, active: Option<ValSet>, mined: Option<Hash32>,
                        proposals: seq<Proposal>, votes: seq<Vote>)
    requires n.phase.Idle? && (active.Some? ==> active.value.validators != [])
    ensures HandleAll(n, AttemptEvents(active, mined, proposals, votes)) ==
      var m := Begin(n, active);
      if active.None? then m
      else TallySpec(if m.phase == Awaiting(m.me) then Propose(m, mined) else AwaitSpec(m, proposals), votes)
  {
    var m := Begin(n, active);
    var start := [BeginAttempt(active), LocalProposal(mined)];
    var k := Handle(m, LocalProposal(mined));
    assert HandleAll(n, start) == k by {
      assert HandleAll(n, start) == HandleAll(m, start[1..]);
      assert start[1..] == [LocalProposal(mined)] && start[1..][1..] == [];
      assert HandleAll(m, start[1..]) == HandleAll(k, start[1..][1..]);
    }
    HandleConcat(n, start, AwaitEvents(proposals));
    HandleConcat(n, start + AwaitEvents(proposals), TallyEvents(votes));
    if active.None? || m.phase == Awaiting(m.me) {
      AwaitEventsIgnored(k, proposals);
      TallyLoopIsEvents(k, votes);
    } else {
      AwaitLoopIsEvents(m, proposals);
      TallyLoopIsEvents(AwaitSpec(m, proposals), votes);
    }
  }
}
