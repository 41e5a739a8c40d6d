/** What one honest driver keeps along every run: its attempts advance, it never signs two
    different votes for one height, round and step, and at one height it prevotes at most one
    block that is not already below its ledger. */
module Honesty {
  import opened Basics
  import opened ValidatorSets
  import opened Engine
  import opened EngineRuns
  import opened Driver

  /** What the hash of a block fixes: the height, proposer and parent in its header, and whether
      a ledger at its parent accepts it. */
  datatype Headers = Headers(
    heightOf: Hash32 -> nat, proposerOf: Hash32 -> Address, parentOf: Hash32 -> Hash32, acceptable: Hash32 -> bool)

  /** `b` is an acceptable successor of the tip. */
  predicate Succeeds(hd: Headers, ledger: seq<Hash32>, b: Hash32) {
    && ledger != [] && hd.heightOf(b) == |ledger|
    && hd.parentOf(b) == ledger[|ledger| - 1] && hd.acceptable(b)
  }

  predicate SameSlot(v: Vote, w: Vote) {
    v.voteType == w.voteType && v.height == w.height && v.round == w.round
  }

  /** A prevote for a block that is not older than the height being voted on. */
  predicate FreshPrevote(v: Vote, hd: Headers) {
    v.voteType == Prevote && v.blockHash.Some? && hd.heightOf(v.blockHash.value) >= v.height
  }

  predicate Own(n: NodeState) {
    forall v <- n.sent ::
      && v.validator == n.me
      && (v.height < n.lastAttempted || (v.height == n.lastAttempted && v.round <= n.currentRound))
  }

  predicate Once(sent: seq<Vote>) {
    forall i, j :: 0 <= i < j < |sent| ==> !SameSlot(sent[i], sent[j])
  }

  predicate FreshOnce(sent: seq<Vote>, hd: Headers) {
    forall i, j :: 0 <= i < j < |sent| && FreshPrevote(sent[i], hd) && FreshPrevote(sent[j], hd)
      ==> sent[i].height != sent[j].height
  }

  /** A block is prevoted only once the own ledger has passed its height. */
  predicate Passed(n: NodeState, hd: Headers) {
    forall v <- n.sent :: v.voteType == Prevote && v.blockHash.Some? ==> hd.heightOf(v.blockHash.value) < |n.ledger|
  }

  predicate FreshBefore(n: NodeState, hd: Headers) {
    forall v <- n.sent :: FreshPrevote(v, hd) ==> v.height < n.lastAttempted
  }

  predicate NoneNow(n: NodeState, t: VoteType) {
    forall v <- n.sent :: !SameSlot(v, MakeVote(n, t, None))
  }

  predicate Base(n: NodeState, hd: Headers) {
    && n.lastAttempted <= |n.ledger| && n.currentRound < TWO_32
    && Own(n) && Once(n.sent) && FreshOnce(n.sent, hd) && Passed(n, hd)
  }

  predicate InPhase(n: NodeState, hd: Headers) {
    && (n.phase.Awaiting? ==> NoneNow(n, Prevote) && NoneNow(n, Precommit) && FreshBefore(n, hd))
    && (n.phase.Tallying? && !n.precommitted ==> NoneNow(n, Precommit))
  }

  predicate Disciplined(n: NodeState, hd: Headers) {
    Base(n, hd) && InPhase(n, hd)
  }

  /** The next attempt would reuse round zero of the same height: the `u32` round counter is
      exhausted. */
  predicate Wraps(n: NodeState) {
    |n.ledger| == n.lastAttempted && n.currentRound + 1 >= TWO_32
  }

  /** What the environment guarantees about an event: blocks that the ledger mines or receives
      are acceptable successors of its tip, a mined block names this node, and the header fields
      of a proposal are those of its block. */
  predicate Possible(n: NodeState, e: Event, hd: Headers) {
    match e
    case LocalProposal(Some(b)) => Succeeds(hd, n.ledger, b) && hd.proposerOf(b) == n.me
    case ProposalArrives(p) =>
      && p.headerHeight == hd.heightOf(p.block) && p.headerProposer == hd.proposerOf(p.block)
      && p.headerParent == hd.parentOf(p.block) && (p.valid ==> hd.acceptable(p.block))
    case LedgerGrows(b) => Succeeds(hd, n.ledger, b)
    case _ => true
  }

  /** And no height is attempted 2^32 times. */
  predicate Plausible(n: NodeState, e: Event, hd: Headers) {
    Possible(n, e, hd) && (e.BeginAttempt? && n.phase.Idle? ==> !Wraps(n))
  }

  // ---------------------------------------------------------------------------------
  // Casting votes

  lemma PrevoteKeeps(n: NodeState, c: Option<Hash32>, hd: Headers)
    requires Base(n, hd) && NoneNow(n, Prevote) && NoneNow(n, Precommit) && FreshBefore(n, hd)
    requires c.Some? ==> hd.heightOf(c.value) < |n.ledger|
    ensures Base(CastPrevote(n, c), hd) && NoneNow(CastPrevote(n, c), Precommit)
  {
    var m := CastPrevote(n, c);
    var v := MakeVote(n, Prevote, c);
    assert m.sent == n.sent + [v];
    assert forall i :: 0 <= i < |n.sent| ==> n.sent[i] in n.sent;
    assert forall w :: w in m.sent ==> w in n.sent || w == v;
  }

  lemma PrecommitKeeps(n: NodeState, hd: Headers)
    requires Base(n, hd) && (!n.precommitted ==> NoneNow(n, Precommit))
    ensures var m := MaybePrecommit(n).0;
      Base(m, hd) && (!m.precommitted ==> NoneNow(m, Precommit))
  {
    var m := MaybePrecommit(n).0;
    if m != n {
      var v := MakeVote(n, Precommit, QuorumBlock(n.engine.prevotes, n.engine.vals, n.lastAttempted, n.currentRound));
      FeedPrecommitFrame(n.(precommitted := true, sent := n.sent + [v]), v);
      assert m.sent == n.sent + [v];
      assert forall i :: 0 <= i < |n.sent| ==> n.sent[i] in n.sent;
      assert forall w :: w in m.sent ==> w in n.sent || w == v;
    }
  }

  lemma PrevoteBlockKeeps(n: NodeState, b: Hash32, hd: Headers)
    requires Base(n, hd) && NoneNow(n, Prevote) && NoneNow(n, Precommit) && FreshBefore(n, hd)
    requires hd.heightOf(b) < |n.ledger|
    ensures Disciplined(PrevoteBlock(n, b), hd)
  {
    PrevoteKeeps(n, Some(b), hd);
    PrecommitKeeps(CastPrevote(n, Some(b)), hd);
  }

  lemma NilKeeps(n: NodeState, hd: Headers)
    requires Base(n, hd) && NoneNow(n, Prevote) && NoneNow(n, Precommit) && FreshBefore(n, hd)
    ensures Disciplined(CastNil(n), hd)
  {
    PrevoteKeeps(n, None, hd);
  }

  // ---------------------------------------------------------------------------------
  // Reactions

  /** `m` is at a later attempt than `n`, in lexicographic order of height and round. */
  predicate Later(n: NodeState, m: NodeState) {
    m.lastAttempted > n.lastAttempted || (m.lastAttempted == n.lastAttempted && m.currentRound > n.currentRound)
  }

  /** Only starts change the attempt position (height, round). They move it strictly forward
      exactly as long as the round counter is not exhausted; then the same height starts over at
      round zero. */
  lemma AttemptsAdvance(n: NodeState, e: Event, hd: Headers)
    requires Disciplined(n, hd)
    ensures var m := Handle(n, e);
      if e.BeginAttempt? && n.phase.Idle?
      then (Later(n, m) <==> !Wraps(n)) && (Wraps(n) ==> m.lastAttempted == n.lastAttempted && m.currentRound == 0)
      else m.lastAttempted == n.lastAttempted && m.currentRound == n.currentRound
  {
    if e.BeginAttempt? && n.phase.Idle? { BeginPosition(n, e.active); } else { HandleCarries(n, e); }
  }

  lemma BeginPosition(n: NodeState, active: Option<ValSet>)
    ensures var m := Begin(n, active); m.lastAttempted == |n.ledger| && m.currentRound == NextRound(n)
  {
  }

  /** What all reactions but a start leave alone or only extend. */
  predicate Carries(n: NodeState, m: NodeState) {
    && m.me == n.me && m.lastAttempted == n.lastAttempted && m.currentRound == n.currentRound
    && n.sent <= m.sent && n.ledger <= m.ledger
  }

  lemma MaybePrecommitCarries(n: NodeState)
    ensures Carries(n, MaybePrecommit(n).0) && MaybePrecommit(n).0.ledger == n.ledger
  {
    var v := MakeVote(n, Precommit, QuorumBlock(n.engine.prevotes, n.engine.vals, n.lastAttempted, n.currentRound));
    FeedPrecommitFrame(n.(precommitted := true, sent := n.sent + [v]), v);
  }

  lemma PrevoteBlockCarries(n: NodeState, b: Hash32)
    ensures Carries(n, PrevoteBlock(n, b)) && PrevoteBlock(n, b).ledger == n.ledger
  {
    MaybePrecommitCarries(CastPrevote(n, Some(b)));
  }

  lemma AcceptCarries(n: NodeState, p: Proposal, expected: Address)
    ensures Carries(n, Accept(n, p, expected))
  {
    var applied := ApplyProposal(n.ledger, p);
    if applied.Some? {
      PrevoteBlockCarries(n.(ledger := applied.value, engine := ProposeBlock(n.engine, p.block, expected).0), p.block);
    }
  }

  lemma ProposeCarries(n: NodeState, mined: Option<Hash32>)
    ensures Carries(n, Propose(n, mined))
  {
    if mined.Some? {
      PrevoteBlockCarries(n.(ledger := n.ledger + [mined.value], engine := ProposeBlock(n.engine, mined.value, n.me).0),
                          mined.value);
    }
  }

  lemma CountCarries(n: NodeState, v: Vote)
    ensures Carries(n, Count(n, v).0) && Count(n, v).0.ledger == n.ledger
  {
    var m := Report(n, v);
    MaybePrecommitCarries(m.(engine := ReceivePrevote(m.engine, v).0));
    FeedPrecommitFrame(m, v);
  }

  lemma HandleCarries(n: NodeState, e: Event)
    requires !(e.BeginAttempt? && n.phase.Idle?)
    ensures Carries(n, Handle(n, e))
  {
    match e
    case LocalProposal(mined) => ProposeCarries(n, mined);
    case ProposalArrives(p) => if n.phase.Awaiting? { AcceptCarries(n, p, n.phase.proposer); }
    case VoteArrives(v) => CountCarries(n, v);
    case _ =>
  }

  lemma BeginKeeps(n: NodeState, active: Option<ValSet>, hd: Headers)
    requires Disciplined(n, hd) && n.phase.Idle? && !Wraps(n)
    ensures Disciplined(Begin(n, active), hd)
  {
    var m := Begin(n, active);
    BeginPosition(n, active);
    assert m.sent == n.sent && m.ledger == n.ledger;
  }

  lemma ProposeKeeps(n: NodeState, mined: Option<Hash32>, hd: Headers)
    requires Disciplined(n, hd) && n.phase.Awaiting?
    requires Plausible(n, LocalProposal(mined), hd)
    ensures Disciplined(Propose(n, mined), hd)
  {
    if mined.Some? {
      var m := n.(ledger := n.ledger + [mined.value], engine := ProposeBlock(n.engine, mined.value, n.me).0);
      assert Base(m, hd) && NoneNow(m, Prevote) && NoneNow(m, Precommit) && FreshBefore(m, hd);
      PrevoteBlockKeeps(m, mined.value, hd);
    }
  }

  lemma AcceptKeeps(n: NodeState, p: Proposal, hd: Headers)
    requires Disciplined(n, hd) && n.phase.Awaiting?
    requires p.headerHeight == hd.heightOf(p.block)
    ensures Disciplined(Accept(n, p, n.phase.proposer), hd)
  {
    NilKeeps(n, hd);
    var applied := ApplyProposal(n.ledger, p);
    if applied.Some? {
      var m := n.(ledger := applied.value, engine := ProposeBlock(n.engine, p.block, n.phase.proposer).0);
      assert Base(m, hd) && NoneNow(m, Prevote) && NoneNow(m, Precommit) && FreshBefore(m, hd);
      PrevoteBlockKeeps(m, p.block, hd);
    }
  }

  lemma TellKeeps(n: NodeState, v: Vote, hd: Headers)
    requires Disciplined(n, hd) && n.phase.Tallying?
    ensures Disciplined(Tell(n, v), hd)
  {
    var (m, done) := Count(n, v);
    CountKeeps(n, v, hd);
    assert Base(Settle(m, done), hd);
  }

  lemma CountKeeps(n: NodeState, v: Vote, hd: Headers)
    requires Base(n, hd) && (!n.precommitted ==> NoneNow(n, Precommit))
    ensures var m := Count(n, v).0; Base(m, hd) && (!m.precommitted ==> NoneNow(m, Precommit))
  {
    var m := Report(n, v);
    var k := m.(engine := ReceivePrevote(m.engine, v).0);
    assert Base(m, hd) && Base(k, hd);
    assert !n.precommitted ==> NoneNow(m, Precommit) && NoneNow(k, Precommit);
    PrecommitKeeps(k, hd);
    FeedPrecommitFrame(m, v);
  }

  /** Counting a precommit touches the engine and the stamps only. */
  lemma FeedPrecommitFrame(n: NodeState, v: Vote)
    ensures var m := FeedPrecommit(n, v).0; m == n.(engine := m.engine, stamps := m.stamps)
  {
  }

  /** Every reaction of the driver keeps its discipline. */
  lemma HandleKeeps(n: NodeState, e: Event, hd: Headers)
    requires Disciplined(n, hd) && Plausible(n, e, hd)
    ensures Disciplined(Handle(n, e), hd)
  {
    match e
    case BeginAttempt(active) => if n.phase.Idle? { BeginKeeps(n, active, hd); }
    case LocalProposal(mined) => if n.phase == Awaiting(n.me) { ProposeKeeps(n, mined, hd); }
    case ProposalArrives(p) => if n.phase.Awaiting? { AcceptKeeps(n, p, hd); }
    case ProposalTimeout => if n.phase.Awaiting? { NilKeeps(n, hd); }
    case VoteArrives(v) => if n.phase.Tallying? { TellKeeps(n, v, hd); }
    case RoundTimeout =>
    case LedgerGrows(b) => assert Base(Handle(n, e), hd);
  }

  /** Votes are only ever added. */
  lemma SentGrows(n: NodeState, e: Event)
    ensures n.sent <= Handle(n, e).sent && Handle(n, e).me == n.me
  {
    if !(e.BeginAttempt? && n.phase.Idle?) { HandleCarries(n, e); }
  }

  ghost predicate PlausibleRun(n: NodeState, events: seq<Event>, hd: Headers)
    decreases |events|
  {
    events == [] || (Plausible(n, events[0], hd) && PlausibleRun(Handle(n, events[0]), events[1..], hd))
  }

  lemma {:induction false} RunKeeps(n: NodeState, events: seq<Event>, hd: Headers)
    requires Disciplined(n, hd) && PlausibleRun(n, events, hd)
    ensures Disciplined(HandleAll(n, events), hd)
    decreases |events|
  {
    if events != [] {
      HandleKeeps(n, events[0], hd);
      RunKeeps(Handle(n, events[0]), events[1..], hd);
    }
  }

  /** An honest driver never equivocates: whatever happens around it, no two votes it has sent
      are valid equivocation evidence, and at one height all its prevotes for blocks of that
      height or later are one and the same vote. */
  lemma HonestNeverEquivocates(me: Address, ledger: seq<Hash32>, vals: ValSet, events: seq<Event>,
                               hd: Headers, v: Vote, w: Vote)
    requires var n := NewNode(me, ledger, vals);
      PlausibleRun(n, events, hd)
      && v in HandleAll(n, events).sent && w in HandleAll(n, events).sent
    ensures !IsValidEquivocation(v, w)
    ensures FreshPrevote(v, hd) && FreshPrevote(w, hd) && v.height == w.height ==> v == w
  {
    var n := NewNode(me, ledger, vals);
    RunKeeps(n, events, hd);
    TwoSent(HandleAll(n, events), hd, v, w);
  }

  lemma TwoSent(n: NodeState, hd: Headers, v: Vote, w: Vote)
    requires Disciplined(n, hd) && v in n.sent && w in n.sent
    ensures !IsValidEquivocation(v, w)
    ensures FreshPrevote(v, hd) && FreshPrevote(w, hd) && v.height == w.height ==> v == w
  {
    var i :| 0 <= i < |n.sent| && n.sent[i] == v;
    var j :| 0 <= j < |n.sent| && n.sent[j] == w;
    assert i < j || j < i || v == w;
  }
}
