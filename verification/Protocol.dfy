/** The network of validators: honest drivers exchange votes, every other validator may sign
    anything under its own address, messages are delivered in any order or not at all.
    Main result: agreement on blocks that are not older than the height voted on. */
module Protocol {
  import opened Basics
  import opened Sums
  import opened ValidatorSets
  import opened Engine
  import opened EngineRuns
  import opened ChainTypes
  import opened Driver
  import opened Honesty

  /** `log` holds every vote that was ever signed. A vote whose signature verifies under the
      key of `validator` is in the log: signatures are not forged. */
  datatype Cluster = Cluster(vals: ValSet, nodes: map<Address, NodeState>, log: set<Vote>)

  datatype Action =
    | HonestAction(who: Address, e: Event)
    | ByzantineVote(v: Vote)

  ghost predicate Enabled(c: Cluster, x: Action, hd: Headers) {
    match x
    case ByzantineVote(v) => v.validator !in c.nodes
    case HonestAction(a, e) =>
      && a in c.nodes
      && Plausible(c.nodes[a], e, hd)
      && (e.BeginAttempt? && e.active.Some? ==> SameMembers(c.vals, e.active.value))
      && (e.VoteArrives? ==> e.v in c.log)
  }

  ghost function Act(c: Cluster, x: Action): Cluster {
    match x
    case ByzantineVote(v) => c.(log := c.log + {v})
    case HonestAction(a, e) =>
      if a in c.nodes then
        var n := Handle(c.nodes[a], e);
        c.(nodes := c.nodes[a := n], log := c.log + set v | v in n.sent)
      else c
  }

  ghost function Play(c: Cluster, xs: seq<Action>): Cluster {
    if xs == [] then c else Act(Play(c, xs[..|xs| - 1]), xs[|xs| - 1])
  }

  /** Every action of the run is possible when it is taken. */
  ghost predicate Legal(c: Cluster, xs: seq<Action>, hd: Headers) {
    xs == [] || (Legal(c, xs[..|xs| - 1], hd)
                 && Enabled(Play(c, xs[..|xs| - 1]), xs[|xs| - 1], hd))
  }

  /** A start: sound powers, fresh drivers with any ledgers, nothing signed yet. */
  ghost predicate Initial(c: Cluster) {
    && SoundPowers(c.vals) && c.log == {}
    && forall a <- c.nodes.Keys :: exists ledger: seq<Hash32>, w: ValSet ::
         SameMembers(c.vals, w) && c.nodes[a] == NewNode(a, ledger, w)
  }

  /** Validators without an honest driver hold at most a third of the power. */
  ghost predicate FewByzantine(c: Cluster) {
    forall bad: set<Address> :: bad !! c.nodes.Keys ==> 3 * Power(c.vals.validators, bad) <= c.vals.total
  }

  // ---------------------------------------------------------------------------------
  // Quorums of signed votes

  ghost function Signed(log: set<Vote>, t: VoteType, h: nat, r: nat, b: Hash32): set<Address> {
    set v | v in log && v.voteType == t && v.height == h && v.round == r && v.blockHash == Some(b) :: v.validator
  }

  ghost predicate SignedQuorum(c: Cluster, t: VoteType, h: nat, r: nat, b: Hash32) {
    HasQuorum(c.vals.total, Power(c.vals.validators, Signed(c.log, t, h, r, b)))
  }

  lemma SignedGrows(c: Cluster, d: Cluster, t: VoteType, h: nat, r: nat, b: Hash32)
    requires c.vals == d.vals && c.log <= d.log && SignedQuorum(c, t, h, r, b)
    ensures SignedQuorum(d, t, h, r, b)
  {
    SumMonotone(Signed(c.log, t, h, r, b), Signed(d.log, t, h, r, b), a => PowerOf(c.vals.validators, a));
  }

  /** A quorum in the engine of a node is a quorum of signed votes. */
  lemma EngineQuorumIsSigned(c: Cluster, votes: VoteMap, t: VoteType, vals: ValSet, h: nat, r: nat, b: Hash32)
    requires SameMembers(c.vals, vals) && Keyed(votes, t)
    requires forall k <- votes.Keys :: votes[k] in c.log
    requires Quorum(votes, vals, h, r, Some(b))
    ensures SignedQuorum(c, t, h, r, b)
  {
    SameQuorums(votes, c.vals, vals, h, r, Some(b));
    var who := Voters(votes, c.vals.validators, h, r, Some(b));
    forall a | a in who
      ensures a in Signed(c.log, t, h, r, b)
    {
      var k :| k in votes && k.height == h && k.round == r && votes[k].blockHash == Some(b) && k.validator == a;
      assert votes[k] in c.log;
    }
    SumMonotone(who, Signed(c.log, t, h, r, b), a => PowerOf(c.vals.validators, a));
  }

  // ---------------------------------------------------------------------------------
  // Invariant

  ghost predicate EngineOk(c: Cluster, n: NodeState) {
    && WellFormed(n.engine)
    && SameMembers(c.vals, n.engine.vals)
    && (forall k <- n.engine.prevotes.Keys :: n.engine.prevotes[k] in c.log)
    && (forall k <- n.engine.precommits.Keys :: n.engine.precommits[k] in c.log)
  }

  /** An honest precommit is for a block, and that block has a signed prevote quorum. */
  ghost predicate Justified(c: Cluster, n: NodeState) {
    forall v <- n.sent :: v.voteType == Precommit ==>
      v.blockHash.Some? && SignedQuorum(c, Prevote, v.height, v.round, v.blockHash.value)
  }

  /** Some round of height `h` has a quorum of signed precommits for `b`. */
  ghost predicate CommittedAt(c: Cluster, h: nat, b: Hash32) {
    exists r: nat :: SignedQuorum(c, Precommit, h, r, b)
  }

  /** Stamped heights are in the ledger, and what the signatures certify is committed. */
  ghost predicate StampsOk(c: Cluster, n: NodeState) {
    forall h <- n.stamps.Keys :: h < |n.ledger| && CommittedAt(c, h, n.stamps[h].certified)
  }

  /** Reported evidence consists of signed votes that equivocate. */
  ghost predicate ReportsOk(c: Cluster, n: NodeState) {
    forall e <- n.reported :: e.0 in c.log && e.1 in c.log && IsValidEquivocation(e.0, e.1)
  }

  ghost predicate Recorded(c: Cluster, n: NodeState) {
    StampsOk(c, n) && ReportsOk(c, n)
  }

  ghost predicate NodeOk(c: Cluster, a: Address, n: NodeState, hd: Headers) {
    n.me == a && Disciplined(n, hd) && EngineOk(c, n) && Justified(c, n) && Recorded(c, n)
  }

  ghost predicate Inv(c: Cluster, hd: Headers) {
    && SoundPowers(c.vals)
    && (forall a <- c.nodes.Keys :: NodeOk(c, a, c.nodes[a], hd))
    && (forall v <- c.log :: v.validator in c.nodes ==> v in c.nodes[v.validator].sent)
  }

  lemma RecordedLater(c: Cluster, d: Cluster, n: NodeState)
    requires Recorded(c, n) && d.vals == c.vals && c.log <= d.log
    ensures Recorded(d, n)
  {
    forall h <- n.stamps.Keys ensures CommittedAt(d, h, n.stamps[h].certified) {
      var r: nat :| SignedQuorum(c, Precommit, h, r, n.stamps[h].certified);
      SignedGrows(c, d, Precommit, h, r, n.stamps[h].certified);
    }
  }

  lemma NodeOkLater(c: Cluster, d: Cluster, a: Address, n: NodeState, hd: Headers)
    requires NodeOk(c, a, n, hd) && d.vals == c.vals && c.log <= d.log
    ensures NodeOk(d, a, n, hd)
  {
    RecordedLater(c, d, n);
    forall v | v in n.sent && v.voteType == Precommit
      ensures SignedQuorum(d, Prevote, v.height, v.round, v.blockHash.value)
    {
      SignedGrows(c, d, Prevote, v.height, v.round, v.blockHash.value);
    }
  }

  // ---------------------------------------------------------------------------------
  // Engines hold signed votes, precommits are justified

  /** The part of the invariant about the node's engine, precommits and records, against a log
      that contains all it has sent. */
  ghost predicate Backed(c: Cluster, n: NodeState) {
    EngineOk(c, n) && Justified(c, n) && Recorded(c, n) && forall v <- n.sent :: v in c.log
  }

  /** The cluster once everything `n` has sent is in the log. */
  ghost function Publish(c: Cluster, n: NodeState): Cluster {
    c.(log := c.log + set v | v in n.sent)
  }

  lemma BackedLater(c: Cluster, d: Cluster, n: NodeState)
    requires EngineOk(c, n) && Justified(c, n) && Recorded(c, n) && d.vals == c.vals && c.log <= d.log
    requires forall v <- n.sent :: v in d.log
    ensures Backed(d, n)
  {
    RecordedLater(c, d, n);
    forall v | v in n.sent && v.voteType == Precommit
      ensures SignedQuorum(d, Prevote, v.height, v.round, v.blockHash.value)
    {
      SignedGrows(c, d, Prevote, v.height, v.round, v.blockHash.value);
    }
  }

  lemma FeedKeeps(c: Cluster, n: NodeState, v: Vote)
    requires Backed(c, n) && v in c.log
    ensures Backed(c, n.(engine := ReceivePrevote(n.engine, v).0))
    ensures Backed(c, n.(engine := ReceivePrecommit(n.engine, v).0))
  {
    StoresOnly(n.engine, v);
    StepWellFormed(n.engine, CallPrevote(v));
    StepWellFormed(n.engine, CallPrecommit(v));
    EngineChange(c, n, v, ReceivePrevote(n.engine, v).0);
    EngineChange(c, n, v, ReceivePrecommit(n.engine, v).0);
  }

  lemma EngineChange(c: Cluster, n: NodeState, v: Vote, e: EngineState)
    requires Backed(c, n) && v in c.log && WellFormed(e) && e.vals == n.engine.vals
    requires e.prevotes in {n.engine.prevotes, KeepFirst(n.engine.prevotes, v)}
    requires e.precommits in {n.engine.precommits, KeepFirst(n.engine.precommits, v)}
    ensures Backed(c, n.(engine := e))
  {
    assert EngineOk(c, n.(engine := e));
  }

  /** Receiving a vote changes no validator and stores at most that vote. */
  lemma StoresOnly(s: EngineState, v: Vote)
    ensures var e := ReceivePrevote(s, v).0;
      e.vals == s.vals && e.precommits == s.precommits && e.prevotes in {s.prevotes, KeepFirst(s.prevotes, v)}
    ensures var f := ReceivePrecommit(s, v).0;
      f.vals == s.vals && f.prevotes == s.prevotes && f.precommits in {s.precommits, KeepFirst(s.precommits, v)}
  {
  }

  lemma FeedPrecommitBacked(c: Cluster, n: NodeState, v: Vote)
    requires Backed(c, n) && v in c.log
    ensures Backed(c, FeedPrecommit(n, v).0)
  {
    var (e, res) := ReceivePrecommit(n.engine, v);
    FeedKeeps(c, n, v);
    if res.Some? && res.value.Some? {
      var d := Certified(e);
      EngineQuorumIsSigned(c, e.precommits, Precommit, e.vals, e.rs.height, e.rs.round, d);
      assert CommittedAt(c, v.height, d);
      FinalizeBacked(c, n.(engine := e), v.height, res.value.value);
    }
  }

  lemma FinalizeBacked(c: Cluster, n: NodeState, h: nat, sigs: seq<CommitSignature>)
    requires Backed(c, n) && CommittedAt(c, h, Certified(n.engine))
    ensures Backed(c, Finalize(n, h, sigs))
  {
    var m := Finalize(n, h, sigs);
    assert StampsOk(c, m);
    assert EngineOk(c, m) && Justified(c, m) && ReportsOk(c, m);
  }

  lemma ReportBacked(c: Cluster, n: NodeState, v: Vote)
    requires Backed(c, n) && v in c.log
    ensures Backed(c, Report(n, v))
  {
    var m := Report(n, v);
    var w := FindConflicting(n.engine, v);
    if w.Some? {
      assert w.value in c.log;
      assert forall e <- m.reported :: e in n.reported || e == (w.value, v);
    }
    assert EngineOk(c, m) && Justified(c, m) && StampsOk(c, m);
  }

  lemma CastPrevoteBacked(c: Cluster, n: NodeState, choice: Option<Hash32>)
    requires Backed(c, n)
    ensures var m := CastPrevote(n, choice); Backed(Publish(c, m), m)
  {
    var v := MakeVote(n, Prevote, choice);
    var m := n.(sent := n.sent + [v]);
    var d := Publish(c, m);
    assert Publish(c, CastPrevote(n, choice)) == d;
    BackedLater(c, d, n);
    assert Backed(d, m);
    FeedKeeps(d, m, v);
  }

  lemma MaybePrecommitBacked(c: Cluster, n: NodeState)
    requires Backed(c, n)
    ensures var m := MaybePrecommit(n).0; Backed(Publish(c, m), m)
  {
    var b := QuorumBlock(n.engine.prevotes, n.engine.vals, n.lastAttempted, n.currentRound);
    var m := MaybePrecommit(n).0;
    if n.precommitted || b.None? {
      assert m == n;
      BackedLater(c, Publish(c, n), n);
    } else {
      EngineQuorumIsSigned(c, n.engine.prevotes, Prevote, n.engine.vals, n.lastAttempted, n.currentRound, b.value);
      var v := MakeVote(n, Precommit, b);
      var k := n.(sent := n.sent + [v], precommitted := true);
      var d := Publish(c, k);
      BackedLater(c, d, n);
      SignedGrows(c, d, Prevote, n.lastAttempted, n.currentRound, b.value);
      assert Backed(d, k);
      FeedPrecommitBacked(d, k, v);
      FeedPrecommitFrame(k, v);
      assert Publish(c, m) == d;
    }
  }

  lemma PublishTwice(c: Cluster, n: NodeState, m: NodeState)
    requires n.sent <= m.sent
    ensures Publish(Publish(c, n), m) == Publish(c, m)
  {
    assert forall v :: v in n.sent ==> v in m.sent;
  }

  lemma PrevoteBlockBacked(c: Cluster, n: NodeState, b: Hash32)
    requires Backed(c, n)
    ensures var m := PrevoteBlock(n, b); Backed(Publish(c, m), m)
  {
    var k := CastPrevote(n, Some(b));
    CastPrevoteBacked(c, n, Some(b));
    MaybePrecommitBacked(Publish(c, k), k);
    var m := MaybePrecommit(k).0;
    MaybePrecommitCarries(k);
    PublishTwice(c, k, m);
    assert Publish(c, PrevoteBlock(n, b)) == Publish(c, m);
  }

  lemma ProposalBacked(c: Cluster, n: NodeState, ledger: seq<Hash32>, b: Hash32, proposer: Address)
    requires Backed(c, n) && n.ledger <= ledger
    ensures Backed(c, n.(ledger := ledger, engine := ProposeBlock(n.engine, b, proposer).0))
  {
    var m := n.(ledger := ledger, engine := ProposeBlock(n.engine, b, proposer).0);
    assert StampsOk(c, m);
  }

  lemma BeginBacked(c: Cluster, n: NodeState, active: Option<ValSet>)
    requires Backed(c, n) && (active.Some? ==> SameMembers(c.vals, active.value))
    ensures Backed(c, Begin(n, active))
  {
    if active.Some? && active.value.validators != [] {
      SelectSameMembers(Refresh(n.engine.vals, active.value));
    }
  }

  lemma CountBacked(c: Cluster, n: NodeState, v: Vote)
    requires Backed(c, n) && v in c.log
    ensures var m := Count(n, v).0; Backed(Publish(c, m), m)
  {
    var k := Report(n, v);
    ReportBacked(c, n, v);
    FeedKeeps(c, k, v);
    FeedPrecommitBacked(c, k, v);
    FeedPrecommitFrame(k, v);
    var e := k.(engine := ReceivePrevote(k.engine, v).0);
    MaybePrecommitBacked(c, e);
    SameLog(c, n);
  }

  lemma SameLog(c: Cluster, n: NodeState)
    requires forall v <- n.sent :: v in c.log
    ensures Publish(c, n) == c
  {
    assert c.log + (set v | v in n.sent) == c.log;
  }

  lemma LocalProposalBacked(c: Cluster, n: NodeState, mined: Option<Hash32>)
    requires Backed(c, n) && n.phase == Awaiting(n.me)
    ensures var m := Propose(n, mined); Backed(Publish(c, m), m)
  {
    if mined.None? {
      IdleBacked(c, n);
    } else {
      ProposalBacked(c, n, n.ledger + [mined.value], mined.value, n.me);
      var mining := n.(ledger := n.ledger + [mined.value], engine := ProposeBlock(n.engine, mined.value, n.me).0);
      PrevoteBlockBacked(c, mining, mined.value);
      IdleBacked(c, mining);
    }
  }

  lemma IdleBacked(c: Cluster, n: NodeState)
    requires Backed(c, n)
    ensures var m := n.(phase := Idle); Backed(Publish(c, m), m)
  {
    var m := n.(phase := Idle);
    BackedLater(c, Publish(c, m), m);
  }

  lemma AcceptBacked(c: Cluster, n: NodeState, p: Proposal, expected: Address)
    requires Backed(c, n)
    ensures var m := Accept(n, p, expected); Backed(Publish(c, m), m)
  {
    CastPrevoteBacked(c, n, None);
    if ApplyProposal(n.ledger, p).Some? {
      var ledger := ApplyProposal(n.ledger, p).value;
      ProposalBacked(c, n, ledger, p.block, expected);
      PrevoteBlockBacked(c, n.(ledger := ledger, engine := ProposeBlock(n.engine, p.block, expected).0), p.block);
    }
  }

  lemma HandleBacked(c: Cluster, n: NodeState, e: Event)
    requires Backed(c, n)
    requires e.BeginAttempt? && e.active.Some? ==> SameMembers(c.vals, e.active.value)
    requires e.VoteArrives? ==> e.v in c.log
    ensures var m := Handle(n, e); Backed(Publish(c, m), m)
  {
    var m := Handle(n, e);
    match e
    case BeginAttempt(active) =>
      BeginBacked(c, n, active);
      BackedLater(c, Publish(c, m), m);
    case LocalProposal(mined) =>
      if n.phase == Awaiting(n.me) { LocalProposalBacked(c, n, mined); } else { BackedLater(c, Publish(c, m), m); }
    case ProposalArrives(p) =>
      if n.phase.Awaiting? { AcceptBacked(c, n, p, n.phase.proposer); }
      if m == n { BackedLater(c, Publish(c, m), m); }
    case ProposalTimeout =>
      CastPrevoteBacked(c, n, None);
      if m == n { BackedLater(c, Publish(c, m), m); }
    case VoteArrives(v) =>
      CountBacked(c, n, v);
      if m == n { BackedLater(c, Publish(c, m), m); }
    case RoundTimeout => BackedLater(c, Publish(c, m), m);
    case LedgerGrows(b) =>
      assert StampsOk(c, m);
      BackedLater(c, Publish(c, m), m);
  }

  // ---------------------------------------------------------------------------------
  // Runs

  lemma InitialInv(c: Cluster, hd: Headers)
    requires Initial(c)
    ensures Inv(c, hd)
  {
  }

  lemma OwnVotesBacked(c: Cluster, a: Address, hd: Headers)
    requires Inv(c, hd) && a in c.nodes && forall v <- c.nodes[a].sent :: v in c.log
    ensures Backed(c, c.nodes[a])
  {
    assert NodeOk(c, a, c.nodes[a], hd);
  }

  /** All that honest drivers have sent is in the log. */
  ghost predicate Published(c: Cluster) {
    forall a <- c.nodes.Keys :: forall v <- c.nodes[a].sent :: v in c.log
  }

  lemma ActKeeps(c: Cluster, x: Action, hd: Headers)
    requires Inv(c, hd) && Published(c) && Enabled(c, x, hd)
    ensures Inv(Act(c, x), hd) && Published(Act(c, x))
  {
    var d := Act(c, x);
    forall a | a in c.nodes
      ensures NodeOk(d, a, c.nodes[a], hd)
    {
      NodeOkLater(c, d, a, c.nodes[a], hd);
    }
    if x.HonestAction? {
      var n, m := c.nodes[x.who], Handle(c.nodes[x.who], x.e);
      HonestStepOk(c, x.who, x.e, hd);
      assert d == Publish(c, m).(nodes := c.nodes[x.who := m]);
      NodeOkLater(Publish(c, m), d, x.who, m, hd);
      OwnVotes(d, m, x.who, hd);
    }
  }

  lemma HonestStepOk(c: Cluster, a: Address, e: Event, hd: Headers)
    requires Inv(c, hd) && Published(c) && Enabled(c, HonestAction(a, e), hd)
    ensures var n, m := c.nodes[a], Handle(c.nodes[a], e);
      NodeOk(Publish(c, m), a, m, hd) && forall v <- n.sent :: v in m.sent
  {
    var n := c.nodes[a];
    OwnVotesBacked(c, a, hd);
    HandleBacked(c, n, e);
    HandleKeeps(n, e, hd);
    SentGrows(n, e);
  }

  lemma OwnVotes(c: Cluster, n: NodeState, a: Address, hd: Headers)
    requires NodeOk(c, a, n, hd)
    ensures forall v <- n.sent :: v.validator == a
  {
  }

  /** The invariant holds in every reachable cluster. */
  lemma {:induction false} ReachableInv(c: Cluster, xs: seq<Action>, hd: Headers)
    requires Initial(c) && Legal(c, xs, hd)
    ensures Inv(Play(c, xs), hd) && Published(Play(c, xs))
    ensures Play(c, xs).vals == c.vals && Play(c, xs).nodes.Keys == c.nodes.Keys
  {
    if xs == [] {
      InitialInv(c, hd);
    } else {
      ReachableInv(c, xs[..|xs| - 1], hd);
      ActKeeps(Play(c, xs[..|xs| - 1]), xs[|xs| - 1], hd);
    }
  }

  // ---------------------------------------------------------------------------------
  // Agreement

  lemma FreshQuorumsAgree(c: Cluster, hd: Headers, h: nat, r: nat, q: nat, b: Hash32, d: Hash32)
    requires Inv(c, hd) && FewByzantine(c)
    requires hd.heightOf(b) >= h && hd.heightOf(d) >= h
    requires SignedQuorum(c, Prevote, h, r, b) && SignedQuorum(c, Prevote, h, q, d)
    ensures b == d
  {
    var s, t := Signed(c.log, Prevote, h, r, b), Signed(c.log, Prevote, h, q, d);
    var bad := (s + t) - c.nodes.Keys;
    var a := QuorumsShareHonest(c.vals, s, t, bad);
    var v :| v in c.log && v.voteType == Prevote && v.height == h && v.round == r
             && v.blockHash == Some(b) && v.validator == a;
    var w :| w in c.log && w.voteType == Prevote && w.height == h && w.round == q
             && w.blockHash == Some(d) && w.validator == a;
    assert NodeOk(c, a, c.nodes[a], hd);
    TwoSent(c.nodes[a], hd, v, w);
  }

  /** Agreement across rounds. With at most a third of the power Byzantine, in no reachable
      cluster do two distinct blocks gather prevote quorums at one height, in whatever rounds,
      provided neither block is older than that height. */
  lemma Agreement(c: Cluster, xs: seq<Action>, hd: Headers,
                  h: nat, r: nat, q: nat, b: Hash32, d: Hash32)
    requires Initial(c) && FewByzantine(c) && Legal(c, xs, hd)
    requires hd.heightOf(b) >= h && hd.heightOf(d) >= h
    requires SignedQuorum(Play(c, xs), Prevote, h, r, b) && SignedQuorum(Play(c, xs), Prevote, h, q, d)
    ensures b == d
  {
    ReachableInv(c, xs, hd);
    assert FewByzantine(Play(c, xs));
    FreshQuorumsAgree(Play(c, xs), hd, h, r, q, b, d);
  }

  /** A precommit quorum rests on a prevote quorum for the same block in the same round. */
  lemma CommitNeedsPrevotes(c: Cluster, xs: seq<Action>, hd: Headers, h: nat, r: nat, b: Hash32)
    requires Initial(c) && FewByzantine(c) && Legal(c, xs, hd)
    requires SignedQuorum(Play(c, xs), Precommit, h, r, b)
    ensures SignedQuorum(Play(c, xs), Prevote, h, r, b)
  {
    ReachableInv(c, xs, hd);
    var p := Play(c, xs);
    var s := Signed(p.log, Precommit, h, r, b);
    var a := QuorumHasHonest(p.vals, s, s - p.nodes.Keys);
    var v :| v in p.log && v.voteType == Precommit && v.height == h && v.round == r
             && v.blockHash == Some(b) && v.validator == a;
    assert NodeOk(p, a, p.nodes[a], hd);
  }

  /** Two blocks committed at one height, each not older than that height, are equal. */
  lemma CommitAgreement(c: Cluster, xs: seq<Action>, hd: Headers,
                        h: nat, r: nat, q: nat, b: Hash32, d: Hash32)
    requires Initial(c) && FewByzantine(c) && Legal(c, xs, hd)
    requires hd.heightOf(b) >= h && hd.heightOf(d) >= h
    requires SignedQuorum(Play(c, xs), Precommit, h, r, b) && SignedQuorum(Play(c, xs), Precommit, h, q, d)
    ensures b == d
  {
    CommitNeedsPrevotes(c, xs, hd, h, r, b);
    CommitNeedsPrevotes(c, xs, hd, h, q, d);
    Agreement(c, xs, hd, h, r, q, b, d);
  }

  // ---------------------------------------------------------------------------------
  // Finalized blocks

  /** A chain of acceptable blocks from genesis. */
  predicate LedgerOk(hd: Headers, ledger: seq<Hash32>) {
    && ledger != []
    && (forall i :: 0 <= i < |ledger| ==> hd.heightOf(ledger[i]) == i)
    && (forall i :: 0 < i < |ledger| ==> hd.parentOf(ledger[i]) == ledger[i - 1] && hd.acceptable(ledger[i]))
  }

  ghost predicate Rooted(c: Cluster, hd: Headers) {
    forall a <- c.nodes.Keys :: LedgerOk(hd, c.nodes[a].ledger)
  }

  lemma GrownLedgerOk(hd: Headers, ledger: seq<Hash32>, b: Hash32)
    requires LedgerOk(hd, ledger) && Succeeds(hd, ledger, b)
    ensures LedgerOk(hd, ledger + [b])
  {
  }

  lemma HandleLedgerOk(n: NodeState, e: Event, hd: Headers)
    requires LedgerOk(hd, n.ledger) && Plausible(n, e, hd)
    ensures LedgerOk(hd, Handle(n, e).ledger)
  {
    match e
    case BeginAttempt(_) =>
    case LocalProposal(mined) =>
      if mined.Some? {
        GrownLedgerOk(hd, n.ledger, mined.value);
        PrevoteBlockCarries(
          n.(ledger := n.ledger + [mined.value], engine := ProposeBlock(n.engine, mined.value, n.me).0),
          mined.value);
      }
    case ProposalArrives(p) =>
      var applied := ApplyProposal(n.ledger, p);
      if n.phase.Awaiting? && applied.Some? {
        if applied.value != n.ledger { GrownLedgerOk(hd, n.ledger, p.block); }
        PrevoteBlockCarries(n.(ledger := applied.value, engine := ProposeBlock(n.engine, p.block, n.phase.proposer).0),
                            p.block);
      }
    case ProposalTimeout =>
    case VoteArrives(v) => CountCarries(n, v);
    case RoundTimeout =>
    case LedgerGrows(b) => GrownLedgerOk(hd, n.ledger, b);
  }

  /** The ledgers of honest nodes stay linked chains of acceptable blocks. */
  lemma {:induction false} ReachableLedgers(c: Cluster, xs: seq<Action>, hd: Headers)
    requires Rooted(c, hd) && Legal(c, xs, hd)
    ensures Rooted(Play(c, xs), hd)
  {
    if xs != [] {
      var p, x := Play(c, xs[..|xs| - 1]), xs[|xs| - 1];
      ReachableLedgers(c, xs[..|xs| - 1], hd);
      if x.HonestAction? { HandleLedgerOk(p.nodes[x.who], x.e, hd); }
    }
  }

  /** Node `a` has written commit signatures onto its block at height `h`. */
  ghost predicate Finalized(c: Cluster, a: Address, h: nat) {
    a in c.nodes && h in c.nodes[a].stamps && h < |c.nodes[a].ledger|
  }

  /** The block `a` has finalized at `h`, and the one the signatures on it are for. */
  ghost function FinalBlock(c: Cluster, a: Address, h: nat): Hash32
    requires Finalized(c, a, h)
  {
    c.nodes[a].ledger[h]
  }

  ghost function FinalHash(c: Cluster, a: Address, h: nat): Hash32
    requires Finalized(c, a, h)
  {
    c.nodes[a].stamps[h].certified
  }

  /** The hash that a node's signatures are for is committed by a quorum of signed precommits;
      the block they are written on is in its ledger at that height. */
  lemma StampIsCommitted(c: Cluster, xs: seq<Action>, hd: Headers, a: Address, h: nat)
    requires Initial(c) && Legal(c, xs, hd)
    requires a in Play(c, xs).nodes && h in Play(c, xs).nodes[a].stamps
    ensures Finalized(Play(c, xs), a, h) && CommittedAt(Play(c, xs), h, FinalHash(Play(c, xs), a, h))
  {
    ReachableInv(c, xs, hd);
    assert NodeOk(Play(c, xs), a, Play(c, xs).nodes[a], hd);
  }

  /** When the certified block is not outdated, the block an honest node has finalized is
      committed if and only if it is the certified one. */
  lemma FinalizedIsCommittedExactly(c: Cluster, xs: seq<Action>, hd: Headers, a: Address, h: nat)
    requires Initial(c) && Rooted(c, hd) && FewByzantine(c) && Legal(c, xs, hd)
    requires Finalized(Play(c, xs), a, h) && hd.heightOf(FinalHash(Play(c, xs), a, h)) >= h
    ensures var p := Play(c, xs);
      CommittedAt(p, h, FinalBlock(p, a, h)) <==> FinalBlock(p, a, h) == FinalHash(p, a, h)
  {
    var p := Play(c, xs);
    var b, d := FinalBlock(p, a, h), FinalHash(p, a, h);
    StampIsCommitted(c, xs, hd, a, h);
    ReachableLedgers(c, xs, hd);
    if CommittedAt(p, h, b) {
      var r: nat :| SignedQuorum(p, Precommit, h, r, b);
      var q: nat :| SignedQuorum(p, Precommit, h, q, d);
      CommitAgreement(c, xs, hd, h, r, q, b, d);
    }
  }

  /** Agreement on finalized blocks: of two honest nodes that have finalized height `h`, if one
      holds the block its signatures are for, then the other holds the same block if and only if
      it holds the block its own signatures are for. */
  lemma FinalizedAgreement(c: Cluster, xs: seq<Action>, hd: Headers, a: Address, b: Address, h: nat)
    requires Initial(c) && Rooted(c, hd) && FewByzantine(c) && Legal(c, xs, hd)
    requires Finalized(Play(c, xs), a, h) && Finalized(Play(c, xs), b, h)
    requires FinalBlock(Play(c, xs), a, h) == FinalHash(Play(c, xs), a, h)
    requires hd.heightOf(FinalHash(Play(c, xs), b, h)) >= h
    ensures var p := Play(c, xs);
      FinalBlock(p, a, h) == FinalBlock(p, b, h) <==> FinalBlock(p, b, h) == FinalHash(p, b, h)
  {
    var p := Play(c, xs);
    StampIsCommitted(c, xs, hd, a, h);
    StampIsCommitted(c, xs, hd, b, h);
    ReachableLedgers(c, xs, hd);
    var r: nat :| SignedQuorum(p, Precommit, h, r, FinalHash(p, a, h));
    var q: nat :| SignedQuorum(p, Precommit, h, q, FinalHash(p, b, h));
    CommitAgreement(c, xs, hd, h, r, q, FinalHash(p, a, h), FinalHash(p, b, h));
  }

  /** Evidence that an honest node reports is a valid equivocation and never names a validator
      with an honest driver. */
  lemma EvidenceNamesByzantine(c: Cluster, xs: seq<Action>, hd: Headers, a: Address, e: (Vote, Vote))
    requires Initial(c) && Legal(c, xs, hd)
    requires a in Play(c, xs).nodes && e in Play(c, xs).nodes[a].reported
    ensures IsValidEquivocation(e.0, e.1) && e.1.validator !in c.nodes
  {
    ReachableInv(c, xs, hd);
    var p := Play(c, xs);
    assert NodeOk(p, a, p.nodes[a], hd);
    if e.1.validator in c.nodes {
      assert NodeOk(p, e.1.validator, p.nodes[e.1.validator], hd);
      TwoSent(p.nodes[e.1.validator], hd, e.0, e.1);
    }
  }

  /** And none is missed: a counted vote that equivocates with a vote the node holds is reported. */
  lemma EquivocationReported(n: NodeState, v: Vote, w: Vote)
    requires Keyed(n.engine.prevotes, Prevote) && Keyed(n.engine.precommits, Precommit)
    requires w in n.engine.prevotes.Values + n.engine.precommits.Values && IsValidEquivocation(w, v)
    requires Member(n.engine.vals.validators, v.validator)
    ensures (w, v) in Count(n, v).0.reported
  {
    assert KeyOf(w) == KeyOf(v);
    var m := Report(n, v);
    assert (w, v) in m.reported;
    CountKeepsReports(m, v);
  }

  lemma CountKeepsReports(m: NodeState, v: Vote)
    ensures FeedPrevote(m, v).0.reported == m.reported && FeedPrecommit(m, v).0.reported == m.reported
  {
    FeedPrecommitFrame(m, v);
    var k := m.(engine := ReceivePrevote(m.engine, v).0);
    var b := QuorumBlock(k.engine.prevotes, k.engine.vals, k.lastAttempted, k.currentRound);
    var own := MakeVote(k, Precommit, b);
    FeedPrecommitFrame(k.(precommitted := true, sent := k.sent + [own]), own);
  }
}
