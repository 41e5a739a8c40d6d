/** Four validators of equal power, one of them Byzantine: what single events do to a driver that
    counts votes, and how the events of one driver become a run of the cluster. */
module FourNodes {
  import opened Basics
  import opened Sums
  import opened ChainTypes
  import opened ValidatorSets
  import opened Engine
  import opened EngineRuns
  import opened Driver
  import opened Honesty
  import opened Protocol

  /** The addresses in ascending order; `a` is Byzantine. */
  datatype Seats = Seats(a: Address, b: Address, x: Address, y: Address)

  predicate Ordered(s: Seats) {
    s.a < s.b < s.x < s.y
  }

  function All(s: Seats): set<Address> {
    {s.a, s.b, s.x, s.y}
  }

  /** The set with the given priorities of `a`, of `b`, and of both `x` and `y`. */
  function Four(s: Seats, p: int, q: int, r: int): ValSet {
    ValSet([Validator(s.a, 1, p), Validator(s.b, 1, q), Validator(s.x, 1, r), Validator(s.y, 1, r)], 4)
  }

  function Plain(s: Seats): ValSet {
    Four(s, 0, 0, 0)
  }

  lemma UniqueMax(vs: seq<Validator>, m: nat)
    requires IsLastMax(vs, m)
    ensures LastMax(vs) == m
  {
    var k := LastMax(vs);
    assert vs[k].proposerPriority <= vs[m].proposerPriority <= vs[k].proposerPriority;
  }

  lemma SelectFirst(s: Seats, p: int, q: int, r: int)
    requires -100 < q < p < 100 && -100 < r < p
    ensures Select(Four(s, p, q, r)) == (Four(s, p - 3, q + 1, r + 1), 0)
  {
    var vs := Bumped(Four(s, p, q, r).validators);
    assert vs == Four(s, p + 1, q + 1, r + 1).validators;
    assert vs[0].proposerPriority == p + 1 && vs[1].proposerPriority == q + 1;
    UniqueMax(vs, 0);
    assert Select(Four(s, p, q, r)).0.validators == Four(s, p - 3, q + 1, r + 1).validators;
  }

  lemma SelectSecond(s: Seats, p: int, q: int, r: int)
    requires -100 < p < q < 100 && -100 < r < q
    ensures Select(Four(s, p, q, r)) == (Four(s, p + 1, q - 3, r + 1), 1)
  {
    var vs := Bumped(Four(s, p, q, r).validators);
    assert vs == Four(s, p + 1, q + 1, r + 1).validators;
    assert vs[0].proposerPriority == p + 1 && vs[1].proposerPriority == q + 1;
    UniqueMax(vs, 1);
    assert Select(Four(s, p, q, r)).0.validators == Four(s, p + 1, q - 3, r + 1).validators;
  }

  lemma FindSeat(s: Seats, z: Address)
    requires Ordered(s)
    ensures Find(Plain(s).validators, z)
      == if z == s.a then 0 else if z == s.b then 1 else if z == s.x then 2 else if z == s.y then 3 else 4
  {
    var vs := Plain(s).validators;
    assert vs[0].address == s.a && vs[1].address == s.b && vs[2].address == s.x && vs[3].address == s.y;
    assert Find(vs, z) <= 4;
  }

  lemma PlainTotal(s: Seats)
    ensures TotalPower(Plain(s).validators) == 4
  {
    var vs := Plain(s).validators;
    var one, two, three := vs[..1], vs[..2], vs[..3];
    assert TotalPower(one) == 1 by { assert one[..0] == []; }
    assert TotalPower(two) == 2 by { assert two[..1] == one; }
    assert TotalPower(three) == 3 by { assert three[..2] == two; }
  }

  lemma Members(s: Seats, v: ValSet)
    requires Ordered(s) && SameMembers(Plain(s), v)
    ensures SoundPowers(v) && DistinctAddresses(v.validators)
    ensures forall z: Address :: Member(v.validators, z) <==> z in All(s)
    ensures forall z: Address :: PowerOf(v.validators, z) == if z in All(s) then 1 else 0
  {
    forall z: Address
      ensures Member(v.validators, z) <==> z in All(s)
      ensures PowerOf(v.validators, z) == if z in All(s) then 1 else 0
    {
      FindSeat(s, z);
      SameFind(Plain(s).validators, v.validators, z);
    }
    PlainTotal(s);
    TotalPowerSame(Plain(s).validators, v.validators);
  }

  lemma {:induction false} CountPower(s: Seats, v: ValSet, who: set<Address>)
    requires Ordered(s) && SameMembers(Plain(s), v) && who <= All(s)
    ensures Power(v.validators, who) == |who|
  {
    if who != {} {
      Members(s, v);
      assert Pick(who) in All(s);
      CountPower(s, v, who - {Pick(who)});
    }
  }

  // ---------------------------------------------------------------------------------
  // Engines that hold given votes

  type Choices = map<Address, Hash32>

  function Ballot(t: VoteType, h: nat, r: nat, b: Hash32, z: Address): Vote {
    Vote(t, h, r, Some(b), z, [])
  }

  function Ballots(t: VoteType, h: nat, r: nat, c: Choices): VoteMap {
    map k: VoteKey | k in (set z | z in c :: VoteKey(h, r, z)) && k.validator in c
      :: Ballot(t, h, r, c[k.validator], k.validator)
  }

  /** Who has chosen `b`. */
  function For(c: Choices, b: Hash32): set<Address> {
    set z | z in c && c[z] == b
  }

  lemma BallotVoters(s: Seats, v: ValSet, t: VoteType, h: nat, r: nat, c: Choices, o: Option<Hash32>)
    requires Ordered(s) && SameMembers(Plain(s), v) && c.Keys <= All(s)
    ensures Voters(Ballots(t, h, r, c), v.validators, h, r, o) == if o.Some? then For(c, o.value) else {}
  {
    var votes := Ballots(t, h, r, c);
    Members(s, v);
    var voters := Voters(votes, v.validators, h, r, o);
    if o.Some? {
      forall z | z in For(c, o.value) ensures z in voters {
        assert VoteKey(h, r, z) in votes;
        assert z in c.Keys;
      }
    }
  }

  lemma BallotQuorum(s: Seats, v: ValSet, t: VoteType, h: nat, r: nat, c: Choices, o: Option<Hash32>)
    requires Ordered(s) && SameMembers(Plain(s), v) && c.Keys <= All(s)
    ensures Quorum(Ballots(t, h, r, c), v, h, r, o) <==> o.Some? && |For(c, o.value)| >= 3
  {
    BallotVoters(s, v, t, h, r, c, o);
    if o.Some? {
      assert forall z <- For(c, o.value) :: z in c.Keys;
      CountPower(s, v, For(c, o.value));
    } else {
      CountPower(s, v, {});
    }
  }

  /** No block has three of the four votes. */
  ghost predicate Split(c: Choices) {
    forall b: Hash32 :: |For(c, b)| < 3
  }

  lemma BallotWinner(s: Seats, v: ValSet, t: VoteType, h: nat, r: nat, c: Choices, b: Hash32)
    requires Ordered(s) && SameMembers(Plain(s), v) && c.Keys <= All(s)
    ensures |For(c, b)| >= 3 ==>
      QuorumBlock(Ballots(t, h, r, c), v, h, r) == Some(b) && AnyQuorum(Ballots(t, h, r, c), v, h, r)
    ensures Split(c) ==>
      QuorumBlock(Ballots(t, h, r, c), v, h, r) == None && !AnyQuorum(Ballots(t, h, r, c), v, h, r)
  {
    var votes := Ballots(t, h, r, c);
    Members(s, v);
    if |For(c, b)| >= 3 {
      BallotQuorum(s, v, t, h, r, c, Some(b));
      assert Quorum(votes, v, h, r, Some(b));
      var o := QuorumBlock(votes, v, h, r);
      UniqueQuorum(votes, v, h, r, o, Some(b));
    }
    if Split(c) {
      forall o: Option<Hash32> ensures !Quorum(votes, v, h, r, o) { BallotQuorum(s, v, t, h, r, c, o); }
    }
  }

  lemma AddBallot(t: VoteType, h: nat, r: nat, c: Choices, b: Hash32, z: Address)
    requires z !in c
    ensures KeepFirst(Ballots(t, h, r, c), Ballot(t, h, r, b, z)) == Ballots(t, h, r, c[z := b])
    ensures KeyOf(Ballot(t, h, r, b, z)) !in Ballots(t, h, r, c)
  {
    var votes, more := Ballots(t, h, r, c), Ballots(t, h, r, c[z := b]);
    assert VoteKey(h, r, z) !in votes;
    assert VoteKey(h, r, z) in more;
    forall k ensures k in more <==> k in votes || k == VoteKey(h, r, z) {
      if k in votes { assert k.validator in c[z := b]; }
    }
  }

  // ---------------------------------------------------------------------------------
  // A driver that counts

  /** The engine is at (h, r) and holds the given prevotes and precommits. */
  ghost predicate Holds(e: EngineState, s: Seats, v: ValSet, h: nat, r: nat, pv: Choices, pc: Choices) {
    && Ordered(s) && SameMembers(Plain(s), v) && e.vals == v && e.rs.height == h && e.rs.round == r
    && e.prevotes == Ballots(Prevote, h, r, pv) && e.precommits == Ballots(Precommit, h, r, pc)
    && pv.Keys <= All(s) && pc.Keys <= All(s)
  }

  ghost predicate At(n: NodeState, s: Seats, v: ValSet, h: nat, r: nat, pv: Choices, pc: Choices) {
    n.me in All(s) && n.lastAttempted == h && n.currentRound == r && Holds(n.engine, s, v, h, r, pv, pc)
  }

  lemma HoldPrevote(e: EngineState, s: Seats, v: ValSet, h: nat, r: nat, pv: Choices, pc: Choices, b: Hash32,
                    z: Address)
    requires Holds(e, s, v, h, r, pv, pc) && z in All(s) && z !in pv
    ensures var (f, res) := ReceivePrevote(e, Ballot(Prevote, h, r, b, z));
      && Holds(f, s, v, h, r, pv[z := b], pc)
      && (|For(pv[z := b], b)| >= 3 ==> res == Some(true))
      && (Split(pv[z := b]) ==> res == Some(false))
  {
    Members(s, v);
    AddBallot(Prevote, h, r, pv, b, z);
    BallotWinner(s, v, Prevote, h, r, pv[z := b], b);
  }

  lemma HoldPrecommit(e: EngineState, s: Seats, v: ValSet, h: nat, r: nat, pv: Choices, pc: Choices, b: Hash32,
                      z: Address)
    requires Holds(e, s, v, h, r, pv, pc) && z in All(s) && z !in pc
    ensures var (f, res) := ReceivePrecommit(e, Ballot(Precommit, h, r, b, z));
      && Holds(f, s, v, h, r, pv, pc[z := b])
      && (|For(pc[z := b], b)| >= 3 ==> res.Some? && res.value.Some? && Certified(f) == b)
      && (Split(pc[z := b]) ==> res == Some(None))
  {
    Members(s, v);
    AddBallot(Precommit, h, r, pc, b, z);
    BallotWinner(s, v, Precommit, h, r, pc[z := b], b);
  }

  /** Everything but the engine and the votes sent is as before. */
  predicate SameRest(n: NodeState, m: NodeState) {
    m.me == n.me && m.ledger == n.ledger && m.stamps == n.stamps && m.phase.Tallying?
  }

  lemma OneIsSplit(z: Address, b: Hash32)
    ensures Split(map[z := b])
  {
    forall d: Hash32 ensures |For(map[z := b], d)| < 3 {
      assert For(map[z := b], d) == if d == b then {z} else {};
    }
  }

  /** The own prevote of a driver that holds no vote yet. */
  lemma OwnPrevote(n: NodeState, s: Seats, v: ValSet, h: nat, r: nat, b: Hash32)
    requires At(n, s, v, h, r, map[], map[]) && !n.precommitted
    ensures var m := PrevoteBlock(n, b);
      && At(m, s, v, h, r, map[n.me := b], map[]) && !m.precommitted && SameRest(n, m)
      && m.sent == n.sent + [Ballot(Prevote, h, r, b, n.me)]
  {
    HoldPrevote(n.engine, s, v, h, r, map[], map[], b, n.me);
    OneIsSplit(n.me, b);
    assert map[][n.me := b] == map[n.me := b];
    BallotWinner(s, v, Prevote, h, r, map[n.me := b], b);
  }

  /** A prevote that leaves the vote split. */
  lemma HearPrevote(n: NodeState, s: Seats, v: ValSet, h: nat, r: nat, pv: Choices, pc: Choices, d: Hash32, z: Address)
    requires At(n, s, v, h, r, pv, pc) && n.phase.Tallying? && z in All(s) && z !in pv && Split(pv[z := d])
    ensures var m := Tell(n, Ballot(Prevote, h, r, d, z));
      && At(m, s, v, h, r, pv[z := d], pc) && SameRest(n, m)
      && m.sent == n.sent && m.precommitted == n.precommitted
  {
    var w := Ballot(Prevote, h, r, d, z);
    Members(s, v);
    AddBallot(Prevote, h, r, pv, d, z);
    assert Report(n, w) == n;
    HoldPrevote(n.engine, s, v, h, r, pv, pc, d, z);
  }

  /** A prevote that completes a quorum makes the driver precommit that block. */
  lemma HearWinner(n: NodeState, s: Seats, v: ValSet, h: nat, r: nat, pv: Choices, d: Hash32, z: Address)
    requires At(n, s, v, h, r, pv, map[]) && n.phase.Tallying? && !n.precommitted
    requires z in All(s) && z !in pv && |For(pv[z := d], d)| >= 3
    ensures var m := Tell(n, Ballot(Prevote, h, r, d, z));
      && At(m, s, v, h, r, pv[z := d], map[n.me := d]) && SameRest(n, m)
      && m.sent == n.sent + [Ballot(Precommit, h, r, d, n.me)] && m.precommitted
  {
    var w := Ballot(Prevote, h, r, d, z);
    Members(s, v);
    AddBallot(Prevote, h, r, pv, d, z);
    assert Report(n, w) == n;
    HoldPrevote(n.engine, s, v, h, r, pv, map[], d, z);
    var k := n.(engine := ReceivePrevote(n.engine, w).0);
    BallotWinner(s, v, Prevote, h, r, pv[z := d], d);
    assert FeedPrevote(n, w) == MaybePrecommit(k);
    PrecommitAlone(k, s, v, h, r, pv[z := d], d);
  }

  lemma PrecommitAlone(k: NodeState, s: Seats, v: ValSet, h: nat, r: nat, pv: Choices, d: Hash32)
    requires At(k, s, v, h, r, pv, map[]) && !k.precommitted
    requires QuorumBlock(k.engine.prevotes, v, h, r) == Some(d)
    ensures var (m, done) := MaybePrecommit(k);
      && !done && At(m, s, v, h, r, pv, map[k.me := d]) && m.precommitted
      && m.me == k.me && m.ledger == k.ledger && m.stamps == k.stamps && m.phase == k.phase
      && m.sent == k.sent + [Ballot(Precommit, h, r, d, k.me)]
  {
    HoldPrecommit(k.engine, s, v, h, r, pv, map[], d, k.me);
    assert map[][k.me := d] == map[k.me := d];
    OneIsSplit(k.me, d);
  }

  lemma HearPrecommit(n: NodeState, s: Seats, v: ValSet, h: nat, r: nat, pv: Choices, pc: Choices, d: Hash32,
                      z: Address)
    requires At(n, s, v, h, r, pv, pc) && n.phase.Tallying? && z in All(s) && z !in pc && Split(pc[z := d])
    ensures var m := Tell(n, Ballot(Precommit, h, r, d, z));
      && At(m, s, v, h, r, pv, pc[z := d]) && SameRest(n, m)
      && m.sent == n.sent && m.precommitted == n.precommitted
  {
    var w := Ballot(Precommit, h, r, d, z);
    Members(s, v);
    AddBallot(Precommit, h, r, pc, d, z);
    assert Report(n, w) == n;
    HoldPrecommit(n.engine, s, v, h, r, pv, pc, d, z);
  }

  /** A precommit that completes a quorum puts the signatures onto the ledger's block. */
  lemma HearFinal(n: NodeState, s: Seats, v: ValSet, h: nat, r: nat, pv: Choices, pc: Choices, d: Hash32, z: Address)
    requires At(n, s, v, h, r, pv, pc) && n.phase.Tallying? && h < |n.ledger|
    requires z in All(s) && z !in pc && |For(pc[z := d], d)| >= 3
    ensures var m := Tell(n, Ballot(Precommit, h, r, d, z));
      && m.ledger == n.ledger && h in m.stamps && m.stamps[h].certified == d && m.sent == n.sent
  {
    var w := Ballot(Precommit, h, r, d, z);
    Members(s, v);
    AddBallot(Precommit, h, r, pc, d, z);
    assert Report(n, w) == n;
    FinalStep(n, s, v, h, r, pv, pc, d, z);
    assert Count(n, w) == FeedPrecommit(n, w);
  }

  lemma FinalStep(n: NodeState, s: Seats, v: ValSet, h: nat, r: nat, pv: Choices, pc: Choices, d: Hash32, z: Address)
    requires At(n, s, v, h, r, pv, pc) && h < |n.ledger|
    requires z in All(s) && z !in pc && |For(pc[z := d], d)| >= 3
    ensures var (m, done) := FeedPrecommit(n, Ballot(Precommit, h, r, d, z));
      && done && m.ledger == n.ledger && h in m.stamps && m.stamps[h].certified == d && m.sent == n.sent
  {
    HoldPrecommit(n.engine, s, v, h, r, pv, pc, d, z);
  }

  // ---------------------------------------------------------------------------------
  // Runs of one driver

  lemma {:induction false} PlausibleConcat(n: NodeState, xs: seq<Event>, ys: seq<Event>, hd: Headers)
    requires PlausibleRun(n, xs, hd) && PlausibleRun(HandleAll(n, xs), ys, hd)
    ensures PlausibleRun(n, xs + ys, hd)
    decreases |xs|
  {
    if xs == [] {
      assert xs + ys == ys;
    } else {
      PlausibleConcat(Handle(n, xs[0]), xs[1..], ys, hd);
      assert (xs + ys)[1..] == xs[1..] + ys;
    }
  }

  lemma OneEvent(n: NodeState, e: Event, hd: Headers)
    ensures HandleAll(n, [e]) == Handle(n, e)
    ensures PlausibleRun(n, [e], hd) == Plausible(n, e, hd)
  {
    assert [e][1..] == [];
  }

  lemma Snoc(n: NodeState, es: seq<Event>, m: NodeState, e: Event, hd: Headers)
    requires m == HandleAll(n, es) && PlausibleRun(n, es, hd) && Plausible(m, e, hd)
    ensures HandleAll(n, es + [e]) == Handle(m, e) && PlausibleRun(n, es + [e], hd)
  {
    HandleConcat(n, es, [e]);
    OneEvent(m, e, hd);
    PlausibleConcat(n, es, [e], hd);
  }

  /** The ledger grows along `chain` from length `i` to length `j`. */
  function Growth(chain: seq<Hash32>, i: nat, j: nat): seq<Event>
    requires i <= j <= |chain|
    decreases j - i
  {
    if i == j then [] else [LedgerGrows(chain[i])] + Growth(chain, i + 1, j)
  }

  lemma {:induction false} GrowthEffect(n: NodeState, chain: seq<Hash32>, i: nat, j: nat, hd: Headers)
    requires LedgerOk(hd, chain) && 0 < i <= j <= |chain| && n.ledger == chain[..i]
    ensures HandleAll(n, Growth(chain, i, j)) == n.(ledger := chain[..j])
    ensures PlausibleRun(n, Growth(chain, i, j), hd)
    ensures forall e <- Growth(chain, i, j) :: e.LedgerGrows?
    decreases j - i
  {
    if i < j {
      var m := Handle(n, LedgerGrows(chain[i]));
      assert m.ledger == chain[..i + 1];
      GrowthEffect(m, chain, i + 1, j, hd);
      assert Growth(chain, i, j)[1..] == Growth(chain, i + 1, j);
    }
  }

  /** The driver stands between attempts and will make attempt (h, r) next, with set `v`. */
  ghost predicate Ready(n: NodeState, s: Seats, z: Address, v: ValSet, h: nat, r: nat) {
    && Ordered(s) && SameMembers(Plain(s), v) && n.me == z && z in All(s) && !n.phase.Awaiting?
    && n.engine.vals == v && |n.ledger| == h && NextRound(n) == r && n.currentRound < 9
  }

  /** The driver has begun attempt (h, r) and waits for the proposer. */
  ghost predicate Waiting(n: NodeState, s: Seats, v: ValSet, h: nat, r: nat, proposer: Address) {
    At(n, s, v, h, r, map[], map[]) && !n.precommitted && n.phase == Awaiting(proposer)
  }

  lemma BeginEffect(n: NodeState, s: Seats, v: ValSet, w: ValSet, i: nat, h: nat, r: nat)
    requires Ready(n, s, n.me, v, h, r) && n.phase.Idle? && Select(v) == (w, i) && i < 4
    ensures var m := Begin(n, Some(Plain(s)));
      && SameMembers(Plain(s), w) && Waiting(m, s, w, h, r, w.validators[i].address)
      && m.me == n.me && m.sent == n.sent && m.ledger == n.ledger && m.stamps == n.stamps
  {
    Members(s, v);
    RefreshUnchanged(v, Plain(s));
    SelectSameMembers(v);
    assert Ballots(Prevote, h, r, map[]) == map[] && Ballots(Precommit, h, r, map[]) == map[];
  }

  lemma OpenRound(n: NodeState, s: Seats, v: ValSet, w: ValSet, i: nat, h: nat, r: nat, hd: Headers)
    requires Ready(n, s, n.me, v, h, r) && Select(v) == (w, i) && i < 4
    ensures var es := [RoundTimeout, BeginAttempt(Some(Plain(s)))];
      var m := HandleAll(n, es);
      && PlausibleRun(n, es, hd) && SameMembers(Plain(s), w)
      && Waiting(m, s, w, h, r, w.validators[i].address)
      && m.me == n.me && m.sent == n.sent && m.ledger == n.ledger && m.stamps == n.stamps
  {
    var idle := n.(phase := Idle);
    assert Handle(n, RoundTimeout) == idle;
    OneEvent(n, RoundTimeout, hd);
    Snoc(n, [RoundTimeout], idle, BeginAttempt(Some(Plain(s))), hd);
    assert [RoundTimeout] + [BeginAttempt(Some(Plain(s)))] == [RoundTimeout, BeginAttempt(Some(Plain(s)))];
    BeginEffect(idle, s, v, w, i, h, r);
  }

  /** The announcement of block `b` for attempt (h, r). */
  function Announce(hd: Headers, h: nat, r: nat, b: Hash32, valid: bool): Event {
    ProposalArrives(Proposal(h, r, b, hd.heightOf(b), hd.proposerOf(b), hd.parentOf(b), valid))
  }

  lemma AcceptEffect(m: NodeState, s: Seats, w: ValSet, h: nat, r: nat, b: Hash32, valid: bool, hd: Headers)
    requires Waiting(m, s, w, h, r, hd.proposerOf(b)) && hd.proposerOf(b) != m.me
    requires ApplyProposal(m.ledger, Announce(hd, h, r, b, valid).p).Some?
    ensures var k := Handle(m, Announce(hd, h, r, b, valid));
      && At(k, s, w, h, r, map[m.me := b], map[]) && !k.precommitted && k.phase.Tallying? && k.me == m.me
      && k.sent == m.sent + [Ballot(Prevote, h, r, b, m.me)] && k.stamps == m.stamps
      && k.ledger == ApplyProposal(m.ledger, Announce(hd, h, r, b, valid).p).value
  {
    var p := Announce(hd, h, r, b, valid).p;
    var j := m.(ledger := ApplyProposal(m.ledger, p).value, engine := ProposeBlock(m.engine, b, hd.proposerOf(b)).0);
    ProposedAt(m, s, w, h, r, b, hd.proposerOf(b), j.ledger);
    AcceptIsPrevote(m, s, w, h, r, p);
    OwnPrevote(j, s, w, h, r, b);
  }

  lemma AcceptIsPrevote(m: NodeState, s: Seats, w: ValSet, h: nat, r: nat, p: Proposal)
    requires Waiting(m, s, w, h, r, p.headerProposer) && p.headerProposer != m.me && p.height == h && p.round == r
    requires ApplyProposal(m.ledger, p).Some?
    ensures Handle(m, ProposalArrives(p)) == PrevoteBlock(
      m.(ledger := ApplyProposal(m.ledger, p).value, engine := ProposeBlock(m.engine, p.block, p.headerProposer).0),
      p.block)
  {
  }

  lemma ProposedAt(m: NodeState, s: Seats, w: ValSet, h: nat, r: nat, b: Hash32, p: Address, l: seq<Hash32>)
    requires Waiting(m, s, w, h, r, p)
    ensures At(m.(ledger := l, engine := ProposeBlock(m.engine, b, p).0), s, w, h, r, map[], map[])
  {
  }

  /** The driver has prevoted `b` at (h, r), holds no other vote, and has ledger `l`. */
  ghost predicate Prevoted(n: NodeState, s: Seats, z: Address, w: ValSet, h: nat, r: nat, b: Hash32, l: seq<Hash32>) {
    && n.me == z && At(n, s, w, h, r, map[z := b], map[]) && !n.precommitted && n.phase.Tallying?
    && Ballot(Prevote, h, r, b, z) in n.sent && n.ledger == l && r < 9
  }

  /** An attempt up to the prevote: the ledger grows along `chain` to length `j` while the driver
      waits, then `b` is announced. */
  lemma PrevoteEvents(n: NodeState, s: Seats, v: ValSet, w: ValSet, i: nat, h: nat, r: nat, b: Hash32, valid: bool,
                      chain: seq<Hash32>, j: nat, hd: Headers) returns (es: seq<Event>)
    requires Ready(n, s, n.me, v, h, r) && Select(v) == (w, i) && i < 4 && r < 9
    requires hd.proposerOf(b) == w.validators[i].address != n.me && (valid ==> hd.acceptable(b))
    requires LedgerOk(hd, chain) && 0 < h <= j <= |chain| && n.ledger == chain[..h]
    requires ApplyProposal(chain[..j], Announce(hd, h, r, b, valid).p).Some?
    ensures es != [] && PlausibleRun(n, es, hd) && Deliverable(es, s, {})
    ensures Prevoted(HandleAll(n, es), s, n.me, w, h, r, b,
                     ApplyProposal(chain[..j], Announce(hd, h, r, b, valid).p).value)
  {
    var wait := WaitEvents(n, s, v, w, i, h, r, chain, j, hd);
    var g := HandleAll(n, wait);
    Snoc(n, wait, g, Announce(hd, h, r, b, valid), hd);
    AcceptEffect(g, s, w, h, r, b, valid, hd);
    es := wait + [Announce(hd, h, r, b, valid)];
  }

  /** The part before the announcement. */
  lemma WaitEvents(n: NodeState, s: Seats, v: ValSet, w: ValSet, i: nat, h: nat, r: nat,
                   chain: seq<Hash32>, j: nat, hd: Headers) returns (es: seq<Event>)
    requires Ready(n, s, n.me, v, h, r) && Select(v) == (w, i) && i < 4
    requires LedgerOk(hd, chain) && 0 < h <= j <= |chain| && n.ledger == chain[..h]
    ensures PlausibleRun(n, es, hd) && Deliverable(es, s, {})
    ensures var m := HandleAll(n, es);
      && Waiting(m, s, w, h, r, w.validators[i].address) && m.me == n.me && m.ledger == chain[..j]
  {
    var start := [RoundTimeout, BeginAttempt(Some(Plain(s)))];
    OpenRound(n, s, v, w, i, h, r, hd);
    var m := HandleAll(n, start);
    es := GrowAfter(n, start, m, s, chain, h, j, hd);
  }

  lemma GrowAfter(n: NodeState, start: seq<Event>, m: NodeState, s: Seats, chain: seq<Hash32>, h: nat, j: nat,
                  hd: Headers)
      returns (es: seq<Event>)
    requires PlausibleRun(n, start, hd) && m == HandleAll(n, start) && Deliverable(start, s, {})
    requires LedgerOk(hd, chain) && 0 < h <= j <= |chain| && m.ledger == chain[..h]
    ensures PlausibleRun(n, es, hd) && Deliverable(es, s, {}) && HandleAll(n, es) == m.(ledger := chain[..j])
  {
    var grow := Growth(chain, h, j);
    GrowthEffect(m, chain, h, j, hd);
    HandleConcat(n, start, grow);
    PlausibleConcat(n, start, grow, hd);
    es := start + grow;
  }

  // ---------------------------------------------------------------------------------
  // Runs of the cluster, one driver at a time

  lemma OneMore(c: Cluster, xs: seq<Action>, x: Action, hd: Headers)
    requires Legal(c, xs, hd) && Enabled(Play(c, xs), x, hd)
    ensures Legal(c, xs + [x], hd) && Play(c, xs + [x]) == Act(Play(c, xs), x)
  {
    assert (xs + [x])[..|xs|] == xs;
  }

  /** Events that may reach any driver once `log` has been signed. */
  ghost predicate Deliverable(es: seq<Event>, s: Seats, log: set<Vote>) {
    forall e <- es ::
      (e.BeginAttempt? ==> e.active == Some(Plain(s))) && (e.VoteArrives? ==> e.v in log)
  }

  lemma {:induction false} PlayEvents(c: Cluster, xs: seq<Action>, s: Seats, z: Address, es: seq<Event>, hd: Headers)
      returns (ys: seq<Action>)
    requires Legal(c, xs, hd) && Play(c, xs).vals == Plain(s)
    requires z in Play(c, xs).nodes && PlausibleRun(Play(c, xs).nodes[z], es, hd)
    requires Deliverable(es, s, Play(c, xs).log)
    ensures Legal(c, ys, hd)
    ensures var p, q := Play(c, xs), Play(c, ys);
      && q.vals == p.vals && q.nodes == p.nodes[z := HandleAll(p.nodes[z], es)]
      && p.log <= q.log && (es != [] ==> forall v <- q.nodes[z].sent :: v in q.log)
    decreases |es|
  {
    ys := xs;
    if es != [] {
      var p := Play(c, xs);
      var a := HonestAction(z, es[0]);
      OneMore(c, xs, a, hd);
      assert forall e :: e in es[1..] ==> e in es;
      ys := PlayEvents(c, xs + [a], s, z, es[1..], hd);
      assert p.nodes[z := Handle(p.nodes[z], es[0])][z := HandleAll(p.nodes[z], es)]
          == p.nodes[z := HandleAll(p.nodes[z], es)];
    } else {
      assert Play(c, xs).nodes[z := Play(c, xs).nodes[z]] == Play(c, xs).nodes;
    }
  }

  lemma PlayByzantine(c: Cluster, xs: seq<Action>, v: Vote, hd: Headers) returns (ys: seq<Action>)
    requires Legal(c, xs, hd) && v.validator !in Play(c, xs).nodes
    ensures Legal(c, ys, hd)
    ensures var p, q := Play(c, xs), Play(c, ys);
      q.vals == p.vals && q.nodes == p.nodes && q.log == p.log + {v}
  {
    ys := xs + [ByzantineVote(v)];
    OneMore(c, xs, ByzantineVote(v), hd);
  }

  /** One vote reaches one driver. */
  lemma PlayVote(c: Cluster, xs: seq<Action>, z: Address, v: Vote, hd: Headers) returns (ys: seq<Action>)
    requires Legal(c, xs, hd) && z in Play(c, xs).nodes && v in Play(c, xs).log
    requires Play(c, xs).nodes[z].phase.Tallying?
    ensures Legal(c, ys, hd)
    ensures var p, q := Play(c, xs), Play(c, ys);
      && q.vals == p.vals && q.nodes == p.nodes[z := Tell(p.nodes[z], v)]
      && p.log <= q.log && forall w <- q.nodes[z].sent :: w in q.log
  {
    ys := xs + [HonestAction(z, VoteArrives(v))];
    OneMore(c, xs, HonestAction(z, VoteArrives(v)), hd);
  }

  lemma PlayTwoVotes(c: Cluster, xs: seq<Action>, z: Address, v: Vote, w: Vote, hd: Headers) returns (ys: seq<Action>)
    requires Legal(c, xs, hd) && z in Play(c, xs).nodes && v in Play(c, xs).log && w in Play(c, xs).log
    requires Play(c, xs).nodes[z].phase.Tallying? && Tell(Play(c, xs).nodes[z], v).phase.Tallying?
    ensures Legal(c, ys, hd)
    ensures var p, q := Play(c, xs), Play(c, ys);
      && q.vals == p.vals && q.nodes == p.nodes[z := Tell(Tell(p.nodes[z], v), w)]
      && p.log <= q.log && forall u <- q.nodes[z].sent :: u in q.log
  {
    var p := Play(c, xs);
    var zs := PlayVote(c, xs, z, v, hd);
    ys := PlayVote(c, zs, z, w, hd);
    var k := Tell(p.nodes[z], v);
    assert p.nodes[z := k][z := Tell(k, w)] == p.nodes[z := Tell(k, w)];
  }

  /** The cluster of the four seats in which drivers `b`, `x` and `y` start with one ledger. */
  function StartCluster(s: Seats, v: ValSet, ledger: seq<Hash32>): Cluster {
    Cluster(Plain(s), map[s.b := NewNode(s.b, ledger, v), s.x := NewNode(s.x, ledger, v),
                          s.y := NewNode(s.y, ledger, v)], {})
  }

  lemma OnlyOneIsBad(s: Seats, bad: set<Address>)
    requires Ordered(s) && bad !! {s.b, s.x, s.y}
    ensures Power(Plain(s).validators, bad) <= 1
  {
    Members(s, Plain(s));
    var f := (z: Address) => PowerOf(Plain(s).validators, z);
    var others := bad - {s.a};
    SumMonotone(bad, others + {s.a}, f);
    SumAdd(others, f, s.a);
    forall z <- others ensures f(z) == 0 { assert z !in All(s); }
    SumSame(others, f, a => 0);
    SumZero(others);
  }

  lemma StartFacts(s: Seats, v: ValSet, ledger: seq<Hash32>, hd: Headers)
    requires Ordered(s) && SameMembers(Plain(s), v) && LedgerOk(hd, ledger)
    ensures var c := StartCluster(s, v, ledger);
      && Initial(c) && Rooted(c, hd) && FewByzantine(c) && c.nodes.Keys == {s.b, s.x, s.y}
      && forall z <- {s.b, s.x, s.y} :: Ready(c.nodes[z], s, z, v, |ledger|, 0)
  {
    Members(s, Plain(s));
    var c := StartCluster(s, v, ledger);
    assert c.nodes.Keys == {s.b, s.x, s.y};
    forall z | z in c.nodes
      ensures exists l: seq<Hash32>, w: ValSet :: SameMembers(c.vals, w) && c.nodes[z] == NewNode(z, l, w)
    {
      assert SameMembers(c.vals, v) && c.nodes[z] == NewNode(z, ledger, v);
    }
    forall bad: set<Address> | bad !! c.nodes.Keys
      ensures 3 * Power(c.vals.validators, bad) <= c.vals.total
    {
      OnlyOneIsBad(s, bad);
    }
  }

  /** Driver `z` makes an attempt up to its prevote for `b`; nobody else moves. */
  lemma PlayPrevote(c: Cluster, xs: seq<Action>, s: Seats, z: Address, v: ValSet, w: ValSet, i: nat, h: nat, r: nat,
                    b: Hash32, valid: bool, chain: seq<Hash32>, j: nat, hd: Headers)
      returns (ys: seq<Action>, m: NodeState)
    requires Legal(c, xs, hd) && Play(c, xs).vals == Plain(s) && z in Play(c, xs).nodes
    requires Ready(Play(c, xs).nodes[z], s, z, v, h, r) && Select(v) == (w, i) && i < 4 && r < 9
    requires hd.proposerOf(b) == w.validators[i].address != z && (valid ==> hd.acceptable(b))
    requires LedgerOk(hd, chain) && 0 < h <= j <= |chain| && Play(c, xs).nodes[z].ledger == chain[..h]
    requires ApplyProposal(chain[..j], Announce(hd, h, r, b, valid).p).Some?
    ensures Legal(c, ys, hd) && Play(c, ys).vals == Plain(s) && Play(c, xs).log <= Play(c, ys).log
    ensures Play(c, ys).nodes == Play(c, xs).nodes[z := m]
    ensures Prevoted(m, s, z, w, h, r, b, ApplyProposal(chain[..j], Announce(hd, h, r, b, valid).p).value)
    ensures Ballot(Prevote, h, r, b, z) in Play(c, ys).log
  {
    var n := Play(c, xs).nodes[z];
    var es := PrevoteEvents(n, s, v, w, i, h, r, b, valid, chain, j, hd);
    m := HandleAll(n, es);
    ys := PlayEvents(c, xs, s, z, es, hd);
  }
}
