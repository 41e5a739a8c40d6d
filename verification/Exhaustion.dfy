/** Why an honest driver must not attempt one height 2^32 times: the round counter starts over,
    and the driver votes again in a round it has already voted in. */
module Exhaustion {
  import opened Basics
  import opened ValidatorSets
  import opened Engine
  import opened Driver
  import opened Honesty

  /** A set in which `x` proposes the first two times. */
  function Pair(me: Address, x: Address, p: int, q: int): ValSet {
    ValSet([Validator(me, 1, p), Validator(x, 10, q)], 11)
  }

  lemma SelectPair(me: Address, x: Address, p: int, q: int)
    requires -100 < p < 100 && -100 < q < 100 && p + 1 <= q + 10
    ensures Select(Pair(me, x, p, q)) == (Pair(me, x, p + 1, q - 1), 1)
  {
    var vs := Bumped(Pair(me, x, p, q).validators);
    assert vs == [Validator(me, 1, p + 1), Validator(x, 10, q + 10)];
    assert LastMax(vs) == 1;
    assert Charge(Pair(me, x, p, q), vs, 1).validators == [vs[0], Validator(x, 10, q - 1)];
  }

  /** Between attempts, with the given priorities. */
  ghost predicate Resting(n: NodeState, x: Address, p: int, q: int) {
    n.phase.Idle? && n.engine.vals == Pair(n.me, x, p, q) && n.me != x
  }

  /** The start of an attempt in which `x` proposes. */
  lemma BeginPair(n: NodeState, x: Address, p: int, q: int)
    requires Resting(n, x, p, q) && -100 < p < 100 && -100 < q < 100 && p + 1 <= q + 10
    ensures var m := Handle(n, BeginAttempt(Some(Pair(n.me, x, 0, 0))));
      && m.phase == Awaiting(x) && m.engine.vals == Pair(n.me, x, p + 1, q - 1)
      && m.me == n.me && m.sent == n.sent && m.ledger == n.ledger
      && m.lastAttempted == |n.ledger| && m.currentRound == NextRound(n)
  {
    RefreshUnchanged(n.engine.vals, Pair(n.me, x, 0, 0));
    SelectPair(n.me, x, p, q);
  }

  /** The proposal does not arrive in time. */
  lemma NilVote(n: NodeState, x: Address, p: int, q: int)
    requires n.phase == Awaiting(x) && n.engine.vals == Pair(n.me, x, p, q) && n.me != x
    ensures var m := Handle(n, ProposalTimeout);
      && Resting(m, x, p, q) && m.me == n.me && m.sent == n.sent + [MakeVote(n, Prevote, None)]
      && m.ledger == n.ledger && m.lastAttempted == n.lastAttempted && m.currentRound == n.currentRound
  {
  }

  /** Attempts without an active set only count rounds. */
  function Retries(k: nat): seq<Event> {
    seq(k, _ => BeginAttempt(None))
  }

  lemma {:induction false} RetriesCount(n: NodeState, k: nat, hd: Headers)
    requires n.phase.Idle? && |n.ledger| == n.lastAttempted && n.currentRound + k < TWO_32
    ensures HandleAll(n, Retries(k)) == n.(currentRound := n.currentRound + k)
    ensures PossibleRun(n, Retries(k), hd)
    decreases k
  {
    if k > 0 {
      assert Retries(k)[1..] == Retries(k - 1);
      assert Handle(n, Retries(k)[0]) == n.(currentRound := n.currentRound + 1);
      RetriesCount(n.(currentRound := n.currentRound + 1), k - 1, hd);
    }
  }

  /** A block for the current attempt arrives. */
  lemma BlockVote(n: NodeState, x: Address, b: Hash32, hd: Headers)
    requires n.phase == Awaiting(x) && n.me != x && Succeeds(hd, n.ledger, b) && hd.proposerOf(b) == x
    ensures var p := Proposal(n.lastAttempted, n.currentRound, b, hd.heightOf(b), x, hd.parentOf(b), true);
      var e := ProposalArrives(p);
      Possible(n, e, hd) && n.sent + [MakeVote(n, Prevote, Some(b))] <= Handle(n, e).sent
  {
    var m := n.(ledger := n.ledger + [b], engine := ProposeBlock(n.engine, b, x).0);
    MaybePrecommitCarries(CastPrevote(m, Some(b)));
  }

  ghost predicate PossibleRun(n: NodeState, events: seq<Event>, hd: Headers)
    decreases |events|
  {
    events == [] || (Possible(n, events[0], hd) && PossibleRun(Handle(n, events[0]), events[1..], hd))
  }

  lemma {:induction false} PossibleConcat(n: NodeState, xs: seq<Event>, ys: seq<Event>, hd: Headers)
    requires PossibleRun(n, xs, hd) && PossibleRun(HandleAll(n, xs), ys, hd)
    ensures PossibleRun(n, xs + ys, hd)
    decreases |xs|
  {
    if xs == [] {
      assert xs + ys == ys;
    } else {
      PossibleConcat(Handle(n, xs[0]), xs[1..], ys, hd);
      assert (xs + ys)[1..] == xs[1..] + ys && (xs + ys)[0] == xs[0];
    }
  }

  lemma PossibleOneMore(n: NodeState, xs: seq<Event>, e: Event, hd: Headers)
    requires PossibleRun(n, xs, hd) && Possible(HandleAll(n, xs), e, hd)
    ensures PossibleRun(n, xs + [e], hd) && HandleAll(n, xs + [e]) == Handle(HandleAll(n, xs), e)
  {
    var m := HandleAll(n, xs);
    assert [e][1..] == [] && HandleAll(m, [e]) == HandleAll(Handle(m, e), []);
    assert PossibleRun(m, [e], hd);
    PossibleConcat(n, xs, [e], hd);
    HandleConcat(n, xs, [e]);
  }

  /** The first attempt at the height, and all but one of the further rounds. */
  lemma FirstRounds(n: NodeState, x: Address, hd: Headers) returns (xs: seq<Event>)
    requires Resting(n, x, 0, 0) && n.lastAttempted != |n.ledger|
    ensures PossibleRun(n, xs, hd)
    ensures var m := HandleAll(n, xs);
      && Resting(m, x, 1, -1) && m.me == n.me && m.ledger == n.ledger
      && m.sent == n.sent + [Vote(Prevote, |n.ledger|, 0, None, n.me, [])]
      && m.lastAttempted == |n.ledger| && m.currentRound == TWO_32 - 1
  {
    var begin := BeginAttempt(Some(Pair(n.me, x, 0, 0)));
    PossibleOneMore(n, [], begin, hd);
    BeginPair(n, x, 0, 0);
    PossibleOneMore(n, [] + [begin], ProposalTimeout, hd);
    NilVote(HandleAll(n, [] + [begin]), x, 1, -1);
    var start := [] + [begin] + [ProposalTimeout];
    RetriesCount(HandleAll(n, start), TWO_32 - 1, hd);
    PossibleConcat(n, start, Retries(TWO_32 - 1), hd);
    HandleConcat(n, start, Retries(TWO_32 - 1));
    xs := start + Retries(TWO_32 - 1);
  }

  /** The next attempt is round zero again, and this time a block arrives. */
  lemma RoundZeroAgain(n: NodeState, x: Address, b: Hash32, hd: Headers) returns (xs: seq<Event>)
    requires Resting(n, x, 1, -1) && n.lastAttempted == |n.ledger| && n.currentRound == TWO_32 - 1
    requires Succeeds(hd, n.ledger, b) && hd.proposerOf(b) == x
    ensures PossibleRun(n, xs, hd)
    ensures n.sent + [Vote(Prevote, |n.ledger|, 0, Some(b), n.me, [])] <= HandleAll(n, xs).sent
  {
    var begin := BeginAttempt(Some(Pair(n.me, x, 0, 0)));
    BeginPair(n, x, 1, -1);
    PossibleOneMore(n, [], begin, hd);
    var m := HandleAll(n, [] + [begin]);
    BlockVote(m, x, b, hd);
    var p := Proposal(|n.ledger|, 0, b, hd.heightOf(b), x, hd.parentOf(b), true);
    PossibleOneMore(n, [] + [begin], ProposalArrives(p), hd);
    xs := [] + [begin] + [ProposalArrives(p)];
  }

  /** The limit is real: a new driver whose environment keeps all its guarantees, but lets it
      attempt one height 2^32 times, can send two votes that are equivocation evidence. */
  lemma ExhaustedRoundEquivocates(me: Address, x: Address, ledger: seq<Hash32>, b: Hash32, hd: Headers)
    returns (xs: seq<Event>, v: Vote, w: Vote)
    requires me != x && Succeeds(hd, ledger, b) && hd.proposerOf(b) == x
    ensures var n := NewNode(me, ledger, Pair(me, x, 0, 0));
      && PossibleRun(n, xs, hd) && v in HandleAll(n, xs).sent && w in HandleAll(n, xs).sent
      && IsValidEquivocation(v, w)
  {
    var n := NewNode(me, ledger, Pair(me, x, 0, 0));
    var start := FirstRounds(n, x, hd);
    var m := HandleAll(n, start);
    var end := RoundZeroAgain(m, x, b, hd);
    xs := start + end;
    PossibleConcat(n, start, end, hd);
    HandleConcat(n, start, end);
    v, w := Vote(Prevote, |ledger|, 0, None, me, []), Vote(Prevote, |ledger|, 0, Some(b), me, []);
    assert m.sent + [w] == [v, w] && [v, w][0] == v && [v, w][1] == w;
  }
}
