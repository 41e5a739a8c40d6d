/** Why agreement needs the header height. `apply_block` accepts any block below the length of the
    ledger without looking at it, so drivers can be made to prevote and precommit an outdated
    block, and to vote again in the next round. This module builds such a run for every outdated
    block and every other block that a chain can pass, with one Byzantine validator out of four. */
module Staleness {
  import opened Basics
  import opened Sums
  import opened ValidatorSets
  import opened Engine
  import opened Driver
  import opened Honesty
  import opened Protocol
  import opened FourNodes

  // ---------------------------------------------------------------------------------
  // One driver from its prevote to its precommit

  lemma PairIsSplit(y: Address, z: Address, b: Hash32)
    ensures Split(map[y := b][z := b])
    ensures y != z ==> |For(map[y := b][z := b], b)| == 2
  {
    assert For(map[y := b][z := b], b) == {y, z};
    var c := map[y := b][z := b];
    forall d: Hash32 ensures |For(c, d)| < 3 {
      assert For(c, d) == if d == b then {y, z} else {};
      assert |{y, z}| <= 2;
    }
  }

  /** Two more prevotes for its block make a driver precommit it; it can then retry the height. */
  lemma TwoMorePrevotes(n: NodeState, s: Seats, w: ValSet, h: nat, r: nat, b: Hash32, l: seq<Hash32>, y: Address,
                        z: Address)
    requires Prevoted(n, s, n.me, w, h, r, b, l) && y in All(s) && z in All(s) && n.me != y && y != z && n.me != z
    requires r < 8
    ensures var k := Tell(n, Ballot(Prevote, h, r, b, y));
      var m := Tell(k, Ballot(Prevote, h, r, b, z));
      && k.phase.Tallying? && m.phase.Tallying? && m.me == n.me && m.ledger == l
      && Ballot(Precommit, h, r, b, n.me) in m.sent
      && (|l| == h ==> Ready(m, s, n.me, w, h, r + 1))
  {
    var one := map[n.me := b];
    var two := one[y := b];
    PairIsSplit(n.me, y, b);
    HearPrevote(n, s, w, h, r, one, map[], b, y);
    var k := Tell(n, Ballot(Prevote, h, r, b, y));
    LastPrevote(k, s, w, h, r, b, two, z);
  }

  lemma LastPrevote(k: NodeState, s: Seats, w: ValSet, h: nat, r: nat, b: Hash32, two: Choices, z: Address)
    requires At(k, s, w, h, r, two, map[]) && k.phase.Tallying? && !k.precommitted && r < 8
    requires z in All(s) && z !in two && |For(two, b)| == 2
    ensures var m := Tell(k, Ballot(Prevote, h, r, b, z));
      && m.phase.Tallying? && m.me == k.me && m.ledger == k.ledger
      && Ballot(Precommit, h, r, b, k.me) in m.sent
      && (|k.ledger| == h ==> Ready(m, s, k.me, w, h, r + 1))
  {
    assert For(two[z := b], b) == For(two, b) + {z};
    HearWinner(k, s, w, h, r, two, b, z);
    var m := Tell(k, Ballot(Prevote, h, r, b, z));
    if |k.ledger| == h { RetryNext(m, s, w, h, r, two[z := b], map[k.me := b]); }
  }

  lemma RetryNext(m: NodeState, s: Seats, w: ValSet, h: nat, r: nat, pv: Choices, pc: Choices)
    requires At(m, s, w, h, r, pv, pc) && m.phase.Tallying? && |m.ledger| == h && r < 8
    ensures Ready(m, s, m.me, w, h, r + 1)
  {
  }

  // ---------------------------------------------------------------------------------
  // One round in which `x`, `y` and the Byzantine validator commit a block

  /** Drivers `x` and `y` stand ready for attempt (h, r) with the same schedule and ledger. */
  ghost predicate Stand(c: Cluster, s: Seats, v: ValSet, h: nat, r: nat, chain: seq<Hash32>)
    requires h <= |chain|
  {
    && c.vals == Plain(s) && c.nodes.Keys == {s.b, s.x, s.y}
    && Ready(c.nodes[s.x], s, s.x, v, h, r) && c.nodes[s.x].ledger == chain[..h]
    && Ready(c.nodes[s.y], s, s.y, v, h, r) && c.nodes[s.y].ledger == chain[..h]
  }

  ghost predicate Committed(c: Cluster, s: Seats, h: nat, r: nat, b: Hash32) {
    forall z <- {s.a, s.x, s.y} :: Ballot(Precommit, h, r, b, z) in c.log
  }

  lemma CommittedIsQuorum(c: Cluster, s: Seats, h: nat, r: nat, b: Hash32)
    requires Ordered(s) && Committed(c, s, h, r, b) && c.vals == Plain(s)
    ensures SignedQuorum(c, Precommit, h, r, b)
  {
    var three, who := {s.a, s.x, s.y}, Signed(c.log, Precommit, h, r, b);
    forall z <- three ensures z in who { assert Ballot(Precommit, h, r, b, z) in c.log; }
    CountPower(s, Plain(s), three);
    SumMonotone(three, who, z => PowerOf(Plain(s).validators, z));
  }

  /** `x` and `y` have prevoted `b`, the Byzantine validator has signed both votes for `b`. */
  ghost predicate Halfway(c: Cluster, s: Seats, w: ValSet, h: nat, r: nat, b: Hash32, l: seq<Hash32>) {
    && c.vals == Plain(s) && c.nodes.Keys == {s.b, s.x, s.y}
    && Prevoted(c.nodes[s.x], s, s.x, w, h, r, b, l) && Prevoted(c.nodes[s.y], s, s.y, w, h, r, b, l)
    && (forall z <- {s.a, s.x, s.y} :: Ballot(Prevote, h, r, b, z) in c.log)
    && Ballot(Precommit, h, r, b, s.a) in c.log
  }

  lemma PrevoteHalf(c: Cluster, xs: seq<Action>, s: Seats, v: ValSet, w: ValSet, i: nat, h: nat, r: nat, b: Hash32,
                    chain: seq<Hash32>, j: nat, hd: Headers) returns (ys: seq<Action>)
    requires LedgerOk(hd, chain) && 0 < h <= j <= |chain| && hd.heightOf(b) < j && r < 8
    requires Legal(c, xs, hd) && Stand(Play(c, xs), s, v, h, r, chain)
    requires Select(v) == (w, i) && i < 2 && hd.proposerOf(b) == w.validators[i].address
    requires hd.proposerOf(b) != s.x && hd.proposerOf(b) != s.y
    ensures Legal(c, ys, hd) && Halfway(Play(c, ys), s, w, h, r, b, chain[..j])
    ensures Play(c, xs).log <= Play(c, ys).log
  {
    assert ApplyProposal(chain[..j], Announce(hd, h, r, b, false).p) == Some(chain[..j]);
    var n, m;
    ys, n := PlayPrevote(c, xs, s, s.x, v, w, i, h, r, b, false, chain, j, hd);
    ys, m := PlayPrevote(c, ys, s, s.y, v, w, i, h, r, b, false, chain, j, hd);
    ys := PlayByzantine(c, ys, Ballot(Prevote, h, r, b, s.a), hd);
    ys := PlayByzantine(c, ys, Ballot(Precommit, h, r, b, s.a), hd);
  }

  /** Driver `z` hears two prevotes for the block it has prevoted. */
  lemma PlayPair(c: Cluster, xs: seq<Action>, s: Seats, z: Address, w: ValSet, h: nat, r: nat, b: Hash32,
                 l: seq<Hash32>, y: Address, hd: Headers) returns (ys: seq<Action>, m: NodeState)
    requires Legal(c, xs, hd) && z in Play(c, xs).nodes && r < 8
    requires Prevoted(Play(c, xs).nodes[z], s, z, w, h, r, b, l) && y in All(s) && y != z && z != s.a && y != s.a
    requires Ballot(Prevote, h, r, b, y) in Play(c, xs).log && Ballot(Prevote, h, r, b, s.a) in Play(c, xs).log
    ensures Legal(c, ys, hd) && Play(c, ys).vals == Play(c, xs).vals && Play(c, xs).log <= Play(c, ys).log
    ensures Play(c, ys).nodes == Play(c, xs).nodes[z := m] && Ballot(Precommit, h, r, b, z) in Play(c, ys).log
    ensures m.ledger == l && (|l| == h ==> Ready(m, s, z, w, h, r + 1))
  {
    var n := Play(c, xs).nodes[z];
    TwoMorePrevotes(n, s, w, h, r, b, l, y, s.a);
    ys := PlayTwoVotes(c, xs, z, Ballot(Prevote, h, r, b, y), Ballot(Prevote, h, r, b, s.a), hd);
    m := Tell(Tell(n, Ballot(Prevote, h, r, b, y)), Ballot(Prevote, h, r, b, s.a));
  }

  /** When the ledgers have not grown meanwhile, the drivers are ready for the next round of the
      same height afterwards. */
  lemma CommitRound(c: Cluster, xs: seq<Action>, s: Seats, v: ValSet, w: ValSet, i: nat, h: nat, r: nat, b: Hash32,
                    chain: seq<Hash32>, j: nat, hd: Headers) returns (ys: seq<Action>)
    requires LedgerOk(hd, chain) && 0 < h <= j <= |chain| && hd.heightOf(b) < j && r < 8
    requires Legal(c, xs, hd) && Stand(Play(c, xs), s, v, h, r, chain)
    requires Select(v) == (w, i) && i < 2 && hd.proposerOf(b) == w.validators[i].address
    requires hd.proposerOf(b) != s.x && hd.proposerOf(b) != s.y
    ensures Legal(c, ys, hd) && Committed(Play(c, ys), s, h, r, b)
    ensures Play(c, xs).log <= Play(c, ys).log && Play(c, ys).vals == Plain(s)
    ensures j == h ==> Stand(Play(c, ys), s, w, h, r + 1, chain)
  {
    var n, m;
    ys := PrevoteHalf(c, xs, s, v, w, i, h, r, b, chain, j, hd);
    ys, n := PlayPair(c, ys, s, s.x, w, h, r, b, chain[..j], s.y, hd);
    ys, m := PlayPair(c, ys, s, s.y, w, h, r, b, chain[..j], s.x, hd);
  }

  // ---------------------------------------------------------------------------------
  // Seats and priorities for which `p` and then `q` is the proposer

  function SeatsFor(p: Address, q: Address): Seats {
    if p == q then Seats(p, p + 1, p + 2, p + 3)
    else if p < q then Seats(p, q, q + 1, q + 2)
    else Seats(q, p, p + 1, p + 2)
  }

  lemma Schedule(p: Address, q: Address) returns (v: ValSet, w: ValSet, u: ValSet, i: nat, j: nat)
    ensures var s := SeatsFor(p, q);
      && Ordered(s) && SameMembers(Plain(s), v) && i < 2 && j < 2
      && Select(v) == (w, i) && w.validators[i].address == p
      && Select(w) == (u, j) && u.validators[j].address == q
      && p != s.x && p != s.y && q != s.x && q != s.y
  {
    var s := SeatsFor(p, q);
    if p == q {
      v, w, u, i, j := Four(s, 20, 0, 0), Four(s, 17, 1, 1), Four(s, 14, 2, 2), 0, 0;
      SelectFirst(s, 20, 0, 0);
      SelectFirst(s, 17, 1, 1);
    } else if p < q {
      v, w, u, i, j := Four(s, 10, 8, 0), Four(s, 7, 9, 1), Four(s, 8, 6, 2), 0, 1;
      SelectFirst(s, 10, 8, 0);
      SelectSecond(s, 7, 9, 1);
    } else {
      v, w, u, i, j := Four(s, 8, 10, 0), Four(s, 9, 7, 1), Four(s, 6, 8, 2), 1, 0;
      SelectSecond(s, 8, 10, 0);
      SelectFirst(s, 9, 7, 1);
    }
  }

  // ---------------------------------------------------------------------------------
  // The exact scope of agreement

  /** There is a chain of acceptable blocks with at least `n` blocks. */
  ghost predicate ChainOf(hd: Headers, n: nat) {
    exists chain: seq<Hash32> :: LedgerOk(hd, chain) && |chain| >= n
  }

  lemma ChainPart(hd: Headers, chain: seq<Hash32>, n: nat)
    requires LedgerOk(hd, chain) && 0 < n <= |chain|
    ensures LedgerOk(hd, chain[..n])
  {
  }

  /** For every height, every outdated block and every other block whose height a chain passes,
      there is a run with less than a third Byzantine power in which both are committed at that
      height. The header fields of every announcement are those of its block. */
  lemma OutdatedBlockIsCommitted(h: nat, old_: Hash32, b: Hash32, hd: Headers, chain: seq<Hash32>)
      returns (c: Cluster, xs: seq<Action>)
    requires hd.heightOf(old_) < h && LedgerOk(hd, chain) && h <= |chain| && hd.heightOf(b) < |chain|
    ensures Initial(c) && Rooted(c, hd) && FewByzantine(c) && Legal(c, xs, hd)
    ensures SignedQuorum(Play(c, xs), Precommit, h, 0, old_) && SignedQuorum(Play(c, xs), Precommit, h, 1, b)
  {
    var s := SeatsFor(hd.proposerOf(old_), hd.proposerOf(b));
    var v, w, u, i, j := Schedule(hd.proposerOf(old_), hd.proposerOf(b));
    ChainPart(hd, chain, h);
    c := StartCluster(s, v, chain[..h]);
    StartFacts(s, v, chain[..h], hd);
    xs := CommitRound(c, [], s, v, w, i, h, 0, old_, chain, h, hd);
    var ys := CommitRound(c, xs, s, w, u, j, h, 1, b, chain, |chain|, hd);
    assert Committed(Play(c, ys), s, h, 0, old_);
    CommittedIsQuorum(Play(c, ys), s, h, 0, old_);
    CommittedIsQuorum(Play(c, ys), s, h, 1, b);
    xs := ys;
  }

  /** Some run with at most a third of the power Byzantine commits both blocks at height `h`. */
  ghost predicate BothCommittable(h: nat, b: Hash32, d: Hash32, hd: Headers) {
    exists c: Cluster, xs: seq<Action>, r: nat, q: nat ::
      && Initial(c) && Rooted(c, hd) && FewByzantine(c) && Legal(c, xs, hd)
      && SignedQuorum(Play(c, xs), Precommit, h, r, b) && SignedQuorum(Play(c, xs), Precommit, h, q, d)
  }

  /** Whoever commits a block has a ledger that passes its height and reaches the voted one. */
  lemma CommitNeedsChain(c: Cluster, xs: seq<Action>, hd: Headers, h: nat, r: nat, b: Hash32)
      returns (chain: seq<Hash32>)
    requires Initial(c) && Rooted(c, hd) && FewByzantine(c) && Legal(c, xs, hd)
    requires SignedQuorum(Play(c, xs), Precommit, h, r, b)
    ensures LedgerOk(hd, chain) && |chain| >= h && |chain| > hd.heightOf(b)
  {
    CommitNeedsPrevotes(c, xs, hd, h, r, b);
    ReachableInv(c, xs, hd);
    ReachableLedgers(c, xs, hd);
    var p := Play(c, xs);
    var s := Signed(p.log, Prevote, h, r, b);
    var a := QuorumHasHonest(p.vals, s, s - p.nodes.Keys);
    var v :| v in p.log && v.voteType == Prevote && v.height == h && v.round == r
             && v.blockHash == Some(b) && v.validator == a;
    VoterLedger(p, hd, v);
    chain := p.nodes[a].ledger;
  }

  lemma VoterLedger(p: Cluster, hd: Headers, v: Vote)
    requires Inv(p, hd) && v in p.log && v.validator in p.nodes && v.voteType == Prevote && v.blockHash.Some?
    ensures var l := p.nodes[v.validator].ledger; |l| >= v.height && |l| > hd.heightOf(v.blockHash.value)
  {
    assert NodeOk(p, v.validator, p.nodes[v.validator], hd);
  }

  /** The exact scope of agreement: two distinct blocks can both be committed at height `h` if and
      only if one of them is outdated, that is has a header height below `h`, and some chain of
      acceptable blocks reaches `h` and passes both header heights. */
  lemma AgreementExactly(h: nat, b: Hash32, d: Hash32, hd: Headers)
    requires b != d
    ensures BothCommittable(h, b, d, hd) <==>
      && (hd.heightOf(b) < h || hd.heightOf(d) < h)
      && ChainOf(hd, h) && ChainOf(hd, hd.heightOf(b) + 1) && ChainOf(hd, hd.heightOf(d) + 1)
  {
    if BothCommittable(h, b, d, hd) { BothNeed(h, b, d, hd); }
    if (hd.heightOf(b) < h || hd.heightOf(d) < h)
      && ChainOf(hd, h) && ChainOf(hd, hd.heightOf(b) + 1) && ChainOf(hd, hd.heightOf(d) + 1) {
      var chain := LongEnough(hd, h, hd.heightOf(b) + 1, hd.heightOf(d) + 1);
      if hd.heightOf(b) < h {
        var c, xs := OutdatedBlockIsCommitted(h, b, d, hd, chain);
      } else {
        var c, xs := OutdatedBlockIsCommitted(h, d, b, hd, chain);
      }
    }
  }

  lemma LongEnough(hd: Headers, l: nat, m: nat, n: nat) returns (chain: seq<Hash32>)
    requires ChainOf(hd, l) && ChainOf(hd, m) && ChainOf(hd, n)
    ensures LedgerOk(hd, chain) && |chain| >= l && |chain| >= m && |chain| >= n
  {
    var top := if l >= m && l >= n then l else if m >= n then m else n;
    assert ChainOf(hd, top);
    chain :| LedgerOk(hd, chain) && |chain| >= top;
  }

  lemma BothNeed(h: nat, b: Hash32, d: Hash32, hd: Headers)
    requires b != d && BothCommittable(h, b, d, hd)
    ensures hd.heightOf(b) < h || hd.heightOf(d) < h
    ensures ChainOf(hd, h) && ChainOf(hd, hd.heightOf(b) + 1) && ChainOf(hd, hd.heightOf(d) + 1)
  {
    var c: Cluster, xs: seq<Action>, r: nat, q: nat :|
      && Initial(c) && Rooted(c, hd) && FewByzantine(c) && Legal(c, xs, hd)
      && SignedQuorum(Play(c, xs), Precommit, h, r, b) && SignedQuorum(Play(c, xs), Precommit, h, q, d);
    var one := CommitNeedsChain(c, xs, hd, h, r, b);
    var two := CommitNeedsChain(c, xs, hd, h, q, d);
    if hd.heightOf(b) >= h && hd.heightOf(d) >= h { CommitAgreement(c, xs, hd, h, r, q, b, d); }
  }
}
