/** Finalizing does not compare hashes. A driver precommits whichever block has a prevote quorum,
    and on a precommit quorum it writes the signatures onto whichever block its ledger holds at
    that height. This module builds the run in which an honest node finalizes another block than
    the one its signatures are for, for every two competing successors of a chain. */
module Stamping {
  import opened Basics
  import opened ValidatorSets
  import opened Engine
  import opened Driver
  import opened Honesty
  import opened Protocol
  import opened FourNodes
  import opened Staleness

  // ---------------------------------------------------------------------------------
  // What votes do to one driver

  /** Two more prevotes for the block it has prevoted: the driver precommits it. */
  lemma Follow(n: NodeState, s: Seats, w: ValSet, h: nat, r: nat, d: Hash32, l: seq<Hash32>, u: Address, z: Address)
    requires Prevoted(n, s, n.me, w, h, r, d, l) && u in All(s) && z in All(s) && n.me != u && u != z && n.me != z
    ensures var k := Tell(n, Ballot(Prevote, h, r, d, u));
      var m := Tell(k, Ballot(Prevote, h, r, d, z));
      && k.phase.Tallying? && Voting(m, s, n.me, w, h, r, map[n.me := d][u := d][z := d], d, l)
  {
    PairIsSplit(n.me, u, d);
    HearPrevote(n, s, w, h, r, map[n.me := d], map[], d, u);
    OneMoreFor(map[n.me := d][u := d], z, d);
    Wins(Tell(n, Ballot(Prevote, h, r, d, u)), s, w, h, r, map[n.me := d][u := d], d, l, z);
  }

  lemma OneMoreFor(c: Choices, z: Address, d: Hash32)
    requires z !in c
    ensures |For(c[z := d], d)| == |For(c, d)| + 1
  {
    assert For(c[z := d], d) == For(c, d) + {z};
  }

  /** The prevote that completes a quorum. */
  lemma Wins(k: NodeState, s: Seats, w: ValSet, h: nat, r: nat, c: Choices, d: Hash32, l: seq<Hash32>, z: Address)
    requires At(k, s, w, h, r, c, map[]) && k.phase.Tallying? && !k.precommitted && k.ledger == l
    requires z in All(s) && z !in c && |For(c[z := d], d)| >= 3
    ensures Voting(Tell(k, Ballot(Prevote, h, r, d, z)), s, k.me, w, h, r, c[z := d], d, l)
  {
    HearWinner(k, s, w, h, r, c, d, z);
  }

  /** The driver has precommitted `d`, holds no other precommit, and has ledger `l`. */
  ghost predicate Voting(n: NodeState, s: Seats, z: Address, w: ValSet, h: nat, r: nat, pv: Choices, d: Hash32,
                         l: seq<Hash32>) {
    && n.me == z && At(n, s, w, h, r, pv, map[z := d]) && n.phase.Tallying?
    && Ballot(Precommit, h, r, d, z) in n.sent && n.ledger == l
  }

  lemma DissentSplit(me: Address, u: Address, e: Hash32, d: Hash32)
    requires me != u && e != d
    ensures Split(map[me := e][u := d])
  {
    var c := map[me := e][u := d];
    forall f: Hash32 ensures |For(c, f)| < 3 {
      assert For(c, f) == if f == e then {me} else if f == d then {u} else {};
    }
  }

  lemma DissentStillSplit(me: Address, u: Address, z: Address, e: Hash32, d: Hash32)
    requires me != u && me != z && u != z && e != d
    ensures Split(map[me := e][u := d][z := d]) && For(map[me := e][u := d][z := d], d) == {u, z}
  {
    var c := map[me := e][u := d][z := d];
    forall f: Hash32 ensures |For(c, f)| < 3 {
      assert For(c, f) == if f == e then {me} else if f == d then {u, z} else {};
    }
  }

  /** Two prevotes for another block than its own leave a driver undecided. */
  lemma Hesitate(n: NodeState, s: Seats, w: ValSet, h: nat, r: nat, e: Hash32, d: Hash32, l: seq<Hash32>, u: Address,
                 z: Address)
    requires Prevoted(n, s, n.me, w, h, r, e, l) && e != d
    requires u in All(s) && z in All(s) && n.me != u && u != z && n.me != z
    ensures var k := Tell(n, Ballot(Prevote, h, r, d, u));
      var m := Tell(k, Ballot(Prevote, h, r, d, z));
      && k.phase.Tallying? && m.phase.Tallying? && m.me == n.me && m.ledger == l && !m.precommitted
      && At(m, s, w, h, r, map[n.me := e][u := d][z := d], map[])
  {
    DissentSplit(n.me, u, e, d);
    HearPrevote(n, s, w, h, r, map[n.me := e], map[], d, u);
    DissentStillSplit(n.me, u, z, e, d);
    HearPrevote(Tell(n, Ballot(Prevote, h, r, d, u)), s, w, h, r, map[n.me := e][u := d], map[], d, z);
  }

  /** The third one makes it precommit that block. */
  lemma GiveIn(m: NodeState, s: Seats, w: ValSet, h: nat, r: nat, e: Hash32, d: Hash32, l: seq<Hash32>,
               u: Address, z: Address, y: Address)
    requires At(m, s, w, h, r, map[m.me := e][u := d][z := d], map[]) && m.phase.Tallying? && !m.precommitted
    requires m.ledger == l
    requires e != d && {u, z, y} <= All(s) && m.me != u && m.me != z && m.me != y && u != z && u != y && z != y
    ensures Voting(Tell(m, Ballot(Prevote, h, r, d, y)), s, m.me, w, h, r, map[m.me := e][u := d][z := d][y := d], d, l)
  {
    var c := map[m.me := e][u := d][z := d];
    DissentStillSplit(m.me, u, z, e, d);
    OneMoreFor(c, y, d);
    Wins(m, s, w, h, r, c, d, l, y);
  }

  /** Two more precommits finalize the height: the signatures for `d` go onto the ledger's block. */
  lemma FinishTwo(n: NodeState, s: Seats, w: ValSet, h: nat, r: nat, pv: Choices, d: Hash32, l: seq<Hash32>,
                  u: Address, z: Address)
    requires Voting(n, s, n.me, w, h, r, pv, d, l) && h < |l|
    requires u in All(s) && z in All(s) && n.me != u && u != z && n.me != z
    ensures var k := Tell(n, Ballot(Precommit, h, r, d, u));
      var m := Tell(k, Ballot(Precommit, h, r, d, z));
      k.phase.Tallying? && m.ledger == l && h in m.stamps && m.stamps[h].certified == d
  {
    PairIsSplit(n.me, u, d);
    HearPrecommit(n, s, w, h, r, pv, map[n.me := d], d, u);
    OneMoreFor(map[n.me := d][u := d], z, d);
    FinishLast(Tell(n, Ballot(Precommit, h, r, d, u)), s, w, h, r, pv, map[n.me := d][u := d], d, z);
  }

  lemma FinishLast(k: NodeState, s: Seats, w: ValSet, h: nat, r: nat, pv: Choices, c: Choices, d: Hash32, z: Address)
    requires At(k, s, w, h, r, pv, c) && k.phase.Tallying? && h < |k.ledger|
    requires z in All(s) && z !in c && |For(c[z := d], d)| >= 3
    ensures var m := Tell(k, Ballot(Precommit, h, r, d, z));
      m.ledger == k.ledger && h in m.stamps && m.stamps[h].certified == d
  {
    HearFinal(k, s, w, h, r, pv, c, d, z);
  }

  // ---------------------------------------------------------------------------------
  // The run

  /** The honest drivers have prevoted: `x` for `e`, the others for `d`. */
  ghost predicate Shown(c: Cluster, s: Seats, w: ValSet, h: nat, d: Hash32, e: Hash32, chain: seq<Hash32>) {
    && Ordered(s) && c.vals == Plain(s) && c.nodes.Keys == {s.b, s.x, s.y}
    && Prevoted(c.nodes[s.x], s, s.x, w, h, 0, e, chain + [e])
    && Prevoted(c.nodes[s.y], s, s.y, w, h, 0, d, chain + [d])
    && Prevoted(c.nodes[s.b], s, s.b, w, h, 0, d, chain + [d])
    && Ballot(Prevote, h, 0, d, s.y) in c.log && Ballot(Prevote, h, 0, d, s.b) in c.log
  }

  /** The Byzantine validator has signed both votes for `d`. */
  ghost predicate Divided(c: Cluster, s: Seats, w: ValSet, h: nat, d: Hash32, e: Hash32, chain: seq<Hash32>) {
    && Shown(c, s, w, h, d, e, chain)
    && Ballot(Prevote, h, 0, d, s.a) in c.log && Ballot(Precommit, h, 0, d, s.a) in c.log
  }

  lemma NextApplies(hd: Headers, chain: seq<Hash32>, h: nat, r: nat, b: Hash32)
    requires |chain| == h && Succeeds(hd, chain, b)
    ensures chain[..h] == chain
    ensures ApplyProposal(chain[..h], Announce(hd, h, r, b, true).p) == Some(chain + [b])
  {
    assert chain[..h] == chain;
  }

  /** The three drivers make the same attempt; `x` is shown `e`, the others `d`. */
  lemma ThreePrevotes(c: Cluster, s: Seats, v: ValSet, w: ValSet, h: nat, d: Hash32, e: Hash32, hd: Headers,
                      chain: seq<Hash32>)
      returns (xs: seq<Action>)
    requires LedgerOk(hd, chain) && |chain| == h && Succeeds(hd, chain, d) && Succeeds(hd, chain, e)
    requires Ordered(s) && c.vals == Plain(s) && c.nodes.Keys == {s.b, s.x, s.y}
    requires v.validators != [] && Select(v) == (w, 0) && w.validators != []
    requires forall z <- {s.b, s.x, s.y} :: Ready(c.nodes[z], s, z, v, h, 0) && c.nodes[z].ledger == chain
    requires hd.proposerOf(d) == hd.proposerOf(e) == w.validators[0].address == s.a
    ensures Legal(c, xs, hd) && Shown(Play(c, xs), s, w, h, d, e, chain)
  {
    NextApplies(hd, chain, h, 0, d);
    NextApplies(hd, chain, h, 0, e);
    var nx, ny, nb;
    xs, nx := PlayPrevote(c, [], s, s.x, v, w, 0, h, 0, e, true, chain, h, hd);
    xs, ny := PlayPrevote(c, xs, s, s.y, v, w, 0, h, 0, d, true, chain, h, hd);
    xs, nb := PlayPrevote(c, xs, s, s.b, v, w, 0, h, 0, d, true, chain, h, hd);
  }

  lemma Divide(h: nat, d: Hash32, e: Hash32, hd: Headers, chain: seq<Hash32>)
      returns (c: Cluster, xs: seq<Action>, s: Seats, w: ValSet)
    requires LedgerOk(hd, chain) && |chain| == h && Succeeds(hd, chain, d) && Succeeds(hd, chain, e)
    requires hd.proposerOf(d) == hd.proposerOf(e)
    ensures Initial(c) && Rooted(c, hd) && FewByzantine(c) && Legal(c, xs, hd)
    ensures Divided(Play(c, xs), s, w, h, d, e, chain)
  {
    var p := hd.proposerOf(d);
    s := Seats(p, p + 1, p + 2, p + 3);
    var v := Four(s, 20, 0, 0);
    w := Four(s, 17, 1, 1);
    SelectFirst(s, 20, 0, 0);
    c := StartCluster(s, v, chain);
    StartFacts(s, v, chain, hd);
    xs := ThreePrevotes(c, s, v, w, h, d, e, hd, chain);
    xs := AddByzantine(c, xs, s, w, h, d, e, chain, hd);
  }

  lemma AddByzantine(c: Cluster, xs: seq<Action>, s: Seats, w: ValSet, h: nat, d: Hash32, e: Hash32,
                     chain: seq<Hash32>, hd: Headers)
      returns (ys: seq<Action>)
    requires Legal(c, xs, hd) && Shown(Play(c, xs), s, w, h, d, e, chain)
    ensures Legal(c, ys, hd) && Divided(Play(c, ys), s, w, h, d, e, chain)
  {
    ys := PlayByzantine(c, xs, Ballot(Prevote, h, 0, d, s.a), hd);
    ys := PlayByzantine(c, ys, Ballot(Precommit, h, 0, d, s.a), hd);
  }

  function Trio(x: Address, y: Address, z: Address, d: Hash32): Choices {
    map[x := d][y := d][z := d]
  }

  /** The prevotes and precommits for `d` of all but `x` are signed. */
  ghost predicate Cast(c: Cluster, s: Seats, h: nat, d: Hash32) {
    forall z <- {s.a, s.b, s.y} :: Ballot(Prevote, h, 0, d, z) in c.log && Ballot(Precommit, h, 0, d, z) in c.log
  }

  /** `y` and `b` have precommitted `d`, `x` still has only its own vote. */
  ghost predicate Decided(c: Cluster, s: Seats, w: ValSet, h: nat, d: Hash32, e: Hash32, chain: seq<Hash32>) {
    && Ordered(s) && c.vals == Plain(s) && c.nodes.Keys == {s.b, s.x, s.y} && Cast(c, s, h, d)
    && Prevoted(c.nodes[s.x], s, s.x, w, h, 0, e, chain + [e])
    && Voting(c.nodes[s.y], s, s.y, w, h, 0, Trio(s.y, s.b, s.a, d), d, chain + [d])
  }

  /** Driver `z` hears the prevotes of `u` and of the Byzantine validator. */
  lemma DecideOne(c: Cluster, xs: seq<Action>, s: Seats, z: Address, u: Address, w: ValSet, h: nat, d: Hash32,
                  l: seq<Hash32>, hd: Headers) returns (ys: seq<Action>, m: NodeState)
    requires Legal(c, xs, hd) && z in Play(c, xs).nodes && Prevoted(Play(c, xs).nodes[z], s, z, w, h, 0, d, l)
    requires u in All(s) && z != u && u != s.a && z != s.a
    requires Ballot(Prevote, h, 0, d, u) in Play(c, xs).log && Ballot(Prevote, h, 0, d, s.a) in Play(c, xs).log
    ensures Legal(c, ys, hd) && Play(c, ys).vals == Play(c, xs).vals && Play(c, xs).log <= Play(c, ys).log
    ensures Play(c, ys).nodes == Play(c, xs).nodes[z := m] && Ballot(Precommit, h, 0, d, z) in Play(c, ys).log
    ensures Voting(m, s, z, w, h, 0, Trio(z, u, s.a, d), d, l)
  {
    var n := Play(c, xs).nodes[z];
    Follow(n, s, w, h, 0, d, l, u, s.a);
    ys := PlayTwoVotes(c, xs, z, Ballot(Prevote, h, 0, d, u), Ballot(Prevote, h, 0, d, s.a), hd);
    m := Tell(Tell(n, Ballot(Prevote, h, 0, d, u)), Ballot(Prevote, h, 0, d, s.a));
  }

  lemma Decide(c: Cluster, xs: seq<Action>, s: Seats, w: ValSet, h: nat, d: Hash32, e: Hash32, chain: seq<Hash32>,
               hd: Headers)
      returns (ys: seq<Action>)
    requires Legal(c, xs, hd) && Divided(Play(c, xs), s, w, h, d, e, chain)
    ensures Legal(c, ys, hd) && Decided(Play(c, ys), s, w, h, d, e, chain)
  {
    var m, k;
    ys, m := DecideOne(c, xs, s, s.y, s.b, w, h, d, chain + [d], hd);
    ys, k := DecideOne(c, ys, s, s.b, s.y, w, h, d, chain + [d], hd);
  }

  /** `y` has finalized its own block. */
  ghost predicate Settled(c: Cluster, s: Seats, w: ValSet, h: nat, d: Hash32, e: Hash32, chain: seq<Hash32>) {
    && Ordered(s) && c.nodes.Keys == {s.b, s.x, s.y} && h == |chain| && Cast(c, s, h, d)
    && Prevoted(c.nodes[s.x], s, s.x, w, h, 0, e, chain + [e])
    && Finalized(c, s.y, h) && FinalBlock(c, s.y, h) == d && FinalHash(c, s.y, h) == d
  }

  lemma SettleMajority(c: Cluster, xs: seq<Action>, s: Seats, w: ValSet, h: nat, d: Hash32, e: Hash32,
                       chain: seq<Hash32>, hd: Headers)
      returns (ys: seq<Action>)
    requires Legal(c, xs, hd) && Decided(Play(c, xs), s, w, h, d, e, chain) && h == |chain|
    ensures Legal(c, ys, hd) && Settled(Play(c, ys), s, w, h, d, e, chain)
  {
    FinishTwo(Play(c, xs).nodes[s.y], s, w, h, 0, Trio(s.y, s.b, s.a, d), d, chain + [d], s.b, s.a);
    ys := PlayTwoVotes(c, xs, s.y, Ballot(Precommit, h, 0, d, s.b), Ballot(Precommit, h, 0, d, s.a), hd);
  }

  lemma Convince(c: Cluster, xs: seq<Action>, s: Seats, w: ValSet, h: nat, d: Hash32, e: Hash32, chain: seq<Hash32>,
                 hd: Headers)
      returns (ys: seq<Action>)
    requires Legal(c, xs, hd) && Settled(Play(c, xs), s, w, h, d, e, chain) && d != e
    ensures Legal(c, ys, hd)
    ensures var p := Play(c, ys);
      && Finalized(p, s.x, h) && FinalBlock(p, s.x, h) == e && FinalHash(p, s.x, h) == d
      && Finalized(p, s.y, h) && FinalBlock(p, s.y, h) == d && FinalHash(p, s.y, h) == d
  {
    var n := Play(c, xs).nodes[s.x];
    var l := chain + [e];
    Hesitate(n, s, w, h, 0, e, d, l, s.y, s.b);
    ys := PlayTwoVotes(c, xs, s.x, Ballot(Prevote, h, 0, d, s.y), Ballot(Prevote, h, 0, d, s.b), hd);
    var m := Play(c, ys).nodes[s.x];
    GiveIn(m, s, w, h, 0, e, d, l, s.y, s.b, s.a);
    ys := PlayVote(c, ys, s.x, Ballot(Prevote, h, 0, d, s.a), hd);
    var k := Play(c, ys).nodes[s.x];
    FinishTwo(k, s, w, h, 0, map[s.x := e][s.y := d][s.b := d][s.a := d], d, l, s.y, s.b);
    ys := PlayTwoVotes(c, ys, s.x, Ballot(Precommit, h, 0, d, s.y), Ballot(Precommit, h, 0, d, s.b), hd);
  }

  /** For every chain and every two competing successors of it by one proposer there is a run, with
      less than a third Byzantine power, in which two honest nodes finalize different blocks at the
      same height: both hold signatures for `d`, but one of them has them on its block `e`. */
  lemma DifferentFinalizedBlocks(h: nat, d: Hash32, e: Hash32, hd: Headers, chain: seq<Hash32>)
      returns (c: Cluster, xs: seq<Action>, x: Address, y: Address)
    requires LedgerOk(hd, chain) && |chain| == h && Succeeds(hd, chain, d) && Succeeds(hd, chain, e)
    requires hd.proposerOf(d) == hd.proposerOf(e) && d != e
    ensures Initial(c) && Rooted(c, hd) && FewByzantine(c) && Legal(c, xs, hd)
    ensures var p := Play(c, xs);
      && Finalized(p, x, h) && FinalBlock(p, x, h) == e && FinalHash(p, x, h) == d
      && Finalized(p, y, h) && FinalBlock(p, y, h) == d && FinalHash(p, y, h) == d
  {
    var s, w;
    c, xs, s, w := Divide(h, d, e, hd, chain);
    xs := Decide(c, xs, s, w, h, d, e, chain, hd);
    xs := SettleMajority(c, xs, s, w, h, d, e, chain, hd);
    xs := Convince(c, xs, s, w, h, d, e, chain, hd);
    x, y := s.x, s.y;
  }
}
