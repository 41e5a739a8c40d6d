/** Evidence that drivers report, and what the staking keeper makes of it. */
module Penalties {
  import opened Basics
  import opened Engine
  import opened Driver
  import opened Honesty
  import opened Protocol
  import opened Staking
  import StakingLife

  /** The keeper after the reported evidence, as `handle_inbound_vote` hands it over. */
  function Punish(s: KeeperState, es: seq<(Vote, Vote)>): KeeperState {
    if es == [] then s
    else
      var e := es[|es| - 1];
      SlashEquivocation(Punish(s, es[..|es| - 1]), e.1.validator, e.0, e.1).0
  }

  predicate SameAt(s: KeeperState, t: KeeperState, a: Address) {
    (a in s.validators <==> a in t.validators) && (a in s.validators ==> s.validators[a] == t.validators[a])
  }

  lemma {:induction false} UnnamedUntouched(s: KeeperState, es: seq<(Vote, Vote)>, a: Address)
    requires forall e <- es :: e.1.validator != a
    ensures SameAt(s, Punish(s, es), a)
  {
    if es != [] {
      assert es[|es| - 1] in es;
      UnnamedUntouched(s, es[..|es| - 1], a);
    }
  }

  lemma {:induction false} NamedPunished(s: KeeperState, es: seq<(Vote, Vote)>, e: (Vote, Vote))
    requires e in es && (forall x <- es :: IsValidEquivocation(x.0, x.1)) && e.1.validator in s.validators
    ensures StakingLife.Tombstoned(Punish(s, es), e.1.validator)
  {
    var front, last := es[..|es| - 1], es[|es| - 1];
    assert es == front + [last];
    StaysKnown(s, front);
    if e in front { NamedPunished(s, front, e); }
  }

  lemma {:induction false} StaysKnown(s: KeeperState, es: seq<(Vote, Vote)>)
    ensures Punish(s, es).validators.Keys == s.validators.Keys
  {
    if es != [] { StaysKnown(s, es[..|es| - 1]); }
  }

  /** In every run, punishing what an honest node reports leaves every validator with an honest
      driver as it was, and tombstones every validator it names. */
  lemma PunishesTheGuilty(c: Cluster, xs: seq<Action>, hd: Headers, a: Address, s: KeeperState)
    requires Initial(c) && Legal(c, xs, hd) && a in Play(c, xs).nodes
    ensures var es := Play(c, xs).nodes[a].reported;
      var t := Punish(s, es);
      && (forall z <- c.nodes.Keys :: SameAt(s, t, z))
      && (forall e <- es :: e.1.validator in s.validators ==> StakingLife.Tombstoned(t, e.1.validator))
  {
    var es := Play(c, xs).nodes[a].reported;
    forall e <- es ensures IsValidEquivocation(e.0, e.1) && e.1.validator !in c.nodes {
      EvidenceNamesByzantine(c, xs, hd, a, e);
    }
    forall z <- c.nodes.Keys ensures SameAt(s, Punish(s, es), z) {
      UnnamedUntouched(s, es, z);
    }
    forall e <- es | e.1.validator in s.validators ensures StakingLife.Tombstoned(Punish(s, es), e.1.validator) {
      NamedPunished(s, es, e);
    }
  }
}
