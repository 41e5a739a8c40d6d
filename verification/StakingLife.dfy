/** The life of a validator under jailing and tombstoning. */
module StakingLife {
  import opened Basics
  import opened Staking
  import opened StakingRuns

  predicate Tombstoned(s: KeeperState, v: Address) {
    v in s.validators && s.validators[v].tombstoned
  }

  predicate OrderlyValidator(p: Params, val: StakingValidator) {
    && (val.status == Active || val.status == Jailed)
    && (val.tombstoned ==> val.status == Jailed)
    && (val.status == Active ==> val.jailedUntil.None?)
    && val.missed < if p.missedThreshold == 0 then 1 else p.missedThreshold
  }

  /** In every run validators are active or jailed, tombstoned ones are jailed, and a validator
      that is active serves no jail term. */
  predicate Orderly(s: KeeperState) {
    forall v <- s.validators.Keys :: OrderlyValidator(s.params, s.validators[v])
  }

  lemma OrderlyAt(s: KeeperState, c: Call, v: Address)
    requires Orderly(s) && v in Do(s, c).validators
    ensures OrderlyValidator(s.params, Do(s, c).validators[v])
  {
    assert v in s.validators ==> OrderlyValidator(s.params, s.validators[v]);
    match c
    case RegisterCall(_, _) =>
    case DelegateCall(_, _, _) =>
    case UndelegateCall(_, _, _, _) =>
    case EquivocationCall(_, _, _) =>
    case DowntimeCall(_, _) =>
    case UnjailCall(_, _) =>
  }

  lemma StepOrderly(s: KeeperState, c: Call)
    requires Orderly(s)
    ensures Orderly(Do(s, c))
  {
    forall v <- Do(s, c).validators.Keys ensures OrderlyValidator(s.params, Do(s, c).validators[v]) {
      OrderlyAt(s, c, v);
    }
  }

  lemma {:induction false} RunOrderly(p: Params, cs: seq<Call>)
    ensures Orderly(Run(p, cs))
  {
    if cs != [] {
      RunOrderly(p, cs[..|cs| - 1]);
      StepOrderly(Run(p, cs[..|cs| - 1]), cs[|cs| - 1]);
    }
  }

  /** The missed count of every validator stays below the threshold if and only if the
      threshold is positive. */
  lemma MissedBelowThreshold(p: Params, cs: seq<Call>, v: Address)
    requires v in Run(p, cs).validators
    ensures Run(p, cs).validators[v].missed < p.missedThreshold <==> p.missedThreshold >= 1
  {
    RunOrderly(p, cs);
    ParamsStay(p, cs);
  }

  lemma StepTombstoned(s: KeeperState, c: Call, v: Address)
    ensures Tombstoned(Do(s, c), v) <==> Tombstoned(s, v) || PunishesEquivocation(s, c, v)
  {
    match c
    case RegisterCall(_, _) =>
    case DelegateCall(_, _, _) =>
    case UndelegateCall(_, _, _, _) =>
    case EquivocationCall(_, _, _) =>
    case DowntimeCall(_, _) =>
    case UnjailCall(_, _) =>
  }

  lemma {:induction false} StaysTombstoned(s: KeeperState, cs: seq<Call>, v: Address)
    requires Orderly(s) && Tombstoned(s, v)
    ensures Orderly(RunFrom(s, cs)) && Tombstoned(RunFrom(s, cs), v)
  {
    if cs != [] {
      StaysTombstoned(s, cs[..|cs| - 1], v);
      StepOrderly(RunFrom(s, cs[..|cs| - 1]), cs[|cs| - 1]);
      StepTombstoned(RunFrom(s, cs[..|cs| - 1]), cs[|cs| - 1], v);
    }
  }

  /** Once tombstoned, a validator is tombstoned and jailed after every further call. */
  lemma TombstoneForever(p: Params, cs: seq<Call>, more: seq<Call>, v: Address)
    requires Tombstoned(Run(p, cs), v)
    ensures var s := RunFrom(Run(p, cs), more); Tombstoned(s, v) && s.validators[v].status == Jailed
  {
    RunOrderly(p, cs);
    StaysTombstoned(Run(p, cs), more, v);
  }

  /** How often `v` was punished for equivocation. */
  function Punishments(p: Params, cs: seq<Call>, v: Address): nat {
    if cs == [] then 0
    else
      Punishments(p, cs[..|cs| - 1], v)
      + if PunishesEquivocation(Run(p, cs[..|cs| - 1]), cs[|cs| - 1], v) then 1 else 0
  }

  /** That is once if `v` is tombstoned and never otherwise. */
  lemma {:induction false} PunishedOnce(p: Params, cs: seq<Call>, v: Address)
    ensures Punishments(p, cs, v) == if Tombstoned(Run(p, cs), v) then 1 else 0
  {
    if cs != [] {
      PunishedOnce(p, cs[..|cs| - 1], v);
      StepTombstoned(Run(p, cs[..|cs| - 1]), cs[|cs| - 1], v);
    }
  }

  predicate ServesUntil(s: KeeperState, v: Address, until: nat) {
    v in s.validators && s.validators[v].status == Jailed && s.validators[v].jailedUntil == Some(until)
  }

  /** A validator jailed until some height stays so under every sequence of calls that does not
      unjail it at or after that height. */
  lemma {:induction false} JailHolds(s: KeeperState, cs: seq<Call>, v: Address, until: nat)
    requires ServesUntil(s, v, until)
    requires forall c <- cs :: !(c.UnjailCall? && c.v == v && c.h >= until)
    ensures ServesUntil(RunFrom(s, cs), v, until)
  {
    if cs != [] {
      assert cs[|cs| - 1] in cs;
      JailHolds(s, cs[..|cs| - 1], v, until);
      StepServes(RunFrom(s, cs[..|cs| - 1]), cs[|cs| - 1], v, until);
    }
  }

  lemma StepServes(s: KeeperState, c: Call, v: Address, until: nat)
    requires ServesUntil(s, v, until) && !(c.UnjailCall? && c.v == v && c.h >= until)
    ensures ServesUntil(Do(s, c), v, until)
  {
    match c
    case RegisterCall(_, _) =>
    case DelegateCall(_, _, _) =>
    case UndelegateCall(_, _, _, _) =>
    case EquivocationCall(_, _, _) =>
    case DowntimeCall(_, _) =>
    case UnjailCall(_, _) =>
  }

  /** A validator jailed for downtime at height `h` is active later only if it was unjailed in
      between, at or after the end of its term. */
  lemma DowntimeServed(p: Params, cs: seq<Call>, v: Address, h: nat, more: seq<Call>)
    requires PunishesDowntime(Run(p, cs), DowntimeCall(v, h), v)
    requires var s := RunFrom(Do(Run(p, cs), DowntimeCall(v, h)), more);
      v in s.validators && s.validators[v].status == Active
    ensures exists c <- more :: c.UnjailCall? && c.v == v && c.h >= HeightAfter(h, p.downtimeJail)
  {
    ParamsStay(p, cs);
    var s := Do(Run(p, cs), DowntimeCall(v, h));
    var until := HeightAfter(h, p.downtimeJail);
    assert ServesUntil(s, v, until);
    if forall c <- more :: !(c.UnjailCall? && c.v == v && c.h >= until) {
      JailHolds(s, more, v, until);
    }
  }

  /** The jail duration is always served in full if and only if the end of the term does not
      overflow 64 bits; otherwise the validator can be unjailed too early. */
  lemma FullTermExactly(p: Params, cs: seq<Call>, v: Address, h: nat)
    requires PunishesDowntime(Run(p, cs), DowntimeCall(v, h), v) && h < TWO_64 && p.downtimeJail < TWO_64
    ensures var s := Do(Run(p, cs), DowntimeCall(v, h));
      (forall x: nat :: Unjail(s, v, x).1 ==> h + p.downtimeJail <= x) <==> h + p.downtimeJail < TWO_64
  {
    ParamsStay(p, cs);
    var s := Do(Run(p, cs), DowntimeCall(v, h));
    var until := HeightAfter(h, p.downtimeJail);
    assert ServesUntil(s, v, until) && Unjail(s, v, until).1;
  }
}
