/** What each call on the staking keeper requires, and what that means over whole runs. */
module KeeperRules {
  import opened Basics
  import opened Engine
  import opened Staking
  import opened StakingRuns
  import opened StakingLife

  // ---------------------------------------------------------------------------------
  // Single calls

  /** Registration succeeds exactly for an unknown validator with the minimal stake, and then
      records all of it as its own. */
  lemma RegisterExactly(s: KeeperState, v: Address, stake: Amount)
    ensures var (t, ok) := Register(s, v, stake);
      && (ok <==> v !in s.validators && s.params.minSelfStake <= stake)
      && (!ok ==> t == s)
      && (ok ==> t.validators == s.validators[v := StakingValidator(Active, stake, stake, stake, None, 0, false)]
                 && t.delegations == s.delegations[(v, v) := Delegation(stake, stake)] && t.queue == s.queue)
  {
  }

  /** Delegation succeeds exactly when the validator is known, neither tombstoned nor unbonded, and
      no sum overflows; then the validator's tokens and shares and the delegation rise by the
      amount, and nothing else changes. */
  lemma DelegateExactly(s: KeeperState, d: Address, v: Address, amount: Amount)
    ensures var (t, ok) := Delegate(s, d, v, amount);
      var e := if (d, v) in s.delegations then s.delegations[(d, v)] else Delegation(0, 0);
      && (ok <==> v in s.validators && !s.validators[v].tombstoned && s.validators[v].status != Unbonded
                  && s.validators[v].tokens + amount < TWO_128 && s.validators[v].shares + amount < TWO_128
                  && e.shares + amount < TWO_128 && e.balance + amount < TWO_128)
      && (ok ==> t.validators[v] == s.validators[v].(tokens := s.validators[v].tokens + amount,
                                                      shares := s.validators[v].shares + amount)
                 && t.delegations == s.delegations[(d, v) := Delegation(e.shares + amount, e.balance + amount)])
      && t.validators.Keys == s.validators.Keys && t.queue == s.queue
      && (forall w <- s.validators.Keys :: w != v ==> t.validators[w] == s.validators[w])
  {
  }

  /** Unjailing succeeds exactly for a known validator that is not tombstoned and whose term, if
      any, is over; it is active then, without a term or missed blocks. */
  lemma UnjailExactly(s: KeeperState, v: Address, height: nat)
    ensures var (t, ok) := Unjail(s, v, height);
      && (ok <==> v in s.validators && !s.validators[v].tombstoned
                  && (s.validators[v].jailedUntil.Some? ==> s.validators[v].jailedUntil.value <= height))
      && t == if ok then s.(validators := s.validators[v :=
                           s.validators[v].(status := Active, jailedUntil := None, missed := 0)]) else s
  {
  }

  /** Equivocation: refused without evidence or for an unknown validator, free of charge for a
      tombstoned one; otherwise the answer is the slash, and the validator is jailed for good. */
  lemma EquivocationExactly(s: KeeperState, v: Address, a: Vote, b: Vote)
    ensures var (t, r) := SlashEquivocation(s, v, a, b);
      var cut := if v in s.validators then s.params.equivocationSlash(s.validators[v].tokens) else 0;
      && (r.None? <==> v !in s.validators || a.validator != b.validator || a.height != b.height
                       || a.round != b.round || a.voteType != b.voteType || a.blockHash == b.blockHash)
      && (r.Some? ==> r.value == if s.validators[v].tombstoned then 0 else cut)
      && (r.None? || s.validators[v].tombstoned ==> t == s)
      && (r.Some? && !s.validators[v].tombstoned ==>
            t == s.(validators := s.validators[v := s.validators[v].(
              tokens := if cut <= s.validators[v].tokens then s.validators[v].tokens - cut else 0,
              status := Jailed, tombstoned := true)]))
  {
  }

  /** Downtime: counted up to the threshold, then slashed and jailed with the count at zero; a
      jailed or tombstoned validator is left alone. */
  lemma DowntimeExactly(s: KeeperState, v: Address, height: nat)
    requires v in s.validators
    ensures var (t, r) := SlashDowntime(s, v, height);
      var val := s.validators[v];
      var cut := s.params.downtimeSlash(val.tokens);
      if val.status == Jailed || val.tombstoned then t == s && r == Some(0)
      else if val.missed + 1 < s.params.missedThreshold
      then t == s.(validators := s.validators[v := val.(missed := val.missed + 1)]) && r == Some(0)
      else t == s.(validators := s.validators[v := val.(
             tokens := if cut <= val.tokens then val.tokens - cut else 0, status := Jailed,
             jailedUntil := Some((height + s.params.downtimeJail) % TWO_64), missed := 0)]) && r == Some(cut)
  {
  }

  // ---------------------------------------------------------------------------------
  // Runs

  /** Every validator has put in the minimal stake itself. */
  predicate Staked(p: Params, s: KeeperState) {
    forall v <- s.validators.Keys :: p.minSelfStake <= s.validators[v].minSelfDelegation
  }

  lemma StepStaked(s: KeeperState, c: Call)
    requires Staked(s.params, s)
    ensures Staked(s.params, Do(s, c))
  {
    match c
    case RegisterCall(_, _) =>
    case DelegateCall(_, _, _) =>
    case UndelegateCall(_, _, _, _) =>
    case EquivocationCall(_, _, _) =>
    case DowntimeCall(_, _) =>
    case UnjailCall(_, _) =>
  }

  /** Over every sequence of calls all validators have registered with the minimal stake. */
  lemma {:induction false} AllStaked(p: Params, cs: seq<Call>)
    ensures Staked(p, Run(p, cs))
  {
    if cs != [] {
      AllStaked(p, cs[..|cs| - 1]);
      ParamsStay(p, cs[..|cs| - 1]);
      StepStaked(Run(p, cs[..|cs| - 1]), cs[|cs| - 1]);
    }
  }

  lemma StepTombstonedStake(s: KeeperState, c: Call, v: Address)
    requires Tombstoned(s, v)
    ensures Tokens(Do(s, c), v) <= Tokens(s, v)
  {
    match c
    case RegisterCall(_, _) =>
    case DelegateCall(_, _, _) =>
    case UndelegateCall(_, _, _, _) =>
    case EquivocationCall(_, _, _) =>
    case DowntimeCall(_, _) =>
    case UnjailCall(_, _) =>
  }

  /** Nobody delegates to a tombstoned validator any more: after any further calls its stake has
      not grown, and the next delegation to it is refused and changes nothing. */
  lemma {:induction false} TombstonedGetsNothing(p: Params, cs: seq<Call>, more: seq<Call>, v: Address,
                                                 d: Address, amount: Amount)
    requires Tombstoned(Run(p, cs), v)
    ensures var s := RunFrom(Run(p, cs), more);
      Tokens(s, v) <= Tokens(Run(p, cs), v) && Delegate(s, d, v, amount) == (s, false)
  {
    TombstoneForever(p, cs, more, v);
    if more != [] {
      TombstonedGetsNothing(p, cs, more[..|more| - 1], v, d, amount);
      TombstoneForever(p, cs, more[..|more| - 1], v);
      StepTombstonedStake(RunFrom(Run(p, cs), more[..|more| - 1]), more[|more| - 1], v);
    }
  }
}
