/** What every sequence of calls does to the stake. */
module StakingRuns {
  import opened Basics
  import opened Sums
  import opened Engine
  import opened Staking

  datatype Call =
    | RegisterCall(v: Address, stake: Amount)
    | DelegateCall(d: Address, v: Address, amount: Amount)
    | UndelegateCall(d: Address, v: Address, amount: Amount, h: nat)
    | EquivocationCall(v: Address, a: Vote, b: Vote)
    | DowntimeCall(v: Address, h: nat)
    | UnjailCall(v: Address, h: nat)

  function Do(s: KeeperState, c: Call): KeeperState {
    match c
    case RegisterCall(v, stake) => Register(s, v, stake).0
    case DelegateCall(d, v, amount) => Delegate(s, d, v, amount).0
    case UndelegateCall(d, v, amount, h) => Undelegate(s, d, v, amount, h).0
    case EquivocationCall(v, a, b) => SlashEquivocation(s, v, a, b).0
    case DowntimeCall(v, h) => SlashDowntime(s, v, h).0
    case UnjailCall(v, h) => Unjail(s, v, h).0
  }

  function RunFrom(s: KeeperState, cs: seq<Call>): KeeperState {
    if cs == [] then s else Do(RunFrom(s, cs[..|cs| - 1]), cs[|cs| - 1])
  }

  function Run(p: Params, cs: seq<Call>): KeeperState {
    RunFrom(NewKeeper(p), cs)
  }

  // ---------------------------------------------------------------------------------
  // Quantities

  function Tokens(s: KeeperState, v: Address): nat {
    if v in s.validators then s.validators[v].tokens else 0
  }

  function Shares(s: KeeperState, v: Address): nat {
    if v in s.validators then s.validators[v].shares else 0
  }

  function Held(s: KeeperState, key: (Address, Address)): nat {
    if key in s.delegations then s.delegations[key].shares else 0
  }

  function KeysTo(s: KeeperState, v: Address): set<(Address, Address)> {
    set key <- s.delegations.Keys | key.1 == v
  }

  /** The shares of all delegations to `v`. */
  ghost function Delegated(s: KeeperState, v: Address): nat {
    Sum(KeysTo(s, v), key => Held(s, key))
  }

  /** What is queued for unbonding from `v`. */
  function Queued(q: seq<UnbondingEntry>, v: Address): nat {
    if q == [] then 0
    else Queued(q[..|q| - 1], v) + if q[|q| - 1].validator == v then q[|q| - 1].amount else 0
  }

  lemma DelegatedSet(s: KeeperState, t: KeeperState, key: (Address, Address), e: Delegation, v: Address)
    requires t.delegations == s.delegations[key := e]
    ensures if key.1 == v then Delegated(t, v) + Held(s, key) == Delegated(s, v) + e.shares
            else Delegated(t, v) == Delegated(s, v)
  {
    var f, g := (k: (Address, Address)) => Held(s, k), (k: (Address, Address)) => Held(t, k);
    if key.1 != v {
      assert KeysTo(t, v) == KeysTo(s, v);
      SumSame(KeysTo(s, v), f, g);
    } else if key in s.delegations {
      assert KeysTo(t, v) == KeysTo(s, v);
      SumUpdate(KeysTo(s, v), f, g, key);
    } else {
      assert KeysTo(t, v) == KeysTo(s, v) + {key};
      SumAdd(KeysTo(s, v), g, key);
      SumSame(KeysTo(s, v), f, g);
    }
  }

  lemma DelegatedSame(s: KeeperState, t: KeeperState, v: Address)
    requires t.delegations == s.delegations
    ensures Delegated(t, v) == Delegated(s, v)
  {
    assert KeysTo(t, v) == KeysTo(s, v);
    SumSame(KeysTo(s, v), k => Held(s, k), k => Held(t, k));
  }

  lemma HeldBelow(s: KeeperState, d: Address, v: Address)
    ensures Held(s, (d, v)) <= Delegated(s, v)
  {
    if (d, v) in s.delegations { SumElement(KeysTo(s, v), k => Held(s, k), (d, v)); }
  }

  // ---------------------------------------------------------------------------------
  // What one call adds, removes and loses

  /** The stake a call puts on `v`. */
  function PutBy(s: KeeperState, c: Call, v: Address): nat {
    if c.RegisterCall? && c.v == v && Register(s, v, c.stake).1 then c.stake
    else if c.DelegateCall? && c.v == v && Delegate(s, c.d, v, c.amount).1 then c.amount
    else 0
  }

  /** The call finds `v` punishable for equivocation. */
  predicate PunishesEquivocation(s: KeeperState, c: Call, v: Address) {
    && c.EquivocationCall? && c.v == v && IsValidEquivocation(c.a, c.b)
    && v in s.validators && !s.validators[v].tombstoned
  }

  /** The call makes `v` reach the number of missed blocks. */
  predicate PunishesDowntime(s: KeeperState, c: Call, v: Address) {
    && c.DowntimeCall? && c.v == v && v in s.validators && !s.validators[v].tombstoned
    && s.validators[v].status != Jailed && s.validators[v].missed + 1 >= s.params.missedThreshold
  }

  function Min(a: nat, b: nat): nat {
    if a <= b then a else b
  }

  /** The stake of `v` that a call slashes. */
  function SlashedBy(s: KeeperState, c: Call, v: Address): nat {
    if PunishesEquivocation(s, c, v) then Min(Tokens(s, v), s.params.equivocationSlash(Tokens(s, v)))
    else if PunishesDowntime(s, c, v) then Min(Tokens(s, v), s.params.downtimeSlash(Tokens(s, v)))
    else 0
  }

  /** What an undelegation takes from the delegation although it fails: the balance covers the
      amount, the slashed tokens of the validator do not. */
  function LostBy(s: KeeperState, c: Call, v: Address): nat {
    if c.UndelegateCall? && c.v == v && (c.d, v) in s.delegations
      && Tokens(s, v) < c.amount <= s.delegations[(c.d, v)].balance then c.amount else 0
  }

  // ---------------------------------------------------------------------------------
  // Invariant of one step

  /** Shares are balances, and delegations are to registered validators. */
  predicate Fine(s: KeeperState) {
    forall key <- s.delegations.Keys :: s.delegations[key].shares == s.delegations[key].balance && key.1 in s.validators
  }

  /** The books of `v`: stake put in is bonded, queued or slashed; shares are tokens plus what
      was slashed, and delegations plus what was lost. */
  ghost predicate Books(s: KeeperState, v: Address, put: nat, slashed: nat, lost: nat) {
    && Tokens(s, v) + Queued(s.queue, v) + slashed == put
    && Shares(s, v) == Tokens(s, v) + slashed
    && Shares(s, v) == Delegated(s, v) + lost
  }

  /** A delegation does not overflow the validator's shares after its tokens were raised. */
  predicate Fits(s: KeeperState, c: Call) {
    c.DelegateCall? && Delegable(s, c.v) ==>
      Shares(s, c.v) + c.amount < TWO_128 || Tokens(s, c.v) + c.amount >= TWO_128
  }

  lemma RegisterBooks(s: KeeperState, w: Address, stake: Amount, v: Address, put: nat, slashed: nat, lost: nat)
    requires Fine(s) && Books(s, v, put, slashed, lost)
    ensures var t := Register(s, w, stake).0;
      Fine(t) && Books(t, v, put + PutBy(s, RegisterCall(w, stake), v), slashed, lost)
  {
    var (t, ok) := Register(s, w, stake);
    if ok {
      assert (w, w) !in s.delegations;
      DelegatedSet(s, t, (w, w), Delegation(stake, stake), v);
      if v == w {
        assert KeysTo(s, v) == {};
      }
    }
  }

  lemma DelegateBooks(s: KeeperState, d: Address, w: Address, amount: Amount, v: Address, put: nat,
                      slashed: nat, lost: nat)
    requires Fine(s) && Books(s, v, put, slashed, lost) && Fits(s, DelegateCall(d, w, amount))
    requires Delegated(s, w) <= Shares(s, w)
    ensures var t := Delegate(s, d, w, amount).0;
      Fine(t) && Books(t, v, put + PutBy(s, DelegateCall(d, w, amount), v), slashed, lost)
  {
    var (t, ok) := Delegate(s, d, w, amount);
    HeldBelow(s, d, w);
    if Delegable(s, w) && Tokens(s, w) + amount < TWO_128 {
      var e := Delegation(Held(s, (d, w)) + amount, Held(s, (d, w)) + amount);
      assert t.delegations == s.delegations[(d, w) := e];
      DelegatedSet(s, t, (d, w), e, v);
    }
  }

  /** Lowering a validator whose shares suffice succeeds if its tokens do. */
  lemma LowerEffect(s: KeeperState, w: Address, amount: Amount, v: Address)
    requires w in s.validators && amount <= Shares(s, w)
    ensures var (t, ok) := LowerValidator(s, w, amount);
      && (ok <==> amount <= Tokens(s, w))
      && t.delegations == s.delegations && t.queue == s.queue && t.params == s.params
      && t.validators.Keys == s.validators.Keys
      && Tokens(t, v) + (if ok && v == w then amount else 0) == Tokens(s, v)
      && Shares(t, v) + (if ok && v == w then amount else 0) == Shares(s, v)
  {
  }

  /** What undelegation does when the balance covers the amount. */
  lemma CoveredUndelegation(s: KeeperState, d: Address, w: Address, amount: Amount, h: nat, v: Address)
    requires Fine(s) && Delegated(s, w) <= Shares(s, w)
    requires (d, w) in s.delegations && amount <= s.delegations[(d, w)].balance
    ensures var (t, r) := Undelegate(s, d, w, amount, h);
      var rest := s.delegations[(d, w)].balance - amount;
      var moved := if r.Some? && v == w then amount else 0;
      && (r.Some? <==> amount <= Tokens(s, w))
      && t.delegations == s.delegations[(d, w) := Delegation(rest, rest)]
      && t.validators.Keys == s.validators.Keys
      && Tokens(t, v) + moved == Tokens(s, v) && Shares(t, v) + moved == Shares(s, v)
      && t.queue == (if r.Some? then s.queue + [r.value] else s.queue)
      && (r.Some? ==> r.value == UnbondingEntry(d, w, h, HeightAfter(h, s.params.unbondingPeriod), amount))
  {
    var rest := s.delegations[(d, w)].balance - amount;
    HeldBelow(s, d, w);
    LowerEffect(SetDelegation(s, d, w, Delegation(rest, rest)), w, amount, v);
  }

  lemma UndelegateBooks(s: KeeperState, d: Address, w: Address, amount: Amount, h: nat, v: Address, put: nat,
                        slashed: nat, lost: nat)
    requires Fine(s) && Books(s, v, put, slashed, lost)
    requires Delegated(s, w) <= Shares(s, w)
    ensures var t := Undelegate(s, d, w, amount, h).0;
      Fine(t) && Books(t, v, put, slashed, lost + LostBy(s, UndelegateCall(d, w, amount, h), v))
  {
    if (d, w) in s.delegations && amount <= s.delegations[(d, w)].balance {
      var (t, r) := Undelegate(s, d, w, amount, h);
      var rest := s.delegations[(d, w)].balance - amount;
      CoveredUndelegation(s, d, w, amount, h, v);
      DelegatedSet(s, t, (d, w), Delegation(rest, rest), v);
      if r.Some? { assert t.queue[..|s.queue|] == s.queue; }
    }
  }

  lemma OtherBooks(s: KeeperState, c: Call, v: Address, put: nat, slashed: nat, lost: nat)
    requires Fine(s) && Books(s, v, put, slashed, lost)
    requires c.EquivocationCall? || c.DowntimeCall? || c.UnjailCall?
    ensures Fine(Do(s, c)) && Books(Do(s, c), v, put, slashed + SlashedBy(s, c, v), lost)
  {
    DelegatedSame(s, Do(s, c), v);
  }

  lemma StepBooks(s: KeeperState, c: Call, v: Address, put: nat, slashed: nat, lost: nat)
    requires Fine(s) && Books(s, v, put, slashed, lost) && Fits(s, c) && Delegated(s, c.v) <= Shares(s, c.v)
    ensures Fine(Do(s, c))
    ensures Books(Do(s, c), v, put + PutBy(s, c, v), slashed + SlashedBy(s, c, v), lost + LostBy(s, c, v))
  {
    match c
    case RegisterCall(w, stake) => RegisterBooks(s, w, stake, v, put, slashed, lost);
    case DelegateCall(d, w, amount) => DelegateBooks(s, d, w, amount, v, put, slashed, lost);
    case UndelegateCall(d, w, amount, h) => UndelegateBooks(s, d, w, amount, h, v, put, slashed, lost);
    case EquivocationCall(_, _, _) => OtherBooks(s, c, v, put, slashed, lost);
    case DowntimeCall(_, _) => OtherBooks(s, c, v, put, slashed, lost);
    case UnjailCall(_, _) => OtherBooks(s, c, v, put, slashed, lost);
  }

  // ---------------------------------------------------------------------------------
  // Runs

  function Put(p: Params, cs: seq<Call>, v: Address): nat {
    if cs == [] then 0 else Put(p, cs[..|cs| - 1], v) + PutBy(Run(p, cs[..|cs| - 1]), cs[|cs| - 1], v)
  }

  function SlashedOf(p: Params, cs: seq<Call>, v: Address): nat {
    if cs == [] then 0 else SlashedOf(p, cs[..|cs| - 1], v) + SlashedBy(Run(p, cs[..|cs| - 1]), cs[|cs| - 1], v)
  }

  function LostOf(p: Params, cs: seq<Call>, v: Address): nat {
    if cs == [] then 0 else LostOf(p, cs[..|cs| - 1], v) + LostBy(Run(p, cs[..|cs| - 1]), cs[|cs| - 1], v)
  }

  predicate AllFit(p: Params, cs: seq<Call>) {
    cs != [] ==> AllFit(p, cs[..|cs| - 1]) && Fits(Run(p, cs[..|cs| - 1]), cs[|cs| - 1])
  }

  ghost predicate AllBooked(p: Params, cs: seq<Call>) {
    && Fine(Run(p, cs))
    && forall v: Address :: Books(Run(p, cs), v, Put(p, cs, v), SlashedOf(p, cs, v), LostOf(p, cs, v))
  }

  /** Stake accounting: over every sequence of calls whose delegations fit, all stake put on a
      validator is bonded, queued or slashed, its shares exceed its tokens by what was slashed,
      and exceed its delegations by what failed undelegations lost. */
  lemma {:induction false} Accounting(p: Params, cs: seq<Call>)
    requires AllFit(p, cs)
    ensures AllBooked(p, cs)
  {
    if cs == [] {
      forall v: Address ensures Books(NewKeeper(p), v, 0, 0, 0) {
        assert KeysTo(NewKeeper(p), v) == {};
      }
    } else {
      Accounting(p, cs[..|cs| - 1]);
      AccountingStep(p, cs);
    }
  }

  lemma AccountingStep(p: Params, cs: seq<Call>)
    requires cs != [] && AllBooked(p, cs[..|cs| - 1]) && Fits(Run(p, cs[..|cs| - 1]), cs[|cs| - 1])
    ensures AllBooked(p, cs)
  {
    AccountingAt(p, cs, cs[|cs| - 1].v);
    forall v: Address ensures Books(Run(p, cs), v, Put(p, cs, v), SlashedOf(p, cs, v), LostOf(p, cs, v)) {
      AccountingAt(p, cs, v);
    }
  }

  lemma AccountingAt(p: Params, cs: seq<Call>, v: Address)
    requires cs != [] && AllBooked(p, cs[..|cs| - 1]) && Fits(Run(p, cs[..|cs| - 1]), cs[|cs| - 1])
    ensures Fine(Run(p, cs)) && Books(Run(p, cs), v, Put(p, cs, v), SlashedOf(p, cs, v), LostOf(p, cs, v))
  {
    var front, c := cs[..|cs| - 1], cs[|cs| - 1];
    var s := Run(p, front);
    assert Books(s, c.v, Put(p, front, c.v), SlashedOf(p, front, c.v), LostOf(p, front, c.v));
    assert Books(s, v, Put(p, front, v), SlashedOf(p, front, v), LostOf(p, front, v));
    StepBooks(s, c, v, Put(p, front, v), SlashedOf(p, front, v), LostOf(p, front, v));
  }

  /** Exactly the delegations that do not fit break the books of a 128-bit validator: they fail
      after the tokens were raised, so that stake appears which nobody put in. */
  lemma UnfitBreaksBooks(s: KeeperState, c: Call, put: nat, slashed: nat, lost: nat)
    requires Fine(s) && c.DelegateCall? && Books(s, c.v, put, slashed, lost) && Shares(s, c.v) < TWO_128
    ensures Fits(s, c) <==> Books(Do(s, c), c.v, put + PutBy(s, c, c.v), slashed, lost)
  {
    if Fits(s, c) {
      StepBooks(s, c, c.v, put, slashed, lost);
    } else {
      DelegatedSame(s, Do(s, c), c.v);
    }
  }

  /** All stake offered to `v`, accepted or not. */
  function Offered(cs: seq<Call>, v: Address): nat {
    if cs == [] then 0
    else
      var c := cs[|cs| - 1];
      Offered(cs[..|cs| - 1], v)
      + if c.RegisterCall? && c.v == v then c.stake else if c.DelegateCall? && c.v == v then c.amount else 0
  }

  lemma {:induction false} PutIsOffered(p: Params, cs: seq<Call>, v: Address)
    ensures Put(p, cs, v) <= Offered(cs, v)
  {
    if cs != [] { PutIsOffered(p, cs[..|cs| - 1], v); }
  }

  /** While less than 2^128 is offered to each validator, every delegation fits. */
  lemma {:induction false} SmallStakesFit(p: Params, cs: seq<Call>)
    requires forall v: Address :: Offered(cs, v) < TWO_128
    ensures AllFit(p, cs)
  {
    if cs != [] {
      var front, c := cs[..|cs| - 1], cs[|cs| - 1];
      assert forall v: Address :: Offered(front, v) <= Offered(cs, v);
      SmallStakesFit(p, front);
      Accounting(p, front);
      assert Books(Run(p, front), c.v, Put(p, front, c.v), SlashedOf(p, front, c.v), LostOf(p, front, c.v));
      PutIsOffered(p, front, c.v);
      assert Offered(cs, c.v) < TWO_128;
    }
  }

  /** A validator that never lost stake to slashing has lost no delegation either: its tokens,
      its shares and its delegations are equal. */
  lemma {:induction false} NeverSlashed(p: Params, cs: seq<Call>, v: Address)
    requires AllFit(p, cs) && SlashedOf(p, cs, v) == 0
    ensures LostOf(p, cs, v) == 0
    ensures var s := Run(p, cs); Tokens(s, v) == Shares(s, v) == Delegated(s, v)
  {
    Accounting(p, cs);
    assert Books(Run(p, cs), v, Put(p, cs, v), SlashedOf(p, cs, v), LostOf(p, cs, v));
    if cs != [] {
      var front, c := cs[..|cs| - 1], cs[|cs| - 1];
      var s := Run(p, front);
      NeverSlashed(p, front, v);
      Accounting(p, front);
      if c.UndelegateCall? && (c.d, v) in s.delegations {
        HeldBelow(s, c.d, v);
        assert s.delegations[(c.d, v)].balance <= Tokens(s, v);
      }
    }
  }

  /** Undelegation succeeds exactly when both the balance and the validator's tokens cover the
      amount. Otherwise it either changes nothing or, when only the tokens fall short, lowers
      the delegation and nothing else. */
  lemma UndelegateExactly(p: Params, cs: seq<Call>, d: Address, v: Address, amount: Amount, h: nat)
    requires AllFit(p, cs)
    ensures var s := Run(p, cs);
      var (t, r) := Undelegate(s, d, v, amount, h);
      var covered := (d, v) in s.delegations && amount <= s.delegations[(d, v)].balance;
      && (r.Some? <==> covered && amount <= Tokens(s, v))
      && (r.Some? ==> t.queue == s.queue + [r.value])
      && (r.Some? ==> r.value == UnbondingEntry(d, v, h, HeightAfter(h, p.unbondingPeriod), amount))
      && (r.None? ==> t.validators == s.validators && t.queue == s.queue)
      && (covered ==> var rest := s.delegations[(d, v)].balance - amount;
            t.delegations == s.delegations[(d, v) := Delegation(rest, rest)])
      && (!covered ==> t == s)
  {
    Accounting(p, cs);
    ParamsStay(p, cs);
    assert Books(Run(p, cs), v, Put(p, cs, v), SlashedOf(p, cs, v), LostOf(p, cs, v));
    UndelegateCases(Run(p, cs), d, v, amount, h);
  }

  lemma UndelegateCases(s: KeeperState, d: Address, v: Address, amount: Amount, h: nat)
    requires Fine(s) && Delegated(s, v) <= Shares(s, v)
    ensures var (t, r) := Undelegate(s, d, v, amount, h);
      var covered := (d, v) in s.delegations && amount <= s.delegations[(d, v)].balance;
      && (r.Some? <==> covered && amount <= Tokens(s, v))
      && (r.Some? ==> t.queue == s.queue + [r.value])
      && (r.Some? ==> r.value == UnbondingEntry(d, v, h, HeightAfter(h, s.params.unbondingPeriod), amount))
      && (r.None? ==> t.validators == s.validators && t.queue == s.queue)
      && (covered ==> var rest := s.delegations[(d, v)].balance - amount;
            t.delegations == s.delegations[(d, v) := Delegation(rest, rest)])
      && (!covered ==> t == s)
  {
    if (d, v) in s.delegations && amount <= s.delegations[(d, v)].balance {
      CoveredUndelegation(s, d, v, amount, h, v);
    }
  }

  /** So with a validator that was never slashed it succeeds exactly when the balance does. */
  lemma UndelegateUnslashed(p: Params, cs: seq<Call>, d: Address, v: Address, amount: Amount, h: nat)
    requires AllFit(p, cs) && SlashedOf(p, cs, v) == 0
    ensures var s := Run(p, cs);
      Undelegate(s, d, v, amount, h).1.Some? <==> (d, v) in s.delegations && amount <= s.delegations[(d, v)].balance
  {
    UndelegateExactly(p, cs, d, v, amount, h);
    NeverSlashed(p, cs, v);
    Accounting(p, cs);
    HeldBelow(Run(p, cs), d, v);
  }

  /** A delegation can be lost: a validator registers, is slashed for equivocation, and takes its
      stake back. It gets nothing, and its delegation is empty afterwards. */
  lemma DelegationLost(p: Params, v: Address, stake: Amount, a: Vote, b: Vote, h: nat)
    requires IsValidEquivocation(a, b) && p.minSelfStake <= stake && 0 < stake && 0 < p.equivocationSlash(stake)
    ensures var cs := [RegisterCall(v, stake), EquivocationCall(v, a, b), UndelegateCall(v, v, stake, h)];
      var s := Run(p, cs[..2]);
      && s.delegations == map[(v, v) := Delegation(stake, stake)] && Undelegate(s, v, v, stake, h).1.None?
      && Run(p, cs).delegations == map[(v, v) := Delegation(0, 0)] && Run(p, cs).queue == []
      && LostOf(p, cs, v) == stake
  {
    var register, slash, take := RegisterCall(v, stake), EquivocationCall(v, a, b), UndelegateCall(v, v, stake, h);
    var cs := [register, slash, take];
    assert cs[..2] == [register, slash] && [register, slash][..1] == [register] && [register][..0] == [];
    assert Run(p, [register]) == Register(Run(p, []), v, stake).0;
    assert Run(p, [register, slash]) == SlashEquivocation(Run(p, [register]), v, a, b).0;
    assert Run(p, cs) == Undelegate(Run(p, [register, slash]), v, v, stake, h).0;
    assert LostOf(p, [], v) == LostOf(p, [register], v) == LostOf(p, [register, slash], v) == 0;
  }

  lemma {:induction false} ParamsStay(p: Params, cs: seq<Call>)
    ensures Run(p, cs).params == p
  {
    if cs != [] { ParamsStay(p, cs[..|cs| - 1]); }
  }
}
