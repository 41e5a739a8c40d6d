/** The staking keeper: registration, delegation, undelegation, slashing, jailing and the
    active validator set. */
module Staking {
  import opened Basics
  import opened Engine
  import opened Sorting
  import opened ValidatorSets

  datatype Status = Active | Jailed | Unbonding | Unbonded

  datatype StakingValidator = StakingValidator(
    status: Status, tokens: Amount, shares: Amount, minSelfDelegation: Amount,
    jailedUntil: Option<nat>, missed: nat, tombstoned: bool)

  datatype Delegation = Delegation(shares: Amount, balance: Amount)

  datatype UnbondingEntry = UnbondingEntry(
    delegator: Address, validator: Address, creation: nat, completion: nat, amount: Amount)

  /** The two slash functions stand for the floating-point fractions of the tokens. */
  datatype Params = Params(
    maxValidators: nat, unbondingPeriod: nat, equivocationSlash: Amount -> Amount,
    downtimeSlash: Amount -> Amount, downtimeJail: nat, minSelfStake: Amount, missedThreshold: nat)

  datatype KeeperState = KeeperState(
    params: Params, validators: map<Address, StakingValidator>,
    delegations: map<(Address, Address), Delegation>, queue: seq<UnbondingEntry>)

  function NewKeeper(p: Params): KeeperState {
    KeeperState(p, map[], map[], [])
  }

  function Set(s: KeeperState, v: Address, val: StakingValidator): KeeperState {
    s.(validators := s.validators[v := val])
  }

  function SetDelegation(s: KeeperState, d: Address, v: Address, e: Delegation): KeeperState {
    s.(delegations := s.delegations[(d, v) := e])
  }

  // ---------------------------------------------------------------------------------
  // Operations

  /** `register_validator`. */
  function Register(s: KeeperState, v: Address, stake: Amount): (KeeperState, bool) {
    if v in s.validators || stake < s.params.minSelfStake then (s, false)
    else
      (SetDelegation(Set(s, v, StakingValidator(Active, stake, stake, stake, None, 0, false)),
                     v, v, Delegation(stake, stake)), true)
  }

  predicate Delegable(s: KeeperState, v: Address) {
    v in s.validators && !s.validators[v].tombstoned && s.validators[v].status != Unbonded
  }

  /** The last part of `delegate`: the delegation itself. */
  function AddDelegation(s: KeeperState, d: Address, v: Address, amount: Amount): (KeeperState, bool) {
    var e := if (d, v) in s.delegations then s.delegations[(d, v)] else Delegation(0, 0);
    var shares := CheckedAdd(e.shares, amount);
    if shares.None? then (SetDelegation(s, d, v, e), false)
    else
      var balance := CheckedAdd(e.balance, amount);
      if balance.None? then (SetDelegation(s, d, v, e.(shares := shares.value)), false)
      else (SetDelegation(s, d, v, Delegation(shares.value, balance.value)), true)
  }

  /** `delegate`: an overflow stops it half way. */
  function Delegate(s: KeeperState, d: Address, v: Address, amount: Amount): (KeeperState, bool) {
    if !Delegable(s, v) then (s, false)
    else
      var val := s.validators[v];
      var tokens := CheckedAdd(val.tokens, amount);
      if tokens.None? then (s, false)
      else
        var shares := CheckedAdd(val.shares, amount);
        if shares.None? then (Set(s, v, val.(tokens := tokens.value)), false)
        else AddDelegation(Set(s, v, val.(tokens := tokens.value, shares := shares.value)), d, v, amount)
  }

  /** A height some blocks later, in 64-bit arithmetic. */
  function HeightAfter(h: nat, n: nat): nat {
    (h + n) % TWO_64
  }

  /** The part of `undelegate` that lowers the validator. */
  function LowerValidator(s: KeeperState, v: Address, amount: Amount): (KeeperState, bool) {
    if v !in s.validators then (s, true)
    else
      var val := s.validators[v];
      if val.tokens < amount then (s, false)
      else if val.shares < amount then (Set(s, v, val.(tokens := val.tokens - amount)), false)
      else (Set(s, v, val.(tokens := val.tokens - amount, shares := val.shares - amount)), true)
  }

  /** `undelegate`: the delegation is lowered before the validator is looked at. */
  function Undelegate(s: KeeperState, d: Address, v: Address, amount: Amount, height: nat)
    : (KeeperState, Option<UnbondingEntry>)
  {
    if (d, v) !in s.delegations || s.delegations[(d, v)].balance < amount then (s, None)
    else
      var e := s.delegations[(d, v)].(balance := s.delegations[(d, v)].balance - amount);
      if e.shares < amount then (SetDelegation(s, d, v, e), None)
      else
        var (t, ok) := LowerValidator(SetDelegation(s, d, v, e.(shares := e.shares - amount)), v, amount);
        if !ok then (t, None)
        else
          var entry := UnbondingEntry(d, v, height, HeightAfter(height, s.params.unbondingPeriod), amount);
          (t.(queue := t.queue + [entry]), Some(entry))
  }

  function Slashed(val: StakingValidator, amount: Amount): StakingValidator {
    val.(tokens := if amount <= val.tokens then val.tokens - amount else 0, status := Jailed)
  }

  /** `slash_equivocation` with evidence `a`, `b` naming validator `v`. */
  function SlashEquivocation(s: KeeperState, v: Address, a: Vote, b: Vote): (KeeperState, Option<Amount>) {
    if !IsValidEquivocation(a, b) || v !in s.validators then (s, None)
    else
      var val := s.validators[v];
      if val.tombstoned then (s, Some(0))
      else
        var amount := s.params.equivocationSlash(val.tokens);
        (Set(s, v, Slashed(val, amount).(tombstoned := true)), Some(amount))
  }

  /** `slash_downtime`. */
  function SlashDowntime(s: KeeperState, v: Address, height: nat): (KeeperState, Option<Amount>) {
    if v !in s.validators then (s, None)
    else
      var val := s.validators[v];
      if val.status == Jailed || val.tombstoned then (s, Some(0))
      else if val.missed + 1 < s.params.missedThreshold then (Set(s, v, val.(missed := val.missed + 1)), Some(0))
      else
        var amount := s.params.downtimeSlash(val.tokens);
        var until := HeightAfter(height, s.params.downtimeJail);
        (Set(s, v, Slashed(val, amount).(jailedUntil := Some(until), missed := 0)), Some(amount))
  }

  /** `unjail`. */
  function Unjail(s: KeeperState, v: Address, height: nat): (KeeperState, bool) {
    if v !in s.validators then (s, false)
    else
      var val := s.validators[v];
      if val.tombstoned then (s, false)
      else if val.jailedUntil.Some? && height < val.jailedUntil.value then (s, false)
      else (Set(s, v, val.(status := Active, jailedUntil := None, missed := 0)), true)
  }

  // ---------------------------------------------------------------------------------
  // The active set

  const ATTO_PER_SPRX: nat := 1_000_000_000_000_000_000

  predicate Eligible(s: KeeperState, v: Address) {
    v in s.validators && s.validators[v].status == Active && s.validators[v].tokens != 0
  }

  /** The eligible validators in the order of the hash map. */
  function Candidates(s: KeeperState, order: seq<Address>): (r: seq<Address>)
    ensures forall v :: v in r <==> v in order && Eligible(s, v)
  {
    if order == [] then []
    else
      var v := order[|order| - 1];
      assert order == order[..|order| - 1] + [v];
      Candidates(s, order[..|order| - 1]) + if Eligible(s, v) then [v] else []
  }

  function Weight(s: KeeperState, v: Address): int {
    var tokens: int := if v in s.validators then s.validators[v].tokens else 0;
    -tokens
  }

  function ByWeight(s: KeeperState): Address -> int {
    (v: Address) => Weight(s, v)
  }

  /** The candidates by descending tokens, ties in the order of the hash map. */
  function Ranked(s: KeeperState, order: seq<Address>): seq<Address> {
    SortBy(Candidates(s, order), ByWeight(s))
  }

  function Chosen(s: KeeperState, order: seq<Address>): seq<Address> {
    var r := Ranked(s, order);
    if |r| <= s.params.maxValidators then r else r[..s.params.maxValidators]
  }

  /** Whole SPRX but at least one, cast to `u64`. */
  function VotingPower(tokens: Amount): nat {
    (if tokens < ATTO_PER_SPRX then 1 else tokens / ATTO_PER_SPRX) % TWO_64
  }

  function AsValidators(s: KeeperState, vs: seq<Address>): seq<Validator> {
    seq(|vs|, i requires 0 <= i < |vs| =>
      Validator(vs[i], if vs[i] in s.validators then VotingPower(s.validators[vs[i]].tokens) else 0, 0))
  }

  /** `get_active_validator_set`, for one iteration order of the hash map. */
  function ActiveSet(s: KeeperState, order: seq<Address>): Option<ValSet> {
    MakeSet(AsValidators(s, Chosen(s, order)))
  }

  // ---------------------------------------------------------------------------------
  // The keeper object

  class StakingKeeper {
    const params: Params
    var validators: map<Address, StakingValidator>
    var delegations: map<(Address, Address), Delegation>
    var queue: seq<UnbondingEntry>

    ghost function State(): KeeperState
      reads this
    {
      KeeperState(params, validators, delegations, queue)
    }

    constructor (params: Params)
      ensures this.params == params && State() == NewKeeper(params)
    {
      this.params := params;
      validators, delegations, queue := map[], map[], [];
    }

    method RegisterValidator(v: Address, stake: Amount) returns (ok: bool)
      modifies this`validators, this`delegations
      ensures (State(), ok) == Register(old(State()), v, stake)
    {
      if v in validators { return false; }
      if stake < params.minSelfStake { return false; }
      validators := validators[v := StakingValidator(Active, stake, stake, stake, None, 0, false)];
      delegations := delegations[(v, v) := Delegation(stake, stake)];
      ok := true;
    }

    method DelegateTokens(d: Address, v: Address, amount: Amount) returns (ok: bool)
      modifies this`validators, this`delegations
      ensures (State(), ok) == Delegate(old(State()), d, v, amount)
    {
      if v !in validators { return false; }
      var val := validators[v];
      if val.tombstoned || val.status == Unbonded { return false; }
      var tokens := CheckedAdd(val.tokens, amount);
      if tokens.None? { return false; }
      validators := validators[v := val.(tokens := tokens.value)];
      var shares := CheckedAdd(val.shares, amount);
      if shares.None? { return false; }
      validators := validators[v := validators[v].(shares := shares.value)];
      assert validators == old(validators)[v := val.(tokens := tokens.value, shares := shares.value)];
      if (d, v) !in delegations { delegations := delegations[(d, v) := Delegation(0, 0)]; }
      var e := delegations[(d, v)];
      shares := CheckedAdd(e.shares, amount);
      assert delegations == old(delegations)[(d, v) := e];
      if shares.None? { return false; }
      delegations := delegations[(d, v) := e.(shares := shares.value)];
      assert delegations == old(delegations)[(d, v) := e.(shares := shares.value)];
      var balance := CheckedAdd(e.balance, amount);
      if balance.None? { return false; }
      delegations := delegations[(d, v) := Delegation(shares.value, balance.value)];
      assert delegations == old(delegations)[(d, v) := Delegation(shares.value, balance.value)];
      ok := true;
    }

    method UndelegateTokens(d: Address, v: Address, amount: Amount, height: nat) returns (r: Option<UnbondingEntry>)
      modifies this
      ensures (State(), r) == Undelegate(old(State()), d, v, amount, height)
    {
      if (d, v) !in delegations { return None; }
      var e := delegations[(d, v)];
      if e.balance < amount { return None; }
      e := e.(balance := e.balance - amount);
      delegations := delegations[(d, v) := e];
      if e.shares < amount { return None; }
      delegations := delegations[(d, v) := e.(shares := e.shares - amount)];
      assert delegations == old(delegations)[(d, v) := e.(shares := e.shares - amount)];
      if v in validators {
        var val := validators[v];
        if val.tokens < amount { return None; }
        validators := validators[v := val.(tokens := val.tokens - amount)];
        if val.shares < amount { return None; }
        validators := validators[v := val.(tokens := val.tokens - amount, shares := val.shares - amount)];
        assert validators == old(validators)[v := val.(tokens := val.tokens - amount, shares := val.shares - amount)];
      }
      var entry := UnbondingEntry(d, v, height, HeightAfter(height, params.unbondingPeriod), amount);
      queue := queue + [entry];
      r := Some(entry);
    }

    method PunishEquivocation(v: Address, a: Vote, b: Vote) returns (r: Option<Amount>)
      modifies this`validators
      ensures (State(), r) == SlashEquivocation(old(State()), v, a, b)
    {
      if !IsValidEquivocation(a, b) { return None; }
      if v !in validators { return None; }
      var val := validators[v];
      if val.tombstoned { return Some(0); }
      var amount := params.equivocationSlash(val.tokens);
      var rest := CheckedSub(val.tokens, amount);
      validators := validators[v := val.(tokens := if rest.Some? then rest.value else 0,
                                         status := Jailed, tombstoned := true)];
      r := Some(amount);
    }

    method PunishDowntime(v: Address, height: nat) returns (r: Option<Amount>)
      modifies this`validators
      ensures (State(), r) == SlashDowntime(old(State()), v, height)
    {
      if v !in validators { return None; }
      var val := validators[v];
      if val.status == Jailed || val.tombstoned { return Some(0); }
      val := val.(missed := val.missed + 1);
      if val.missed >= params.missedThreshold {
        var amount := params.downtimeSlash(val.tokens);
        var rest := CheckedSub(val.tokens, amount);
        validators := validators[v := val.(tokens := if rest.Some? then rest.value else 0, status := Jailed,
                                           jailedUntil := Some(HeightAfter(height, params.downtimeJail)), missed := 0)];
        return Some(amount);
      }
      validators := validators[v := val];
      r := Some(0);
    }

    method Release(v: Address, height: nat) returns (ok: bool)
      modifies this`validators
      ensures (State(), ok) == Unjail(old(State()), v, height)
    {
      if v !in validators { return false; }
      var val := validators[v];
      if val.tombstoned { return false; }
      if val.jailedUntil.Some? && height < val.jailedUntil.value { return false; }
      validators := validators[v := val.(status := Active, jailedUntil := None, missed := 0)];
      ok := true;
    }
  }
}
