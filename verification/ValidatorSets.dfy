/** The weighted validator set: quorum arithmetic and the deterministic weighted
    round-robin (DWRR) proposer schedule. */
module ValidatorSets {
  import opened Basics
  import opened Sums
  import opened Sorting

  datatype Validator = Validator(address: Address, votingPower: nat, proposerPriority: int)

  /** The value of a `ValidatorSet`: its validators and the cached total power. */
  datatype ValSet = ValSet(validators: seq<Validator>, total: nat)

  // ---------------------------------------------------------------------------------
  // Machine integers

  /** `i64::saturating_add`. */
  function SatAdd(a: int, b: int): int {
    if a + b >= TWO_63 then TWO_63 - 1 else if a + b < -TWO_63 then -TWO_63 else a + b
  }

  /** `i64::saturating_sub`. */
  function SatSub(a: int, b: int): int {
    SatAdd(a, -b)
  }

  /** The `as i64` cast of a `u64`, which reinterprets the top bit as a sign. */
  function AsI64(u: nat): int {
    if u % TWO_64 < TWO_63 then u % TWO_64 else u % TWO_64 - TWO_64
  }

  /** Saturating operations stay in the range of `i64` and are exact inside it; the cast keeps the
      number modulo 2^64. */
  lemma MachineExactly(a: int, b: int, u: nat)
    ensures SatAdd(a, b) == if a + b > TWO_63 - 1 then TWO_63 - 1 else if a + b < -TWO_63 then -TWO_63 else a + b
    ensures SatSub(a, b) == if a - b > TWO_63 - 1 then TWO_63 - 1 else if a - b < -TWO_63 then -TWO_63 else a - b
    ensures -TWO_63 <= AsI64(u) < TWO_63 && (u - AsI64(u)) % TWO_64 == 0
  {
  }

  // ---------------------------------------------------------------------------------
  // Powers and quorums

  function TotalPower(vs: seq<Validator>): nat {
    if vs == [] then 0 else TotalPower(vs[..|vs| - 1]) + vs[|vs| - 1].votingPower
  }

  /** Position of the first validator with address `a`, or `|vs|`. */
  function Find(vs: seq<Validator>, a: Address): (i: nat)
    ensures i <= |vs|
    ensures i < |vs| ==> vs[i].address == a
    ensures forall j :: 0 <= j < i ==> vs[j].address != a
  {
    if vs == [] || vs[0].address == a then 0 else 1 + Find(vs[1..], a)
  }

  predicate Member(vs: seq<Validator>, a: Address) {
    Find(vs, a) < |vs|
  }

  function PowerOf(vs: seq<Validator>, a: Address): nat {
    if Member(vs, a) then vs[Find(vs, a)].votingPower else 0
  }

  /** The power that a set of addresses holds together. */
  ghost function Power(vs: seq<Validator>, who: set<Address>): nat {
    Sum(who, a => PowerOf(vs, a))
  }

  /** `quorum_threshold`: the doubling wraps around as `u64` arithmetic does. */
  function QuorumThreshold(total: nat): nat {
    total * 2 % TWO_64 / 3 + 1
  }

  predicate HasQuorum(total: nat, power: nat) {
    power >= QuorumThreshold(total)
  }

  /** The threshold means "strictly more than two thirds" exactly for totals below 2^63. */
  lemma QuorumMeansTwoThirds(total: nat)
    requires total < TWO_64
    ensures (forall p: nat :: HasQuorum(total, p) <==> 3 * p > 2 * total) <==> total < TWO_63
  {
    if total < TWO_63 {
      assert total * 2 % TWO_64 == total * 2;
      forall p: nat
        ensures HasQuorum(total, p) <==> 3 * p > 2 * total
      {
      }
    } else {
      var p := QuorumThreshold(total);
      assert total * 2 % TWO_64 == total * 2 - TWO_64;
      assert HasQuorum(total, p) && !(3 * p > 2 * total);
    }
  }

  lemma {:induction false} PowerOfTail(vs: seq<Validator>, a: Address)
    requires vs != []
    ensures PowerOf(vs, a) == if vs[0].address == a then vs[0].votingPower else PowerOf(vs[1..], a)
  {
  }

  lemma {:induction false} TotalPowerHead(vs: seq<Validator>)
    requires vs != []
    ensures TotalPower(vs) == vs[0].votingPower + TotalPower(vs[1..])
  {
    if |vs| > 1 {
      TotalPowerHead(vs[..|vs| - 1]);
      assert vs[..|vs| - 1][1..] == vs[1..][..|vs[1..]| - 1];
    }
  }

  /** No set of addresses outweighs the whole validator set, repeated addresses or not. */
  lemma {:induction false} PowerBounded(vs: seq<Validator>, who: set<Address>)
    ensures Power(vs, who) <= TotalPower(vs)
  {
    if vs == [] {
      SumSame(who, a => PowerOf(vs, a), a => 0);
      SumZero(who);
    } else {
      var a := vs[0].address;
      var rest := who - {a};
      forall b <- rest ensures PowerOf(vs, b) == PowerOf(vs[1..], b) { PowerOfTail(vs, b); }
      SumSame(rest, b => PowerOf(vs, b), b => PowerOf(vs[1..], b));
      PowerBounded(vs[1..], rest);
      TotalPowerHead(vs);
      if a in who { SumTakeOut(who, b => PowerOf(vs, b), a); } else { assert rest == who; }
    }
  }

  lemma {:induction false} SumZero<T>(s: set<T>)
    ensures Sum(s, x => 0) == 0
  {
    if s != {} { SumZero(s - {Pick(s)}); }
  }

  /** Quorum intersection: if Byzantine power is at most a third of the total, two quorums
      share an address outside the Byzantine set. */
  lemma QuorumsShareHonest(s: ValSet, p: set<Address>, q: set<Address>, byzantine: set<Address>)
      returns (a: Address)
    requires s.total == TotalPower(s.validators) < TWO_63
    requires HasQuorum(s.total, Power(s.validators, p))
    requires HasQuorum(s.total, Power(s.validators, q))
    requires 3 * Power(s.validators, byzantine) <= s.total
    ensures a in p && a in q && a !in byzantine
  {
    var f := (a: Address) => PowerOf(s.validators, a);
    QuorumMeansTwoThirds(s.total);
    PowerBounded(s.validators, p + q);
    SumUnion(p, q - p, f);
    assert p + (q - p) == p + q;
    SumUnion(q - p, p * q, f);
    assert (q - p) + p * q == q;
    if p * q <= byzantine { SumMonotone(p * q, byzantine, f); assert false; }
    a :| a in p * q && a !in byzantine;
  }

  /** A quorum cannot consist of Byzantine validators only. */
  lemma QuorumHasHonest(s: ValSet, q: set<Address>, byzantine: set<Address>) returns (a: Address)
    requires s.total == TotalPower(s.validators) < TWO_63
    requires HasQuorum(s.total, Power(s.validators, q))
    requires 3 * Power(s.validators, byzantine) <= s.total
    ensures a in q && a !in byzantine
  {
    a := QuorumsShareHonest(s, q, q, byzantine);
  }

  // ---------------------------------------------------------------------------------
  // Construction

  predicate DistinctAddresses(vs: seq<Validator>) {
    forall i, j :: 0 <= i < j < |vs| ==> vs[i].address != vs[j].address
  }

  /** `sort_by_key(|a| a.address)`. */
  function SortByAddress(vs: seq<Validator>): seq<Validator> {
    SortBy(vs, (v: Validator) => v.address)
  }

  /** `ValidatorSet::new`: an empty list and a zero total are refused. */
  function MakeSet(vs: seq<Validator>): Option<ValSet> {
    if vs == [] || TotalPower(vs) % TWO_64 == 0 then None
    else Some(ValSet(SortByAddress(vs), TotalPower(vs) % TWO_64))
  }

  // ---------------------------------------------------------------------------------
  // The DWRR schedule

  function Bump(v: Validator): Validator {
    v.(proposerPriority := SatAdd(v.proposerPriority, AsI64(v.votingPower)))
  }

  function Bumped(vs: seq<Validator>): seq<Validator> {
    seq(|vs|, i requires 0 <= i < |vs| => Bump(vs[i]))
  }

  /** `max_by_key` keeps the last of several maxima. */
  predicate IsLastMax(vs: seq<Validator>, m: nat) {
    m < |vs|
    && (forall i :: 0 <= i < |vs| ==> vs[i].proposerPriority <= vs[m].proposerPriority)
    && (forall i :: m < i < |vs| ==> vs[i].proposerPriority < vs[m].proposerPriority)
  }

  function LastMax(vs: seq<Validator>): (m: nat)
    requires vs != []
    ensures IsLastMax(vs, m)
  {
    if |vs| == 1 then 0 else
      var m := LastMax(vs[..|vs| - 1]);
      if vs[m].proposerPriority <= vs[|vs| - 1].proposerPriority then |vs| - 1 else m
  }

  function Charge(s: ValSet, vs: seq<Validator>, m: nat): ValSet
    requires m < |vs|
  {
    s.(validators := vs[m := vs[m].(proposerPriority := SatSub(vs[m].proposerPriority, AsI64(s.total)))])
  }

  /** One selection: the new set and the position of the proposer. */
  function Select(s: ValSet): (ValSet, nat)
    requires s.validators != []
  {
    var vs := Bumped(s.validators);
    (Charge(s, vs, LastMax(vs)), LastMax(vs))
  }

  class ValidatorSet {
    var validators: seq<Validator>
    var total: nat

    ghost function State(): ValSet
      reads this
    {
      ValSet(validators, total)
    }

    constructor (s: ValSet)
      ensures State() == s
    {
      validators, total := s.validators, s.total;
    }

    method SelectProposer() returns (chosen: Validator)
      requires validators != []
      modifies this`validators
      ensures State() == Select(old(State())).0
      ensures chosen == validators[Select(old(State())).1]
    {
      var n := |validators|;
      for i := 0 to n
        invariant |validators| == n
        invariant forall j :: 0 <= j < i ==> validators[j] == Bump(old(validators)[j])
        invariant forall j :: i <= j < n ==> validators[j] == old(validators)[j]
      {
        validators := validators[i := Bump(validators[i])];
      }
      assert validators == Bumped(old(validators));
      var m := 0;
      for i := 1 to n
        invariant m < i && m == LastMax(validators[..i])
      {
        assert validators[..i + 1][..i] == validators[..i];
        if validators[m].proposerPriority <= validators[i].proposerPriority { m := i; }
      }
      assert validators[..n] == validators;
      validators := validators[m := validators[m].(proposerPriority :=
        SatSub(validators[m].proposerPriority, AsI64(total)))];
      chosen := validators[m];
    }
  }

  // ---------------------------------------------------------------------------------
  // Runs of the schedule

  /** The set after `k` selections. */
  function After(s: ValSet, k: nat): (r: ValSet)
    requires s.validators != []
    ensures |r.validators| == |s.validators| && r.total == s.total
  {
    if k == 0 then s else Select(After(s, k - 1)).0
  }

  /** How often position `i` was chosen in the first `k` selections. */
  function Turns(s: ValSet, k: nat, i: nat): nat
    requires s.validators != []
  {
    if k == 0 then 0
    else Turns(s, k - 1, i) + if Select(After(s, k - 1)).1 == i then 1 else 0
  }

  function PrioritySum(vs: seq<Validator>): int {
    if vs == [] then 0 else PrioritySum(vs[..|vs| - 1]) + vs[|vs| - 1].proposerPriority
  }

  /** Small enough that 64-bit priorities never saturate. */
  predicate Fits(s: ValSet) {
    |s.validators| * s.total < TWO_63
  }

  /** What holds between two selections. */
  predicate Balanced(s: ValSet) {
    s.validators != []
    && 0 < s.total == TotalPower(s.validators)
    && PrioritySum(s.validators) == 0
    && forall i :: 0 <= i < |s.validators| ==> 0 < s.total + s.validators[i].proposerPriority
  }

  predicate ZeroPriorities(vs: seq<Validator>) {
    forall i :: 0 <= i < |vs| ==> vs[i].proposerPriority == 0
  }

  lemma {:induction false} ZeroSum(vs: seq<Validator>)
    requires ZeroPriorities(vs)
    ensures PrioritySum(vs) == 0
  {
    if vs != [] { ZeroSum(vs[..|vs| - 1]); }
  }

  lemma {:induction false} SumOfUpdate(vs: seq<Validator>, i: nat, v: Validator)
    requires i < |vs|
    ensures PrioritySum(vs[i := v]) == PrioritySum(vs) - vs[i].proposerPriority + v.proposerPriority
  {
    var front := vs[..|vs| - 1];
    if i < |vs| - 1 {
      SumOfUpdate(front, i, v);
      assert vs[i := v][..|vs| - 1] == front[i := v];
    } else {
      assert vs[i := v][..|vs| - 1] == front;
    }
  }

  /** When every priority is at least `-low`, none exceeds the sum by more than `(n-1)*low`. */
  lemma {:induction false} UpperFromLower(vs: seq<Validator>, low: nat)
    requires forall i :: 0 <= i < |vs| ==> 0 <= low + vs[i].proposerPriority
    ensures PrioritySum(vs) + |vs| * low >= 0
    ensures forall i :: 0 <= i < |vs| ==> vs[i].proposerPriority <= PrioritySum(vs) + (|vs| - 1) * low
  {
    if vs != [] {
      UpperFromLower(vs[..|vs| - 1], low);
      assert |vs| * low == (|vs| - 1) * low + low;
      assert |vs| > 1 ==> (|vs| - 1) * low == (|vs| - 2) * low + low;
    }
  }

  lemma {:induction false} MemberPower(vs: seq<Validator>, i: nat)
    requires i < |vs|
    ensures vs[i].votingPower <= TotalPower(vs)
  {
    if i < |vs| - 1 { MemberPower(vs[..|vs| - 1], i); }
  }

  /** Priorities in a balanced set stay below `(n-1)*W`, so bumping one does not saturate. */
  lemma BalancedBounds(s: ValSet)
    requires Balanced(s)
    ensures forall i :: 0 <= i < |s.validators| ==>
      s.validators[i].proposerPriority <= (|s.validators| - 1) * s.total
    ensures Fits(s) ==> s.total < TWO_63
    ensures Fits(s) ==> forall i :: 0 <= i < |s.validators| ==>
      Bump(s.validators[i]).proposerPriority
        == s.validators[i].proposerPriority + s.validators[i].votingPower < TWO_63
  {
    UpperFromLower(s.validators, s.total - 1);
    Products(|s.validators|, s.total);
    if Fits(s) {
      forall i | 0 <= i < |s.validators|
        ensures Bump(s.validators[i]).proposerPriority
          == s.validators[i].proposerPriority + s.validators[i].votingPower < TWO_63
      {
        MemberPower(s.validators, i);
        BumpFits(s.validators[i]);
      }
    }
  }

  lemma Products(n: int, w: int)
    requires n >= 1 && w >= 1
    ensures (n - 1) * (w - 1) <= (n - 1) * w
    ensures (n - 1) * w + w == n * w && w <= n * w
  {
    assert (n - 1) * w == (n - 1) * (w - 1) + (n - 1);
  }

  lemma BumpFits(v: Validator)
    requires -TWO_63 < v.proposerPriority && v.proposerPriority + v.votingPower < TWO_63 && v.votingPower < TWO_63
    ensures Bump(v).proposerPriority == v.proposerPriority + v.votingPower
  {
  }

  lemma {:induction false} BumpedSum(vs: seq<Validator>)
    requires forall i :: 0 <= i < |vs| ==>
      Bump(vs[i]).proposerPriority == vs[i].proposerPriority + vs[i].votingPower
    ensures PrioritySum(Bumped(vs)) == PrioritySum(vs) + TotalPower(vs)
  {
    if vs != [] {
      BumpedSum(vs[..|vs| - 1]);
      assert Bumped(vs)[..|vs| - 1] == Bumped(vs[..|vs| - 1]);
    }
  }

  lemma {:induction false} NonPositiveSum(vs: seq<Validator>)
    requires forall i :: 0 <= i < |vs| ==> vs[i].proposerPriority <= 0
    ensures PrioritySum(vs) <= 0
  {
    if vs != [] { NonPositiveSum(vs[..|vs| - 1]); }
  }

  lemma {:induction false} TotalPowerSame(vs: seq<Validator>, ws: seq<Validator>)
    requires |vs| == |ws|
    requires forall i :: 0 <= i < |vs| ==> vs[i].votingPower == ws[i].votingPower
    ensures TotalPower(vs) == TotalPower(ws)
  {
    if vs != [] { TotalPowerSame(vs[..|vs| - 1], ws[..|ws| - 1]); }
  }

  /** The highest priority after bumping is positive, so that charging it does not saturate. */
  lemma HighestIsPositive(s: ValSet)
    requires Balanced(s) && Fits(s)
    ensures 0 < Bumped(s.validators)[Select(s).1].proposerPriority < TWO_63
    ensures AsI64(s.total) == s.total
  {
    var vs, m := Bumped(s.validators), Select(s).1;
    BalancedBounds(s);
    BumpedSum(s.validators);
    if vs[m].proposerPriority <= 0 { NonPositiveSum(vs); }
  }

  /** One selection moves each priority by its exact share. */
  lemma SelectMoves(s: ValSet)
    requires Balanced(s) && Fits(s)
    ensures var (t, m) := Select(s);
      forall i :: 0 <= i < |s.validators| ==>
        && t.validators[i].address == s.validators[i].address
        && t.validators[i].votingPower == s.validators[i].votingPower
        && t.validators[i].proposerPriority
             == s.validators[i].proposerPriority + s.validators[i].votingPower
                - if i == m then s.total else 0
  {
    BalancedBounds(s);
    HighestIsPositive(s);
  }

  /** The proposer is the validator whose priority plus power is greatest, the last of several. */
  lemma SelectExactly(s: ValSet, i: nat)
    requires Balanced(s) && Fits(s) && i < |s.validators|
    ensures var m := Select(s).1;
      && m < |s.validators|
      && var x, y := s.validators[i], s.validators[m];
         && x.proposerPriority + x.votingPower <= y.proposerPriority + y.votingPower
         && (m < i ==> x.proposerPriority + x.votingPower < y.proposerPriority + y.votingPower)
  {
    var vs, m := Bumped(s.validators), Select(s).1;
    BalancedBounds(s);
    assert IsLastMax(vs, m);
    assert vs[i] == Bump(s.validators[i]) && vs[m] == Bump(s.validators[m]);
  }

  /** One selection keeps the balance. */
  lemma SelectKeepsBalance(s: ValSet)
    requires Balanced(s) && Fits(s)
    ensures Balanced(Select(s).0)
  {
    var (t, m) := Select(s);
    var vs := Bumped(s.validators);
    BalancedBounds(s);
    BumpedSum(s.validators);
    HighestIsPositive(s);
    SelectMoves(s);
    SumOfUpdate(vs, m, t.validators[m]);
    TotalPowerSame(s.validators, t.validators);
  }

  lemma MulSucc(k: int, w: int)
    ensures (k + 1) * w == k * w + w
  {
  }

  /** After any number of selections the set is balanced and lists the same validators. */
  lemma {:induction false} ScheduleBalanced(s: ValSet, k: nat)
    requires Balanced(s) && Fits(s)
    ensures Balanced(After(s, k)) && Fits(After(s, k)) && SameMembers(s, After(s, k))
  {
    if k > 0 {
      ScheduleBalanced(s, k - 1);
      SelectKeepsBalance(After(s, k - 1));
      SelectMoves(After(s, k - 1));
    }
  }

  /** Selection `k + 1` moves the priority of `i` by its exact share. */
  predicate Moved(s: ValSet, k: nat, i: nat)
    requires i < |s.validators|
  {
    After(s, k + 1).validators[i].proposerPriority
      == After(s, k).validators[i].proposerPriority + s.validators[i].votingPower
         - if Select(After(s, k)).1 == i then s.total else 0
  }

  lemma OneTurn(s: ValSet, k: nat, i: nat)
    requires Balanced(s) && Fits(s) && i < |s.validators|
    ensures Moved(s, k, i)
  {
    ScheduleBalanced(s, k);
    SelectMoves(After(s, k));
  }

  /** `k * w` by repeated addition, which keeps the induction below linear. */
  function Times(k: nat, w: nat): nat {
    if k == 0 then 0 else Times(k - 1, w) + w
  }

  lemma {:induction false} TimesIsProduct(k: nat, w: nat)
    ensures Times(k, w) == k * w
  {
    if k > 0 {
      TimesIsProduct(k - 1, w);
      MulSucc(k - 1, w);
    }
  }

  /** After `k` selections the priority of `i` has risen `k` times and fallen once per turn. */
  predicate Proportionate(s: ValSet, k: nat, i: nat)
    requires i < |s.validators|
  {
    After(s, k).validators[i].proposerPriority
      == s.validators[i].proposerPriority + Times(k, s.validators[i].votingPower) - Times(Turns(s, k, i), s.total)
  }

  lemma StepProportionate(s: ValSet, k: nat, i: nat)
    requires i < |s.validators| && Proportionate(s, k, i) && Moved(s, k, i)
    ensures Proportionate(s, k + 1, i)
  {
  }

  /** Induction on the number of selections, which keeps the schedule itself folded. */
  lemma {:induction false} Always(p: nat -> bool, k: nat)
    requires p(0) && forall j: nat :: p(j) ==> p(j + 1)
    ensures p(k)
  {
    if k > 0 { Always(p, k - 1); }
  }

  lemma ScheduleTimes(s: ValSet, k: nat, i: nat)
    requires Balanced(s) && Fits(s) && i < |s.validators|
    ensures Proportionate(s, k, i)
  {
    var p := (j: nat) => Proportionate(s, j, i);
    forall j: nat | p(j) ensures p(j + 1) {
      OneTurn(s, j, i);
      StepProportionate(s, j, i);
    }
    Always(p, k);
  }

  /** Priority `i` is its start value plus `k` times the power of `i`, less the total power
      once per turn of `i`. */
  lemma ScheduleShare(s: ValSet, k: nat, i: nat)
    requires Balanced(s) && Fits(s) && i < |s.validators|
    ensures After(s, k).validators[i].proposerPriority
      == s.validators[i].proposerPriority + k * s.validators[i].votingPower
         - Turns(s, k, i) * s.total
  {
    ScheduleTimes(s, k, i);
    TimesIsProduct(k, s.validators[i].votingPower);
    TimesIsProduct(Turns(s, k, i), s.total);
  }

  /** A freshly built set: powers that add up to the cached total, all priorities zero. */
  predicate Fresh(s: ValSet) {
    s.validators != [] && 0 < s.total == TotalPower(s.validators) && ZeroPriorities(s.validators)
  }

  /** Scheduler bounds. From zero priorities, after any number of selections every priority
      lies in (-W, (n-1)*W], they sum to zero, no 64-bit operation saturates, and validator `i`
      has had less than one turn more than its proportional share and at most `n-1` fewer. */
  lemma ScheduleBounds(s: ValSet, k: nat, i: nat)
    requires Fresh(s) && Fits(s) && i < |s.validators|
    ensures var p := After(s, k).validators[i].proposerPriority;
      var w := s.validators[i].votingPower;
      && PrioritySum(After(s, k).validators) == 0
      && 0 < s.total + p
      && p <= (|s.validators| - 1) * s.total
      && 0 < TWO_63 + p && p + w < TWO_63
      && Turns(s, k, i) * s.total < k * w + s.total
      && k * w <= Turns(s, k, i) * s.total + (|s.validators| - 1) * s.total
  {
    ZeroSum(s.validators);
    ScheduleBalanced(s, k);
    ScheduleShare(s, k, i);
    BalancedBounds(After(s, k));
  }

  /** A validator without power never proposes. */
  lemma ZeroPowerNeverChosen(s: ValSet, k: nat, i: nat)
    requires Fresh(s) && Fits(s) && i < |s.validators|
    requires s.validators[i].votingPower == 0
    ensures Turns(s, k, i) == 0
  {
    ScheduleBounds(s, k, i);
    NatProduct(Turns(s, k, i), s.total);
  }

  lemma {:induction false} NonNegativeZeroSum(vs: seq<Validator>)
    requires forall i :: 0 <= i < |vs| ==> 0 <= vs[i].proposerPriority
    requires PrioritySum(vs) <= 0
    ensures ZeroPriorities(vs)
  {
    if vs != [] {
      if PrioritySum(vs[..|vs| - 1]) < 0 {
        UpperFromLower(vs[..|vs| - 1], 0);
      }
      NonNegativeZeroSum(vs[..|vs| - 1]);
    }
  }

  /** A multiple of `w` above `-w` is not negative. */
  lemma MultipleAbove(q: int, w: nat)
    requires 0 < w + q * w
    ensures 0 <= q
  {
    if q < 0 {
      MulSucc(q, w);
      NatProduct(-(q + 1), w);
    }
  }

  lemma NatProduct(a: nat, w: nat)
    ensures 0 <= a * w
    ensures a > 0 ==> w <= a * w
  {
    if a > 0 { MulSucc(a - 1, w); NatProduct(a - 1, w); }
  }

  lemma MultipleOfTotal(p: int, share: int, turns: int, total: nat)
    requires p == share * total - turns * total
    requires 0 < total && 0 < total + p
    ensures 0 <= p
    ensures p == 0 ==> turns == share
  {
    var d := share - turns;
    assert d * total == p;
    MultipleAbove(d, total);
    NatProduct(d, total);
  }

  /** One validator's part of the exact-proportion argument. */
  lemma ShareIsMultiple(s: ValSet, k: nat, i: nat, share: nat)
    requires Fresh(s) && Fits(s) && i < |s.validators|
    requires k * s.validators[i].votingPower == share * s.total
    ensures 0 <= After(s, k).validators[i].proposerPriority
    ensures After(s, k).validators[i].proposerPriority == 0 ==> Turns(s, k, i) == share
  {
    ZeroSum(s.validators);
    ScheduleBalanced(s, k);
    ScheduleShare(s, k, i);
    MultipleOfTotal(After(s, k).validators[i].proposerPriority, share, Turns(s, k, i), s.total);
  }

  /** Exact proportional scheduling: when the total divides `k` times every power, everybody
      has had exactly the proportional number of turns and the schedule is back at its start. */
  lemma ExactProportion(s: ValSet, k: nat, share: seq<nat>)
    requires Fresh(s) && Fits(s) && |share| == |s.validators|
    requires forall i :: 0 <= i < |share| ==> k * s.validators[i].votingPower == share[i] * s.total
    ensures forall i :: 0 <= i < |share| ==> Turns(s, k, i) == share[i]
    ensures After(s, k) == s
  {
    var t := After(s, k);
    ZeroSum(s.validators);
    ScheduleBalanced(s, k);
    forall i | 0 <= i < |share|
      ensures 0 <= t.validators[i].proposerPriority
    {
      ShareIsMultiple(s, k, i, share[i]);
    }
    NonNegativeZeroSum(t.validators);
    forall i | 0 <= i < |share|
      ensures Turns(s, k, i) == share[i]
      ensures t.validators[i] == s.validators[i]
    {
      ShareIsMultiple(s, k, i, share[i]);
    }
    assert t.validators == s.validators;
  }

  /** In particular one full cycle of `W` selections gives every validator as many turns as it
      has units of power, whatever the powers are. */
  lemma FullCycle(s: ValSet, i: nat)
    requires Fresh(s) && Fits(s) && i < |s.validators|
    ensures Turns(s, s.total, i) == s.validators[i].votingPower
    ensures After(s, s.total) == s
  {
    var share := seq(|s.validators|, j requires 0 <= j < |s.validators| => s.validators[j].votingPower);
    forall j | 0 <= j < |share|
      ensures s.total * s.validators[j].votingPower == share[j] * s.total
    {
      Swap(s.total, share[j]);
    }
    ExactProportion(s, s.total, share);
  }

  lemma Swap(a: int, b: int)
    ensures a * b == b * a
  {
  }

  // ---------------------------------------------------------------------------------
  // Refreshing the set

  /** `set_validator_set`: validators already known keep their priority. */
  function Carry(old_: seq<Validator>, new_: seq<Validator>): (r: seq<Validator>)
    ensures |r| == |new_|
  {
    seq(|new_|, i requires 0 <= i < |new_| => CarryOne(old_, new_[i]))
  }

  function CarryOne(old_: seq<Validator>, v: Validator): Validator {
    if Member(old_, v.address)
    then v.(proposerPriority := old_[Find(old_, v.address)].proposerPriority)
    else v
  }

  function Refresh(s: ValSet, fresh_: ValSet): ValSet {
    fresh_.(validators := Carry(s.validators, fresh_.validators))
  }

  /** `fresh_` lists the same validators with the same powers; its priorities are arbitrary. */
  predicate SameMembers(s: ValSet, fresh_: ValSet) {
    && fresh_.total == s.total
    && |fresh_.validators| == |s.validators|
    && forall i :: 0 <= i < |s.validators| ==>
         && fresh_.validators[i].address == s.validators[i].address
         && fresh_.validators[i].votingPower == s.validators[i].votingPower
  }

  /** Refreshing an unchanged set changes nothing. */
  lemma RefreshUnchanged(s: ValSet, fresh_: ValSet)
    requires SameMembers(s, fresh_) && DistinctAddresses(s.validators)
    ensures Refresh(s, fresh_) == s
  {
    forall i | 0 <= i < |s.validators|
      ensures CarryOne(s.validators, fresh_.validators[i]) == s.validators[i]
    {
      var j := Find(s.validators, fresh_.validators[i].address);
      assert j <= i;
    }
    assert Refresh(s, fresh_).validators == s.validators;
  }

  /** `k` selections, each after a refresh with the rebuilt (zero-priority) set. */
  function AfterRefreshed(s: ValSet, fresh_: ValSet, k: nat): (r: ValSet)
    requires s.validators != [] && |fresh_.validators| == |s.validators|
    ensures |r.validators| == |s.validators|
  {
    if k == 0 then s else Select(Refresh(AfterRefreshed(s, fresh_, k - 1), fresh_)).0
  }

  lemma SelectKeepsMembers(s: ValSet)
    requires s.validators != []
    ensures SameMembers(s, Select(s).0)
  {
  }

  lemma {:induction false} AfterKeepsMembers(s: ValSet, k: nat)
    requires s.validators != []
    ensures SameMembers(s, After(s, k))
  {
    if k > 0 {
      AfterKeepsMembers(s, k - 1);
      SelectKeepsMembers(After(s, k - 1));
    }
  }

  lemma RefreshAfter(s: ValSet, fresh_: ValSet, k: nat)
    requires s.validators != [] && SameMembers(s, fresh_) && DistinctAddresses(s.validators)
    ensures Refresh(After(s, k), fresh_) == After(s, k)
  {
    AfterKeepsMembers(s, k);
    RefreshUnchanged(After(s, k), fresh_);
  }

  lemma RefreshStep(s: ValSet, fresh_: ValSet, k: nat)
    requires s.validators != [] && |fresh_.validators| == |s.validators|
    requires AfterRefreshed(s, fresh_, k) == After(s, k) && Refresh(After(s, k), fresh_) == After(s, k)
    ensures AfterRefreshed(s, fresh_, k + 1) == After(s, k + 1)
  {
  }

  /** Rebuilding the unchanged set before every selection does not disturb the schedule, whatever
      its powers and priorities are. */
  lemma RefreshKeepsSchedule(s: ValSet, fresh_: ValSet, k: nat)
    requires s.validators != [] && SameMembers(s, fresh_) && DistinctAddresses(s.validators)
    ensures AfterRefreshed(s, fresh_, k) == After(s, k)
  {
    var p := (j: nat) => AfterRefreshed(s, fresh_, j) == After(s, j);
    forall j: nat | p(j) ensures p(j + 1) {
      RefreshAfter(s, fresh_, j);
      RefreshStep(s, fresh_, j);
    }
    Always(p, k);
  }

  /** How often position `i` was chosen in the first `k` selections, each after a refresh. */
  function TurnsRefreshed(s: ValSet, fresh_: ValSet, k: nat, i: nat): nat
    requires s.validators != [] && |fresh_.validators| == |s.validators|
  {
    if k == 0 then 0
    else
      TurnsRefreshed(s, fresh_, k - 1, i)
      + if Select(Refresh(AfterRefreshed(s, fresh_, k - 1), fresh_)).1 == i then 1 else 0
  }

  lemma TurnsStep(s: ValSet, fresh_: ValSet, k: nat, i: nat)
    requires s.validators != [] && |fresh_.validators| == |s.validators|
    requires AfterRefreshed(s, fresh_, k) == After(s, k) && Refresh(After(s, k), fresh_) == After(s, k)
    requires TurnsRefreshed(s, fresh_, k, i) == Turns(s, k, i)
    ensures TurnsRefreshed(s, fresh_, k + 1, i) == Turns(s, k + 1, i)
  {
  }

  lemma RefreshKeepsTurns(s: ValSet, fresh_: ValSet, k: nat, i: nat)
    requires s.validators != [] && SameMembers(s, fresh_) && DistinctAddresses(s.validators)
    ensures TurnsRefreshed(s, fresh_, k, i) == Turns(s, k, i)
  {
    var p := (j: nat) => TurnsRefreshed(s, fresh_, j, i) == Turns(s, j, i);
    forall j: nat | p(j) ensures p(j + 1) {
      RefreshKeepsSchedule(s, fresh_, j);
      RefreshAfter(s, fresh_, j);
      TurnsStep(s, fresh_, j, i);
    }
    Always(p, k);
  }

  /** Exact proportional scheduling of the refreshed schedule: when the total divides `k` times
      every power, everybody has had exactly the proportional number of turns. */
  lemma RefreshedProportion(s: ValSet, fresh_: ValSet, k: nat, share: seq<nat>)
    requires Fresh(s) && Fits(s) && SameMembers(s, fresh_) && DistinctAddresses(s.validators)
    requires |share| == |s.validators|
    requires forall i :: 0 <= i < |share| ==> k * s.validators[i].votingPower == share[i] * s.total
    ensures forall i :: 0 <= i < |share| ==> TurnsRefreshed(s, fresh_, k, i) == share[i]
    ensures AfterRefreshed(s, fresh_, k) == s
  {
    ExactProportion(s, k, share);
    RefreshKeepsSchedule(s, fresh_, k);
    forall i | 0 <= i < |share| ensures TurnsRefreshed(s, fresh_, k, i) == share[i] {
      RefreshKeepsTurns(s, fresh_, k, i);
    }
  }
}
