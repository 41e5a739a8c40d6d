/** The active set in terms of stake: who is in it, in which order, and with which power. */
module Powers {
  import opened Basics
  import opened Sums
  import opened Sorting
  import opened ValidatorSets
  import opened Staking
  import opened StakingRuns
  import opened ActiveSets

  /** One SPRX in atto. */
  const SPRX: nat := 1_000_000_000_000_000_000

  /** `p` is the number of whole SPRX in `tokens`, but one for less than one SPRX. */
  predicate WholeSprx(tokens: nat, p: nat) {
    if tokens < SPRX then p == 1 else p * SPRX <= tokens < (p + 1) * SPRX
  }

  lemma {:induction false} QuotientBetween(tokens: nat, p: nat, q: nat)
    requires p * SPRX <= tokens < (q + 1) * SPRX
    ensures p <= q
  {
  }

  /** The power before the cast to 64 bits. */
  lemma PowerIsWhole(tokens: nat) returns (q: nat)
    ensures WholeSprx(tokens, q) && VotingPower(tokens) == q % TWO_64
    ensures tokens < TWO_64 * SPRX ==> VotingPower(tokens) == q
  {
    if tokens < SPRX {
      q := 1;
    } else {
      q := tokens / SPRX;
      assert q * SPRX <= tokens < (q + 1) * SPRX;
    }
  }

  lemma {:induction false} TotalIsSum(vs: seq<Validator>)
    requires DistinctAddresses(vs)
    ensures TotalPower(vs) == Sum(set v <- vs :: v.address, a => PowerOf(vs, a))
  {
    var who := set v <- vs :: v.address;
    if vs == [] {
      assert who == {};
    } else {
      var a, rest := vs[0].address, set v <- vs[1..] :: v.address;
      assert vs == [vs[0]] + vs[1..];
      assert who == rest + {a};
      forall v <- vs[1..] ensures v.address != a {
        var i :| 0 <= i < |vs[1..]| && vs[1..][i] == v;
        assert vs[i + 1] == v;
      }
      TotalIsSum(vs[1..]);
      TotalPowerHead(vs);
      forall b <- rest ensures PowerOf(vs, b) == PowerOf(vs[1..], b) { PowerOfTail(vs, b); }
      SumSame(rest, b => PowerOf(vs, b), b => PowerOf(vs[1..], b));
      SumAdd(rest, b => PowerOf(vs, b), a);
    }
  }

  lemma FindAt(vs: seq<Validator>, i: nat)
    requires DistinctAddresses(vs) && i < |vs|
    ensures Member(vs, vs[i].address) && PowerOf(vs, vs[i].address) == vs[i].votingPower
  {
    var j := Find(vs, vs[i].address);
    assert j <= i;
  }

  /** The validators of an active set, as a list. */
  lemma ListedSet(s: KeeperState, order: seq<Address>)
    requires Enumerates(order, s) && ActiveSet(s, order).Some?
    ensures var vs := ActiveSet(s, order).value.validators;
      && DistinctAddresses(vs) && (set v <- vs :: v.address) == Elements(Chosen(s, order))
      && (forall i, j :: 0 <= i < j < |vs| ==> vs[i].address < vs[j].address)
      && (forall v <- vs :: v.proposerPriority == 0 && v.address in s.validators
                            && v.votingPower == VotingPower(Tokens(s, v.address)))
  {
    var top := Chosen(s, order);
    var raw, vs := AsValidators(s, top), ActiveSet(s, order).value.validators;
    var key := (v: Validator) => v.address;
    TopByTokens(s, order);
    SortStrict(raw, key);
    assert forall i, j :: 0 <= i < j < |vs| ==> key(vs[i]) < key(vs[j]);
    forall v <- vs
      ensures v.address in top && v.proposerPriority == 0 && v.votingPower == VotingPower(Tokens(s, v.address))
    {
      InValidators(s, top, v);
    }
    forall a <- Elements(top) ensures a in (set v <- vs :: v.address) {
      ChosenListed(s, order, a);
    }
  }

  lemma ChosenListed(s: KeeperState, order: seq<Address>, a: Address)
    requires ActiveSet(s, order).Some? && a in Chosen(s, order)
    ensures exists v :: v in ActiveSet(s, order).value.validators && v.address == a
  {
    var x := Validator(a, if a in s.validators then VotingPower(s.validators[a].tokens) else 0, 0);
    InValidators(s, Chosen(s, order), x);
    assert x in ActiveSet(s, order).value.validators;
  }

  /** The power of a chosen validator is the number of whole SPRX it has at stake, or one if that
      is zero, cast to 64 bits. */
  lemma PowerExactly(s: KeeperState, order: seq<Address>, v: Address)
    requires Enumerates(order, s) && ActiveSet(s, order).Some? && v in Chosen(s, order)
    ensures var p := PowerOf(ActiveSet(s, order).value.validators, v);
      && (Tokens(s, v) < TWO_64 * SPRX ==> WholeSprx(Tokens(s, v), p))
      && exists q: nat :: WholeSprx(Tokens(s, v), q) && p == q % TWO_64
  {
    PowerInSet(s, order, v);
    var q := PowerIsWhole(Tokens(s, v));
  }

  lemma PowerInSet(s: KeeperState, order: seq<Address>, v: Address)
    requires Enumerates(order, s) && ActiveSet(s, order).Some? && v in Chosen(s, order)
    ensures PowerOf(ActiveSet(s, order).value.validators, v) == VotingPower(Tokens(s, v))
  {
    var vs := ActiveSet(s, order).value.validators;
    ListedSet(s, order);
    assert v in Elements(Chosen(s, order));
    var x :| x in vs && x.address == v;
    var i :| 0 <= i < |vs| && vs[i] == x;
    FindAt(vs, i);
  }

  /** More stake never means less power, below the cast. */
  lemma PowerMonotone(s: KeeperState, order: seq<Address>, v: Address, w: Address)
    requires Enumerates(order, s) && ActiveSet(s, order).Some? && v in Chosen(s, order) && w in Chosen(s, order)
    requires Tokens(s, v) <= Tokens(s, w) < TWO_64 * SPRX
    ensures var vs := ActiveSet(s, order).value.validators; PowerOf(vs, v) <= PowerOf(vs, w)
  {
    var vs := ActiveSet(s, order).value.validators;
    PowerExactly(s, order, v);
    PowerExactly(s, order, w);
    if Tokens(s, v) >= SPRX {
      QuotientBetween(Tokens(s, v), PowerOf(vs, v), PowerOf(vs, v));
      QuotientBetween(Tokens(s, w), PowerOf(vs, v), PowerOf(vs, w));
    } else if Tokens(s, w) >= SPRX {
      QuotientBetween(Tokens(s, w), 1, PowerOf(vs, w));
    }
  }

  /** The active set lists the chosen validators by ascending address, all with priority zero, and
      its total is the sum of their powers in 64 bits. */
  lemma TotalExactly(s: KeeperState, order: seq<Address>)
    requires Enumerates(order, s) && ActiveSet(s, order).Some?
    ensures var t := ActiveSet(s, order).value;
      && (forall i, j :: 0 <= i < j < |t.validators| ==> t.validators[i].address < t.validators[j].address)
      && (forall v <- t.validators :: v.proposerPriority == 0)
      && (set v <- t.validators :: v.address) == Elements(Chosen(s, order))
      && t.total == Sum(Elements(Chosen(s, order)), a => PowerOf(t.validators, a)) % TWO_64
  {
    var vs := ActiveSet(s, order).value.validators;
    ListedSet(s, order);
    TotalIsSum(vs);
    SortPower(AsValidators(s, Chosen(s, order)), (v: Validator) => v.address);
  }

  /** A chosen validator is active and has stake. Whoever is active with stake but not chosen finds
      all places taken by validators with no less. */
  lemma ChosenExactly(s: KeeperState, order: seq<Address>)
    requires Enumerates(order, s)
    ensures var top := Chosen(s, order);
      && Distinct(top) && |top| <= s.params.maxValidators
      && (forall v <- top :: v in s.validators && s.validators[v].status == Active && 0 < s.validators[v].tokens)
      && (forall w <- s.validators.Keys :: s.validators[w].status == Active && 0 < s.validators[w].tokens && w !in top
            ==> |top| == s.params.maxValidators && forall v <- top :: Tokens(s, w) <= Tokens(s, v))
  {
    var top := Chosen(s, order);
    TopByTokens(s, order);
    forall w <- s.validators.Keys | s.validators[w].status == Active && 0 < s.validators[w].tokens && w !in top
      ensures |top| == s.params.maxValidators && forall v <- top :: Tokens(s, w) <= Tokens(s, v)
    {
      assert Eligible(s, w);
      PlacesTaken(s, order, w);
      DistinctSize(top);
    }
  }

  /** While no power is cut by the cast and all together fit into 64 bits, there is an active set if
      and only if somebody is active with stake and there are places. */
  lemma SetExists(s: KeeperState, order: seq<Address>)
    requires Enumerates(order, s) && TotalPower(AsValidators(s, Chosen(s, order))) < TWO_64
    requires forall v <- s.validators.Keys :: s.validators[v].tokens < TWO_64 * SPRX
    ensures ActiveSet(s, order).Some? <==>
      0 < s.params.maxValidators
      && exists v <- s.validators.Keys :: s.validators[v].status == Active && 0 < s.validators[v].tokens
  {
    var top := Chosen(s, order);
    ChosenExactly(s, order);
    BuiltWhen(AsValidators(s, top));
    if top != [] {
      assert top[0] in top && top[0] in s.validators;
      FirstHasPower(s, top);
    }
  }

  lemma BuiltWhen(vs: seq<Validator>)
    requires TotalPower(vs) < TWO_64
    ensures MakeSet(vs).Some? <==> vs != [] && 0 < TotalPower(vs)
  {
    SmallMod(TotalPower(vs));
  }

  lemma FirstHasPower(s: KeeperState, top: seq<Address>)
    requires top != [] && top[0] in s.validators && Tokens(s, top[0]) < TWO_64 * SPRX
    ensures 0 < TotalPower(AsValidators(s, top))
  {
    var q := PowerIsWhole(Tokens(s, top[0]));
    PositivePower(Tokens(s, top[0]), q);
    MemberPower(AsValidators(s, top), 0);
  }

  lemma PositivePower(tokens: nat, p: nat)
    requires WholeSprx(tokens, p)
    ensures 0 < p
  {
  }

  /** Of validators with equal power in a fresh set the one with the greatest address proposes
      first. */
  lemma TieGoesToGreatest(s: ValSet, i: nat)
    requires s.validators != [] && ZeroPriorities(s.validators) && i < |s.validators|
    requires forall v <- s.validators :: v.votingPower == s.validators[i].votingPower
    ensures Select(s).1 == |s.validators| - 1
  {
    var vs := Bumped(s.validators);
    forall j | 0 <= j < |vs| ensures vs[j].proposerPriority == vs[|vs| - 1].proposerPriority {
      assert s.validators[j] in s.validators && s.validators[|vs| - 1] in s.validators;
    }
    assert IsLastMax(vs, LastMax(vs));
  }
}
