/** The choice of the active validator set. */
module ActiveSets {
  import opened Basics
  import opened Sorting
  import opened ValidatorSets
  import opened Engine
  import opened Staking
  import opened StakingRuns
  import opened StakingLife

  predicate Distinct(s: seq<Address>) {
    forall i, j :: 0 <= i < j < |s| ==> s[i] != s[j]
  }

  /** An iteration order of the hash map of validators. */
  ghost predicate Enumerates(order: seq<Address>, s: KeeperState) {
    Distinct(order) && forall v: Address :: v in order <==> v in s.validators
  }

  lemma {:induction false} CandidatesDistinct(s: KeeperState, order: seq<Address>)
    requires Distinct(order)
    ensures Distinct(Candidates(s, order))
  {
    if order != [] {
      var v := order[|order| - 1];
      assert v !in order[..|order| - 1];
      CandidatesDistinct(s, order[..|order| - 1]);
    }
  }

  lemma {:induction false} InsertDistinct(s: seq<Address>, x: Address, key: Address -> int)
    requires Distinct(s) && x !in s
    ensures Distinct(InsertBy(s, x, key))
  {
    if s != [] && key(s[0]) <= key(x) {
      var tail := InsertBy(s[1..], x, key);
      InsertDistinct(s[1..], x, key);
      assert forall i :: 0 <= i < |tail| ==> tail[i] in tail;
      assert s[0] !in s[1..];
    }
  }

  lemma {:induction false} SortDistinct(s: seq<Address>, key: Address -> int)
    requires Distinct(s)
    ensures Distinct(SortBy(s, key))
  {
    if s != [] {
      assert s[|s| - 1] !in s[..|s| - 1];
      SortDistinct(s[..|s| - 1], key);
      InsertDistinct(SortBy(s[..|s| - 1], key), s[|s| - 1], key);
    }
  }

  lemma RankedDistinct(s: KeeperState, order: seq<Address>)
    requires Distinct(order)
    ensures Distinct(Ranked(s, order))
  {
    CandidatesDistinct(s, order);
    SortDistinct(Candidates(s, order), ByWeight(s));
  }

  /** The active set takes the eligible validators with most tokens: as many as allowed, each
      once, and none that is left out has more tokens than one that is taken. */
  lemma TopByTokens(s: KeeperState, order: seq<Address>)
    requires Enumerates(order, s)
    ensures var top := Chosen(s, order);
      && Distinct(top)
      && |top| == Min(|Candidates(s, order)|, s.params.maxValidators)
      && (forall v <- top :: Eligible(s, v))
      && (forall v <- top, w: Address :: Eligible(s, w) && w !in top ==> Tokens(s, w) <= Tokens(s, v))
  {
    var top := Chosen(s, order);
    RankedDistinct(s, order);
    forall v <- top, w: Address | Eligible(s, w) && w !in top ensures Tokens(s, w) <= Tokens(s, v) {
      RankedBelow(s, order, v, w);
    }
  }

  lemma RankedBelow(s: KeeperState, order: seq<Address>, v: Address, w: Address)
    requires Enumerates(order, s) && v in Chosen(s, order) && Eligible(s, w) && w !in Chosen(s, order)
    ensures Tokens(s, w) <= Tokens(s, v)
  {
    var ranked, top := Ranked(s, order), Chosen(s, order);
    assert w in ranked;
    var i :| 0 <= i < |top| && top[i] == v;
    var j :| 0 <= j < |ranked| && ranked[j] == w;
    assert ranked[i] == v && j >= |top|;
    assert Weight(s, ranked[i]) <= Weight(s, ranked[j]);
  }

  /** A tombstoned validator is in no active set after any further calls. */
  lemma TombstonedNeverActive(p: Params, cs: seq<Call>, more: seq<Call>, v: Address, order: seq<Address>)
    requires Tombstoned(Run(p, cs), v)
    ensures var s := RunFrom(Run(p, cs), more);
      v !in Chosen(s, order) && (ActiveSet(s, order).Some? ==> !Member(ActiveSet(s, order).value.validators, v))
  {
    var s := RunFrom(Run(p, cs), more);
    TombstoneForever(p, cs, more, v);
    var top := Chosen(s, order);
    assert forall w <- top :: w in Ranked(s, order) && Eligible(s, w);
    if ActiveSet(s, order).Some? {
      var vs := AsValidators(s, top);
      assert forall i :: 0 <= i < |vs| ==> vs[i].address == top[i] && top[i] in top;
      NotInSet(vs, v);
    }
  }

  lemma NotInSet(vs: seq<Validator>, a: Address)
    requires forall i :: 0 <= i < |vs| ==> vs[i].address != a
    ensures !Member(SortByAddress(vs), a)
  {
    var sorted := SortByAddress(vs);
    assert forall i :: 0 <= i < |sorted| ==> sorted[i] in vs;
  }

  // ---------------------------------------------------------------------------------
  // Dependence on the iteration order of the hash map

  function Elements(s: seq<Address>): (r: set<Address>)
    ensures forall v :: v in r <==> v in s
  {
    set v | v in s
  }

  lemma {:induction false} DistinctSize(s: seq<Address>)
    requires Distinct(s)
    ensures |Elements(s)| == |s|
  {
    if s != [] {
      var v := s[|s| - 1];
      DistinctSize(s[..|s| - 1]);
      assert s == s[..|s| - 1] + [v];
      assert Elements(s) == Elements(s[..|s| - 1]) + {v};
    }
  }

  lemma SubsetSize(a: set<Address>, b: set<Address>)
    requires a <= b
    ensures |a| <= |b| && (|a| == |b| ==> a == b)
  {
    assert b == a + (b - a);
  }

  lemma SameSizes(s: KeeperState, o: seq<Address>, q: seq<Address>)
    requires Enumerates(o, s) && Enumerates(q, s)
    ensures |Chosen(s, o)| == |Chosen(s, q)|
  {
    CandidatesDistinct(s, o);
    CandidatesDistinct(s, q);
    DistinctSize(Candidates(s, o));
    DistinctSize(Candidates(s, q));
    assert Elements(Candidates(s, o)) == Elements(Candidates(s, q));
  }

  /** `v` is taken and `w`, with as many tokens, is not. */
  predicate Tie(s: KeeperState, order: seq<Address>, v: Address, w: Address) {
    v in Chosen(s, order) && Eligible(s, w) && w !in Chosen(s, order) && Tokens(s, v) == Tokens(s, w)
  }

  /** The eligible validators with more than `t` tokens. */
  function Above(s: KeeperState, t: nat): set<Address> {
    set v <- s.validators.Keys | Eligible(s, v) && t < Tokens(s, v)
  }

  /** The eligible validators with at least `t` tokens. */
  function AtLeast(s: KeeperState, t: nat): set<Address> {
    set v <- s.validators.Keys | Eligible(s, v) && t <= Tokens(s, v)
  }

  predicate ContestedAt(s: KeeperState, t: nat) {
    |Above(s, t)| < s.params.maxValidators < |AtLeast(s, t)|
  }

  /** Validators with the same stake compete for the last places. */
  ghost predicate Contested(s: KeeperState) {
    exists t: nat :: ContestedAt(s, t)
  }

  /** If somebody was left out, all places are taken. */
  lemma PlacesTaken(s: KeeperState, order: seq<Address>, w: Address)
    requires Enumerates(order, s) && Eligible(s, w) && w !in Chosen(s, order)
    ensures |Elements(Chosen(s, order))| == s.params.maxValidators
  {
    TopByTokens(s, order);
    DistinctSize(Chosen(s, order));
    assert w in Ranked(s, order);
  }

  lemma TieIsContested(s: KeeperState, order: seq<Address>, v: Address, w: Address)
    requires Enumerates(order, s) && Tie(s, order, v, w)
    ensures ContestedAt(s, Tokens(s, v))
  {
    var top, t := Elements(Chosen(s, order)), Tokens(s, v);
    TopByTokens(s, order);
    PlacesTaken(s, order, w);
    assert Above(s, t) <= top - {v};
    SubsetSize(Above(s, t), top - {v});
    assert top + {w} <= AtLeast(s, t);
    SubsetSize(top + {w}, AtLeast(s, t));
  }

  lemma {:induction false} AllChosen(s: KeeperState, order: seq<Address>, t: nat)
    requires Enumerates(order, s) && AtLeast(s, t) <= Elements(Chosen(s, order))
    ensures |AtLeast(s, t)| <= s.params.maxValidators
  {
    TopByTokens(s, order);
    DistinctSize(Chosen(s, order));
    SubsetSize(AtLeast(s, t), Elements(Chosen(s, order)));
  }

  lemma ContestedHasTie(s: KeeperState, order: seq<Address>, t: nat) returns (v: Address, w: Address)
    requires Enumerates(order, s) && ContestedAt(s, t)
    ensures Tie(s, order, v, w)
  {
    var top := Elements(Chosen(s, order));
    if AtLeast(s, t) <= top { AllChosen(s, order, t); }
    w :| w in AtLeast(s, t) && w !in top;
    PlacesTaken(s, order, w);
    if top <= Above(s, t) { SubsetSize(top, Above(s, t)); }
    v :| v in top && v !in Above(s, t);
    TopByTokens(s, order);
  }

  /** Whatever the iteration order, there is a tie at the cut if and only if the last places are
      contested. */
  lemma TieExactly(s: KeeperState, order: seq<Address>)
    requires Enumerates(order, s)
    ensures (exists v: Address, w: Address :: Tie(s, order, v, w)) <==> Contested(s)
  {
    if v: Address, w: Address :| Tie(s, order, v, w) { TieIsContested(s, order, v, w); }
    if t: nat :| ContestedAt(s, t) { var v, w := ContestedHasTie(s, order, t); }
  }

  /** Two sets of one size, each holding the largest elements, are equal unless they tie. */
  lemma LargestAgree(a: set<Address>, b: set<Address>, size: Address -> nat)
    requires |a| == |b|
    requires forall v <- a, w <- b - a :: size(w) < size(v)
    requires forall w <- b, v <- a - b :: size(v) <= size(w)
    ensures a == b
  {
    assert forall v <- a - b, w <- b - a :: size(w) < size(v) <= size(w);
    assert a - b == {} || b - a == {};
    assert a == (a - b) + a * b && b == (b - a) + a * b;
    if a <= b { SubsetSize(a, b); } else { SubsetSize(b, a); }
  }

  lemma NoTieSameMembers(s: KeeperState, o: seq<Address>, q: seq<Address>)
    requires Enumerates(o, s) && Enumerates(q, s)
    requires forall v: Address, w: Address :: !Tie(s, o, v, w)
    ensures Elements(Chosen(s, o)) == Elements(Chosen(s, q))
  {
    var c, d := Chosen(s, o), Chosen(s, q);
    TopByTokens(s, o);
    TopByTokens(s, q);
    SameSizes(s, o, q);
    DistinctSize(c);
    DistinctSize(d);
    forall v <- Elements(c), w <- Elements(d) - Elements(c) ensures Tokens(s, w) < Tokens(s, v) {
      assert v in c && w in d && w !in c && !Tie(s, o, v, w);
    }
    LargestAgree(Elements(c), Elements(d), v => Tokens(s, v));
  }

  lemma {:induction false} InsertPower(vs: seq<Validator>, x: Validator, key: Validator -> int)
    ensures TotalPower(InsertBy(vs, x, key)) == TotalPower(vs) + x.votingPower
  {
    TotalPowerHead([x] + vs);
    assert ([x] + vs)[1..] == vs;
    if vs != [] && key(vs[0]) <= key(x) {
      InsertPower(vs[1..], x, key);
      TotalPowerHead(vs);
      TotalPowerHead(InsertBy(vs, x, key));
    }
  }

  lemma {:induction false} SortPower(vs: seq<Validator>, key: Validator -> int)
    ensures TotalPower(SortBy(vs, key)) == TotalPower(vs)
  {
    if vs != [] {
      SortPower(vs[..|vs| - 1], key);
      InsertPower(SortBy(vs[..|vs| - 1], key), vs[|vs| - 1], key);
    }
  }

  lemma {:induction false} InsertStrict(vs: seq<Validator>, x: Validator, key: Validator -> int)
    requires StrictlySortedBy(vs, key) && forall y <- vs :: key(y) != key(x)
    ensures StrictlySortedBy(InsertBy(vs, x, key), key)
  {
    if vs != [] && key(vs[0]) <= key(x) {
      var tail := InsertBy(vs[1..], x, key);
      InsertStrict(vs[1..], x, key);
      forall y <- tail ensures key(vs[0]) < key(y) {
        assert vs[0] in vs && (y == x || y in vs[1..]);
      }
      assert forall i :: 0 <= i < |tail| ==> tail[i] in tail;
      assert InsertBy(vs, x, key) == [vs[0]] + tail;
    }
  }

  lemma {:induction false} SortStrict(vs: seq<Validator>, key: Validator -> int)
    requires forall i, j :: 0 <= i < j < |vs| ==> key(vs[i]) != key(vs[j])
    ensures StrictlySortedBy(SortBy(vs, key), key)
  {
    if vs != [] {
      SortStrict(vs[..|vs| - 1], key);
      InsertStrict(SortBy(vs[..|vs| - 1], key), vs[|vs| - 1], key);
    }
  }

  /** Two lists of the same validators make the same set. */
  lemma SameMembersSameSet(vs: seq<Validator>, ws: seq<Validator>)
    requires DistinctAddresses(vs) && DistinctAddresses(ws) && |vs| == |ws|
    requires forall v: Validator :: v in vs <==> v in ws
    ensures MakeSet(vs) == MakeSet(ws)
  {
    var key := (v: Validator) => v.address;
    SortStrict(vs, key);
    SortStrict(ws, key);
    StrictlySortedUnique(SortBy(vs, key), SortBy(ws, key), key);
    SortPower(vs, key);
    SortPower(ws, key);
  }

  /** Nodes that choose the same members build the same set. */
  lemma SameMembersSameActive(s: KeeperState, o: seq<Address>, q: seq<Address>)
    requires Enumerates(o, s) && Enumerates(q, s) && Elements(Chosen(s, o)) == Elements(Chosen(s, q))
    ensures ActiveSet(s, o) == ActiveSet(s, q)
  {
    var c, d := Chosen(s, o), Chosen(s, q);
    TopByTokens(s, o);
    TopByTokens(s, q);
    SameSizes(s, o, q);
    forall v: Validator ensures v in AsValidators(s, c) <==> v in AsValidators(s, d) {
      InValidators(s, c, v);
      InValidators(s, d, v);
      assert v.address in c <==> v.address in Elements(c);
    }
    SameMembersSameSet(AsValidators(s, c), AsValidators(s, d));
  }

  lemma InValidators(s: KeeperState, vs: seq<Address>, v: Validator)
    ensures v in AsValidators(s, vs) <==>
      && v.address in vs && v.proposerPriority == 0
      && v.votingPower == if v.address in s.validators then VotingPower(s.validators[v.address].tokens) else 0
  {
    var r := AsValidators(s, vs);
    if v in r {
      var i :| 0 <= i < |r| && r[i] == v;
      assert vs[i] in vs;
    } else if v.address in vs {
      var i :| 0 <= i < |vs| && vs[i] == v.address;
      assert r[i] in r;
    }
  }

  lemma SortedMembers(vs: seq<Validator>)
    requires DistinctAddresses(vs) && ZeroPriorities(vs)
    ensures DistinctAddresses(SortByAddress(vs)) && ZeroPriorities(SortByAddress(vs))
  {
    var key, sorted := (v: Validator) => v.address, SortByAddress(vs);
    SortStrict(vs, key);
    assert forall i, j :: 0 <= i < j < |sorted| ==> key(sorted[i]) < key(sorted[j]);
    assert forall i :: 0 <= i < |sorted| ==> sorted[i] in vs;
  }

  lemma BuiltSetSound(vs: seq<Validator>)
    requires MakeSet(vs).Some?
    ensures SoundPowers(MakeSet(vs).value) <==> TotalPower(vs) < TWO_63
  {
    SortPower(vs, (v: Validator) => v.address);
    SmallMod(TotalPower(vs));
  }

  lemma SmallMod(x: nat)
    ensures x % TWO_64 == x <==> x < TWO_64
  {
  }

  /** A set built from stake starts the schedule afresh with distinct addresses, and the engine's
      quorum arithmetic is sound for it if and only if the powers add up to less than 2^63. */
  lemma ActiveSetUsable(s: KeeperState, order: seq<Address>)
    requires Enumerates(order, s) && ActiveSet(s, order).Some?
    ensures var v := ActiveSet(s, order).value;
      && DistinctAddresses(v.validators) && ZeroPriorities(v.validators)
      && (SoundPowers(v) <==> TotalPower(AsValidators(s, Chosen(s, order))) < TWO_63)
  {
    RankedDistinct(s, order);
    SortedMembers(AsValidators(s, Chosen(s, order)));
    BuiltSetSound(AsValidators(s, Chosen(s, order)));
  }

  /** Everything before `w` has a smaller key. */
  ghost predicate FirstOfEquals<T(!new)>(r: seq<T>, key: T -> int, w: T) {
    forall i, j :: 0 <= i < j < |r| && r[j] == w ==> key(r[i]) < key(w)
  }

  lemma {:induction false} InsertBehind(r: seq<Address>, x: Address, key: Address -> int, w: Address)
    requires SortedBy(r, key) && FirstOfEquals(r, key, w) && x != w
    ensures FirstOfEquals(InsertBy(r, x, key), key, w)
  {
    if r != [] && key(r[0]) <= key(x) {
      var tail := InsertBy(r[1..], x, key);
      InsertBehind(r[1..], x, key, w);
      forall j | 0 <= j < |tail| && tail[j] == w ensures key(r[0]) < key(w) {
        assert w in tail && w in r[1..];
      }
    }
  }

  lemma {:induction false} FirstStaysFirst(s: KeeperState, w: Address, rest: seq<Address>)
    requires Eligible(s, w) && w !in rest
    ensures FirstOfEquals(Ranked(s, [w] + rest), ByWeight(s), w)
  {
    var order := [w] + rest;
    if rest == [] {
      assert order[..0] == [] && Candidates(s, order) == [w];
      assert |Ranked(s, order)| == 1;
    } else {
      var x, front := rest[|rest| - 1], [w] + rest[..|rest| - 1];
      assert order[..|order| - 1] == front && x in rest;
      FirstStaysFirst(s, w, rest[..|rest| - 1]);
      if Eligible(s, x) {
        assert Candidates(s, order)[..|Candidates(s, front)|] == Candidates(s, front);
        InsertBehind(Ranked(s, front), x, ByWeight(s), w);
      } else {
        assert Candidates(s, order) == Candidates(s, front);
      }
    }
  }

  function Without(s: seq<Address>, w: Address): (r: seq<Address>)
    ensures forall u :: u in r <==> u in s && u != w
    ensures Distinct(s) ==> Distinct(r)
  {
    if s == [] then []
    else
      var front, u := s[..|s| - 1], s[|s| - 1];
      assert s == front + [u];
      var r := Without(front, w);
      assert (forall i :: 0 <= i < |r| ==> r[i] in r) && (Distinct(s) ==> u !in front);
      if u == w then r else r + [u]
  }

  /** Validators ahead of `w` among all candidates are ahead of the cut, if `w` ties there. */
  lemma AheadIsTaken(s: KeeperState, order: seq<Address>, v: Address, w: Address, ahead: seq<Address>)
    requires Enumerates(order, s) && Tie(s, order, v, w) && Distinct(ahead)
    requires forall u <- ahead :: Eligible(s, u) && Weight(s, u) < Weight(s, w)
    ensures |ahead| < s.params.maxValidators
  {
    var top := Chosen(s, order);
    TopByTokens(s, order);
    forall u <- ahead ensures u in top && u != v {
      assert Tokens(s, u) > Tokens(s, v);
    }
    DistinctSize(ahead);
    DistinctSize(top);
    assert |Elements(ahead) + {v}| == |ahead| + 1;
    SubsetSize(Elements(ahead) + {v}, Elements(top));
  }

  lemma FirstIsTaken(s: KeeperState, order: seq<Address>, v: Address, w: Address, r: seq<Address>, j: nat)
    requires Enumerates(order, s) && Tie(s, order, v, w)
    requires Distinct(r) && FirstOfEquals(r, ByWeight(s), w) && j < |r| && r[j] == w
    requires forall u <- r :: Eligible(s, u)
    ensures j < s.params.maxValidators
  {
    forall u <- r[..j] ensures Eligible(s, u) && Weight(s, u) < Weight(s, w) {
      var m :| 0 <= m < j && r[m] == u;
      assert ByWeight(s)(r[m]) < ByWeight(s)(w);
    }
    AheadIsTaken(s, order, v, w, r[..j]);
  }

  lemma MovedFirst(s: KeeperState, order: seq<Address>, w: Address)
    requires Enumerates(order, s) && w in s.validators
    ensures Enumerates([w] + Without(order, w), s)
  {
    var rest := Without(order, w);
    assert forall i :: 0 <= i < |rest| ==> rest[i] in rest;
  }

  /** Moved to the front of the iteration order, the validator that lost the tie is taken. */
  lemma TieDecidedByOrder(s: KeeperState, order: seq<Address>, v: Address, w: Address) returns (q: seq<Address>)
    requires Enumerates(order, s) && Tie(s, order, v, w)
    ensures Enumerates(q, s) && w in Chosen(s, q)
  {
    q := [w] + Without(order, w);
    MovedFirst(s, order, w);
    FirstStaysFirst(s, w, Without(order, w));
    var j := RankOf(s, q, w);
    FirstIsTaken(s, order, v, w, Ranked(s, q), j);
  }

  /** The place of an eligible validator among all candidates. */
  lemma RankOf(s: KeeperState, q: seq<Address>, w: Address) returns (j: nat)
    requires Enumerates(q, s) && Eligible(s, w)
    ensures j < |Ranked(s, q)| && Ranked(s, q)[j] == w
    ensures Distinct(Ranked(s, q)) && forall u <- Ranked(s, q) :: Eligible(s, u)
    ensures j < s.params.maxValidators ==> w in Chosen(s, q)
  {
    RankedDistinct(s, q);
    assert w in q && w in Ranked(s, q);
    j :| 0 <= j < |Ranked(s, q)| && Ranked(s, q)[j] == w;
    if j < s.params.maxValidators { assert Chosen(s, q)[j] == w; }
  }

  /** A member that only one of two nodes chooses makes their sets differ. */
  lemma OtherMemberOtherSet(s: KeeperState, o: seq<Address>, q: seq<Address>, w: Address)
    requires w in Chosen(s, q) && w !in Chosen(s, o) && ActiveSet(s, o).Some?
    ensures ActiveSet(s, o) != ActiveSet(s, q)
  {
    var c, d := AsValidators(s, Chosen(s, o)), AsValidators(s, Chosen(s, q));
    var x := Validator(w, if w in s.validators then VotingPower(s.validators[w].tokens) else 0, 0);
    InValidators(s, Chosen(s, o), x);
    InValidators(s, Chosen(s, q), x);
    assert x in SortByAddress(d) && x !in SortByAddress(c);
  }

  /** All nodes with the same stake choose the same validators, whatever the iteration order of
      their hash maps, if and only if the last places are not contested. */
  lemma ChoiceDetermined(s: KeeperState, order: seq<Address>)
    requires Enumerates(order, s)
    ensures (forall q: seq<Address> :: Enumerates(q, s) ==> Elements(Chosen(s, q)) == Elements(Chosen(s, order)))
      <==> !Contested(s)
  {
    TieExactly(s, order);
    if Contested(s) {
      var v: Address, w: Address :| Tie(s, order, v, w);
      var q := TieDecidedByOrder(s, order, v, w);
      assert w in Elements(Chosen(s, q)) && w !in Elements(Chosen(s, order));
    } else {
      forall q: seq<Address> | Enumerates(q, s) ensures Elements(Chosen(s, q)) == Elements(Chosen(s, order)) {
        NoTieSameMembers(s, order, q);
      }
    }
  }

  /** So they build the same active set under the same condition. */
  lemma ActiveSetDetermined(s: KeeperState, order: seq<Address>)
    requires Enumerates(order, s) && ActiveSet(s, order).Some?
    ensures (forall q: seq<Address> :: Enumerates(q, s) ==> ActiveSet(s, q) == ActiveSet(s, order)) <==> !Contested(s)
  {
    ChoiceDetermined(s, order);
    if Contested(s) {
      TieExactly(s, order);
      var v: Address, w: Address :| Tie(s, order, v, w);
      var q := TieDecidedByOrder(s, order, v, w);
      OtherMemberOtherSet(s, order, q, w);
    } else {
      forall q: seq<Address> | Enumerates(q, s) ensures ActiveSet(s, q) == ActiveSet(s, order) {
        SameMembersSameActive(s, order, q);
      }
    }
  }
}
