/** Sums of natural numbers over finite sets and sequences. */
module Sums {

  ghost function Pick<T>(s: set<T>): T
    requires s != {}
  {
    var x :| x in s; x
  }

  ghost function Sum<T>(s: set<T>, f: T -> nat): nat
  {
    if s == {} then 0 else f(Pick(s)) + Sum(s - {Pick(s)}, f)
  }

  /** The order in which elements are taken does not matter. */
  lemma {:induction false} SumTakeOut<T>(s: set<T>, f: T -> nat, x: T)
    requires x in s
    ensures Sum(s, f) == f(x) + Sum(s - {x}, f)
  {
    var y := Pick(s);
    if y != x {
      SumTakeOut(s - {y}, f, x);
      SumTakeOut(s - {x}, f, y);
      assert s - {y} - {x} == s - {x} - {y};
    }
  }

  lemma SumAdd<T>(s: set<T>, f: T -> nat, x: T)
    requires x !in s
    ensures Sum(s + {x}, f) == f(x) + Sum(s, f)
  {
    SumTakeOut(s + {x}, f, x);
    assert s + {x} - {x} == s;
  }

  lemma {:induction false} SumSame<T>(s: set<T>, f: T -> nat, g: T -> nat)
    requires forall x <- s :: f(x) == g(x)
    ensures Sum(s, f) == Sum(s, g)
  {
    if s != {} {
      SumSame(s - {Pick(s)}, f, g);
    }
  }

  lemma {:induction false} SumUnion<T>(s: set<T>, t: set<T>, f: T -> nat)
    requires s !! t
    ensures Sum(s + t, f) == Sum(s, f) + Sum(t, f)
  {
    if t == {} {
      assert s + t == s;
    } else {
      var x := Pick(t);
      SumTakeOut(s + t, f, x);
      assert s + t - {x} == s + (t - {x});
      SumUnion(s, t - {x}, f);
    }
  }

  lemma SumMonotone<T>(s: set<T>, t: set<T>, f: T -> nat)
    requires s <= t
    ensures Sum(s, f) <= Sum(t, f)
  {
    SumUnion(s, t - s, f);
    assert s + (t - s) == t;
  }

  /** Changing one term moves the sum by the change of that term. */
  lemma SumUpdate<T>(s: set<T>, f: T -> nat, g: T -> nat, x: T)
    requires x in s
    requires forall y <- s :: y != x ==> f(y) == g(y)
    ensures Sum(s, g) + f(x) == Sum(s, f) + g(x)
  {
    SumTakeOut(s, f, x);
    SumTakeOut(s, g, x);
    SumSame(s - {x}, f, g);
  }

  lemma SumElement<T>(s: set<T>, f: T -> nat, x: T)
    requires x in s
    ensures f(x) <= Sum(s, f)
  {
    SumTakeOut(s, f, x);
  }
}
