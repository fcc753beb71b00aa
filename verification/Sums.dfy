/** Sums over finite sets, used to state conservation. */
module Sums {

  ghost function Sum<T>(f: T -> int, s: set<T>): int {
    if s == {} then 0 else var x :| x in s; f(x) + Sum(f, s - {x})
  }

  /** Any element can be taken out first. */
  lemma {:induction false} SumPick<T>(f: T -> int, s: set<T>, x: T)
    requires x in s
    ensures Sum(f, s) == f(x) + Sum(f, s - {x})
    decreases |s|
  {
    var y :| y in s && Sum(f, s) == f(y) + Sum(f, s - {y});
    if y != x {
      SumPick(f, s - {y}, x);
      SumPick(f, s - {x}, y);
      assert s - {y} - {x} == s - {x} - {y};
    }
  }

  lemma {:induction false} SumSame<T>(f: T -> int, g: T -> int, s: set<T>)
    requires forall x <- s :: f(x) == g(x)
    ensures Sum(f, s) == Sum(g, s)
    decreases |s|
  {
    if s != {} {
      var x :| x in s;
      SumPick(f, s, x);
      SumPick(g, s, x);
      SumSame(f, g, s - {x});
    }
  }

  /** Changing one place. */
  lemma SumChange<T>(f: T -> int, g: T -> int, s: set<T>, x: T)
    requires x in s && forall y <- s :: y != x ==> f(y) == g(y)
    ensures Sum(g, s) == Sum(f, s) + g(x) - f(x)
  {
    SumPick(f, s, x);
    SumPick(g, s, x);
    SumSame(f, g, s - {x});
  }

  /** Changing two places. */
  lemma SumMove<T>(f: T -> int, g: T -> int, s: set<T>, x: T, z: T)
    requires x in s && z in s && x != z && forall y <- s :: y != x && y != z ==> f(y) == g(y)
    ensures Sum(g, s) == Sum(f, s) + g(x) - f(x) + g(z) - f(z)
  {
    SumPick(f, s, x);
    SumPick(g, s, x);
    SumChange(f, g, s - {x}, z);
  }
}
