/** Sums over finite sets: the value of a loop over a map, whatever order the map is walked in. */
module Sums {

  ghost function SumSet<K(!new)>(s: set<K>, f: K -> int): int {
    if s == {} then 0 else
      var x :| x in s;
      f(x) + SumSet(s - {x}, f)
  }

  /** Any element may be taken out first, so the order of the walk does not matter. */
  lemma {:induction false} SumSetRemove<K(!new)>(s: set<K>, f: K -> int, x: K)
    requires x in s
    ensures SumSet(s, f) == f(x) + SumSet(s - {x}, f)
    decreases |s|
  {
    var y :| y in s && SumSet(s, f) == f(y) + SumSet(s - {y}, f);
    if y != x {
      SumSetRemove(s - {y}, f, x);
      SumSetRemove(s - {x}, f, y);
      assert s - {y} - {x} == s - {x} - {y};
    }
  }

  lemma SumSetInsert<K(!new)>(s: set<K>, f: K -> int, x: K)
    requires x !in s
    ensures SumSet(s + {x}, f) == f(x) + SumSet(s, f)
  {
    SumSetRemove(s + {x}, f, x);
    assert s + {x} - {x} == s;
  }

  lemma {:induction false} SumSetSame<K(!new)>(s: set<K>, f: K -> int, g: K -> int)
    requires forall x | x in s :: f(x) == g(x)
    ensures SumSet(s, f) == SumSet(s, g)
    decreases |s|
  {
    if s == {} {
    } else {
      var x :| x in s;
      SumSetRemove(s, f, x);
      SumSetRemove(s, g, x);
      SumSetSame(s - {x}, f, g);
    }
  }

  /** Changing the summand at one element changes the sum by the difference there. */
  lemma SumSetChange<K(!new)>(s: set<K>, f: K -> int, g: K -> int, x: K)
    requires x in s
    requires forall y | y in s && y != x :: f(y) == g(y)
    ensures SumSet(s, g) == SumSet(s, f) - f(x) + g(x)
  {
    SumSetRemove(s, f, x);
    SumSetRemove(s, g, x);
    SumSetSame(s - {x}, f, g);
  }

  lemma {:induction false} SumSetAdd<K(!new)>(s: set<K>, f: K -> int, g: K -> int, h: K -> int)
    requires forall x | x in s :: h(x) == f(x) + g(x)
    ensures SumSet(s, h) == SumSet(s, f) + SumSet(s, g)
    decreases |s|
  {
    if s == {} {
    } else {
      var x :| x in s;
      SumSetRemove(s, f, x);
      SumSetRemove(s, g, x);
      SumSetRemove(s, h, x);
      SumSetAdd(s - {x}, f, g, h);
    }
  }
}
