/** Sums over finite sets. */
module Sums {

  ghost function Sum<T(!new)>(s: set<T>, f: T -> int): int {
    if s == {} then 0
    else
      var x :| x in s;
      f(x) + Sum(s - {x}, f)
  }

  /** Any element can be taken out first. */
  lemma {:induction false} SumRemove<T(!new)>(s: set<T>, f: T -> int, x: T)
    requires x in s
    ensures Sum(s, f) == f(x) + Sum(s - {x}, f)
    decreases |s|
  {
    var y :| y in s && Sum(s, f) == f(y) + Sum(s - {y}, f);
    if y != x {
      SumRemove(s - {y}, f, x);
      SumRemove(s - {x}, f, y);
      assert s - {y} - {x} == s - {x} - {y};
    }
  }

  lemma {:induction false} SumAdd<T(!new)>(s: set<T>, f: T -> int, x: T)
    requires x !in s
    ensures Sum(s + {x}, f) == Sum(s, f) + f(x)
  {
    SumRemove(s + {x}, f, x);
    assert s + {x} - {x} == s;
  }

  lemma {:induction false} SumSame<T(!new)>(s: set<T>, f: T -> int, g: T -> int)
    requires forall x :: x in s ==> f(x) == g(x)
    ensures Sum(s, f) == Sum(s, g)
    decreases |s|
  {
    if s != {} {
      var x :| x in s;
      SumRemove(s, f, x);
      SumRemove(s, g, x);
      SumSame(s - {x}, f, g);
    }
  }

  lemma {:induction false} SumUnion<T(!new)>(a: set<T>, b: set<T>, f: T -> int)
    requires a !! b
    ensures Sum(a + b, f) == Sum(a, f) + Sum(b, f)
    decreases |b|
  {
    if b == {} {
      assert a + b == a;
    } else {
      var x :| x in b;
      SumRemove(b, f, x);
      SumRemove(a + b, f, x);
      assert a + b - {x} == a + (b - {x});
      SumUnion(a, b - {x}, f);
    }
  }

  lemma {:induction false} SumPlus<T(!new)>(s: set<T>, f: T -> int, g: T -> int, h: T -> int)
    requires forall x :: x in s ==> h(x) == f(x) + g(x)
    ensures Sum(s, h) == Sum(s, f) + Sum(s, g)
    decreases |s|
  {
    if s != {} {
      var x :| x in s;
      SumRemove(s, f, x);
      SumRemove(s, g, x);
      SumRemove(s, h, x);
      SumPlus(s - {x}, f, g, h);
    }
  }

  lemma {:induction false} SumZero<T(!new)>(s: set<T>, f: T -> int)
    requires forall x :: x in s ==> f(x) == 0
    ensures Sum(s, f) == 0
    decreases |s|
  {
    if s != {} {
      var x :| x in s;
      SumRemove(s, f, x);
      SumZero(s - {x}, f);
    }
  }

  /** The union of the sets that the elements of `s` stand for. */
  ghost function Union<T(!new), U(!new)>(s: set<T>, g: T -> set<U>): set<U> {
    set x, u | x in s && u in g(x) :: u
  }

  lemma {:induction false} UnionSplit<T(!new), U(!new)>(s: set<T>, g: T -> set<U>, x: T)
    requires x in s
    requires forall y, z :: y in s && z in s && y != z ==> g(y) !! g(z)
    ensures Union(s, g) == Union(s - {x}, g) + g(x)
    ensures Union(s - {x}, g) !! g(x)
  {
  }

  /** Summing group by group is summing over the union, when the groups are disjoint. */
  lemma {:induction false} SumGroups<T(!new), U(!new)>(s: set<T>, g: T -> set<U>, f: U -> int, total: T -> int)
    requires forall x, y :: x in s && y in s && x != y ==> g(x) !! g(y)
    requires forall x :: x in s ==> total(x) == Sum(g(x), f)
    ensures Sum(s, total) == Sum(Union(s, g), f)
    decreases |s|
  {
    if s == {} {
      assert Union(s, g) == {};
    } else {
      var x :| x in s;
      SumRemove(s, total, x);
      SumGroups(s - {x}, g, f, total);
      UnionSplit(s, g, x);
      hide Union, Sum;
      SumUnion(Union(s - {x}, g), g(x), f);
    }
  }

  lemma {:induction false} SumOnes<T(!new)>(s: set<T>, f: T -> int)
    requires forall x :: x in s ==> f(x) == 1
    ensures Sum(s, f) == |s|
    decreases |s|
  {
    if s != {} {
      var x :| x in s;
      SumRemove(s, f, x);
      SumOnes(s - {x}, f);
    }
  }

  /** Sums agree along a one-to-one correspondence. */
  lemma {:induction false} SumBijection<T(!new), U(!new)>(s: set<T>, r: set<U>, to: T -> U, f: T -> int, g: U -> int)
    requires forall x :: x in s ==> to(x) in r && f(x) == g(to(x))
    requires forall x, y :: x in s && y in s && to(x) == to(y) ==> x == y
    requires forall u :: u in r ==> exists x :: x in s && to(x) == u
    ensures Sum(s, f) == Sum(r, g)
    decreases |s|
  {
    if s == {} {
      assert r == {};
    } else {
      var x :| x in s;
      SumRemove(s, f, x);
      SumRemove(r, g, to(x));
      forall u | u in r - {to(x)}
        ensures exists y :: y in s - {x} && to(y) == u
      {
        var y :| y in s && to(y) == u;
        assert y in s - {x};
      }
      SumBijection(s - {x}, r - {to(x)}, to, f, g);
    }
  }
}
