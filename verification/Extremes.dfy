/** The least and the greatest of two numbers, and of a finite nonempty set of numbers. */
module Extremes {

  function Min(a: int, b: int): int {
    if a < b then a else b
  }

  function Max(a: int, b: int): int {
    if a > b then a else b
  }

  lemma {:induction false} Lowest(s: set<nat>) returns (m: nat)
    requires s != {}
    ensures m in s && forall x :: x in s ==> m <= x
    decreases |s|
  {
    var x :| x in s;
    if s - {x} == {} {
      m := x;
      forall z | z in s ensures m <= z { assert z !in s - {x}; }
    } else {
      var y := Lowest(s - {x});
      m := if x < y then x else y;
      forall z | z in s ensures m <= z { assert z == x || z in s - {x}; }
    }
  }

  lemma {:induction false} Highest(s: set<nat>) returns (m: nat)
    requires s != {}
    ensures m in s && forall x :: x in s ==> x <= m
    decreases |s|
  {
    var x :| x in s;
    if s - {x} == {} {
      m := x;
      forall z | z in s ensures z <= m { assert z !in s - {x}; }
    } else {
      var y := Highest(s - {x});
      m := if x > y then x else y;
      forall z | z in s ensures z <= m { assert z == x || z in s - {x}; }
    }
  }
}
