/** Least and greatest elements of finite sets of integers (the source's `sorted(...)[0]` and `[-1]`). */
module Extrema {

  /** A non-empty set has an element (stated for `int` so that a `:|` choice can use it). */
  lemma Inhabited(s: set<int>)
    requires s != {}
    ensures exists x :: x in s
  {
    if forall x :: x !in s {
      assert false;
    }
  }

  /** A least element of a non-empty finite set, found by removing one element at a time. */
  lemma {:induction false} LeastWitness(s: set<int>) returns (m: int)
    requires s != {}
    ensures m in s && forall k | k in s :: m <= k
  {
    Inhabited(s);
    var x :| x in s;
    if s == {x} {
      m := x;
    } else {
      var rest := s - {x};
      var r := LeastWitness(rest);
      m := if x < r then x else r;
      forall k | k in s
        ensures m <= k
      {
        if k != x {
          assert k in rest;
        }
      }
    }
  }

  /** A greatest element of a non-empty finite set. */
  lemma {:induction false} GreatestWitness(s: set<int>) returns (m: int)
    requires s != {}
    ensures m in s && forall k | k in s :: k <= m
  {
    Inhabited(s);
    var x :| x in s;
    if s == {x} {
      m := x;
    } else {
      var rest := s - {x};
      var r := GreatestWitness(rest);
      m := if x > r then x else r;
      forall k | k in s
        ensures k <= m
      {
        if k != x {
          assert k in rest;
        }
      }
    }
  }

  lemma HasLeast(s: set<int>)
    requires s != {}
    ensures exists m :: m in s && forall k | k in s :: m <= k
  {
    var m := LeastWitness(s);
  }

  lemma HasGreatest(s: set<int>)
    requires s != {}
    ensures exists m :: m in s && forall k | k in s :: k <= m
  {
    var m := GreatestWitness(s);
  }

  function Least(s: set<int>): (m: int)
    requires s != {}
    ensures m in s && forall k | k in s :: m <= k
  {
    HasLeast(s);
    var m :| m in s && forall k | k in s :: m <= k; m
  }

  function Greatest(s: set<int>): (m: int)
    requires s != {}
    ensures m in s && forall k | k in s :: k <= m
  {
    HasGreatest(s);
    var m :| m in s && forall k | k in s :: k <= m; m
  }
}
