/** Sizes of finite sets, and how many different elements a sequence has. */
module Counting {

  lemma {:induction false} SubsetSize<T>(a: set<T>, b: set<T>)
    requires a <= b
    ensures |a| <= |b|
    ensures |a| == |b| ==> a == b
  {
    if a != {} {
      var x :| x in a;
      SubsetSize(a - {x}, b - {x});
      assert a == a - {x} + {x} && b == b - {x} + {x};
    }
  }

  function Below(n: nat): (r: set<nat>)
    ensures |r| == n && forall i: nat :: i in r <==> i < n
  {
    if n == 0 then {} else Below(n - 1) + {n - 1}
  }

  function Elements(s: seq<nat>): (r: set<nat>)
    ensures forall x :: x in r <==> x in s
  {
    set x | x in s
  }

  predicate Distinct(s: seq<nat>) {
    forall i, j | 0 <= i < j < |s| :: s[i] != s[j]
  }

  // A sequence has as many different elements as it is long exactly when none is repeated.
  lemma {:induction false} DistinctExactlyWhenFull(s: seq<nat>)
    ensures |Elements(s)| <= |s|
    ensures Distinct(s) <==> |Elements(s)| == |s|
  {
    if s != [] {
      var front, x := s[..|s| - 1], s[|s| - 1];
      assert s == front + [x];
      DistinctExactlyWhenFull(front);
      assert Elements(s) == Elements(front) + {x};
      if x in front {
        var i :| 0 <= i < |front| && front[i] == x;
        assert s[i] == s[|s| - 1];
      } else {
        assert Distinct(s) <==> Distinct(front) by {
          assert forall i | 0 <= i < |front| :: front[i] in front && s[i] == front[i];
        }
      }
    }
  }

  // Pigeonholes: n numbers below n are all of them exactly when none is repeated.
  lemma AllExactlyWhenDistinct(s: seq<nat>)
    requires forall x | x in s :: x < |s|
    ensures Distinct(s) <==> forall x: nat | x < |s| :: x in s
  {
    DistinctExactlyWhenFull(s);
    SubsetSize(Elements(s), Below(|s|));
    if forall x: nat | x < |s| :: x in s {
      assert Elements(s) == Below(|s|);
    }
  }
}
