/** Majorities of a cluster of `n` servers numbered 0 .. n-1. */
module Quorums {

  ghost predicate IsQuorum(q: set<nat>, n: nat) {
    && (forall i | i in q :: i < n)
    && 2 * |q| > n
  }

  ghost function Servers(n: nat): (s: set<nat>)
    ensures |s| == n
    ensures forall i: nat :: i in s <==> i < n
  {
    if n == 0 then {} else Servers(n - 1) + {n - 1}
  }

  lemma SubsetSize(a: set<nat>, b: set<nat>)
    requires a <= b
    ensures |a| <= |b|
  {
    assert b == a + (b - a);
  }

  /** Any two majorities share a server. */
  lemma QuorumsIntersect(a: set<nat>, b: set<nat>, n: nat) returns (i: nat)
    requires IsQuorum(a, n) && IsQuorum(b, n)
    ensures i in a && i in b
  {
    SubsetSize(a + b, Servers(n));
    assert a * b != {} by {
      assert |a + b| == |a| + |b| - |a * b|;
    }
    i :| i in a * b;
  }

  ghost predicate Distinct(s: seq<nat>) {
    forall i, j | 0 <= i < j < |s| :: s[i] != s[j]
  }

  lemma {:induction false} Enumerate(q: set<nat>) returns (xs: seq<nat>)
    ensures Distinct(xs) && |xs| == |q| && forall x :: x in xs <==> x in q
  {
    if q == {} {
      xs := [];
    } else {
      var x :| x in q;
      var rest := Enumerate(q - {x});
      xs := rest + [x];
    }
  }
}
