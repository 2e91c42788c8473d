/** The ascending enumeration of a finite set of identifiers. */
module Ordered {

  ghost predicate IsLeast(s: set<nat>, m: nat) {
    m in s && forall x :: x in s ==> m <= x
  }

  lemma {:induction false} LeastExists(s: set<nat>)
    requires s != {}
    ensures exists m :: IsLeast(s, m)
    decreases |s|
  {
    var x :| x in s;
    if s - {x} == {} {
      assert s == {x};
      assert IsLeast(s, x);
    } else {
      LeastExists(s - {x});
      var m :| IsLeast(s - {x}, m);
      assert s == s - {x} + {x};
      assert IsLeast(s, if x < m then x else m);
    }
  }

  ghost function Least(s: set<nat>): (m: nat)
    requires s != {}
    ensures IsLeast(s, m)
  {
    LeastExists(s);
    var m :| IsLeast(s, m);
    m
  }

  ghost predicate StrictlyAscending(q: seq<nat>) {
    forall i, j :: 0 <= i < j < |q| ==> q[i] < q[j]
  }

  lemma LeastFirst(s: set<nat>, m: nat, rest: seq<nat>)
    requires IsLeast(s, m) && StrictlyAscending(rest) && forall x :: x in rest <==> x in s - {m}
    ensures StrictlyAscending([m] + rest) && forall x :: x in [m] + rest <==> x in s
  {
    forall i | 0 <= i < |rest| ensures m < rest[i] {
      assert rest[i] in rest;
    }
  }

  /** The members of `s` from least to greatest. */
  ghost function Ascending(s: set<nat>): (q: seq<nat>)
    ensures forall x :: x in q <==> x in s
    ensures StrictlyAscending(q) && |q| == |s|
  {
    if s == {} then []
    else
      var m := Least(s);
      var rest := Ascending(s - {m});
      LeastFirst(s, m, rest);
      [m] + rest
  }

  /** An identifier not in `s`. */
  ghost function Beyond(s: set<nat>): (id: nat)
    ensures id !in s
  {
    var q := Ascending(s);
    assert forall i :: 0 <= i < |q| ==> q[i] <= q[|q| - 1];
    if q == [] then 0 else q[|q| - 1] + 1
  }

  /** There is only one ascending enumeration. */
  lemma {:induction false} AscendingIsUnique(p: seq<nat>, q: seq<nat>)
    requires StrictlyAscending(p) && StrictlyAscending(q)
    requires forall x :: x in p <==> x in q
    ensures p == q
    decreases |p|
  {
    if q != [] {
      assert q[0] in q;
    }
    if p != [] {
      assert p[0] in p && p[0] in q;
      assert q[0] in q && q[0] in p;
      assert p[0] == q[0];
      forall x ensures x in p[1..] <==> x in q[1..] {
        assert x in p <==> x == p[0] || x in p[1..];
        assert x in q <==> x == q[0] || x in q[1..];
      }
      AscendingIsUnique(p[1..], q[1..]);
    }
  }
}
