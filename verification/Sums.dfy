/** Sums over finite sets, and regrouping them. */
module Sums {

  ghost function Sum<T(!new)>(s: set<T>, w: map<T, nat>): nat
    requires s <= w.Keys
  {
    if s == {} then 0
    else
      var x :| x in s;
      w[x] + Sum(s - {x}, w)
  }

  /** Whichever element is taken first. */
  lemma {:induction false} SumTakes<T(!new)>(s: set<T>, w: map<T, nat>, x: T)
    requires s <= w.Keys && x in s
    ensures Sum(s, w) == w[x] + Sum(s - {x}, w)
    decreases |s|
  {
    var y :| y in s && Sum(s, w) == w[y] + Sum(s - {y}, w);
    if x != y {
      SumTakes(s - {y}, w, x);
      SumTakes(s - {x}, w, y);
      assert s - {y} - {x} == s - {x} - {y};
    }
  }

  lemma {:induction false} SumOfParts<T(!new)>(a: set<T>, b: set<T>, w: map<T, nat>)
    requires a <= w.Keys && b <= w.Keys && a !! b
    ensures Sum(a + b, w) == Sum(a, w) + Sum(b, w)
    decreases |a|
  {
    if x :| x in a {
      SumTakes(a, w, x);
      SumTakes(a + b, w, x);
      assert a + b - {x} == a - {x} + b;
      SumOfParts(a - {x}, b, w);
    } else {
      assert a + b == b;
    }
  }

  lemma {:induction false} SumOfOnes<T(!new)>(s: set<T>, w: map<T, nat>)
    requires s <= w.Keys && forall x :: x in s ==> w[x] == 1
    ensures Sum(s, w) == |s|
    decreases |s|
  {
    if x :| x in s {
      SumTakes(s, w, x);
      SumOfOnes(s - {x}, w);
    }
  }

  /** The members of `s` filed under `k`. */
  ghost function Group<T(!new), K(!new)>(s: set<T>, key: map<T, K>, k: K): set<T>
    requires s <= key.Keys
  {
    set x | x in s && key[x] == k
  }

  /** Summing group by group is summing everything. */
  lemma {:induction false} GroupingConserves<T(!new), K(!new)>(s: set<T>, w: map<T, nat>, key: map<T, K>, keys: set<K>, totals: map<K, nat>)
    requires s <= w.Keys && s <= key.Keys && keys <= totals.Keys && forall x :: x in s ==> key[x] in keys
    requires forall k :: k in keys ==> totals[k] == Sum(Group(s, key, k), w)
    ensures Sum(keys, totals) == Sum(s, w)
    decreases |keys|
  {
    if k :| k in keys {
      var g := Group(s, key, k);
      var rest := s - g;
      assert g + rest == s;
      SumOfParts(g, rest, w);
      SumTakes(keys, totals, k);
      forall j | j in keys - {k} ensures totals[j] == Sum(Group(rest, key, j), w) {
        assert Group(rest, key, j) == Group(s, key, j);
      }
      GroupingConserves(rest, w, key, keys - {k}, totals);
    } else {
      assert s == {};
    }
  }
}
