/**
 * `Array.prototype.sort` with a comparator, as a stable insertion order over
 * positions. An order is a permutation of the positions 0..n-1; the relation
 * `after(i, j)` holds when the comparator puts element i strictly after
 * element j (the comparator returns a positive number). The engine's sort is
 * stable, which is what this insertion order gives when the comparator is
 * consistent.
 */
module StableSort {

  /** The positions 0, 1, ..., n-1 in order. */
  function Range(n: nat): (r: seq<nat>)
    ensures |r| == n && forall i :: 0 <= i < n ==> r[i] == i
  {
    seq(n, i requires 0 <= i < n => i as nat)
  }

  predicate IsPermutation(r: seq<nat>, n: nat)
  {
    multiset(r) == multiset(Range(n))
  }

  /** No element is placed after one that the comparator wants after it. */
  predicate Sorted(r: seq<nat>, after: (nat, nat) -> bool)
  {
    forall i, j :: 0 <= i < j < |r| ==> !after(r[i], r[j])
  }

  /** Every inversion of the input order is one the comparator asked for. */
  predicate Stable(r: seq<nat>, after: (nat, nat) -> bool)
  {
    forall i, j :: 0 <= i < j < |r| && r[j] < r[i] ==> after(r[j], r[i])
  }

  /** A consistent comparator on the positions below n: asymmetric, and "not after" is transitive. */
  predicate Consistent(after: (nat, nat) -> bool, n: nat)
  {
    && (forall a: nat, b: nat :: a < n && b < n && after(a, b) ==> !after(b, a))
    && (forall a: nat, b: nat, c: nat :: a < n && b < n && c < n && !after(a, b) && !after(b, c) ==> !after(a, c))
  }

  lemma ConsistentBelow(after: (nat, nat) -> bool, n: nat, m: nat)
    requires m <= n && Consistent(after, n)
    ensures Consistent(after, m)
  {
  }

  /** Inserts the position x, which comes last in the input, scanning from the back while the element there belongs after x. */
  function Insert(x: nat, p: seq<nat>, after: (nat, nat) -> bool): (r: seq<nat>)
    ensures multiset(r) == multiset(p) + multiset{x}
    ensures |r| == |p| + 1
  {
    if p == [] then [x]
    else if after(p[|p| - 1], x) then
      assert p == p[..|p| - 1] + [p[|p| - 1]];
      Insert(x, p[..|p| - 1], after) + [p[|p| - 1]]
    else p + [x]
  }

  /** The order the sort leaves the n elements in. */
  function Order(n: nat, after: (nat, nat) -> bool): (r: seq<nat>)
    ensures IsPermutation(r, n)
  {
    if n == 0 then []
    else
      assert Range(n) == Range(n - 1) + [n - 1];
      Insert(n - 1, Order(n - 1, after), after)
  }

  /** A permutation of 0..n-1 has length n, holds only positions below n, and holds each once. */
  lemma PermutationFacts(r: seq<nat>, n: nat)
    requires IsPermutation(r, n)
    ensures |r| == n
    ensures forall i :: 0 <= i < |r| ==> r[i] < n
    ensures forall i, j :: 0 <= i < j < |r| ==> r[i] != r[j]
  {
    assert |r| == |multiset(r)| == |multiset(Range(n))| == n;
    forall i | 0 <= i < |r| ensures r[i] < n {
      assert r[i] in multiset(r);
      assert r[i] in multiset(Range(n));
    }
    forall i, j | 0 <= i < j < |r| ensures r[i] != r[j] {
      if r[i] == r[j] {
        var v := r[i];
        assert r == r[..j] + [r[j]] + r[j + 1..];
        assert v in multiset(r[..j]) by { assert r[..j][i] == v; }
        assert multiset(r)[v] >= 2;
        RangeCount(n, v);
      }
    }
  }

  lemma OrderBelow(n: nat, after: (nat, nat) -> bool)
    ensures forall i :: 0 <= i < |Order(n, after)| ==> Order(n, after)[i] < n
  {
    PermutationFacts(Order(n, after), n);
  }

  lemma RangeCount(n: nat, v: nat)
    ensures multiset(Range(n))[v] <= 1
  {
    if n > 0 {
      assert Range(n) == Range(n - 1) + [n - 1];
      RangeCount(n - 1, v);
      if v == n - 1 {
        assert v !in multiset(Range(n - 1));
      }
    }
  }

  /** Every element after an insertion is the inserted one or was there before. */
  lemma InsertedOrKept(x: nat, p: seq<nat>, after: (nat, nat) -> bool, i: nat)
    requires i < |Insert(x, p, after)|
    ensures Insert(x, p, after)[i] == x || Insert(x, p, after)[i] in p
  {
    var r := Insert(x, p, after);
    assert r[i] in multiset(r);
  }

  lemma {:induction false} InsertStable(x: nat, p: seq<nat>, after: (nat, nat) -> bool)
    requires forall i :: 0 <= i < |p| ==> p[i] < x
    requires Stable(p, after)
    ensures Stable(Insert(x, p, after), after)
    decreases |p|
  {
    if p != [] && after(p[|p| - 1], x) {
      var init, last := p[..|p| - 1], p[|p| - 1];
      InsertStable(x, init, after);
      var q := Insert(x, init, after);
      var r := q + [last];
      forall i | 0 <= i < |q| && last < q[i] ensures after(last, q[i]) {
        InsertedOrKept(x, init, after, i);
        if q[i] != x {
          var k :| 0 <= k < |init| && init[k] == q[i];
          assert p[k] == q[i];
        }
      }
      assert forall i, j :: 0 <= i < j < |r| && j < |q| ==> r[i] == q[i] && r[j] == q[j];
    }
  }

  lemma {:induction false} InsertSorted(x: nat, p: seq<nat>, after: (nat, nat) -> bool)
    requires forall i :: 0 <= i < |p| ==> p[i] < x
    requires Consistent(after, x + 1)
    requires Sorted(p, after)
    ensures Sorted(Insert(x, p, after), after)
    decreases |p|
  {
    if p == [] {
    } else if after(p[|p| - 1], x) {
      var init, last := p[..|p| - 1], p[|p| - 1];
      InsertSorted(x, init, after);
      var q := Insert(x, init, after);
      var r := q + [last];
      forall i | 0 <= i < |q| ensures !after(q[i], last) {
        InsertedOrKept(x, init, after, i);
        if q[i] != x {
          var k :| 0 <= k < |init| && init[k] == q[i];
          assert p[k] == q[i];
        }
      }
      assert forall i, j :: 0 <= i < j < |r| && j < |q| ==> r[i] == q[i] && r[j] == q[j];
    } else {
      var last := p[|p| - 1];
      forall i | 0 <= i < |p| ensures !after(p[i], x) {
        if i < |p| - 1 {
          assert !after(p[i], last);
        }
      }
    }
  }

  /** The sort is stable, whatever the comparator. */
  lemma {:induction false} OrderStable(n: nat, after: (nat, nat) -> bool)
    ensures Stable(Order(n, after), after)
  {
    if n > 0 {
      OrderStable(n - 1, after);
      OrderBelow(n - 1, after);
      InsertStable(n - 1, Order(n - 1, after), after);
      OrderStep(n, after);
    }
  }

  lemma OrderStep(n: nat, after: (nat, nat) -> bool)
    requires n > 0
    ensures Order(n, after) == Insert(n - 1, Order(n - 1, after), after)
  {
  }

  /** With a consistent comparator, the sort leaves the elements sorted. */
  lemma {:induction false} OrderSorted(n: nat, after: (nat, nat) -> bool)
    requires Consistent(after, n)
    ensures Sorted(Order(n, after), after)
  {
    if n > 0 {
      var p := Order(n - 1, after);
      OrderStep(n, after);
      ConsistentBelow(after, n, n - 1);
      OrderSorted(n - 1, after);
      OrderBelow(n - 1, after);
      InsertSorted(n - 1, p, after);
    }
  }
}
