/**
 Sums over the neighbour sets. The source walks a JavaScript Set in its
 insertion order; the model leaves that order open, so a running total over
 an enumeration is related here to the order-free sum over the set.
 */
module Sums {

  /** No element occurs twice. */
  ghost predicate NoDup(s: seq<nat>)
  {
    forall a, b :: 0 <= a < b < |s| ==> s[a] != s[b]
  }

  /** Dropping the last element keeps the rest free of duplicates, and the
      last element is not among the rest. */
  lemma NoDupLast(s: seq<nat>)
    requires NoDup(s) && s != []
    ensures NoDup(s[..|s| - 1]) && s[|s| - 1] !in s[..|s| - 1]
  {
  }

  /** `order` lists the elements of `s`, each exactly once: one possible
      iteration order of a Set holding `s`. */
  ghost predicate Enumerates(order: seq<nat>, s: set<nat>)
  {
    NoDup(order) && forall x :: x in order <==> x in s
  }

  /** Part way through walking `s`: `order` lists, once each, exactly the
      elements of `s` not in `rest`. */
  ghost predicate Walked(order: seq<nat>, s: set<nat>, rest: set<nat>)
  {
    rest <= s && NoDup(order) && forall x :: x in order <==> x in s && x !in rest
  }

  /** Visiting one more element of `rest` extends the walk. */
  lemma WalkStep(order: seq<nat>, s: set<nat>, rest: set<nat>, x: nat)
    requires Walked(order, s, rest) && x in rest
    ensures Walked(order + [x], s, rest - {x})
  {
    assert x !in order;
    forall y | y in order + [x] ensures y in s && y !in rest - {x} {
      if y != x {
        assert y in order;
      }
    }
  }

  /** A walk with nothing left enumerates the set. */
  lemma WalkDone(order: seq<nat>, s: set<nat>)
    requires Walked(order, s, {})
    ensures Enumerates(order, s)
  {
  }

  /** The running total `acc += f(x)` over `order`, first element first. */
  function SumSeq(order: seq<nat>, f: nat -> real): real
  {
    if order == [] then 0.0 else SumSeq(order[..|order| - 1], f) + f(order[|order| - 1])
  }

  /** The sum of `f` over a finite set, in no particular order. */
  ghost function SumSet(s: set<nat>, f: nat -> real): real
  {
    if s == {} then 0.0 else var x :| x in s; f(x) + SumSet(s - {x}, f)
  }

  /** Any element can be taken out of the set sum first. */
  lemma {:induction false} SumSetRemove(s: set<nat>, f: nat -> real, y: nat)
    requires y in s
    ensures SumSet(s, f) == f(y) + SumSet(s - {y}, f)
    decreases |s|
  {
    var x :| x in s && SumSet(s, f) == f(x) + SumSet(s - {x}, f);
    if x != y {
      SumSetRemove(s - {x}, f, y);
      SumSetRemove(s - {y}, f, x);
      assert s - {x} - {y} == s - {y} - {x};
    }
  }

  /** Without its last element an enumeration of s enumerates the rest of s. */
  lemma EnumeratesLast(order: seq<nat>, s: set<nat>)
    requires Enumerates(order, s) && order != []
    ensures order[|order| - 1] in s && Enumerates(order[..|order| - 1], s - {order[|order| - 1]})
  {
    var pre, x := order[..|order| - 1], order[|order| - 1];
    assert x in order;
    forall y ensures y in pre <==> y in s - {x} {
      if y in pre {
        var k :| 0 <= k < |pre| && pre[k] == y;
        assert order[k] == y;
      }
      if y in s - {x} {
        assert y in order;
        var k :| 0 <= k < |order| && order[k] == y;
        assert k != |order| - 1;
        assert pre[k] == y;
      }
    }
  }

  /** An enumeration lists as many elements as the set has: a Set walk
      visits every element exactly once. */
  lemma {:induction false} EnumerationLength(order: seq<nat>, s: set<nat>)
    requires Enumerates(order, s)
    ensures |order| == |s|
    decreases |order|
  {
    if order == [] {
      assert forall x :: x !in s;
      assert s == {};
    } else {
      EnumeratesLast(order, s);
      EnumerationLength(order[..|order| - 1], s - {order[|order| - 1]});
    }
  }

  /** A running total over any enumeration of a set is the set sum: the
      result does not depend on the Set's iteration order. */
  lemma {:induction false} SumSeqOfEnumeration(order: seq<nat>, s: set<nat>, f: nat -> real)
    requires Enumerates(order, s)
    ensures SumSeq(order, f) == SumSet(s, f)
    decreases |order|
  {
    if order == [] {
      assert forall x :: x !in s;
    } else {
      var x := order[|order| - 1];
      EnumeratesLast(order, s);
      SumSeqOfEnumeration(order[..|order| - 1], s - {x}, f);
      SumSetRemove(s, f, x);
    }
  }

  /** A sum of non-negative terms is non-negative. */
  lemma {:induction false} SumSeqNonNegative(order: seq<nat>, f: nat -> real)
    requires forall k :: 0 <= k < |order| ==> f(order[k]) >= 0.0
    ensures SumSeq(order, f) >= 0.0
    decreases |order|
  {
    if order != [] {
      SumSeqNonNegative(order[..|order| - 1], f);
    }
  }

  /** Running totals of two functions that agree on every listed element agree. */
  lemma {:induction false} SumSeqCongruence(order: seq<nat>, f: nat -> real, g: nat -> real)
    requires forall k :: 0 <= k < |order| ==> f(order[k]) == g(order[k])
    ensures SumSeq(order, f) == SumSeq(order, g)
    decreases |order|
  {
    if order != [] {
      SumSeqCongruence(order[..|order| - 1], f, g);
    }
  }

  lemma Distribute(x: real, y: real, a: real)
    ensures (x + y) * a == x * a + y * a
  {
  }

  /** A constant factor comes out of a sum. */
  lemma {:induction false} SumSeqScale(order: seq<nat>, f: nat -> real, g: nat -> real, a: real)
    requires forall x :: f(x) == g(x) * a
    ensures SumSeq(order, f) == SumSeq(order, g) * a
    decreases |order|
  {
    if order != [] {
      SumSeqScale(order[..|order| - 1], f, g, a);
      Distribute(SumSeq(order[..|order| - 1], g), g(order[|order| - 1]), a);
    }
  }

  /** The sum of differences is the difference of the sums. */
  lemma {:induction false} SumSeqDifference(order: seq<nat>, f: nat -> real, g: nat -> real, h: nat -> real)
    requires forall x :: f(x) == g(x) - h(x)
    ensures SumSeq(order, f) == SumSeq(order, g) - SumSeq(order, h)
    decreases |order|
  {
    if order != [] {
      SumSeqDifference(order[..|order| - 1], f, g, h);
    }
  }

  /** Appending one element adds its term. */
  lemma SumSeqAppend(order: seq<nat>, x: nat, f: nat -> real)
    ensures SumSeq(order + [x], f) == SumSeq(order, f) + f(x)
  {
    assert (order + [x])[..|order|] == order;
  }
}
