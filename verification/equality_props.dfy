/** What equality promises: it is reflexive and symmetric, null equals only
    null, it is structural on lists, and its only failure is the host's
    stack overflow, never a runtime error. */
module EqualityProps {
  import opened Wrappers
  import opened Values
  import opened Equality

  /** The pairs of `s` with their two sides exchanged. */
  function Swap(s: set<(nat, nat)>): set<(nat, nat)>
  {
    set p | p in s :: (p.1, p.0)
  }

  lemma SwapFacts(s: set<(nat, nat)>, x: nat, y: nat)
    ensures (x, y) in s <==> (y, x) in Swap(s)
    ensures Swap(s + {(x, y)}) == Swap(s) + {(y, x)}
  {
    if (y, x) in Swap(s) {
      var p :| p in s && (p.1, p.0) == (y, x);
    }
  }

  /** Every value equals itself; for a list this is the identity test that
      `ArrayList.equals` starts with. */
  lemma EqualReflexive(heap: Heap, v: Value)
    requires WfHeap(heap) && ValidIn(v, |heap|)
    ensures IsEqual(heap, v, v) == Success(true)
  {
    if v.Arr? {
      assert ListEqual(heap, v.ref, v.ref, {}) == Success(true);
    }
  }

  /** null equals null and nothing else, from either side. */
  lemma NilEqualsOnlyNil(heap: Heap, v: Value)
    requires WfHeap(heap) && ValidIn(v, |heap|)
    ensures IsEqual(heap, Nil, v) == Success(v == Nil)
    ensures IsEqual(heap, v, Nil) == Success(v == Nil)
  {
  }

  /** Values that are not lists are equal exactly when they are the same
      value: values of different kinds are never equal. */
  lemma ScalarsEqual(heap: Heap, a: Value, b: Value)
    requires WfHeap(heap) && ValidIn(a, |heap|) && ValidIn(b, |heap|) && !(a.Arr? && b.Arr?)
    ensures IsEqual(heap, a, b) == Success(a == b)
  {
  }

  /** Equality is symmetric, overflow included: comparing `b` with `a` runs
      through the mirror image of the pairs that comparing `a` with `b` does. */
  lemma IsEqualSymmetric(heap: Heap, a: Value, b: Value)
    requires WfHeap(heap) && ValidIn(a, |heap|) && ValidIn(b, |heap|)
    ensures IsEqual(heap, a, b) == IsEqual(heap, b, a)
  {
    EqualSymmetric(heap, a, b, {});
    assert Swap({}) == {};
  }

  lemma {:induction false} EqualSymmetric(heap: Heap, a: Value, b: Value, stack: set<(nat, nat)>)
    requires WfHeap(heap) && ValidIn(a, |heap|) && ValidIn(b, |heap|)
    ensures Equal(heap, a, b, stack) == Equal(heap, b, a, Swap(stack))
    decreases Pairs(|heap|) - stack, 1
  {
    if a.Arr? && b.Arr? {
      ListEqualSymmetric(heap, a.ref, b.ref, stack);
    }
  }

  lemma {:induction false} ListEqualSymmetric(heap: Heap, x: nat, y: nat, stack: set<(nat, nat)>)
    requires WfHeap(heap) && x < |heap| && y < |heap|
    ensures ListEqual(heap, x, y, stack) == ListEqual(heap, y, x, Swap(stack))
    decreases Pairs(|heap|) - stack, 0
  {
    SwapFacts(stack, x, y);
    if x != y && (x, y) !in stack && |heap[x]| == |heap[y]| {
      assert (x, y) in Pairs(|heap|);
      ElemsEqualSymmetric(heap, x, y, 0, stack + {(x, y)});
    }
  }

  lemma {:induction false} ElemsEqualSymmetric(heap: Heap, x: nat, y: nat, i: nat, stack: set<(nat, nat)>)
    requires WfHeap(heap) && x < |heap| && y < |heap| && |heap[x]| == |heap[y]| && i <= |heap[x]|
    ensures ElemsEqual(heap, x, y, i, stack) == ElemsEqual(heap, y, x, i, Swap(stack))
    decreases Pairs(|heap|) - stack, 2, |heap[x]| - i
  {
    if i < |heap[x]| {
      EqualSymmetric(heap, heap[x][i], heap[y][i], stack);
      ElemsEqualSymmetric(heap, x, y, i + 1, stack);
    }
  }

  /** Lists of non-list elements are equal exactly when they hold the same
      elements in the same order, whether or not they are the same list. */
  lemma FlatListsEqual(heap: Heap, x: nat, y: nat)
    requires WfHeap(heap) && x < |heap| && y < |heap| && Flat(heap, x) && Flat(heap, y)
    ensures IsEqual(heap, Arr(x), Arr(y)) == Success(heap[x] == heap[y])
  {
    assert IsEqual(heap, Arr(x), Arr(y)) == ListEqual(heap, x, y, {});
    if x != y && |heap[x]| == |heap[y]| {
      assert {} + {(x, y)} == {(x, y)};
      FlatElems(heap, x, y, 0, {(x, y)});
      assert heap[x][0..] == heap[x] && heap[y][0..] == heap[y];
    }
  }

  lemma {:induction false} FlatElems(heap: Heap, x: nat, y: nat, i: nat, stack: set<(nat, nat)>)
    requires WfHeap(heap) && x < |heap| && y < |heap| && |heap[x]| == |heap[y]| && i <= |heap[x]|
    requires Flat(heap, x) && Flat(heap, y)
    ensures ElemsEqual(heap, x, y, i, stack) == Success(heap[x][i..] == heap[y][i..])
    decreases |heap[x]| - i
  {
    if i < |heap[x]| {
      FlatElems(heap, x, y, i + 1, stack);
      assert heap[x][i..] == [heap[x][i]] + heap[x][i + 1..];
      assert heap[y][i..] == [heap[y][i]] + heap[y][i + 1..];
    }
  }

  /** Two different lists that each contain themselves compare forever: the
      host overflows its stack. */
  lemma SelfContainingListsOverflow()
    ensures IsEqual([[Arr(0)], [Arr(1)]], Arr(0), Arr(1)) == Failure(StackOverflow)
  {
    var heap: Heap := [[Arr(0)], [Arr(1)]];
    assert (0, 1) in Pairs(|heap|);
    assert ListEqual(heap, 0, 1, {(0, 1)}) == Failure(StackOverflow);
    assert ElemsEqual(heap, 0, 1, 0, {(0, 1)}) == Failure(StackOverflow);
    assert {} + {(0, 1)} == {(0, 1)};
    assert ListEqual(heap, 0, 1, {}) == Failure(StackOverflow);
  }
}
