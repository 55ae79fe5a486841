/** `isEqual`, with the host's `equals` spelled out. Lists compare the way
    `ArrayList.equals` does: the same list is equal to itself; otherwise the
    sizes must agree and then the elements are compared in order, each pair
    with `Objects.equals` (the same reference, or `equals`). On a heap with
    cycles this recursion can come back to a pair of lists it is still
    comparing; from there it repeats itself forever, which the host ends with
    a stack overflow. `stack` holds the pairs of lists under comparison. */
module Equality {
  import opened Wrappers
  import opened Values

  /** All pairs of references into a heap of `n` lists. */
  function Pairs(n: nat): set<(nat, nat)>
  {
    set i: nat, j: nat | i < n && j < n :: (i, j)
  }

  /** `Objects.equals(a, b)`; `isEqual` is the same function, since both
      treat null as equal only to null. */
  function Equal(heap: Heap, a: Value, b: Value, stack: set<(nat, nat)>): (r: Result<bool, Fault>)
    requires WfHeap(heap) && ValidIn(a, |heap|) && ValidIn(b, |heap|)
    ensures a == b ==> r == Success(true)
    ensures r.Failure? ==> a.Arr? && b.Arr? && r.error == StackOverflow
    ensures r == Success(true) && a.Arr? ==> b.Arr? && |heap[a.ref]| == |heap[b.ref]|
    decreases Pairs(|heap|) - stack, 1
  {
    if a.Arr? then
      if b.Arr? then ListEqual(heap, a.ref, b.ref, stack) else Success(false)
    else Success(a == b)
  }

  /** `ArrayList.equals` on two lists of the heap. */
  function ListEqual(heap: Heap, x: nat, y: nat, stack: set<(nat, nat)>): (r: Result<bool, Fault>)
    requires WfHeap(heap) && x < |heap| && y < |heap|
    ensures x == y ==> r == Success(true)
    ensures r.Failure? ==> r.error == StackOverflow
    ensures r == Success(true) ==> |heap[x]| == |heap[y]|
    decreases Pairs(|heap|) - stack, 0
  {
    if x == y then Success(true)
    else if (x, y) in stack then Failure(StackOverflow)
    else if |heap[x]| != |heap[y]| then Success(false)
    else
      assert (x, y) in Pairs(|heap|);
      ElemsEqual(heap, x, y, 0, stack + {(x, y)})
  }

  /** The element-by-element loop of `ArrayList.equals`, from index `i`. */
  function ElemsEqual(heap: Heap, x: nat, y: nat, i: nat, stack: set<(nat, nat)>): (r: Result<bool, Fault>)
    requires WfHeap(heap) && x < |heap| && y < |heap| && |heap[x]| == |heap[y]| && i <= |heap[x]|
    ensures r.Failure? ==> r.error == StackOverflow
    decreases Pairs(|heap|) - stack, 2, |heap[x]| - i
  {
    if i == |heap[x]| then Success(true)
    else
      match Equal(heap, heap[x][i], heap[y][i], stack)
      case Failure(f) => Failure(f)
      case Success(same) => if same then ElemsEqual(heap, x, y, i + 1, stack) else Success(false)
  }

  /** `isEqual(a, b)`. */
  function IsEqual(heap: Heap, a: Value, b: Value): (r: Result<bool, Fault>)
    requires WfHeap(heap) && ValidIn(a, |heap|) && ValidIn(b, |heap|)
    ensures a == b ==> r == Success(true)
    ensures a.Nil? || b.Nil? ==> r == Success(a == b)
    ensures r.Failure? ==> a.Arr? && b.Arr? && r.error == StackOverflow
  {
    Equal(heap, a, b, {})
  }
}
