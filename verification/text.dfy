/** How values become text: `stringify` for `print`, and the host's own
    `toString` that it falls back on. A list prints the way
    `AbstractCollection.toString` does: its elements' host texts between
    brackets, separated by ", ", with a list that contains itself printed as
    "(this Collection)" at that place. A list that contains itself further
    down prints forever, which the host ends with a stack overflow; `stack`
    holds the lists being printed. */
module Text {
  import opened Wrappers
  import opened Ast
  import opened Values

  /** The decimal digit for `d`. */
  function Digit(d: nat): char
    requires d < 10
  {
    "0123456789"[d]
  }

  /** The host's decimal text of a non-negative `int`. */
  function DecimalText(n: nat): string
    decreases n
  {
    if n < 10 then [Digit(n)] else DecimalText(n / 10) + [Digit(n % 10)]
  }

  /** `stringify`'s rule for numbers: drop one trailing ".0". */
  function StripPointZero(t: string): string
  {
    if |t| >= 2 && t[|t| - 2..] == ".0" then t[..|t| - 2] else t
  }

  /** The references into a heap of `n` lists, in order. */
  function Range(n: nat): seq<nat>
  {
    seq(n, i => i)
  }

  /** All references into a heap of `n` lists. */
  function Refs(n: nat): set<nat>
  {
    set i | i in Range(n)
  }

  /** How a function object prints. */
  function FnText(pr: Printer, f: Callable): string
  {
    match f
    case Clock => "<native fn>"
    case UserFn(_, d) => pr.fnText(d)
  }

  /** `String.valueOf(v)`: the host's text for a value. */
  function HostText(heap: Heap, pr: Printer, v: Value, stack: set<nat>): (r: Result<string, Fault>)
    requires WfHeap(heap) && ValidIn(v, |heap|)
    ensures r.Failure? ==> v.Arr? && r.error == StackOverflow
    decreases Refs(|heap|) - stack, 1
  {
    match v
    case Nil => Success("null")
    case Bool(b) => Success(if b then "true" else "false")
    case Num(n) => Success(pr.numText(n))
    case Str(s) => Success(s)
    case Arr(x) => ListText(heap, pr, x, stack)
    case Fn(f) => Success(FnText(pr, f))
  }

  /** `AbstractCollection.toString` of list `x`. */
  function ListText(heap: Heap, pr: Printer, x: nat, stack: set<nat>): (r: Result<string, Fault>)
    requires WfHeap(heap) && x < |heap|
    ensures r.Failure? ==> r.error == StackOverflow
    ensures r.Success? ==> |r.value| >= 2 && r.value[0] == '[' && r.value[|r.value| - 1] == ']'
    decreases Refs(|heap|) - stack, 0
  {
    if x in stack then Failure(StackOverflow)
    else
      assert Range(|heap|)[x] == x;
      match ElemsText(heap, pr, x, 0, stack + {x})
      case Failure(f) => Failure(f)
      case Success(body) => Success("[" + body + "]")
  }

  /** The texts of the elements of list `x` from index `i` on, separated by ", ". */
  function ElemsText(heap: Heap, pr: Printer, x: nat, i: nat, stack: set<nat>): (r: Result<string, Fault>)
    requires WfHeap(heap) && x < |heap| && i <= |heap[x]|
    ensures r.Failure? ==> r.error == StackOverflow
    decreases Refs(|heap|) - stack, 2, |heap[x]| - i, 1
  {
    if i == |heap[x]| then Success("")
    else
      match ElemText(heap, pr, x, i, stack)
      case Failure(f) => Failure(f)
      case Success(t) =>
        if i + 1 == |heap[x]| then Success(t)
        else
          match ElemsText(heap, pr, x, i + 1, stack)
          case Failure(f) => Failure(f)
          case Success(rest) => Success(t + ", " + rest)
  }

  /** The text of element `i` of list `x`: "(this Collection)" when the
      element is the list itself. */
  function ElemText(heap: Heap, pr: Printer, x: nat, i: nat, stack: set<nat>): (r: Result<string, Fault>)
    requires WfHeap(heap) && x < |heap| && i < |heap[x]|
    ensures r.Failure? ==> r.error == StackOverflow
    decreases Refs(|heap|) - stack, 2, |heap[x]| - i, 0
  {
    if heap[x][i] == Arr(x) then Success("(this Collection)")
    else HostText(heap, pr, heap[x][i], stack)
  }

  /** `stringify`: null prints as "nil", a number without a trailing ".0",
      anything else as the host prints it. */
  function Stringify(heap: Heap, pr: Printer, v: Value): (r: Result<string, Fault>)
    requires WfHeap(heap) && ValidIn(v, |heap|)
    ensures r.Failure? ==> v.Arr? && r.error == StackOverflow
    ensures r.Success? && v.Arr? ==> |r.value| >= 2 && r.value[0] == '[' && r.value[|r.value| - 1] == ']'
  {
    if v.Nil? then Success("nil")
    else if v.Num? then Success(StripPointZero(pr.numText(v.n)))
    else HostText(heap, pr, v, {})
  }
}
