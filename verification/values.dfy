/** Runtime values: the host objects a Pulse program computes with, the
    array heap that gives lists their identity, and the ways an evaluation
    step can end. */
module Values {
  import opened Wrappers
  import opened Tokens
  import opened Ast

  /** What a call expression can call: the built-in `clock`, or a function
      object made by executing a `fun` declaration. Every execution of a
      declaration makes a new object; `id` is that object's identity. */
  datatype Callable = Clock | UserFn(id: nat, decl: FunDecl)

  /** A runtime value: the host's null, a Boolean, a Double, a String, an
      ArrayList (a reference into the heap, so that aliases share it), or a
      callable. */
  datatype Value = Nil | Bool(b: bool) | Num(n: real) | Str(s: string) | Arr(ref: nat) | Fn(f: Callable)

  /** The lists the program has allocated, by reference. */
  type Heap = seq<seq<Value>>

  /** A runtime error: the token it is reported at and its message. */
  datatype RuntimeError = RuntimeError(token: Token, msg: string)

  /** Host failures that are not runtime errors and escape the interpreter:
      a Java exception (a failed cast, a null dereference, an index below
      zero) or unbounded recursion. */
  datatype Fault = HostException | StackOverflow

  /** How one primitive step ends: a value, a runtime error, or a host failure. */
  datatype Completion<+T> = Done(value: T) | Raised(err: RuntimeError) | Crashed(fault: Fault)

  /** How values and function objects print: the host's `Double.toString`
      and the function objects' `toString`, neither of which is part of this
      model. */
  datatype Printer = Printer(numText: real -> string, fnText: FunDecl -> string)

  /** The number of arguments a callable takes. */
  function Arity(f: Callable): nat
  {
    match f
    case Clock => 0
    case UserFn(_, d) => |d.params|
  }

  /** The value a literal node holds. */
  function LitValue(l: Lit): (v: Value)
    ensures !v.Arr? && !v.Fn?
    ensures l.NilLit? <==> v.Nil?
  {
    match l
    case NilLit => Nil
    case BoolLit(b) => Bool(b)
    case NumLit(n) => Num(n)
    case StrLit(s) => Str(s)
  }

  /** `isTruthy`: null and false are falsy, every other value is truthy. */
  predicate Truthy(v: Value)
  {
    if v.Nil? then false
    else if v.Bool? then v.b
    else true
  }

  /** The value refers to no list beyond the first `n`. */
  predicate ValidIn(v: Value, n: nat)
  {
    v.Arr? ==> v.ref < n
  }

  /** Every element of every list refers to a list of the heap. */
  predicate WfHeap(heap: Heap)
  {
    forall r, j :: 0 <= r < |heap| && 0 <= j < |heap[r]| ==> ValidIn(heap[r][j], |heap|)
  }

  /** A list none of whose elements is a list. */
  predicate Flat(heap: Heap, x: nat)
    requires x < |heap|
  {
    forall j :: 0 <= j < |heap[x]| ==> !heap[x][j].Arr?
  }
}
