/** The primitive operations the evaluator applies once the operands are
    evaluated: the binary and unary operators with their operand checks,
    the host's `Double.intValue`, and reading an element of a list. */
module Operators {
  import opened Wrappers
  import opened Tokens
  import opened Values
  import opened Equality

  const NumbersMessage := "Operands must be numbers."
  const NumberMessage := "Operand must be a number."
  const PlusMessage := "Operands must be two numbers or two strings."
  const DivisionByZeroMessage := "Division by zero"
  const NotAnArrayMessage := "Only arrays can be subscripted"
  const IndexNotNumberMessage := "Only numbers can be used to index an array."
  const OutOfRangeMessage := "Array index out of range."

  /** `checkNumberOperand`: `None` when the operand is a number, else the
      error. */
  function CheckNumberOperand(op: Token, v: Value): Option<RuntimeError>
  {
    if v.Num? then None else Some(RuntimeError(op, NumberMessage))
  }

  /** `checkNumberOperands`: `None` when both operands are numbers, else the
      error. */
  function CheckNumberOperands(op: Token, l: Value, r: Value): Option<RuntimeError>
  {
    if l.Num? && r.Num? then None else Some(RuntimeError(op, NumbersMessage))
  }

  /** A value an operator can produce: never a list or a function object. */
  predicate Primitive(v: Value)
  {
    v.Nil? || v.Bool? || v.Num? || v.Str?
  }

  /** The operators that take two numbers. */
  predicate IsNumericOp(k: TokenType)
  {
    k.GREATER? || k.GREATER_EQUAL? || k.LESS? || k.LESS_EQUAL? || k.SLASH? || k.STAR? || k.MINUS?
  }

  /** A binary operator applied to its evaluated operands. An operator kind
      the switch does not list yields null. */
  function ApplyBinary(heap: Heap, pr: Printer, op: Token, l: Value, r: Value): (c: Completion<Value>)
    requires WfHeap(heap) && ValidIn(l, |heap|) && ValidIn(r, |heap|)
    ensures c.Done? ==> Primitive(c.value)
    ensures c.Raised? ==> c.err.token == op && (IsNumericOp(op.kind) || op.kind == PLUS)
    ensures c.Crashed? ==> c.fault == StackOverflow && (op.kind == EQUAL_EQUAL || op.kind == BANG_EQUAL)
  {
    if op.kind.BANG_EQUAL? || op.kind.EQUAL_EQUAL? then
      match IsEqual(heap, l, r)
      case Failure(f) => Crashed(f)
      case Success(same) => Done(Bool(if op.kind.BANG_EQUAL? then !same else same))
    else if IsNumericOp(op.kind) then
      match CheckNumberOperands(op, l, r)
      case Some(err) => Raised(err)
      case None => Arithmetic(op, l.n, r.n)
    else if op.kind.PLUS? then Plus(pr, op, l, r)
    else Done(Nil)
  }

  /** A numeric operator on two numbers; `/` rejects a zero divisor. */
  function Arithmetic(op: Token, a: real, b: real): (c: Completion<Value>)
    requires IsNumericOp(op.kind)
    ensures !c.Crashed?
    ensures c.Raised? <==> op.kind == SLASH && b == 0.0
    ensures c.Done? ==> (c.value.Bool? <==> !(op.kind == SLASH || op.kind == STAR || op.kind == MINUS))
    ensures c.Done? ==> c.value.Bool? || c.value.Num?
  {
    if op.kind.GREATER? then Done(Bool(a > b))
    else if op.kind.GREATER_EQUAL? then Done(Bool(a >= b))
    else if op.kind.LESS? then Done(Bool(a < b))
    else if op.kind.LESS_EQUAL? then Done(Bool(a <= b))
    else if op.kind.SLASH? then
      if b == 0.0 then Raised(RuntimeError(op, DivisionByZeroMessage)) else Done(Num(a / b))
    else if op.kind.STAR? then Done(Num(a * b))
    else Done(Num(a - b))
  }

  /** `+`: numeric sum, or concatenation when either side is a string and
      the other a string or number; a number is concatenated in the host's
      `Double.toString` form. */
  function Plus(pr: Printer, op: Token, l: Value, r: Value): (c: Completion<Value>)
    ensures !c.Crashed?
    ensures c.Raised? <==> !((l.Num? || l.Str?) && (r.Num? || r.Str?))
    ensures c.Raised? ==> c.err == RuntimeError(op, PlusMessage)
    ensures c.Done? ==> (c.value.Num? <==> l.Num? && r.Num?) && (c.value.Num? || c.value.Str?)
  {
    if l.Num? then
      if r.Num? then Done(Num(l.n + r.n))
      else if r.Str? then Done(Str(pr.numText(l.n) + r.s))
      else Raised(RuntimeError(op, PlusMessage))
    else if l.Str? then
      if r.Num? then Done(Str(l.s + pr.numText(r.n)))
      else if r.Str? then Done(Str(l.s + r.s))
      else Raised(RuntimeError(op, PlusMessage))
    else Raised(RuntimeError(op, PlusMessage))
  }

  /** A unary operator applied to its evaluated operand. An operator kind the
      switch does not list yields null. */
  function ApplyUnary(op: Token, v: Value): (c: Completion<Value>)
    ensures !c.Crashed?
    ensures c.Raised? <==> op.kind == MINUS && !v.Num?
    ensures c.Raised? ==> c.err == RuntimeError(op, NumberMessage)
    ensures c.Done? ==> Primitive(c.value)
  {
    if op.kind.BANG? then Done(Bool(!Truthy(v)))
    else if op.kind.MINUS? then
      match CheckNumberOperand(op, v)
      case Some(err) => Raised(err)
      case None => Done(Num(-v.n))
    else Done(Nil)
  }

  const IntMin: int := -0x8000_0000
  const IntMax: int := 0x7fff_ffff

  /** Rounding toward zero. */
  function Truncate(x: real): int
  {
    if x >= 0.0 then x.Floor else -((-x).Floor)
  }

  /** `Double.intValue`: rounding toward zero, saturated to the 32-bit range. */
  function IntValue(x: real): (i: int)
    ensures IntMin <= i <= IntMax
    ensures x >= 0.0 ==> i >= 0
    ensures x <= 0.0 ==> i <= 0
    ensures IntMin as real <= x < IntMax as real + 1.0 ==> -1.0 < x - i as real < 1.0
  {
    var t := Truncate(x);
    if t < IntMin then IntMin else if t > IntMax then IntMax else t
  }

  /** The subscript read once the list (the host's null, or a list) and the
      index are evaluated: the index must be a number, then within the size;
      a null list or an index below zero fail in the host. */
  function Index(heap: Heap, list: Value, index: Value, at: Token): (c: Completion<Value>)
    requires (list.Arr? || list.Nil?) && ValidIn(list, |heap|)
    ensures c.Done? ==> list.Arr? && index.Num? && 0 <= IntValue(index.n) < |heap[list.ref]|
    ensures c.Done? ==> c.value == heap[list.ref][IntValue(index.n)]
    ensures c.Raised? ==> c.err.token == at
    ensures c.Crashed? ==> c.fault == HostException
  {
    if !index.Num? then Raised(RuntimeError(at, IndexNotNumberMessage))
    else if list.Nil? then Crashed(HostException)
    else if IntValue(index.n) >= |heap[list.ref]| then Raised(RuntimeError(at, OutOfRangeMessage))
    else if IntValue(index.n) < 0 then Crashed(HostException)
    else Done(heap[list.ref][IntValue(index.n)])
  }
}
