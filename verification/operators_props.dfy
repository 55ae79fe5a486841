/** The operator tables as the language promises them: which operand kinds
    each operator accepts, which error it reports otherwise, and in which
    order its checks run. */
module OperatorsProps {
  import opened Wrappers
  import opened Tokens
  import opened Values
  import opened Equality
  import opened EqualityProps
  import opened Operators

  /** Only null and false are falsy. */
  lemma TruthyIff(v: Value)
    ensures Truthy(v) <==> v != Nil && v != Bool(false)
  {
  }

  /** `==` and `!=` accept any operands: they never report a runtime error,
      and `!=` is always the negation of `==`. */
  lemma EqualityOperators(heap: Heap, pr: Printer, eq: Token, ne: Token, l: Value, r: Value)
    requires WfHeap(heap) && ValidIn(l, |heap|) && ValidIn(r, |heap|)
    requires eq.kind == EQUAL_EQUAL && ne.kind == BANG_EQUAL
    ensures !ApplyBinary(heap, pr, eq, l, r).Raised? && !ApplyBinary(heap, pr, ne, l, r).Raised?
    ensures ApplyBinary(heap, pr, eq, l, r).Done? <==> ApplyBinary(heap, pr, ne, l, r).Done?
    ensures ApplyBinary(heap, pr, eq, l, r).Done? ==>
              exists b :: ApplyBinary(heap, pr, eq, l, r) == Done(Bool(b)) &&
                          ApplyBinary(heap, pr, ne, l, r) == Done(Bool(!b))
  {
    if IsEqual(heap, l, r).Success? {
      var b := IsEqual(heap, l, r).value;
      assert ApplyBinary(heap, pr, eq, l, r) == Done(Bool(b));
    }
  }

  /** `==` is symmetric in its operands, and null equals only null. */
  lemma EqualityOperatorSymmetric(heap: Heap, pr: Printer, eq: Token, l: Value, r: Value)
    requires WfHeap(heap) && ValidIn(l, |heap|) && ValidIn(r, |heap|) && eq.kind == EQUAL_EQUAL
    ensures ApplyBinary(heap, pr, eq, l, r) == ApplyBinary(heap, pr, eq, r, l)
    ensures ApplyBinary(heap, pr, eq, Nil, r) == Done(Bool(r == Nil))
  {
    IsEqualSymmetric(heap, l, r);
    NilEqualsOnlyNil(heap, r);
  }

  /** The numeric operators report "Operands must be numbers." exactly when an
      operand is not a number, before looking at the values. */
  lemma NumericOperandsChecked(heap: Heap, pr: Printer, op: Token, l: Value, r: Value)
    requires WfHeap(heap) && ValidIn(l, |heap|) && ValidIn(r, |heap|) && IsNumericOp(op.kind)
    ensures ApplyBinary(heap, pr, op, l, r) == Raised(RuntimeError(op, NumbersMessage)) <==> !(l.Num? && r.Num?)
  {
  }

  /** On numbers, the comparisons compare, `-` and `*` compute, and no error
      or host failure is possible. */
  lemma NumericResults(heap: Heap, pr: Printer, op: Token, a: real, b: real)
    requires WfHeap(heap) && IsNumericOp(op.kind) && !op.kind.SLASH?
    ensures ApplyBinary(heap, pr, op, Num(a), Num(b)) ==
              Done(if op.kind.GREATER? then Bool(a > b)
                   else if op.kind.GREATER_EQUAL? then Bool(a >= b)
                   else if op.kind.LESS? then Bool(a < b)
                   else if op.kind.LESS_EQUAL? then Bool(a <= b)
                   else if op.kind.STAR? then Num(a * b)
                   else Num(a - b))
  {
  }

  /** `/` checks the operand kinds before the divisor: a non-number beside a
      zero is reported as a kind error; on numbers, a zero divisor is
      "Division by zero" and any other divides. */
  lemma DivisionChecks(heap: Heap, pr: Printer, op: Token, l: Value, r: Value)
    requires WfHeap(heap) && ValidIn(l, |heap|) && ValidIn(r, |heap|) && op.kind == SLASH
    ensures !(l.Num? && r.Num?) ==> ApplyBinary(heap, pr, op, l, r) == Raised(RuntimeError(op, NumbersMessage))
    ensures l.Num? && r == Num(0.0) ==> ApplyBinary(heap, pr, op, l, r) == Raised(RuntimeError(op, DivisionByZeroMessage))
    ensures l.Num? && r.Num? && r.n != 0.0 ==> ApplyBinary(heap, pr, op, l, r) == Done(Num(l.n / r.n))
  {
  }

  /** `+` adds two numbers, concatenates two strings or a string and a
      number (the number in its unstripped host text), and reports
      "Operands must be two numbers or two strings." for every other pair. */
  lemma PlusTable(heap: Heap, pr: Printer, op: Token, l: Value, r: Value)
    requires WfHeap(heap) && ValidIn(l, |heap|) && ValidIn(r, |heap|) && op.kind == PLUS
    ensures ApplyBinary(heap, pr, op, l, r) == Raised(RuntimeError(op, PlusMessage)) <==>
              !((l.Num? || l.Str?) && (r.Num? || r.Str?))
    ensures l.Num? && r.Num? ==> ApplyBinary(heap, pr, op, l, r) == Done(Num(l.n + r.n))
    ensures l.Str? && r.Str? ==> ApplyBinary(heap, pr, op, l, r) == Done(Str(l.s + r.s))
    ensures l.Num? && r.Str? ==> ApplyBinary(heap, pr, op, l, r) == Done(Str(pr.numText(l.n) + r.s))
    ensures l.Str? && r.Num? ==> ApplyBinary(heap, pr, op, l, r) == Done(Str(l.s + pr.numText(r.n)))
  {
  }

  /** Unary `-` negates a number and reports "Operand must be a number." for
      anything else; `!` accepts anything and negates its truthiness. */
  lemma UnaryTable(op: Token, v: Value)
    ensures op.kind == MINUS ==>
              ApplyUnary(op, v) == if v.Num? then Done(Num(-v.n)) else Raised(RuntimeError(op, NumberMessage))
    ensures op.kind == BANG ==> ApplyUnary(op, v) == Done(Bool(v == Nil || v == Bool(false)))
  {
  }

  /** `intValue` rounds toward zero: the result lies between zero and the
      number, less than one away from it, unless the 32-bit range cuts it off. */
  lemma IntValueRounds(x: real)
    ensures IntMin <= IntValue(x) <= IntMax
    ensures IntMin as real <= x < IntMax as real + 1.0 ==>
              if x >= 0.0 then 0 <= IntValue(x) && IntValue(x) as real <= x < IntValue(x) as real + 1.0
              else IntValue(x) <= 0 && IntValue(x) as real - 1.0 < x <= IntValue(x) as real
    ensures x < IntMin as real ==> IntValue(x) == IntMin
    ensures x >= IntMax as real + 1.0 ==> IntValue(x) == IntMax
  {
  }

  /** A subscript read succeeds exactly for a list and a number that
      truncates into `0 .. size - 1`; a non-number index is reported even for
      a null list; an index at or past the size is reported, and only then
      does an index below zero fail in the host. */
  lemma IndexChecks(heap: Heap, list: Value, index: Value, at: Token)
    requires (list.Arr? || list.Nil?) && ValidIn(list, |heap|)
    ensures Index(heap, list, index, at).Done? <==>
              list.Arr? && index.Num? && 0 <= IntValue(index.n) < |heap[list.ref]|
    ensures Index(heap, list, index, at).Done? ==>
              Index(heap, list, index, at).value == heap[list.ref][IntValue(index.n)]
    ensures Index(heap, list, index, at) == Raised(RuntimeError(at, IndexNotNumberMessage)) <==> !index.Num?
    ensures Index(heap, list, index, at) == Raised(RuntimeError(at, OutOfRangeMessage)) <==>
              list.Arr? && index.Num? && IntValue(index.n) >= |heap[list.ref]|
    ensures Index(heap, list, index, at).Crashed? <==>
              index.Num? && (list.Nil? || IntValue(index.n) < 0)
  {
  }

  /** The element read is the one at the truncated index, for every index
      that truncates into range (a host list never holds more than `IntMax`
      elements). */
  lemma IndexReadsTruncated(heap: Heap, x: nat, n: real, at: Token)
    requires x < |heap| && |heap[x]| <= IntMax && 0.0 <= n && n.Floor < |heap[x]|
    ensures Index(heap, Arr(x), Num(n), at) == Done(heap[x][n.Floor])
  {
    IntValueRounds(n);
  }

  // ---------------------------------------------------------------------------
  // Laws relating the operators to each other

  /** `a > b` is `b < a` and `a >= b` is `b <= a`, on every pair of operands
      (the kind check is symmetric too), and on numbers `>=` is the negation
      of `<`. */
  lemma ComparisonsMirror(heap: Heap, pr: Printer, gt: Token, lt: Token, ge: Token, le: Token, l: Value, r: Value)
    requires WfHeap(heap) && ValidIn(l, |heap|) && ValidIn(r, |heap|)
    requires gt.kind == GREATER && lt.kind == LESS && ge.kind == GREATER_EQUAL && le.kind == LESS_EQUAL
    ensures ApplyBinary(heap, pr, gt, l, r).Done? <==> ApplyBinary(heap, pr, lt, r, l).Done?
    ensures ApplyBinary(heap, pr, gt, l, r).Done? ==> ApplyBinary(heap, pr, gt, l, r) == ApplyBinary(heap, pr, lt, r, l)
    ensures ApplyBinary(heap, pr, ge, l, r).Done? ==> ApplyBinary(heap, pr, ge, l, r) == ApplyBinary(heap, pr, le, r, l)
    ensures ApplyBinary(heap, pr, ge, l, r).Done? ==>
              ApplyBinary(heap, pr, ge, l, r).value == Bool(!ApplyBinary(heap, pr, lt, l, r).value.b)
  {
  }

  /** `+` and `*` on numbers do not depend on the order of their operands. */
  lemma NumbersCommute(heap: Heap, pr: Printer, plus: Token, star: Token, a: real, b: real)
    requires WfHeap(heap) && plus.kind == PLUS && star.kind == STAR
    ensures ApplyBinary(heap, pr, plus, Num(a), Num(b)) == ApplyBinary(heap, pr, plus, Num(b), Num(a))
    ensures ApplyBinary(heap, pr, star, Num(a), Num(b)) == ApplyBinary(heap, pr, star, Num(b), Num(a))
  {
  }

  /** One is neutral on the right of `/` and of `*`: neither changes the
      number. */
  lemma OneIsNeutral(heap: Heap, pr: Printer, slash: Token, star: Token, a: real)
    requires WfHeap(heap) && slash.kind == SLASH && star.kind == STAR
    ensures ApplyBinary(heap, pr, slash, Num(a), Num(1.0)) == Done(Num(a))
    ensures ApplyBinary(heap, pr, star, Num(a), Num(1.0)) == Done(Num(a))
  {
  }

  /** Binary `-` on numbers is `+` of the operand negated by unary `-`. */
  lemma SubtractionAddsNegation(heap: Heap, pr: Printer, minus: Token, plus: Token, a: real, b: real)
    requires WfHeap(heap) && minus.kind == MINUS && plus.kind == PLUS
    ensures ApplyUnary(minus, Num(b)).Done?
    ensures ApplyBinary(heap, pr, minus, Num(a), Num(b)) ==
              ApplyBinary(heap, pr, plus, Num(a), ApplyUnary(minus, Num(b)).value)
  {
  }

  /** `+` with a string operand concatenates: the result starts with the left
      operand's text and ends with the right operand's, and nothing lies
      between them. */
  lemma PlusConcatenates(heap: Heap, pr: Printer, op: Token, l: Value, r: Value)
    requires WfHeap(heap) && ValidIn(l, |heap|) && ValidIn(r, |heap|) && op.kind == PLUS
    requires (l.Str? || r.Str?) && (l.Num? || l.Str?) && (r.Num? || r.Str?)
    ensures var lt := if l.Str? then l.s else pr.numText(l.n);
            var rt := if r.Str? then r.s else pr.numText(r.n);
            var c := ApplyBinary(heap, pr, op, l, r);
              && c.Done? && c.value.Str?
              && |c.value.s| == |lt| + |rt|
              && c.value.s[..|lt|] == lt && c.value.s[|lt|..] == rt
  {
  }

  /** `-` is its own inverse on numbers, `!` applied twice gives the operand's
      truth, and `!` always flips the truth. */
  lemma UnaryLaws(minus: Token, bang: Token, v: Value)
    requires minus.kind == MINUS && bang.kind == BANG
    ensures v.Num? ==> ApplyUnary(minus, v).Done? && ApplyUnary(minus, ApplyUnary(minus, v).value) == Done(v)
    ensures ApplyUnary(bang, v).Done? && Truthy(ApplyUnary(bang, v).value) == !Truthy(v)
    ensures ApplyUnary(bang, ApplyUnary(bang, v).value) == Done(Bool(Truthy(v)))
  {
  }

  /** `/` looks at the operand kinds before the divisor: a non-number divided
      by zero is reported as a kind error, not as a division by zero. */
  lemma ZeroDivisorAfterKinds(heap: Heap, pr: Printer, op: Token, l: Value)
    requires WfHeap(heap) && ValidIn(l, |heap|) && op.kind == SLASH && !l.Num?
    ensures ApplyBinary(heap, pr, op, l, Num(0.0)) == Raised(RuntimeError(op, NumbersMessage))
    ensures ApplyBinary(heap, pr, op, l, Num(0.0)) != Raised(RuntimeError(op, DivisionByZeroMessage))
  {
  }
}
