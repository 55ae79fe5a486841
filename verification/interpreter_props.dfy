/** What evaluating an expression promises: the order in which operands are
    evaluated, which checks run before which evaluations, what each form
    returns, and which parts of the state it may change. */
module InterpreterProps {
  import opened Wrappers
  import opened Tokens
  import opened Ast
  import opened Values
  import opened Environment
  import opened EnvironmentProps
  import opened Operators
  import OperatorsProps
  import opened Text
  import opened Machine
  import opened Interpreter

  // ---------------------------------------------------------------------------
  // and / or

  /** `or` yields a truthy left operand without evaluating the right one, and
      `and` a falsy one; otherwise the result is the right operand's. */
  lemma LogicalShortCircuits(h: Host, e: Expr, st: State)
    requires Valid(st) && e.Logical?
    ensures var a := Eval(h, e.left, st);
              a.Ok? && (e.operator.kind == OR <==> Truthy(a.value)) ==> Eval(h, e, st) == a
    ensures var a := Eval(h, e.left, st);
              a.Ok? && (e.operator.kind == OR <==> !Truthy(a.value)) ==> Eval(h, e, st) == Eval(h, e.right, a.st)
    ensures Eval(h, e.left, st).Stop? ==> Eval(h, e, st) == Eval(h, e.left, st)
  {
  }

  /** On truthiness, `or` is disjunction and `and` conjunction of the operands
      (the right one counting only when it is evaluated). */
  lemma LogicalTruth(h: Host, e: Expr, st: State)
    requires Valid(st) && e.Logical? && Eval(h, e, st).Ok?
    ensures var a := Eval(h, e.left, st);
            var b := Eval(h, e.right, a.st);
              && a.Ok?
              && (e.operator.kind == OR ==>
                    (Truthy(Eval(h, e, st).value) <==> Truthy(a.value) || (b.Ok? && Truthy(b.value))))
              && (e.operator.kind != OR ==>
                    (Truthy(Eval(h, e, st).value) <==> Truthy(a.value) && b.Ok? && Truthy(b.value)))
  {
    LogicalShortCircuits(h, e, st);
  }

  // ---------------------------------------------------------------------------
  // Binary operators

  /** Both operands are evaluated before the operator looks at either: the
      left operand's failure ends the evaluation before the right one runs,
      and the right operand's failure is reported even when the left
      operand alone would fail the operator's check. */
  lemma BinaryEvaluatesOperandsFirst(h: Host, e: Expr, st: State)
    requires Valid(st) && e.Binary?
    ensures Eval(h, e.left, st).Stop? ==> Eval(h, e, st) == Eval(h, e.left, st)
    ensures var a := Eval(h, e.left, st);
              a.Ok? && Eval(h, e.right, a.st).Stop? ==> Eval(h, e, st) == Eval(h, e.right, a.st)
    ensures var a := Eval(h, e.left, st);
            var b := Eval(h, e.right, a.st);
              a.Ok? && b.Ok? ==> Eval(h, e, st).st == b.st
  {
  }

  /** Subtracting an undefined variable from nil reports the undefined
      variable, not the operand kinds. */
  lemma UndefinedBeforeKinds(h: Host, minus: Token, x: Token)
    requires minus.kind == MINUS && x.lexeme == "x"
    ensures Eval(h, Binary(Literal(NilLit), minus, Variable(x)), Initial()) ==
              Stop(Error(RuntimeError(x, "Undefined variable 'x'.")), Initial())
  {
    var st := Initial();
    assert "x" !in st.scopes[0].values;
    assert Lookup(st, x) == Failure(RuntimeError(x, UndefinedMessage("x")));
    assert UndefinedMessage("x") == "Undefined variable 'x'.";
    assert Eval(h, Literal(NilLit), st) == Ok(Nil, st);
    assert Eval(h, Variable(x), st) == Stop(Error(RuntimeError(x, "Undefined variable 'x'.")), st);
  }

  // ---------------------------------------------------------------------------
  // Assignment

  /** An assignment yields the assigned value, after which the variable holds
      it; it fails exactly when the variable is bound nowhere on the chain,
      with the undefined-variable error, after the value was evaluated. */
  lemma AssignYieldsValue(h: Host, e: Expr, st: State)
    requires Valid(st) && e.Assign?
    ensures var a := Eval(h, e.value, st);
            var r := Eval(h, e, st);
              a.Ok? ==>
                && (r.Ok? <==> Lookup(a.st, e.name).Success?)
                && (r.Ok? ==> r.value == a.value && Lookup(r.st, e.name) == Success(a.value))
                && (r.Stop? ==> r == Stop(Error(RuntimeError(e.name, UndefinedMessage(e.name.lexeme))), a.st))
  {
    var a := Eval(h, e.value, st);
    if a.Ok? {
      AssignIff(a.st.scopes, a.st.cur, e.name, a.value);
      if Lookup(a.st, e.name).Success? {
        AssignThenGet(a.st.scopes, a.st.cur, e.name, a.value);
      }
    }
  }

  // ---------------------------------------------------------------------------
  // Array literals

  /** An array literal allocates a new list at the end of the heap, holding
      its elements' values in order; no list that existed before is touched. */
  lemma ArrayAllocates(h: Host, e: Expr, st: State)
    requires Valid(st) && e.Array? && e.values.ExprList?
    ensures var vs := EvalList(h, e.values.exprs, st);
            var r := Eval(h, e, st);
              && (r.Ok? <==> vs.Ok?)
              && (r.Ok? ==>
                    && r.value == Arr(|vs.st.heap|)
                    && r.st.heap == vs.st.heap + [vs.value]
                    && |r.st.heap[r.value.ref]| == |e.values.exprs|)
  {
  }

  /** Every evaluation of an array literal makes a list no earlier value
      refers to: evaluating the same literal twice gives two different
      lists. */
  lemma ArrayFresh(h: Host, e: Expr, st: State)
    requires Valid(st) && e.Array?
    ensures var r1 := Eval(h, e, st);
            var r2 := Eval(h, e, r1.st);
              && (r1.Ok? ==> r1.value.Arr? && r1.value.ref >= |st.heap|)
              && (r1.Ok? && r2.Ok? ==> r1.value != r2.value)
  {
  }

  // ---------------------------------------------------------------------------
  // Calls

  /** The callee and then every argument are evaluated before any check; a
      value that is not a function is reported, then a wrong argument count,
      and only a call that passes both is made. */
  lemma CallChecks(h: Host, e: Expr, st: State)
    requires Valid(st) && e.Call?
    ensures var c := Eval(h, e.callee, st);
            var args := EvalList(h, e.arguments, c.st);
            var r := Eval(h, e, st);
              && (c.Stop? ==> r == c)
              && (c.Ok? && args.Stop? ==> r == Stop(args.sig, args.st))
              && (c.Ok? && args.Ok? && !c.value.Fn? ==>
                    r == Stop(Error(RuntimeError(e.paren, CallMessage)), args.st))
              && (c.Ok? && args.Ok? && c.value.Fn? && |e.arguments| != Arity(c.value.f) ==>
                    r == Stop(Error(RuntimeError(e.paren, ArityMessage(Arity(c.value.f), |e.arguments|))), args.st))
              && (c.Ok? && args.Ok? && c.value.Fn? && |e.arguments| == Arity(c.value.f) ==>
                    r == Invoke(h, c.value.f, args.value, args.st))
  {
  }

  /** `clock` takes no arguments and reads the host's clock. */
  lemma ClockCall(h: Host, e: Expr, st: State)
    requires Valid(st) && e.Call? && Eval(h, e.callee, st).Ok? && Eval(h, e.callee, st).value == Fn(Clock)
    ensures e.arguments == [] ==> Eval(h, e, st) == Ok(Num(h.clock(Eval(h, e.callee, st).st)), Eval(h, e.callee, st).st)
    ensures e.arguments != [] ==> Eval(h, e, st).Stop?
  {
    var c := Eval(h, e.callee, st);
    assert EvalList(h, [], c.st) == Ok([], c.st);
  }

  /** The arguments are evaluated left to right: the values of `xs + ys` are
      those of `xs` followed by those of `ys` evaluated in the state `xs`
      left, and a failure in `xs` ends the list before `ys`. */
  lemma {:induction false} EvalListAppend(h: Host, xs: seq<Expr>, ys: seq<Expr>, st: State)
    requires Valid(st)
    ensures EvalList(h, xs + ys, st) ==
              match EvalList(h, xs, st)
              case Stop(sig, s) => Stop(sig, s)
              case Ok(vs, s) =>
                match EvalList(h, ys, s)
                case Stop(sig, s') => Stop(sig, s')
                case Ok(ws, s') => Ok(vs + ws, s')
    decreases xs
  {
    if xs == [] {
      assert xs + ys == ys;
      var r := EvalList(h, ys, st);
      if r.Ok? {
        assert [] + r.value == r.value;
      }
    } else {
      assert (xs + ys)[0] == xs[0] && (xs + ys)[1..] == xs[1..] + ys;
      var a := Eval(h, xs[0], st);
      if a.Ok? {
        EvalListAppend(h, xs[1..], ys, a.st);
        var rest := EvalList(h, xs[1..], a.st);
        if rest.Ok? {
          var more := EvalList(h, ys, rest.st);
          if more.Ok? {
            assert [a.value] + (rest.value + more.value) == ([a.value] + rest.value) + more.value;
          }
        }
      }
    }
  }

  // ---------------------------------------------------------------------------
  // Subscript reads

  /** A runtime error or host exception while evaluating the list, or a value
      that is neither a list nor null, is reported as "Only arrays can be
      subscripted" without evaluating the index; a stack overflow or the cut
      off passes through unchanged. */
  lemma SubscriptTargetChecked(h: Host, e: Expr, st: State)
    requires Valid(st) && e.Subscript?
    ensures var a := Eval(h, e.target, st);
              (a.Stop? && (a.sig.Error? || a.sig == HostCrash(HostException))) ||
              (a.Ok? && !(a.value.Arr? || a.value.Nil?))
              ==> Eval(h, e, st) == Stop(Error(RuntimeError(e.name, NotAnArrayMessage)), a.st)
    ensures var a := Eval(h, e.target, st);
              a.Stop? && (a.sig.OutOfFuel? || a.sig == HostCrash(StackOverflow)) ==> Eval(h, e, st) == a
  {
  }

  /** Once the list and the index are evaluated, the read changes nothing: it
      yields the element at the truncated index when that lies within the
      list, reports a non-number index first, then an index at or past the
      size, and fails in the host on a null list or an index below zero. */
  lemma SubscriptReads(h: Host, e: Expr, st: State)
    requires Valid(st) && e.Subscript?
    requires Eval(h, e.target, st).Ok? && (Eval(h, e.target, st).value.Arr? || Eval(h, e.target, st).value.Nil?)
    ensures var a := Eval(h, e.target, st);
            var b := Eval(h, e.index, a.st);
            var r := Eval(h, e, st);
              && (b.Stop? ==> r == b)
              && (b.Ok? ==>
                    && r.st == b.st
                    && (r.Ok? <==> a.value.Arr? && b.value.Num? && 0 <= IntValue(b.value.n) < |b.st.heap[a.value.ref]|)
                    && (r.Ok? ==> r.value == b.st.heap[a.value.ref][IntValue(b.value.n)])
                    && (!b.value.Num? ==> r.sig == Error(RuntimeError(e.name, IndexNotNumberMessage)))
                    && (a.value.Arr? && b.value.Num? && IntValue(b.value.n) >= |b.st.heap[a.value.ref]| ==>
                          r.sig == Error(RuntimeError(e.name, OutOfRangeMessage)))
                    && (b.value.Num? && (a.value.Nil? || IntValue(b.value.n) < 0) ==>
                          r.sig == HostCrash(HostException)))
  {
    var a := Eval(h, e.target, st);
    var b := Eval(h, e.index, a.st);
    if b.Ok? {
      OperatorsProps.IndexChecks(b.st.heap, a.value, b.value, e.name);
    }
  }

  // ---------------------------------------------------------------------------
  // Subscript writes

  /** Only a subscript can be assigned to: any other target is ignored, and
      nothing is evaluated. */
  lemma SetIgnoresOtherTargets(h: Host, e: Expr, st: State)
    requires Valid(st) && e.Set? && !e.target.Subscript?
    ensures Eval(h, e, st) == Ok(Nil, st)
  {
  }

  /** A write checks the index against the size before the right-hand side is
      evaluated; a list operand that is neither a list nor null, an index
      that is not a number, and a null list fail in the host. */
  lemma SetChecksFirst(h: Host, e: Expr, st: State)
    requires Valid(st) && e.Set? && e.target.Subscript?
    ensures var a := Eval(h, e.target.target, st);
              a.Ok? && !(a.value.Arr? || a.value.Nil?) ==> Eval(h, e, st) == Stop(HostCrash(HostException), a.st)
    ensures var a := Eval(h, e.target.target, st);
            var b := Eval(h, e.target.index, a.st);
              a.Ok? && (a.value.Arr? || a.value.Nil?) && b.Ok? && (!b.value.Num? || a.value.Nil?) ==>
                Eval(h, e, st) == Stop(HostCrash(HostException), b.st)
    ensures var a := Eval(h, e.target.target, st);
            var b := Eval(h, e.target.index, a.st);
              a.Ok? && a.value.Arr? && b.Ok? && b.value.Num? && IntValue(b.value.n) >= |b.st.heap[a.value.ref]| ==>
                Eval(h, e, st) == Stop(Error(RuntimeError(e.name, OutOfRangeMessage)), b.st)
  {
  }

  /** A write that succeeds evaluated a list, a number index within it, and
      the right-hand side, in that order; it replaces exactly that element,
      in place, so that every alias of the list sees it, changes no binding
      and no other list, and yields null. */
  lemma SetWritesInPlace(h: Host, e: Expr, st: State)
    requires Valid(st) && e.Set? && e.target.Subscript? && Eval(h, e, st).Ok?
    ensures var a := Eval(h, e.target.target, st);
            var b := Eval(h, e.target.index, a.st);
            var c := Eval(h, e.right, b.st);
            var r := Eval(h, e, st);
              && a.Ok? && a.value.Arr? && b.Ok? && b.value.Num? && c.Ok?
              && 0 <= IntValue(b.value.n) < |c.st.heap[a.value.ref]|
              && r.value == Nil
              && r.st.scopes == c.st.scopes && r.st.out == c.st.out
              && |r.st.heap| == |c.st.heap|
              && r.st.heap[a.value.ref] == c.st.heap[a.value.ref][IntValue(b.value.n) := c.value]
              && (forall y :: 0 <= y < |c.st.heap| && y != a.value.ref ==> r.st.heap[y] == c.st.heap[y])
  {
  }

  /** A write through one variable is seen by a read through another
      variable bound to the same list: reading back the element written gives
      the value written, and reading any other element gives what it held
      before. The indices are number literals, and the right-hand side is any
      expression that evaluates without changing the state. */
  lemma WriteSeenThroughAlias(h: Host, st: State, a: Token, b: Token, br: Token, n: real, m: real, rhs: Expr, v: Value, x: nat)
    requires Valid(st) && Lookup(st, a) == Success(Arr(x)) && Lookup(st, b) == Success(Arr(x))
    requires x < |st.heap| && 0 <= IntValue(n) < |st.heap[x]| && 0 <= IntValue(m) < |st.heap[x]|
    requires Eval(h, rhs, st) == Ok(v, st)
    ensures var w := Eval(h, Set(Subscript(Variable(b), br, Literal(NumLit(n))), br, rhs), st);
              && w.Ok?
              && Eval(h, Subscript(Variable(a), br, Literal(NumLit(m))), w.st) ==
                   Ok(if IntValue(m) == IntValue(n) then v else st.heap[x][IntValue(m)], w.st)
  {
    var i, j := IntValue(n), IntValue(m);
    var write := Set(Subscript(Variable(b), br, Literal(NumLit(n))), br, rhs);
    ListOperands(h, st, b, x, n);
    WriteStep(h, write, st, x, n, v);
    var s1 := Store(st, x, i, v);
    assert Lookup(s1, a) == Success(Arr(x));
    ListOperands(h, s1, a, x, m);
    ReadStep(h, Subscript(Variable(a), br, Literal(NumLit(m))), s1, x, m);
    assert s1.heap[x][j] == if j == i then v else st.heap[x][j];
  }

  /** A variable bound to a list and a number literal evaluate without
      changing the state. */
  lemma ListOperands(h: Host, st: State, name: Token, x: nat, n: real)
    requires Valid(st) && Lookup(st, name) == Success(Arr(x))
    ensures Eval(h, Variable(name), st) == Ok(Arr(x), st)
    ensures Eval(h, Literal(NumLit(n)), st) == Ok(Num(n), st)
  {
  }

  /** A write whose operands evaluate without changing the state. */
  lemma WriteStep(h: Host, e: Expr, st: State, x: nat, n: real, v: Value)
    requires Valid(st) && e.Set? && e.target.Subscript? && x < |st.heap| && 0 <= IntValue(n) < |st.heap[x]|
    requires Eval(h, e.target.target, st) == Ok(Arr(x), st) && Eval(h, e.target.index, st) == Ok(Num(n), st)
    requires Eval(h, e.right, st) == Ok(v, st)
    ensures ValidIn(v, |st.heap|) && Eval(h, e, st) == Ok(Nil, Store(st, x, IntValue(n), v))
  {
    assert Eval(h, e, st) == EvalSet(h, e, st);
  }

  /** A read whose operands evaluate without changing the state. */
  lemma ReadStep(h: Host, e: Expr, st: State, x: nat, n: real)
    requires Valid(st) && e.Subscript? && x < |st.heap| && 0 <= IntValue(n) < |st.heap[x]|
    requires Eval(h, e.target, st) == Ok(Arr(x), st) && Eval(h, e.index, st) == Ok(Num(n), st)
    ensures Eval(h, e, st) == Ok(st.heap[x][IntValue(n)], st)
  {
    assert Eval(h, e, st) == EvalSubscript(h, e, st);
  }

  // ---------------------------------------------------------------------------
  // What a successful evaluation implies

  /** `and` and `or` never make a new value: the result is the left
      operand's value or the right operand's. */
  lemma LogicalYieldsOperand(h: Host, e: Expr, st: State)
    requires Valid(st) && e.Logical? && Eval(h, e, st).Ok?
    ensures var a := Eval(h, e.left, st);
              && a.Ok?
              && (Eval(h, e, st).value == a.value ||
                  (Eval(h, e.right, a.st).Ok? && Eval(h, e, st).value == Eval(h, e.right, a.st).value))
  {
  }

  /** An operator expression yields a primitive value, never a list or a
      function object. */
  lemma OperatorsYieldPrimitives(h: Host, e: Expr, st: State)
    requires Valid(st) && (e.Unary? || e.Binary?) && Eval(h, e, st).Ok?
    ensures Primitive(Eval(h, e, st).value)
  {
  }

  /** A call completes only when the callee is callable and is given as many
      arguments as it takes. */
  lemma CallNeedsArity(h: Host, e: Expr, st: State)
    requires Valid(st) && e.Call? && Eval(h, e, st).Ok?
    ensures var c := Eval(h, e.callee, st);
              && c.Ok? && c.value.Fn?
              && EvalList(h, e.arguments, c.st).Ok?
              && |e.arguments| == Arity(c.value.f)
  {
  }

  /** A subscript read completes exactly when the list operand is a list, the
      index is a number, and the index truncates to a position within the
      list; the result is the element there, and the read itself changes
      nothing. */
  lemma SubscriptOkIff(h: Host, e: Expr, st: State)
    requires Valid(st) && e.Subscript?
    ensures var a := Eval(h, e.target, st);
            var b := Eval(h, e.index, a.st);
              Eval(h, e, st).Ok? <==>
                a.Ok? && a.value.Arr? && b.Ok? && b.value.Num? && 0 <= IntValue(b.value.n) < |b.st.heap[a.value.ref]|
    ensures var a := Eval(h, e.target, st);
            var b := Eval(h, e.index, a.st);
              Eval(h, e, st).Ok? ==> Eval(h, e, st) == Ok(b.st.heap[a.value.ref][IntValue(b.value.n)], b.st)
  {
  }

  /** A set completes exactly when its target is not a subscript, or when the
      list operand is a list, the index a number within it, and the
      right-hand side evaluates; it always yields null. */
  lemma SetOkIff(h: Host, e: Expr, st: State)
    requires Valid(st) && e.Set?
    ensures Eval(h, e, st).Ok? ==> Eval(h, e, st).value == Nil
    ensures e.target.Subscript? ==>
              var a := Eval(h, e.target.target, st);
              var b := Eval(h, e.target.index, a.st);
              var c := Eval(h, e.right, b.st);
                Eval(h, e, st).Ok? <==>
                  a.Ok? && a.value.Arr? && b.Ok? && b.value.Num? && 0 <= IntValue(b.value.n) < |b.st.heap[a.value.ref]|
                  && c.Ok?
    ensures !e.target.Subscript? ==> Eval(h, e, st).Ok?
  {
    assert Eval(h, e, st) == EvalSet(h, e, st);
  }

  /** Reading back a written element: after a successful write, the same
      list at the same index holds the written value. */
  lemma WriteThenRead(h: Host, e: Expr, st: State, at: Token)
    requires Valid(st) && e.Set? && e.target.Subscript? && Eval(h, e, st).Ok?
    ensures var a := Eval(h, e.target.target, st);
            var b := Eval(h, e.target.index, a.st);
            var c := Eval(h, e.right, b.st);
            var r := Eval(h, e, st);
              && a.Ok? && a.value.Arr? && b.Ok? && c.Ok? && a.value.ref < |r.st.heap|
              && Index(r.st.heap, a.value, b.value, at) == Done(c.value)
  {
    SetWritesInPlace(h, e, st);
  }
}
