/** The tree-walking evaluator: each node evaluates its children left to
    right before doing its own work. A runtime error, a host failure or a
    `return` unwinds through every enclosing node; a block puts its
    enclosing scope back on every way out. */
module Interpreter {
  import opened Wrappers
  import opened Tokens
  import opened Ast
  import opened Values
  import opened Environment
  import opened Operators
  import opened Text
  import opened Machine

  const CallMessage := "Can only call functions and classes."

  /** The message for a call with the wrong number of arguments. */
  function ArityMessage(arity: nat, got: nat): string
  {
    "Expected " + DecimalText(arity) + " arguments but got " + DecimalText(got) + "."
  }

  /** `b` is a state a step starting in `a` can end in: valid, an extension
      of `a`, with the same scope current. */
  predicate Follows(a: State, b: State)
  {
    Valid(b) && Extends(a, b) && b.cur == a.cur
  }

  /** A value result refers only to lists of the heap it is returned with. */
  predicate ValueIn(r: Res<Value>)
  {
    r.Ok? ==> ValidIn(r.value, |r.st.heap|)
  }

  /** What every call of a user function does, whatever its body: it ends in
      a state that follows the one it started in, with a value that fits it. */
  ghost predicate CallsFollow(f: (Callable, seq<Value>, State) -> Res<Value>)
  {
    forall c, args, st :: Valid(st) ==> Follows(st, f(c, args, st).st) && ValueIn(f(c, args, st))
  }

  /** Calling a user function: binding the parameters and running the body
      are not part of this model. */
  type Invoker = f: (Callable, seq<Value>, State) -> Res<Value> | CallsFollow(f)
    witness (c: Callable, args: seq<Value>, st: State) => Ok(Nil, st)

  /** What the evaluator takes from its host: how values print, what `clock`
      reads, and what a user function's call returns. */
  datatype Host = Host(printer: Printer, clock: State -> real, invoke: Invoker)

  /** A primitive step's completion as an evaluation result in `st`. */
  function Lift(c: Completion<Value>, st: State): (r: Res<Value>)
    ensures r.st == st
    ensures r.Ok? <==> c.Done?
    ensures r.Ok? ==> r.value == c.value
    ensures r.Stop? ==> r.sig == if c.Raised? then Error(c.err) else HostCrash(c.fault)
  {
    match c
    case Done(v) => Ok(v, st)
    case Raised(err) => Stop(Error(err), st)
    case Crashed(f) => Stop(HostCrash(f), st)
  }

  // ---------------------------------------------------------------------------
  // Expressions

  /** `evaluate`: the value of `e` in `st`, and the state after it. */
  function Eval(h: Host, e: Expr, st: State): (r: Res<Value>)
    requires Valid(st)
    ensures Follows(st, r.st) && ValueIn(r)
    decreases e, 1
  {
    match e
    case Literal(l) => Ok(LitValue(l), st)
    case Grouping(inner) => Eval(h, inner, st)
    case Variable(name) =>
      (match Lookup(st, name)
       case Failure(err) => Stop(Error(err), st)
       case Success(v) => Ok(v, st))
    case Assign(_, _) => EvalAssign(h, e, st)
    case Unary(_, _) => EvalUnary(h, e, st)
    case Binary(_, _, _) => EvalBinary(h, e, st)
    case Logical(_, _, _) => EvalLogical(h, e, st)
    case Call(_, _, _) => EvalCall(h, e, st)
    case Set(_, _, _) => EvalSet(h, e, st)
    case Array(_) => EvalArray(h, e, st)
    case Subscript(_, _, _) => EvalSubscript(h, e, st)
  }

  /** The values of `es`, left to right; the first that stops stops the rest. */
  function EvalList(h: Host, es: seq<Expr>, st: State): (r: Res<seq<Value>>)
    requires Valid(st)
    ensures Follows(st, r.st)
    ensures r.Ok? ==> |r.value| == |es| && forall j :: 0 <= j < |es| ==> ValidIn(r.value[j], |r.st.heap|)
    decreases es
  {
    if es == [] then Ok([], st)
    else
      var a := Eval(h, es[0], st);
      if a.Stop? then Stop(a.sig, a.st)
      else
        var rest := EvalList(h, es[1..], a.st);
        ExtendsTrans(st, a.st, rest.st);
        if rest.Stop? then rest else Ok([a.value] + rest.value, rest.st)
  }

  /** `visitAssignExpr`: evaluate the value, then overwrite the variable; the
      value is the result. */
  function EvalAssign(h: Host, e: Expr, st: State): (r: Res<Value>)
    requires Valid(st) && e.Assign?
    ensures Follows(st, r.st) && ValueIn(r)
    decreases e, 0
  {
    var a := Eval(h, e.value, st);
    if a.Stop? then a
    else
      match AssignHere(a.st, e.name, a.value)
      case Failure(err) => Stop(Error(err), a.st)
      case Success(next) =>
        ExtendsTrans(st, a.st, next);
        Ok(a.value, next)
  }

  /** `visitUnaryExpr`. */
  function EvalUnary(h: Host, e: Expr, st: State): (r: Res<Value>)
    requires Valid(st) && e.Unary?
    ensures Follows(st, r.st) && ValueIn(r)
    decreases e, 0
  {
    var a := Eval(h, e.right, st);
    if a.Stop? then a else Lift(ApplyUnary(e.operator, a.value), a.st)
  }

  /** `visitBinaryExpr`: both operands are evaluated before the operator
      looks at either. */
  function EvalBinary(h: Host, e: Expr, st: State): (r: Res<Value>)
    requires Valid(st) && e.Binary?
    ensures Follows(st, r.st) && ValueIn(r)
    decreases e, 0
  {
    var a := Eval(h, e.left, st);
    if a.Stop? then a
    else
      var b := Eval(h, e.right, a.st);
      ExtendsTrans(st, a.st, b.st);
      if b.Stop? then b
      else Lift(ApplyBinary(b.st.heap, h.printer, e.operator, a.value, b.value), b.st)
  }

  /** `visitLogicalExpr`: `or` stops at a truthy left operand, any other
      operator at a falsy one; the result is an operand, not a Boolean. */
  function EvalLogical(h: Host, e: Expr, st: State): (r: Res<Value>)
    requires Valid(st) && e.Logical?
    ensures Follows(st, r.st) && ValueIn(r)
    decreases e, 0
  {
    var a := Eval(h, e.left, st);
    if a.Stop? then a
    else if e.operator.kind.OR? && Truthy(a.value) then a
    else if !e.operator.kind.OR? && !Truthy(a.value) then a
    else
      var b := Eval(h, e.right, a.st);
      ExtendsTrans(st, a.st, b.st);
      b
  }

  /** Calling a callable with arguments of the right number: `clock` reads
      the host's clock, a user function is left to the host. */
  function Invoke(h: Host, f: Callable, args: seq<Value>, st: State): (r: Res<Value>)
    requires Valid(st)
    ensures Follows(st, r.st) && ValueIn(r)
  {
    match f
    case Clock => Ok(Num(h.clock(st)), st)
    case UserFn(_, _) => h.invoke(f, args, st)
  }

  /** `visitCallExpr`: the callee, then every argument, are evaluated before
      the callee is checked to be callable and then its arity. */
  function EvalCall(h: Host, e: Expr, st: State): (r: Res<Value>)
    requires Valid(st) && e.Call?
    ensures Follows(st, r.st) && ValueIn(r)
    decreases e, 0
  {
    var c := Eval(h, e.callee, st);
    if c.Stop? then c
    else
      var args := EvalList(h, e.arguments, c.st);
      ExtendsTrans(st, c.st, args.st);
      if args.Stop? then Stop(args.sig, args.st)
      else if !c.value.Fn? then Stop(Error(RuntimeError(e.paren, CallMessage)), args.st)
      else if |args.value| != Arity(c.value.f) then
        Stop(Error(RuntimeError(e.paren, ArityMessage(Arity(c.value.f), |args.value|))), args.st)
      else
        var r := Invoke(h, c.value.f, args.value, args.st);
        ExtendsTrans(st, args.st, r.st);
        r
  }

  /** `visitSetExpr`: only a subscript can be assigned to, and anything else
      is ignored. The list, then the index, are evaluated; a list that is
      neither a list nor null, an index that is not a number, and a null
      list fail in the host; an index at or past the size is reported
      before the right-hand side is evaluated; an index below zero fails in
      the host after it. The result is null. */
  function EvalSet(h: Host, e: Expr, st: State): (r: Res<Value>)
    requires Valid(st) && e.Set?
    ensures Follows(st, r.st) && ValueIn(r)
    decreases e, 0
  {
    if !e.target.Subscript? then Ok(Nil, st)
    else
      var a := Eval(h, e.target.target, st);
      if a.Stop? then a
      else if !(a.value.Arr? || a.value.Nil?) then Stop(HostCrash(HostException), a.st)
      else
        var b := Eval(h, e.target.index, a.st);
        ExtendsTrans(st, a.st, b.st);
        if b.Stop? then b
        else if !b.value.Num? || a.value.Nil? then Stop(HostCrash(HostException), b.st)
        else if IntValue(b.value.n) >= |b.st.heap[a.value.ref]| then
          Stop(Error(RuntimeError(e.name, OutOfRangeMessage)), b.st)
        else
          var c := Eval(h, e.right, b.st);
          ExtendsTrans(st, b.st, c.st);
          if c.Stop? then c
          else if IntValue(b.value.n) < 0 then Stop(HostCrash(HostException), c.st)
          else
            var next := Store(c.st, a.value.ref, IntValue(b.value.n), c.value);
            ExtendsTrans(st, c.st, next);
            Ok(Nil, next)
  }

  /** `visitArrayExpr`: the elements, left to right, in a new list. */
  function EvalArray(h: Host, e: Expr, st: State): (r: Res<Value>)
    requires Valid(st) && e.Array?
    ensures Follows(st, r.st) && ValueIn(r)
    decreases e, 0
  {
    var vs := if e.values.NullList? then Ok([], st) else EvalList(h, e.values.exprs, st);
    if vs.Stop? then Stop(vs.sig, vs.st)
    else
      var next := Alloc(vs.st, vs.value);
      ExtendsTrans(st, vs.st, next);
      Ok(Arr(|vs.st.heap|), next)
  }

  /** `visitSubscriptExpr`: a runtime error or host exception while
      evaluating the list, or a value that is not a list, is reported as
      "Only arrays can be subscripted"; then the index is evaluated and the
      element read. */
  function EvalSubscript(h: Host, e: Expr, st: State): (r: Res<Value>)
    requires Valid(st) && e.Subscript?
    ensures Follows(st, r.st) && ValueIn(r)
    decreases e, 0
  {
    var a := Eval(h, e.target, st);
    if a.Stop? && (a.sig.Error? || a.sig == HostCrash(HostException)) then
      Stop(Error(RuntimeError(e.name, NotAnArrayMessage)), a.st)
    else if a.Stop? then a
    else if !(a.value.Arr? || a.value.Nil?) then Stop(Error(RuntimeError(e.name, NotAnArrayMessage)), a.st)
    else
      var b := Eval(h, e.index, a.st);
      ExtendsTrans(st, a.st, b.st);
      if b.Stop? then b
      else Lift(Index(b.st.heap, a.value, b.value, e.name), b.st)
  }

  // ---------------------------------------------------------------------------
  // Statements

  /** How a statement ends normally: by running to its end, or by a `return`
      unwinding with a value. */
  datatype Flow = Normal | Returning(value: Value)

  /** A returned value refers only to lists of the heap it is returned with. */
  predicate FlowIn(r: Res<Flow>)
  {
    r.Ok? && r.value.Returning? ==> ValidIn(r.value.value, |r.st.heap|)
  }

  /** `execute`. A `while` loop may run forever; `fuel` bounds how many times
      each loop may go round before the run is cut off with `OutOfFuel`. */
  function Exec(h: Host, s: Stmt, st: State, fuel: nat): (r: Res<Flow>)
    requires Valid(st)
    ensures Follows(st, r.st) && FlowIn(r)
    decreases fuel, s, 1
  {
    match s
    case Expression(x) =>
      var a := Eval(h, x, st);
      if a.Stop? then Stop(a.sig, a.st) else Ok(Normal, a.st)
    case Print(x) =>
      var a := Eval(h, x, st);
      if a.Stop? then Stop(a.sig, a.st)
      else
        (match Stringify(a.st.heap, h.printer, a.value)
         case Failure(f) => Stop(HostCrash(f), a.st)
         case Success(t) =>
           var next := Emit(a.st, t);
           ExtendsTrans(st, a.st, next);
           Ok(Normal, next))
    case Var(name, init) =>
      var a := if init.None? then Ok(Nil, st) else Eval(h, init.value, st);
      if a.Stop? then Stop(a.sig, a.st)
      else
        var next := DefineHere(a.st, name.lexeme, a.value);
        ExtendsTrans(st, a.st, next);
        Ok(Normal, next)
    case Function(d) => Ok(Normal, DeclareFunction(st, d))
    case Return(_, value) =>
      var a := if value.None? then Ok(Nil, st) else Eval(h, value.value, st);
      if a.Stop? then Stop(a.sig, a.st) else Ok(Returning(a.value), a.st)
    case If(cond, thenBranch, elseBranch) =>
      var a := Eval(h, cond, st);
      if a.Stop? then Stop(a.sig, a.st)
      else if Truthy(a.value) then
        var b := Exec(h, thenBranch, a.st, fuel);
        ExtendsTrans(st, a.st, b.st);
        b
      else if elseBranch.Some? then
        var b := Exec(h, elseBranch.value, a.st, fuel);
        ExtendsTrans(st, a.st, b.st);
        b
      else Ok(Normal, a.st)
    case Block(ss) => ExecBlock(h, ss, st, fuel)
    case While(_, _) => ExecWhile(h, s, st, fuel)
  }

  /** `visitBlockStmt` and `executeBlock`: run the statements in a new scope
      nested in the current one, and make the current scope current again
      however they end. */
  function ExecBlock(h: Host, ss: seq<Stmt>, st: State, fuel: nat): (r: Res<Flow>)
    requires Valid(st)
    ensures Follows(st, r.st) && FlowIn(r)
    decreases fuel, ss, 1
  {
    var inner := PushScope(st);
    var b := ExecList(h, ss, inner, fuel);
    ExtendsTrans(st, inner, b.st);
    var back := Restore(b.st, st.cur);
    ExtendsTrans(st, b.st, back);
    match b
    case Ok(flow, _) => Ok(flow, back)
    case Stop(sig, _) => Stop(sig, back)
  }

  /** The statements in order, until one returns or stops. */
  function ExecList(h: Host, ss: seq<Stmt>, st: State, fuel: nat): (r: Res<Flow>)
    requires Valid(st)
    ensures Follows(st, r.st) && FlowIn(r)
    decreases fuel, ss, 0
  {
    if ss == [] then Ok(Normal, st)
    else
      var a := Exec(h, ss[0], st, fuel);
      if a.Stop? || a.value.Returning? then a
      else
        var b := ExecList(h, ss[1..], a.st, fuel);
        ExtendsTrans(st, a.st, b.st);
        b
  }

  /** `visitWhileStmt`: test the condition, run the body, go round again. */
  function ExecWhile(h: Host, s: Stmt, st: State, fuel: nat): (r: Res<Flow>)
    requires Valid(st) && s.While?
    ensures Follows(st, r.st) && FlowIn(r)
    decreases fuel, s, 0
  {
    var a := Eval(h, s.condition, st);
    if a.Stop? then Stop(a.sig, a.st)
    else if !Truthy(a.value) then Ok(Normal, a.st)
    else if fuel == 0 then Stop(OutOfFuel, a.st)
    else
      var b := Exec(h, s.body, a.st, fuel);
      ExtendsTrans(st, a.st, b.st);
      if b.Stop? || b.value.Returning? then b
      else
        var c := ExecWhile(h, s, b.st, fuel - 1);
        ExtendsTrans(st, b.st, c.st);
        c
  }

  // ---------------------------------------------------------------------------
  // Programs

  /** How running a program ends: every statement ran; a runtime error was
      reported; a `return` outside any function escaped; the host failed; or
      a loop ran past the step bound. */
  datatype Verdict = Completed | Reported(err: RuntimeError) | ReturnEscaped(value: Value) | HostFailed(fault: Fault) | CutOff

  datatype Outcome = Outcome(verdict: Verdict, st: State)

  /** The verdict a statement list's result amounts to at the top level. */
  function Conclude(r: Res<Flow>): (o: Outcome)
    ensures o.st == r.st
    ensures o.verdict.Completed? <==> r.Ok? && r.value.Normal?
  {
    match r
    case Ok(Normal, s) => Outcome(Completed, s)
    case Ok(Returning(v), s) => Outcome(ReturnEscaped(v), s)
    case Stop(Error(err), s) => Outcome(Reported(err), s)
    case Stop(HostCrash(f), s) => Outcome(HostFailed(f), s)
    case Stop(OutOfFuel, s) => Outcome(CutOff, s)
  }

  /** `interpret`: execute the statements one after another in the current
      scope; the first runtime error is reported and ends the run, and
      anything else that unwinds escapes it. */
  method Interpret(h: Host, program: seq<Stmt>, st: State, fuel: nat) returns (o: Outcome)
    requires Valid(st)
    ensures o == Conclude(ExecList(h, program, st, fuel))
    ensures Follows(st, o.st)
  {
    var s := st;
    var i := 0;
    while i < |program|
      invariant i <= |program|
      invariant Follows(st, s)
      invariant ExecList(h, program, st, fuel) == ExecList(h, program[i..], s, fuel)
    {
      var r := Exec(h, program[i], s, fuel);
      assert program[i..][0] == program[i] && program[i..][1..] == program[i + 1..];
      if r.Stop? || r.value.Returning? {
        return Conclude(r);
      }
      ExtendsTrans(st, s, r.st);
      s := r.st;
      i := i + 1;
    }
    return Outcome(Completed, s);
  }
}
