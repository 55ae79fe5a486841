/** Properties of whole runs: a program is its statements in sequence, the
    first failure ends it, and the step bound on loops only ever cuts a run
    off; it never changes the result of a run it lets finish. */
module RunProps {
  import opened Wrappers
  import opened Tokens
  import opened Ast
  import opened Values
  import opened Machine
  import opened Interpreter

  /** The run was cut off by the step bound. */
  predicate CutOffBy(r: Res<Flow>)
  {
    r.Stop? && r.sig.OutOfFuel?
  }

  // ---------------------------------------------------------------------------
  // Sequencing

  /** Running `xs + ys` runs `xs`, then `ys` from the state `xs` left, unless
      `xs` returned or stopped, in which case `ys` never runs. */
  lemma {:induction false} ExecListAppend(h: Host, xs: seq<Stmt>, ys: seq<Stmt>, st: State, fuel: nat)
    requires Valid(st)
    ensures var a := ExecList(h, xs, st, fuel);
              ExecList(h, xs + ys, st, fuel) == if a.Ok? && a.value.Normal? then ExecList(h, ys, a.st, fuel) else a
    decreases xs
  {
    if xs == [] {
      assert xs + ys == ys;
    } else {
      assert (xs + ys)[0] == xs[0] && (xs + ys)[1..] == xs[1..] + ys;
      var a := Exec(h, xs[0], st, fuel);
      if a.Ok? && a.value.Normal? {
        ExecListAppend(h, xs[1..], ys, a.st, fuel);
      }
    }
  }

  /** A runtime error in a statement ends the run with that error reported, in
      the state the error left; the statements after it never run. */
  lemma StopsAtFirstError(h: Host, xs: seq<Stmt>, s: Stmt, ys: seq<Stmt>, st: State, fuel: nat)
    requires Valid(st)
    requires ExecList(h, xs, st, fuel).Ok? && ExecList(h, xs, st, fuel).value.Normal?
    requires Exec(h, s, ExecList(h, xs, st, fuel).st, fuel).Stop?
    requires Exec(h, s, ExecList(h, xs, st, fuel).st, fuel).sig.Error?
    ensures var b := Exec(h, s, ExecList(h, xs, st, fuel).st, fuel);
              Conclude(ExecList(h, xs + [s] + ys, st, fuel)) == Outcome(Reported(b.sig.err), b.st)
  {
    var a := ExecList(h, xs, st, fuel);
    ExecListAppend(h, xs, [s] + ys, st, fuel);
    assert xs + [s] + ys == xs + ([s] + ys);
    assert ([s] + ys)[0] == s;
  }

  // ---------------------------------------------------------------------------
  // The step bound

  /** More fuel never changes a result that was not cut off. */
  lemma {:induction false} ExecFuel(h: Host, s: Stmt, st: State, fuel: nat, more: nat)
    requires Valid(st) && fuel <= more && !CutOffBy(Exec(h, s, st, fuel))
    ensures Exec(h, s, st, more) == Exec(h, s, st, fuel)
    decreases fuel, s, 2
  {
    match s
    case If(cond, thenBranch, elseBranch) =>
      var a := Eval(h, cond, st);
      if a.Ok? {
        if Truthy(a.value) {
          ExecFuel(h, thenBranch, a.st, fuel, more);
        } else if elseBranch.Some? {
          ExecFuel(h, elseBranch.value, a.st, fuel, more);
        }
      }
    case Block(ss) => BlockFuel(h, ss, st, fuel, more);
    case While(_, _) => WhileFuel(h, s, st, fuel, more);
    case _ =>
  }

  lemma {:induction false} BlockFuel(h: Host, ss: seq<Stmt>, st: State, fuel: nat, more: nat)
    requires Valid(st) && fuel <= more && !CutOffBy(ExecBlock(h, ss, st, fuel))
    ensures ExecBlock(h, ss, st, more) == ExecBlock(h, ss, st, fuel)
    decreases fuel, ss, 1
  {
    ListFuel(h, ss, PushScope(st), fuel, more);
  }

  lemma {:induction false} ListFuel(h: Host, ss: seq<Stmt>, st: State, fuel: nat, more: nat)
    requires Valid(st) && fuel <= more && !CutOffBy(ExecList(h, ss, st, fuel))
    ensures ExecList(h, ss, st, more) == ExecList(h, ss, st, fuel)
    decreases fuel, ss, 0
  {
    if ss != [] {
      var a := Exec(h, ss[0], st, fuel);
      ExecFuel(h, ss[0], st, fuel, more);
      if a.Ok? && a.value.Normal? {
        ListFuel(h, ss[1..], a.st, fuel, more);
      }
    }
  }

  lemma {:induction false} WhileFuel(h: Host, s: Stmt, st: State, fuel: nat, more: nat)
    requires Valid(st) && s.While? && fuel <= more && !CutOffBy(ExecWhile(h, s, st, fuel))
    ensures ExecWhile(h, s, st, more) == ExecWhile(h, s, st, fuel)
    decreases fuel, s, 1
  {
    var a := Eval(h, s.condition, st);
    if a.Ok? && Truthy(a.value) && fuel > 0 {
      var b := Exec(h, s.body, a.st, fuel);
      if b.Ok? && b.value.Normal? {
        WhileFuelAgain(h, s, st, fuel, more, a, b);
      } else {
        WhileLeaves(h, s, st, fuel, a, b);
        ExecFuel(h, s.body, a.st, fuel, more);
        WhileLeaves(h, s, st, more, a, b);
      }
    } else {
      WhileEnds(h, s, st, fuel, more);
    }
  }

  /** The inductive step of `WhileFuel`: the body completed normally under
      both bounds, so both loops go round again from the same state. */
  lemma {:induction false} WhileFuelAgain(h: Host, s: Stmt, st: State, fuel: nat, more: nat, a: Res<Value>, b: Res<Flow>)
    requires Valid(st) && s.While? && 0 < fuel <= more && !CutOffBy(ExecWhile(h, s, st, fuel))
    requires a == Eval(h, s.condition, st) && a.Ok? && Truthy(a.value)
    requires b == Exec(h, s.body, a.st, fuel) && b.Ok? && b.value.Normal?
    ensures ExecWhile(h, s, st, more) == ExecWhile(h, s, st, fuel)
    decreases fuel, s, 0
  {
    ExecFuel(h, s.body, a.st, fuel, more);
    var f: nat, m: nat := fuel - 1, more - 1;
    WhileAgain(h, s, st, fuel, f, a, b);
    WhileAgain(h, s, st, more, m, a, b);
    WhileFuel(h, s, b.st, f, m);
  }

  /** A loop whose condition fails, or holds with no fuel left, ends at the
      test whatever the fuel. */
  lemma WhileEnds(h: Host, s: Stmt, st: State, fuel: nat, more: nat)
    requires Valid(st) && s.While? && fuel <= more && !CutOffBy(ExecWhile(h, s, st, fuel))
    requires !(Eval(h, s.condition, st).Ok? && Truthy(Eval(h, s.condition, st).value) && fuel > 0)
    ensures ExecWhile(h, s, st, more) == ExecWhile(h, s, st, fuel)
  {
  }

  /** A loop whose condition holds and whose body completes normally goes
      round again with one unit less. */
  lemma WhileAgain(h: Host, s: Stmt, st: State, fuel: nat, rest: nat, a: Res<Value>, b: Res<Flow>)
    requires Valid(st) && s.While? && fuel == rest + 1
    requires a == Eval(h, s.condition, st) && a.Ok? && Truthy(a.value)
    requires Valid(a.st) && b == Exec(h, s.body, a.st, fuel) && b.Ok? && b.value.Normal?
    ensures Valid(b.st) && ExecWhile(h, s, st, fuel) == ExecWhile(h, s, b.st, rest)
  {
    assert Follows(a.st, b.st);
    var f: nat := fuel - 1;
    assert f == rest;
    assert ExecWhile(h, s, st, fuel) == ExecWhile(h, s, b.st, f);
  }

  /** A loop whose condition holds and whose body returns or stops ends with
      the body's result. */
  lemma WhileLeaves(h: Host, s: Stmt, st: State, fuel: nat, a: Res<Value>, b: Res<Flow>)
    requires Valid(st) && s.While? && fuel > 0
    requires a == Eval(h, s.condition, st) && a.Ok? && Truthy(a.value)
    requires Valid(a.st) && b == Exec(h, s.body, a.st, fuel) && !(b.Ok? && b.value.Normal?)
    ensures ExecWhile(h, s, st, fuel) == b
  {
  }

  /** A whole run that is not cut off gives the same outcome under any larger
      bound. */
  lemma RunFuel(h: Host, program: seq<Stmt>, st: State, fuel: nat, more: nat)
    requires Valid(st) && fuel <= more && !Conclude(ExecList(h, program, st, fuel)).verdict.CutOff?
    ensures Conclude(ExecList(h, program, st, more)) == Conclude(ExecList(h, program, st, fuel))
  {
    ListFuel(h, program, st, fuel, more);
  }
}
