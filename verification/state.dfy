/** The interpreter's mutable state made explicit: the scope arena with the
    current scope, the list heap, the lines printed so far, and the next
    identity for a function object. Every step takes a state and returns
    the next one; `Valid` is what every reachable state satisfies and
    `Extends` is how a later state relates to an earlier one. */
module Machine {
  import opened Wrappers
  import opened Tokens
  import opened Ast
  import opened Values
  import opened Environment

  datatype State = State(scopes: seq<Scope>, cur: nat, heap: Heap, out: seq<string>, nextFn: nat)

  /** Why an evaluation stopped early: a runtime error, a host failure, or
      the step bound running out (see `Exec`). */
  datatype Signal = Error(err: RuntimeError) | HostCrash(fault: Fault) | OutOfFuel

  /** The outcome of a step: a result and the state after it, or a signal
      and the state it was raised in. */
  datatype Res<+T> = Ok(value: T, st: State) | Stop(sig: Signal, st: State)

  /** Every bound value in the scope arena refers to a list of the heap. */
  predicate BindingsIn(scopes: seq<Scope>, n: nat)
  {
    forall i, x :: 0 <= i < |scopes| && x in scopes[i].values ==> ValidIn(scopes[i].values[x], n)
  }

  /** A state the interpreter can be in: the scopes form chains, the current
      scope exists, and no binding or list element dangles. */
  predicate Valid(st: State)
  {
    && WfScopes(st.scopes)
    && st.cur < |st.scopes|
    && BindingsIn(st.scopes, |st.heap|)
    && WfHeap(st.heap)
  }

  /** `b` can follow `a`: scopes and lists are only added, scopes keep their
      links, lists keep their sizes, printed lines stay printed, and function
      identities are never reused. */
  predicate Extends(a: State, b: State)
  {
    && |a.scopes| <= |b.scopes|
    && (forall i :: 0 <= i < |a.scopes| ==> b.scopes[i].enclosing == a.scopes[i].enclosing)
    && |a.heap| <= |b.heap|
    && (forall r :: 0 <= r < |a.heap| ==> |b.heap[r]| == |a.heap[r]|)
    && a.out <= b.out
    && a.nextFn <= b.nextFn
  }

  lemma ExtendsTrans(a: State, b: State, c: State)
    requires Extends(a, b) && Extends(b, c)
    ensures Extends(a, c)
  {
  }

  /** The interpreter's starting state: one global scope binding `clock`. */
  function Initial(): (st: State)
    ensures Valid(st)
    ensures Get(st.scopes, st.cur, Token(IDENTIFIER, "clock", NilLit, 0)) == Success(Fn(Clock))
  {
    State([Scope(map["clock" := Fn(Clock)], None)], 0, [], [], 0)
  }

  /** The value of a variable as seen from the current scope. */
  function Lookup(st: State, name: Token): (r: Result<Value, RuntimeError>)
    requires Valid(st)
    ensures r.Success? ==> ValidIn(r.value, |st.heap|)
  {
    Get(st.scopes, st.cur, name)
  }

  /** `define` in the current scope. */
  function DefineHere(st: State, name: string, v: Value): (r: State)
    requires Valid(st) && ValidIn(v, |st.heap|)
    ensures Valid(r) && Extends(st, r) && r.cur == st.cur && r.heap == st.heap
    ensures r.out == st.out && r.nextFn == st.nextFn
    ensures forall t: Token :: t.lexeme == name ==> Lookup(r, t) == Success(v)
  {
    st.(scopes := Define(st.scopes, st.cur, name, v))
  }

  /** `assign` from the current scope. */
  function AssignHere(st: State, name: Token, v: Value): (r: Result<State, RuntimeError>)
    requires Valid(st) && ValidIn(v, |st.heap|)
    ensures r.Success? ==> Valid(r.value) && Extends(st, r.value) && r.value.cur == st.cur && r.value.heap == st.heap
    ensures r.Success? ==> r.value.out == st.out && r.value.nextFn == st.nextFn
  {
    match Environment.Assign(st.scopes, st.cur, name, v)
    case Failure(err) => Failure(err)
    case Success(scopes) => Success(st.(scopes := scopes))
  }

  /** A new list holding `vs`, at the end of the heap. */
  function Alloc(st: State, vs: seq<Value>): (r: State)
    requires Valid(st) && forall j :: 0 <= j < |vs| ==> ValidIn(vs[j], |st.heap|)
    ensures Valid(r) && Extends(st, r) && r.cur == st.cur && r.scopes == st.scopes
    ensures |r.heap| == |st.heap| + 1 && r.heap[|st.heap|] == vs
    ensures forall x :: 0 <= x < |st.heap| ==> r.heap[x] == st.heap[x]
  {
    var r := st.(heap := st.heap + [vs]);
    assert WfHeap(r.heap) by {
      forall x, j | 0 <= x < |r.heap| && 0 <= j < |r.heap[x]|
        ensures ValidIn(r.heap[x][j], |r.heap|)
      {
        if x < |st.heap| {
          assert r.heap[x][j] == st.heap[x][j] && ValidIn(st.heap[x][j], |st.heap|);
        } else {
          assert r.heap[x][j] == vs[j] && ValidIn(vs[j], |st.heap|);
        }
      }
    }
    r
  }

  /** `list.set(i, v)` on list `x`. */
  function Store(st: State, x: nat, i: nat, v: Value): (r: State)
    requires Valid(st) && x < |st.heap| && i < |st.heap[x]| && ValidIn(v, |st.heap|)
    ensures Valid(r) && Extends(st, r) && r.cur == st.cur && r.scopes == st.scopes
    ensures |r.heap| == |st.heap| && r.heap[x][i] == v
    ensures forall y, j :: 0 <= y < |st.heap| && 0 <= j < |st.heap[y]| && (y, j) != (x, i) ==>
              r.heap[y][j] == st.heap[y][j]
  {
    st.(heap := st.heap[x := st.heap[x][i := v]])
  }

  /** `System.out.println(text)`. */
  function Emit(st: State, text: string): (r: State)
    requires Valid(st)
    ensures Valid(r) && Extends(st, r) && r.cur == st.cur && r.heap == st.heap
    ensures r.out == st.out + [text]
  {
    st.(out := st.out + [text])
  }

  /** A new, empty scope nested in the current one, made current. */
  function PushScope(st: State): (r: State)
    requires Valid(st)
    ensures Valid(r) && Extends(st, r) && r.heap == st.heap
    ensures r.cur == |st.scopes| && r.scopes[r.cur] == Scope(map[], Some(st.cur))
  {
    st.(scopes := NewChild(st.scopes, st.cur), cur := |st.scopes|)
  }

  /** Make scope `c` current again. */
  function Restore(st: State, c: nat): (r: State)
    requires Valid(st) && c < |st.scopes|
    ensures Valid(r) && Extends(st, r) && r.cur == c && r.heap == st.heap && r.out == st.out
  {
    st.(cur := c)
  }

  /** A new function object for declaration `d`, bound to its name in the
      current scope; its identity is one no earlier function object has. */
  function DeclareFunction(st: State, d: FunDecl): (r: State)
    requires Valid(st)
    ensures Valid(r) && Extends(st, r) && r.cur == st.cur && r.heap == st.heap
    ensures r.nextFn == st.nextFn + 1
    ensures Lookup(r, d.name) == Success(Fn(UserFn(st.nextFn, d)))
  {
    DefineHere(st, d.name.lexeme, Fn(UserFn(st.nextFn, d))).(nextFn := st.nextFn + 1)
  }
}
