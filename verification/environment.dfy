/** The scope chain. The source links each scope to its enclosing one; here
    all scopes live in one arena, a scope is named by its index, and its
    `enclosing` index is always smaller than its own, so every chain ends at
    a root. Scopes are only ever added, never removed. */
module Environment {
  import opened Wrappers
  import opened Tokens
  import opened Values

  /** One scope: its bindings and the scope it is nested in (`None` for the
      global scope). */
  datatype Scope = Scope(values: map<string, Value>, enclosing: Option<nat>)

  /** Every enclosing link points to an earlier scope. */
  predicate WfScopes(scopes: seq<Scope>)
  {
    forall i :: 0 <= i < |scopes| && scopes[i].enclosing.Some? ==> scopes[i].enclosing.value < i
  }

  /** `Environment()`: a new, empty global scope. */
  function NewRoot(scopes: seq<Scope>): (r: seq<Scope>)
    ensures |r| == |scopes| + 1 && r[..|scopes|] == scopes
    ensures r[|scopes|] == Scope(map[], None)
  {
    scopes + [Scope(map[], None)]
  }

  /** `Environment(enclosing)`: a new, empty scope nested in `parent`. */
  function NewChild(scopes: seq<Scope>, parent: nat): (r: seq<Scope>)
    ensures |r| == |scopes| + 1 && r[..|scopes|] == scopes
    ensures r[|scopes|] == Scope(map[], Some(parent))
  {
    scopes + [Scope(map[], Some(parent))]
  }

  /** The message `get` and `assign` report for a name bound nowhere. */
  function UndefinedMessage(name: string): string
  {
    "Undefined variable '" + name + "'."
  }

  /** `get`: the value bound to the name in the innermost scope of the chain
      from `e` that binds it. */
  function Get(scopes: seq<Scope>, e: nat, name: Token): (r: Result<Value, RuntimeError>)
    requires WfScopes(scopes) && e < |scopes|
    ensures r.Success? ==> exists i :: 0 <= i <= e && name.lexeme in scopes[i].values && scopes[i].values[name.lexeme] == r.value
    decreases e
  {
    if name.lexeme in scopes[e].values then Success(scopes[e].values[name.lexeme])
    else if scopes[e].enclosing.Some? then Get(scopes, scopes[e].enclosing.value, name)
    else Failure(RuntimeError(name, UndefinedMessage(name.lexeme)))
  }

  /** `assign`: overwrite the binding in the innermost scope of the chain from
      `e` that binds the name. It never creates a binding, never touches
      another name, and never relinks a scope. */
  function Assign(scopes: seq<Scope>, e: nat, name: Token, v: Value): (r: Result<seq<Scope>, RuntimeError>)
    requires WfScopes(scopes) && e < |scopes|
    ensures r.Success? ==> |r.value| == |scopes|
    ensures r.Success? ==> forall i :: 0 <= i < |scopes| ==>
              && r.value[i].enclosing == scopes[i].enclosing
              && r.value[i].values.Keys == scopes[i].values.Keys
    ensures r.Success? ==> forall i, m :: 0 <= i < |scopes| && m in scopes[i].values && m != name.lexeme ==>
              r.value[i].values[m] == scopes[i].values[m]
    ensures r.Success? ==> forall i :: 0 <= i < |scopes| && name.lexeme in scopes[i].values ==>
              r.value[i].values[name.lexeme] in {scopes[i].values[name.lexeme], v}
    ensures r.Failure? ==> r.error == RuntimeError(name, UndefinedMessage(name.lexeme))
    decreases e
  {
    if name.lexeme in scopes[e].values then
      Success(scopes[e := scopes[e].(values := scopes[e].values[name.lexeme := v])])
    else if scopes[e].enclosing.Some? then Assign(scopes, scopes[e].enclosing.value, name, v)
    else Failure(RuntimeError(name, UndefinedMessage(name.lexeme)))
  }

  /** `define`: bind the name in scope `e` itself, replacing any binding it
      had there. */
  function Define(scopes: seq<Scope>, e: nat, name: string, v: Value): (r: seq<Scope>)
    requires e < |scopes|
    ensures |r| == |scopes|
    ensures forall i :: 0 <= i < |scopes| && i != e ==> r[i] == scopes[i]
    ensures r[e].enclosing == scopes[e].enclosing
    ensures r[e].values.Keys == scopes[e].values.Keys + {name} && r[e].values[name] == v
    ensures forall m :: m in scopes[e].values && m != name ==> r[e].values[m] == scopes[e].values[m]
  {
    scopes[e := scopes[e].(values := scopes[e].values[name := v])]
  }
}
