/** The reference for name resolution: the chain of scopes from a scope out to
    its root, written down as a sequence, and what it means for a position of
    the chain to hold the innermost binding of a name. */
module EnvironmentSpec {
  import opened Wrappers
  import opened Values
  import opened Environment

  /** The indices of the scopes from `e` outward, ending at a root. */
  function Chain(scopes: seq<Scope>, e: nat): (c: seq<nat>)
    requires WfScopes(scopes) && e < |scopes|
    ensures |c| > 0 && c[0] == e
    ensures forall k :: 0 <= k < |c| ==> c[k] <= e
    decreases e
  {
    if scopes[e].enclosing.Some? then [e] + Chain(scopes, scopes[e].enclosing.value)
    else [e]
  }

  /** Position `k` of the chain `c` holds a binding for `name`. */
  predicate BindsAt(scopes: seq<Scope>, c: seq<nat>, k: nat, name: string)
  {
    k < |c| && c[k] < |scopes| && name in scopes[c[k]].values
  }

  /** Position `k` of the chain holds the innermost binding for `name`: it
      binds the name and no scope before it does. */
  predicate InnermostAt(scopes: seq<Scope>, c: seq<nat>, k: nat, name: string)
  {
    BindsAt(scopes, c, k, name) && forall j :: 0 <= j < k ==> !BindsAt(scopes, c, j, name)
  }

  /** Some scope of the chain binds `name`. */
  predicate BoundIn(scopes: seq<Scope>, c: seq<nat>, name: string)
  {
    exists k :: 0 <= k < |c| && BindsAt(scopes, c, k, name)
  }
}
