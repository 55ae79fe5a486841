/** What `get`, `assign` and `define` do, stated against the chain of scopes
    written out as a sequence: `get` finds the innermost binding or reports
    the undefined name, `assign` overwrites exactly that binding, `define`
    writes to one scope and so shadows without touching enclosing scopes. */
module EnvironmentProps {
  import opened Wrappers
  import opened Tokens
  import opened Values
  import opened Environment
  import opened EnvironmentSpec

  // ---------------------------------------------------------------------------
  // The chain

  /** The chain follows the `enclosing` links from `e` down to a root, through
      ever smaller indices. */
  lemma {:induction false} ChainLinks(scopes: seq<Scope>, e: nat)
    requires WfScopes(scopes) && e < |scopes|
    ensures var c := Chain(scopes, e);
              && (forall k :: 0 <= k < |c| ==> c[k] <= e)
              && (forall k :: 0 <= k < |c| - 1 ==> scopes[c[k]].enclosing == Some(c[k + 1]) && c[k + 1] < c[k])
              && scopes[c[|c| - 1]].enclosing.None?
    decreases e
  {
    if scopes[e].enclosing.Some? {
      ChainLinks(scopes, scopes[e].enclosing.value);
    }
  }

  /** Scopes outside the chain from `p` do not matter to a lookup from `p`. */
  lemma {:induction false} GetFrame(s: seq<Scope>, s': seq<Scope>, p: nat, name: Token)
    requires WfScopes(s) && WfScopes(s') && p < |s| && p < |s'|
    requires forall k :: 0 <= k < |Chain(s, p)| ==> Chain(s, p)[k] < |s'| && s'[Chain(s, p)[k]] == s[Chain(s, p)[k]]
    ensures Get(s', p, name) == Get(s, p, name)
    decreases p
  {
    assert Chain(s, p)[0] == p;
    if name.lexeme !in s[p].values && s[p].enclosing.Some? {
      var q := s[p].enclosing.value;
      assert Chain(s, p) == [p] + Chain(s, q);
      forall k | 0 <= k < |Chain(s, q)|
        ensures Chain(s, q)[k] < |s'| && s'[Chain(s, q)[k]] == s[Chain(s, q)[k]]
      {
        assert Chain(s, q)[k] == Chain(s, p)[k + 1];
      }
      GetFrame(s, s', q, name);
    }
  }

  /** Other names' bindings do not matter to a lookup. */
  lemma {:induction false} GetNameFrame(s: seq<Scope>, s': seq<Scope>, p: nat, name: Token)
    requires WfScopes(s) && p < |s| && |s'| == |s|
    requires forall i :: 0 <= i < |s| ==>
               && s'[i].enclosing == s[i].enclosing
               && (name.lexeme in s'[i].values <==> name.lexeme in s[i].values)
               && (name.lexeme in s[i].values ==> s'[i].values[name.lexeme] == s[i].values[name.lexeme])
    ensures WfScopes(s')
    ensures Get(s', p, name) == Get(s, p, name)
    decreases p
  {
    if name.lexeme !in s[p].values && s[p].enclosing.Some? {
      GetNameFrame(s, s', s[p].enclosing.value, name);
    }
  }

  // ---------------------------------------------------------------------------
  // get

  /** `get` returns the value of the innermost binding on the chain. */
  lemma {:induction false} GetFound(scopes: seq<Scope>, e: nat, name: Token, k: nat)
    requires WfScopes(scopes) && e < |scopes|
    requires InnermostAt(scopes, Chain(scopes, e), k, name.lexeme)
    ensures Get(scopes, e, name) == Success(scopes[Chain(scopes, e)[k]].values[name.lexeme])
    decreases e
  {
    var c := Chain(scopes, e);
    if k > 0 {
      assert !BindsAt(scopes, c, 0, name.lexeme);
      var q := scopes[e].enclosing.value;
      assert c == [e] + Chain(scopes, q);
      forall j | 0 <= j < k - 1
        ensures !BindsAt(scopes, Chain(scopes, q), j, name.lexeme)
      {
        assert !BindsAt(scopes, c, j + 1, name.lexeme);
      }
      GetFound(scopes, q, name, k - 1);
    }
  }

  /** A name bound nowhere on the chain is reported as undefined. */
  lemma {:induction false} GetUnbound(scopes: seq<Scope>, e: nat, name: Token)
    requires WfScopes(scopes) && e < |scopes|
    requires !BoundIn(scopes, Chain(scopes, e), name.lexeme)
    ensures Get(scopes, e, name) == Failure(RuntimeError(name, UndefinedMessage(name.lexeme)))
    decreases e
  {
    var c := Chain(scopes, e);
    assert !BindsAt(scopes, c, 0, name.lexeme);
    if scopes[e].enclosing.Some? {
      var q := scopes[e].enclosing.value;
      assert c == [e] + Chain(scopes, q);
      if BoundIn(scopes, Chain(scopes, q), name.lexeme) {
        var k: nat :| 0 <= k < |Chain(scopes, q)| && BindsAt(scopes, Chain(scopes, q), k, name.lexeme);
        assert BindsAt(scopes, c, k + 1, name.lexeme);
      }
      GetUnbound(scopes, q, name);
    }
  }

  /** A name bound somewhere on the chain has an innermost binding, and `get`
      returns its value. */
  lemma {:induction false} GetBound(scopes: seq<Scope>, e: nat, name: Token)
    requires WfScopes(scopes) && e < |scopes|
    requires BoundIn(scopes, Chain(scopes, e), name.lexeme)
    ensures exists k: nat :: InnermostAt(scopes, Chain(scopes, e), k, name.lexeme) &&
              Get(scopes, e, name) == Success(scopes[Chain(scopes, e)[k]].values[name.lexeme])
    decreases e
  {
    var c := Chain(scopes, e);
    if BindsAt(scopes, c, 0, name.lexeme) {
      assert InnermostAt(scopes, c, 0, name.lexeme);
    } else {
      var q := scopes[e].enclosing.value;
      assert c == [e] + Chain(scopes, q);
      var i: nat :| 0 <= i < |c| && BindsAt(scopes, c, i, name.lexeme);
      assert BindsAt(scopes, Chain(scopes, q), i - 1, name.lexeme);
      GetBound(scopes, q, name);
      var k: nat :| InnermostAt(scopes, Chain(scopes, q), k, name.lexeme) &&
               Get(scopes, q, name) == Success(scopes[Chain(scopes, q)[k]].values[name.lexeme]);
      assert BindsAt(scopes, c, k + 1, name.lexeme);
      forall j | 0 <= j < k + 1
        ensures !BindsAt(scopes, c, j, name.lexeme)
      {
        if j > 0 {
          assert !BindsAt(scopes, Chain(scopes, q), j - 1, name.lexeme);
        }
      }
      assert InnermostAt(scopes, c, k + 1, name.lexeme);
    }
  }

  /** `get` succeeds exactly when some scope of the chain binds the name. */
  lemma GetIff(scopes: seq<Scope>, e: nat, name: Token)
    requires WfScopes(scopes) && e < |scopes|
    ensures Get(scopes, e, name).Success? <==> BoundIn(scopes, Chain(scopes, e), name.lexeme)
  {
    if BoundIn(scopes, Chain(scopes, e), name.lexeme) {
      GetBound(scopes, e, name);
    } else {
      GetUnbound(scopes, e, name);
    }
  }

  // ---------------------------------------------------------------------------
  // assign

  /** `assign` overwrites the innermost binding on the chain and nothing else. */
  lemma {:induction false} AssignFound(scopes: seq<Scope>, e: nat, name: Token, v: Value, k: nat)
    requires WfScopes(scopes) && e < |scopes|
    requires InnermostAt(scopes, Chain(scopes, e), k, name.lexeme)
    ensures var q := Chain(scopes, e)[k];
              Assign(scopes, e, name, v) == Success(scopes[q := scopes[q].(values := scopes[q].values[name.lexeme := v])])
    decreases e
  {
    var c := Chain(scopes, e);
    if k > 0 {
      assert !BindsAt(scopes, c, 0, name.lexeme);
      var q := scopes[e].enclosing.value;
      assert c == [e] + Chain(scopes, q);
      forall j | 0 <= j < k - 1
        ensures !BindsAt(scopes, Chain(scopes, q), j, name.lexeme)
      {
        assert !BindsAt(scopes, c, j + 1, name.lexeme);
      }
      AssignFound(scopes, q, name, v, k - 1);
    }
  }

  /** `assign` succeeds exactly when `get` does; otherwise both report the
      same undefined name. */
  lemma {:induction false} AssignIff(scopes: seq<Scope>, e: nat, name: Token, v: Value)
    requires WfScopes(scopes) && e < |scopes|
    ensures Assign(scopes, e, name, v).Success? <==> Get(scopes, e, name).Success?
    ensures Assign(scopes, e, name, v).Failure? ==> Get(scopes, e, name) == Failure(Assign(scopes, e, name, v).error)
    decreases e
  {
    if name.lexeme !in scopes[e].values && scopes[e].enclosing.Some? {
      AssignIff(scopes, scopes[e].enclosing.value, name, v);
    }
  }

  /** After a successful `assign`, the chain is the same and a lookup of the
      name from the same scope finds the new value. */
  lemma AssignThenGet(scopes: seq<Scope>, e: nat, name: Token, v: Value)
    requires WfScopes(scopes) && e < |scopes| && Assign(scopes, e, name, v).Success?
    ensures WfScopes(Assign(scopes, e, name, v).value)
    ensures Get(Assign(scopes, e, name, v).value, e, name) == Success(v)
  {
    AssignIff(scopes, e, name, v);
    GetIff(scopes, e, name);
    GetBound(scopes, e, name);
    var c := Chain(scopes, e);
    var k: nat :| InnermostAt(scopes, c, k, name.lexeme) &&
             Get(scopes, e, name) == Success(scopes[c[k]].values[name.lexeme]);
    AssignUpdates(scopes, e, name, v, k);
  }

  lemma AssignUpdates(scopes: seq<Scope>, e: nat, name: Token, v: Value, k: nat)
    requires WfScopes(scopes) && e < |scopes|
    requires InnermostAt(scopes, Chain(scopes, e), k, name.lexeme) && Assign(scopes, e, name, v).Success?
    ensures WfScopes(Assign(scopes, e, name, v).value)
    ensures Get(Assign(scopes, e, name, v).value, e, name) == Success(v)
  {
    var c := Chain(scopes, e);
    var s' := Assign(scopes, e, name, v).value;
    AssignFound(scopes, e, name, v, k);
    ChainSame(scopes, s', e);
    InnermostKept(scopes, s', c, k, name.lexeme);
    GetFound(s', e, name, k);
  }

  /** Relinking nothing keeps every chain. */
  lemma {:induction false} ChainSame(s: seq<Scope>, s': seq<Scope>, e: nat)
    requires WfScopes(s) && e < |s| && |s'| == |s|
    requires forall i :: 0 <= i < |s| ==> s'[i].enclosing == s[i].enclosing
    ensures WfScopes(s') && Chain(s', e) == Chain(s, e)
    decreases e
  {
    if s[e].enclosing.Some? {
      ChainSame(s, s', s[e].enclosing.value);
    }
  }

  /** Rebinding a name in the scope that holds its innermost binding keeps
      that binding innermost. */
  lemma InnermostKept(s: seq<Scope>, s': seq<Scope>, c: seq<nat>, k: nat, name: string)
    requires InnermostAt(s, c, k, name) && |s'| == |s|
    requires forall i :: 0 <= i < |s| && i != c[k] ==> s'[i] == s[i]
    requires name in s'[c[k]].values
    ensures InnermostAt(s', c, k, name)
  {
    forall j | 0 <= j < k
      ensures !BindsAt(s', c, j, name)
    {
      assert !BindsAt(s, c, j, name);
    }
  }

  /** `assign` leaves every other name's lookups as they were, from every
      scope. */
  lemma AssignOthers(scopes: seq<Scope>, e: nat, name: Token, v: Value, other: Token, p: nat)
    requires WfScopes(scopes) && e < |scopes| && p < |scopes| && Assign(scopes, e, name, v).Success?
    requires other.lexeme != name.lexeme
    ensures Get(Assign(scopes, e, name, v).value, p, other) == Get(scopes, p, other)
  {
    GetNameFrame(scopes, Assign(scopes, e, name, v).value, p, other);
  }

  // ---------------------------------------------------------------------------
  // define and new scopes

  /** After `define`, the name looked up from that scope is the new value,
      whatever it was bound to before. */
  lemma DefineThenGet(scopes: seq<Scope>, e: nat, name: Token, v: Value)
    requires WfScopes(scopes) && e < |scopes|
    ensures WfScopes(Define(scopes, e, name.lexeme, v))
    ensures Get(Define(scopes, e, name.lexeme, v), e, name) == Success(v)
  {
  }

  /** `define` writes only to its own scope: a lookup from any scope whose
      chain does not pass through it sees no change. In particular an inner
      `var` shadows an outer binding without changing it. */
  lemma DefineKeepsOthers(scopes: seq<Scope>, e: nat, name: string, v: Value, p: nat, x: Token)
    requires WfScopes(scopes) && e < |scopes| && p < |scopes|
    requires e !in Chain(scopes, p)
    ensures Get(Define(scopes, e, name, v), p, x) == Get(scopes, p, x)
  {
    var s' := Define(scopes, e, name, v);
    ChainSame(scopes, s', p);
    GetFrame(scopes, s', p, x);
  }

  /** Scopes enclosing `e` are earlier than it, so `define` in `e` never
      changes a lookup from an enclosing scope. */
  lemma DefineKeepsEnclosing(scopes: seq<Scope>, e: nat, name: string, v: Value, p: nat, x: Token)
    requires WfScopes(scopes) && e < |scopes| && p < e
    ensures Get(Define(scopes, e, name, v), p, x) == Get(scopes, p, x)
  {
    ChainLinks(scopes, p);
    DefineKeepsOthers(scopes, e, name, v, p, x);
  }

  /** `define` of one name changes no lookup of another. */
  lemma DefineOthers(scopes: seq<Scope>, e: nat, name: string, v: Value, p: nat, x: Token)
    requires WfScopes(scopes) && e < |scopes| && p < |scopes| && x.lexeme != name
    ensures Get(Define(scopes, e, name, v), p, x) == Get(scopes, p, x)
  {
    GetNameFrame(scopes, Define(scopes, e, name, v), p, x);
  }

  /** Adding scopes changes no lookup from an existing one. */
  lemma GetExtend(scopes: seq<Scope>, more: seq<Scope>, p: nat, x: Token)
    requires WfScopes(scopes) && WfScopes(scopes + more) && p < |scopes|
    ensures Chain(scopes + more, p) == Chain(scopes, p)
    ensures Get(scopes + more, p, x) == Get(scopes, p, x)
  {
    ChainExtend(scopes, more, p);
    ChainLinks(scopes, p);
    GetFrame(scopes, scopes + more, p, x);
  }

  lemma {:induction false} ChainExtend(scopes: seq<Scope>, more: seq<Scope>, p: nat)
    requires WfScopes(scopes) && WfScopes(scopes + more) && p < |scopes|
    ensures Chain(scopes + more, p) == Chain(scopes, p)
    decreases p
  {
    assert (scopes + more)[p] == scopes[p];
    if scopes[p].enclosing.Some? {
      ChainExtend(scopes, more, scopes[p].enclosing.value);
    }
  }

  /** A new nested scope starts empty and its parent is exactly the scope it
      was made from, so every lookup from it sees what its parent sees. */
  lemma ChildInherits(scopes: seq<Scope>, parent: nat, x: Token)
    requires WfScopes(scopes) && parent < |scopes|
    ensures WfScopes(NewChild(scopes, parent))
    ensures Chain(NewChild(scopes, parent), |scopes|) == [|scopes|] + Chain(scopes, parent)
    ensures Get(NewChild(scopes, parent), |scopes|, x) == Get(scopes, parent, x)
  {
    var s' := NewChild(scopes, parent);
    assert s' == scopes + [Scope(map[], Some(parent))];
    GetExtend(scopes, [Scope(map[], Some(parent))], parent, x);
  }

  /** A new global scope has no enclosing scope and binds nothing. */
  lemma RootEmpty(scopes: seq<Scope>, x: Token)
    requires WfScopes(scopes)
    ensures WfScopes(NewRoot(scopes))
    ensures Chain(NewRoot(scopes), |scopes|) == [|scopes|]
    ensures Get(NewRoot(scopes), |scopes|, x) == Failure(RuntimeError(x, UndefinedMessage(x.lexeme)))
  {
    var s' := NewRoot(scopes);
    forall i | 0 <= i < |s'| && s'[i].enclosing.Some?
      ensures s'[i].enclosing.value < i
    {
      assert s'[i] == scopes[i];
    }
  }
}
