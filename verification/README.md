# Pulse interpreter core, modelled in Dafny

Pulse is a small dynamically typed scripting language with a tree-walking
interpreter written in Java. This project models its core and proves
properties of the model. The core has four parts:

- **The expression parser** (`Parser`). It is recursive descent over a token
  sequence that ends in EOF, with the layers equality, comparison, term,
  factor, unary and primary. Each parsing routine is a pure function of the
  tokens and a cursor position. The four left-associative binary layers share
  one definition, `Parser.Layer`, indexed by precedence level. `ParserSpec`
  is an independent reference: the trees the grammar admits (`Canonical`),
  the tokens that spell a tree (`Unparse`, `Spells`) and where a layer must
  stop. `ParserProps.ParseIff` proves that the parser returns a tree exactly
  when the reference says it should. `Parser.Synchronize` is the recovery
  routine.
- **The scope chain** (`Environment`). The linked environments become an
  arena `seq<Scope>`. A scope is named by its index, and its `enclosing`
  index is always smaller than its own. `get`, `assign` and `define` are
  pure functions over the arena. `EnvironmentSpec.Chain` writes the chain
  out as a sequence; the lemmas of `EnvironmentProps` state lookup,
  shadowing and "nothing else changes" against it.
- **The evaluator** (`Values`, `Operators`, `Equality`, `Text`, `Machine`,
  `Interpreter`).
  - A value is the host's null, a Boolean, a number, a string, a list
    reference or a callable.
  - Lists live in a heap `seq<seq<Value>>`, so that aliasing is explicit.
  - The interpreter's state is `Machine.State`: the scope arena and the
    current scope, the heap, the printed lines, and the next
    function-object identity.
  - `Interpreter.Eval`, `Interpreter.Exec` and their helpers are one
    function per visitor method. A step either returns a value (`Ok`) or
    stops with a signal: a runtime error, a host failure (a Java exception
    that is not a `RuntimeError`, or unbounded recursion), or the loop step
    bound running out.
  - A `return` is the flow value `Returning(v)`. It passes through blocks,
    `if` and `while` untouched.
  - `isEqual` is `ArrayList.equals` over the heap, and `stringify` is
    `AbstractCollection.toString` over the heap. Both keep the host's
    behaviour on self-containing lists.
- **The syntax tree** (`Ast`). `Expr` has all eleven variants the evaluator
  handles. The parser of this snapshot builds only Binary, Grouping, Literal
  and Unary (`Ast.IsParserExpr`, `ParserProps.ParserForms`). `Stmt` has the
  eight statement variants; absent parts are `None`.

Three things come from the host as a `Interpreter.Host` value rather than
being modelled:

- the text of a number (`Double.toString`) and of a function object;
- the clock reading;
- what a call of a user function returns. This is an `Invoker`, constrained
  only to leave a valid state that extends the one it started in.

Where the language's written description and the code differ, this model
follows the code:

- `/` checks that both operands are numbers before it checks for a zero
  divisor.
- A subscript write (`Set`) evaluates to nil, not to the value written.
- A set whose target is not a subscript does nothing and yields nil.
- The parser has only the expression layers listed above. It has no
  assignment, logical, call or subscript layer.
- A negative index passes the bounds check. `List.get` or `List.set` then
  throws, and the exception escapes `interpret` as a host failure. So do:
  - a failed cast of the list or index operand of a write;
  - a null list in a read or write.
- A subscript read catches every exception thrown while its list operand is
  evaluated, including a runtime error. It reports all of them as "Only
  arrays can be subscripted". A stack overflow is an `Error`, not an
  `Exception`, so it is not caught.
- `+` of a number and a string uses the number's full host text, so
  `1 + "x"` is `"1.0x"`. The strip-".0" rule applies only to `print`.

## Model

| member | source | states |
|---|---|---|
| Parser.Advance | src/pulse/Parser.java:145-161 | the cursor moves forward by exactly one token unless it is at EOF, and never past the last token |
| Parser.Match | src/pulse/Parser.java:123-131 | consumes one token exactly when the current token is one of the given kinds and is not EOF; otherwise the cursor stays |
| Parser.Consume | src/pulse/Parser.java:133-143 | succeeds exactly when the current token has the expected kind (never at EOF) and then moves one token on; otherwise reports the message at the current token |
| Parser.Parse | src/pulse/Parser.java:30-36 | a parse yields an expression and no error, or no expression and exactly one error |
| Parser.Synchronize | src/pulse/Parser.java:169-183 | from a token other than EOF it moves forward at least one token and stops at the first statement boundary (just after a `;`, on a statement keyword, or at EOF), skipping no boundary; on EOF it stays put; on an EOF-only stream it fails in the host, because `advance` reads the token before position 0 |
| Parser.ParseExpression | src/pulse/Parser.java:38-41 | `expression` consumes at least one token when it builds a tree and stops before the end-of-file token; what tree it builds is `ParserProps.ParseIff` (its own contract is weaker, see Left out) |
| Parser.Layer | src/pulse/Parser.java:43-90 | each binary layer consumes at least one token when it builds a tree and stops before the end-of-file token; the trees it builds are stated by `ParserProps.ParseIff` and `ParserExamples` (its own contract is weaker, see Left out) |
| Parser.Tail | src/pulse/Parser.java:43-90 | the operator loop of a layer never moves back from where it starts and stops before the end-of-file token; what it folds is stated by `ParserProps.ParseIff` (its own contract is weaker, see Left out) |
| Parser.ParseUnary | src/pulse/Parser.java:92-100 | `unary` consumes at least one token when it builds a tree and stops before the end-of-file token; its trees are stated by `ParserExamples.PrefixesNest` and `ParserProps.ParseIff` (its own contract is weaker, see Left out) |
| Parser.ParsePrimary | src/pulse/Parser.java:102-120 | `primary` consumes at least one token when it builds a tree and stops before the end-of-file token; its results are stated by `ParserExamples.NoExpression`, `ParserExamples.Unclosed` and `ParserProps.ParseIff` (its own contract is weaker, see Left out) |
| ParserProps.ParseIff | src/pulse/Parser.java:39-120 | `Parse` returns `e` exactly when `e` is a canonical tree (left-associative layers, tighter operators deeper), the tokens from the start spell it, and the token after it is not a binary operator |
| ParserProps.ParseGivesCanonical | src/pulse/Parser.java:39-120 | whatever the parser returns is canonical, spelled by the leading tokens and followed by a token that cannot continue it |
| ParserProps.ParseFindsCanonical | src/pulse/Parser.java:39-120 | every canonical tree spelled at the start and properly ended is what the parser returns, with no error |
| ParserProps.RoundTrip | src/pulse/Parser.java:30-120 | a canonical tree written out as tokens and closed by EOF parses back to itself |
| ParserProps.ParserForms | src/pulse/Expr.java:9-14 | the parser builds only Binary, Grouping, Literal and Unary nodes |
| ParserExamples.GroupsLeft | src/pulse/Parser.java:43-90 | `a op1 b op2 c` groups as `(a op1 b) op2 c` when `op1` binds at least as tightly as `op2` (left associativity within a layer) |
| ParserExamples.TighterOnTheRight | src/pulse/Parser.java:39-90 | `a op1 b op2 c` groups as `a op1 (b op2 c)` when `op2` binds more tightly (precedence) |
| ParserExamples.PrefixesNest | src/pulse/Parser.java:92-100 | two prefix operators nest to the right: `- - x` is `-(-x)` |
| ParserExamples.NoExpression | src/pulse/Parser.java:102-120 | a token that cannot start an expression gives no expression and the single error "Expect expression." at that token |
| ParserExamples.Unclosed | src/pulse/Parser.java:113-117 | `( a` followed by EOF gives no expression and "Expect ')' after expression." at the EOF token |
| ParserExamples.TrailingUnread | src/pulse/Parser.java:30-36 | tokens after a complete expression are left unread: `a b` parses to `a` with no error |
| ParserSteps.LevelMatch | src/pulse/Parser.java:43-90 | a layer's `match` on its operator list succeeds exactly on the operators of that precedence level |
| ParserSteps.UnaryMatch | src/pulse/Parser.java:92-100 | `unary` consumes a prefix operator exactly on `!` and `-` |
| Environment.NewRoot | src/pulse/Environment.java:11-13 | a new global scope is empty, has no enclosing scope, and leaves the existing scopes as they were |
| Environment.NewChild | src/pulse/Environment.java:15-17 | a new nested scope is empty, its enclosing scope is exactly the one given, and the existing scopes are unchanged |
| Environment.Get | src/pulse/Environment.java:19-28 | a value found is bound to the name in some scope whose arena index is no greater than the starting scope's |
| Environment.Assign | src/pulse/Environment.java:30-43 | assignment never adds or removes a binding and never relinks a scope; other names keep their values; a binding of the name either keeps its value or takes the new one; failure is "Undefined variable 'n'." |
| Environment.Define | src/pulse/Environment.java:45-47 | define binds the name in the given scope, replacing an earlier binding there, and changes no other binding and no other scope |
| EnvironmentProps.GetIff | src/pulse/Environment.java:19-28 | `get` succeeds exactly when some scope on the chain binds the name |
| EnvironmentProps.GetFound | src/pulse/Environment.java:19-24 | `get` returns the binding of the innermost scope on the chain that binds the name |
| EnvironmentProps.GetBound | src/pulse/Environment.java:19-24 | when some scope on the chain binds the name, `get` returns the binding of an innermost such scope |
| EnvironmentProps.GetUnbound | src/pulse/Environment.java:26-27 | a name bound nowhere on the chain gives "Undefined variable 'n'." at its token |
| EnvironmentProps.AssignFound | src/pulse/Environment.java:30-38 | assignment overwrites exactly the innermost binding on the chain and leaves every other scope as it was |
| EnvironmentProps.AssignIff | src/pulse/Environment.java:30-43 | assignment succeeds exactly when `get` would, and fails with the same error as `get` |
| EnvironmentProps.AssignThenGet | src/pulse/Environment.java:30-34 | after a successful assignment, `get` of the name from the same scope gives the assigned value |
| EnvironmentProps.AssignOthers | src/pulse/Environment.java:30-38 | an assignment changes no lookup of another name from any scope |
| EnvironmentProps.DefineThenGet | src/pulse/Environment.java:45-47 | after `define`, `get` of the name from that scope gives the defined value |
| EnvironmentProps.DefineOthers | src/pulse/Environment.java:45-47 | `define` of one name changes no lookup of another name |
| EnvironmentProps.DefineKeepsOthers | src/pulse/Environment.java:45-47 | `define` changes no lookup from a scope whose chain does not pass through the defining scope |
| EnvironmentProps.DefineKeepsEnclosing | src/pulse/Environment.java:45-47 | `define` in an inner scope changes no lookup from an enclosing (earlier) scope, so an inner `var` shadows without touching the outer binding |
| EnvironmentProps.ChildInherits | src/pulse/Environment.java:15-24 | a new nested scope's chain is itself followed by its parent's chain, and every lookup from it agrees with one from the parent |
| EnvironmentProps.RootEmpty | src/pulse/Environment.java:11-13 | a new global scope's chain is just itself, and every lookup from it is undefined |
| Machine.Initial | src/pulse/Interpreter.java:13-31 | the starting state is well formed, and `clock` looked up from its current scope is the native clock |
| Machine.DeclareFunction | src/pulse/Interpreter.java:282-287 | a function declaration binds its name in the current scope to a function object with a new identity |
| Interpreter.Eval | src/pulse/Interpreter.java:249-252 | every evaluation ends in a valid state that extends the starting one (scopes and lists only added, list sizes kept, output only appended) with the same current scope, and its value refers only to existing lists |
| Interpreter.EvalList | src/pulse/Interpreter.java:118-120 | a successful argument list gives exactly one value per argument, each referring only to existing lists, in a valid extension of the starting state |
| Interpreter.Exec | src/pulse/Interpreter.java:254-257 | every statement ends in a valid state that extends the starting one, with the same current scope |
| Interpreter.ExecBlock | src/pulse/Interpreter.java:259-274 | a block ends, on every way out, in a valid extension of the starting state with the starting scope current again |
| Interpreter.ExecList | src/pulse/Interpreter.java:259-268 | a statement list, as the loops of `executeBlock` and `interpret` run it, ends in a valid extension of its starting state with the same scope current; `RunProps.ExecListAppend` states the sequencing (its own contract is weaker, see Left out) |
| Interpreter.ExecWhile | src/pulse/Interpreter.java:322-327 | a loop ends in a valid extension of its starting state with the same scope current; `RunProps.WhileFuel` and `ExecProps.NeverLoops` state more (its own contract is weaker, see Left out) |
| Interpreter.EvalAssign | src/pulse/Interpreter.java:43-48 | the result state is valid, extends the starting state (scopes and lists kept, output only appended) with the same current scope, and the value refers only to its lists; `InterpreterProps.AssignYieldsValue` states what assignment does (its own contract is weaker, see Left out) |
| Interpreter.EvalUnary | src/pulse/Interpreter.java:181-197 | the result state is valid, extends the starting state (scopes and lists kept, output only appended) with the same current scope, and the value refers only to its lists; `InterpreterProps.OperatorsYieldPrimitives` and `OperatorsProps.UnaryLaws` state the rest (its own contract is weaker, see Left out) |
| Interpreter.EvalBinary | src/pulse/Interpreter.java:50-112 | the result state is valid, extends the starting state (scopes and lists kept, output only appended) with the same current scope, and the value refers only to its lists; `InterpreterProps.UndefinedBeforeKinds`, `InterpreterProps.OperatorsYieldPrimitives` and the `OperatorsProps` lemmas state the rest (its own contract is weaker, see Left out) |
| Interpreter.EvalLogical | src/pulse/Interpreter.java:145-160 | the result state is valid, extends the starting state (scopes and lists kept, output only appended) with the same current scope, and the value refers only to its lists; `InterpreterProps.LogicalTruth` and `InterpreterProps.LogicalYieldsOperand` state the rest (its own contract is weaker, see Left out) |
| Interpreter.Invoke | src/pulse/Interpreter.java:17-31 | calling a callable ends in a valid extension of the state with a value that fits it, for `clock` and for every host invoker (its own contract is weaker, see Left out) |
| Interpreter.EvalCall | src/pulse/Interpreter.java:114-134 | the result state is valid, extends the starting state (scopes and lists kept, output only appended) with the same current scope, and the value refers only to its lists; `InterpreterProps.CallNeedsArity` and `InterpreterProps.ClockCall` state the rest (its own contract is weaker, see Left out) |
| Interpreter.EvalSet | src/pulse/Interpreter.java:162-179 | the result state is valid, extends the starting state (scopes and lists kept, output only appended) with the same current scope, and the value refers only to its lists; `InterpreterProps.SetOkIff`, `SetWritesInPlace` and `WriteThenRead` state the rest (its own contract is weaker, see Left out) |
| Interpreter.EvalArray | src/pulse/Interpreter.java:204-212 | the result state is valid, extends the starting state (scopes and lists kept, output only appended) with the same current scope, and the value refers only to its lists; `InterpreterProps.ArrayAllocates` and `ArrayFresh` state the rest (its own contract is weaker, see Left out) |
| Interpreter.EvalSubscript | src/pulse/Interpreter.java:214-236 | the result state is valid, extends the starting state (scopes and lists kept, output only appended) with the same current scope, and the value refers only to its lists; `InterpreterProps.SubscriptOkIff` and `SubscriptReads` state the rest (its own contract is weaker, see Left out) |
| Interpreter.Conclude | src/pulse/Interpreter.java:33-41 | a run is reported as completed exactly when the statement list ended normally (no error, host failure, escaped `return` or cut-off), and the outcome carries the list's final state |
| Interpreter.Interpret | src/pulse/Interpreter.java:33-41 | the loop over the program agrees with running the statements in sequence, and the final state follows the first |
| InterpreterProps.AssignYieldsValue | src/pulse/Interpreter.java:43-48 | assignment evaluates the value first; it yields that value and binds it, or reports the undefined variable in the state after the value |
| InterpreterProps.UndefinedBeforeKinds | src/pulse/Interpreter.java:50-93 | in `nil - x` with `x` undefined, the undefined variable is reported, not the operand types |
| InterpreterProps.OperatorsYieldPrimitives | src/pulse/Interpreter.java:50-112 | a unary or binary expression that completes yields null, a Boolean, a number or a string, never a list or a function object |
| InterpreterProps.LogicalYieldsOperand | src/pulse/Interpreter.java:145-160 | `and` and `or` make no new value: a completed logical expression yields the left operand's value or the right operand's |
| InterpreterProps.CallNeedsArity | src/pulse/Interpreter.java:114-134 | a call completes only if the callee evaluated to a callable, every argument evaluated, and the argument count equals the callee's arity |
| InterpreterProps.SubscriptOkIff | src/pulse/Interpreter.java:214-236 | a read completes exactly when the list operand is a list, the index a number, and its truncation a position inside the list; it then yields that element and changes nothing itself |
| InterpreterProps.SetOkIff | src/pulse/Interpreter.java:162-179 | a set always yields null; with a subscript target it completes exactly when the list operand is a list, the index a number within it and the right-hand side evaluates; any other target completes |
| InterpreterProps.WriteThenRead | src/pulse/Interpreter.java:162-179 | after a completed write, reading the same list at the same index gives the written value |
| OperatorsProps.EqualityOperators | src/pulse/Interpreter.java:56-61 | `==` and `!=` never raise a runtime error, and `!=` is always the negation of `==` |
| OperatorsProps.EqualityOperatorSymmetric | src/pulse/Interpreter.java:336-342 | `==` is symmetric, and null equals only null |
| OperatorsProps.NumericOperandsChecked | src/pulse/Interpreter.java:62-93 | the comparison and arithmetic operators raise "Operands must be numbers." exactly when an operand is not a number |
| OperatorsProps.ComparisonsMirror | src/pulse/Interpreter.java:62-78 | `a > b` is `b < a` and `a >= b` is `b <= a` on every pair of operands; in the model's exact numbers `>=` is also the negation of `<`, which NaN breaks in the host (see Left out) |
| OperatorsProps.NumbersCommute | src/pulse/Interpreter.java:86-97 | `+` and `*` on two numbers give the same result whichever operand comes first (a law Java doubles keep as well) |
| OperatorsProps.OneIsNeutral | src/pulse/Interpreter.java:79-89 | dividing or multiplying a number by one gives that number back, with no division-by-zero error (exact for doubles as well) |
| OperatorsProps.SubtractionAddsNegation | src/pulse/Interpreter.java:90-97 | binary `-` on numbers is `+` of the right operand negated by unary `-` (as in IEEE-754 arithmetic) |
| OperatorsProps.ZeroDivisorAfterKinds | src/pulse/Interpreter.java:79-85 | a non-number divided by zero is reported as "Operands must be numbers.", never as "Division by zero" |
| OperatorsProps.PlusConcatenates | src/pulse/Interpreter.java:94-107 | `+` with a string operand and a string or number on the other side yields the left text followed by the right text, a number contributing its host text |
| OperatorsProps.UnaryLaws | src/pulse/Interpreter.java:181-197 | `-` applied twice to a number gives it back; `!` always flips the truth of its operand, so `!!v` is the truth of `v` |
| OperatorsProps.TruthyIff | src/pulse/Interpreter.java:329-335 | only null and false are falsy |
| OperatorsProps.IntValueRounds | src/pulse/Interpreter.java:229 | `intValue` rounds toward zero and saturates at the 32-bit bounds |
| OperatorsProps.IndexChecks | src/pulse/Interpreter.java:223-235 | a read succeeds exactly for a list and an in-range non-negative truncated index, giving that element; a non-number index and an index past the end raise their errors exactly in those cases; a null list or a negative index fails in the host |
| OperatorsProps.IndexReadsTruncated | src/pulse/Interpreter.java:229-235 | a non-negative fractional index reads the element at its integer part |
| Operators.ApplyBinary | src/pulse/Interpreter.java:50-112 | a binary operator yields a primitive value; a runtime error is reported at the operator and only by the numeric operators and `+`; only `==` and `!=` can fail in the host, and only by stack overflow |
| Operators.Arithmetic | src/pulse/Interpreter.java:62-93 | the numeric operators never fail in the host; they raise an error exactly for `/` by zero; the comparisons yield Booleans and `/ * -` yield numbers |
| Operators.Plus | src/pulse/Interpreter.java:94-107 | `+` raises "Operands must be two numbers or two strings." exactly when an operand is neither a number nor a string; otherwise it yields a number exactly when both are numbers, else a string |
| Operators.ApplyUnary | src/pulse/Interpreter.java:181-197 | a unary operator never fails in the host, raises "Operand must be a number." exactly for `-` on a non-number, and yields a primitive value |
| Operators.IntValue | src/pulse/Interpreter.java:229 | `intValue` lies in the 32-bit range, keeps the sign of its argument, and within the range is less than one away from it |
| Operators.Index | src/pulse/Interpreter.java:223-235 | a completed read had a list and a number whose truncation is inside the list, and yields that element; errors are reported at the subscript token; host failures are Java exceptions |
| InterpreterProps.ClockCall | src/pulse/Interpreter.java:17-31 | `clock()` takes no arguments and returns the host's clock reading; with arguments it fails |
| InterpreterProps.EvalListAppend | src/pulse/Interpreter.java:118-120 | the arguments are evaluated left to right: evaluating `xs + ys` is evaluating `xs`, then `ys` from the state it left, stopping at the first failure |
| InterpreterProps.LogicalTruth | src/pulse/Interpreter.java:145-160 | the truth of `a or b` is the disjunction and of `a and b` the conjunction of the operands' truth |
| InterpreterProps.ArrayAllocates | src/pulse/Interpreter.java:204-212 | an array literal evaluates its elements in order and returns a new list holding exactly their values, appended to the heap |
| InterpreterProps.ArrayFresh | src/pulse/Interpreter.java:204-212 | each evaluation of an array literal gives a list not allocated before, so two evaluations never give the same list |
| InterpreterProps.SubscriptReads | src/pulse/Interpreter.java:223-235 | after the list and the index, a read checks the index type, then the bounds, returns the element without changing the state, and fails in the host for null or a negative index |
| InterpreterProps.SetWritesInPlace | src/pulse/Interpreter.java:162-179 | a successful write replaces exactly one element of the shared list, keeps its length and every other list, and yields nil |
| InterpreterProps.WriteSeenThroughAlias | src/pulse/Interpreter.java:162-179 | a write through one variable is seen by a read through another variable bound to the same list: the element written reads back as the value written and every other element is unchanged, for number-literal indices and any right-hand side that evaluates without changing the state |
| ExecProps.VarDefines | src/pulse/Interpreter.java:313-320 | `var` evaluates its initializer (nil when absent) before binding, then binds the name in the current scope only |
| ExecProps.FunctionObjectsDistinct | src/pulse/Interpreter.java:282-287 | executing the same declaration twice gives two function objects that are not equal |
| ExecProps.ShadowingExample | src/pulse/Interpreter.java:259-274 | `var x = "outer"; { var x = "inner"; print x; } print x;` prints "inner" then "outer" |
| ExecProps.ReturnUnwinds | src/pulse/Interpreter.java:305-311 | a `return` ends the rest of its statement list and its block with the same value, restoring the scope |
| ExecProps.IfSameBranches | src/pulse/Interpreter.java:289-296 | `if (c) s else s` is `c` evaluated for its effects, then `s` |
| ExecProps.NeverLoops | src/pulse/Interpreter.java:322-327 | `while (false)` and `while (nil)` change nothing, whatever the body and the fuel |
| ExecProps.EmptyBlockChangesNothing | src/pulse/Interpreter.java:259-274 | an empty block changes no lookup of any name, no list and no output |
| RunProps.ExecListAppend | src/pulse/Interpreter.java:33-41 | running `xs + ys` runs `xs`, then `ys` from where `xs` left off, unless `xs` returned or stopped |
| RunProps.StopsAtFirstError | src/pulse/Interpreter.java:33-41 | a runtime error in a statement ends the run, reported, in the state of the error; no later statement runs |
| RunProps.ExecFuel | src/pulse/Interpreter.java:322-327 | more loop steps never change the result of a statement that the step bound did not cut off |
| RunProps.WhileFuel | src/pulse/Interpreter.java:322-327 | more loop steps never change the result of a loop that the step bound did not cut off |
| RunProps.RunFuel | src/pulse/Interpreter.java:33-41 | a run that was not cut off has the same outcome under any larger step bound |
| EqualityProps.EqualReflexive | src/pulse/Interpreter.java:336-342 | every value equals itself |
| EqualityProps.NilEqualsOnlyNil | src/pulse/Interpreter.java:336-342 | null equals null and nothing else, from either side |
| EqualityProps.ScalarsEqual | src/pulse/Interpreter.java:336-342 | unless both are lists, two values are equal exactly when they are the same value |
| EqualityProps.IsEqualSymmetric | src/pulse/Interpreter.java:336-342 | equality is symmetric, including on lists |
| EqualityProps.FlatListsEqual | src/pulse/Interpreter.java:336-342 | two lists with no list elements are equal exactly when they have the same elements in the same order |
| EqualityProps.SelfContainingListsOverflow | src/pulse/Interpreter.java:336-342 | comparing two distinct lists that each contain only themselves overflows the host stack |
| Equality.IsEqual | src/pulse/Interpreter.java:336-342 | every value equals itself, null equals only null, and comparing fails only on two lists, only by stack overflow |
| Equality.Equal | src/pulse/Interpreter.java:336-342 | `Objects.equals` holds for identical values, fails only on two lists by stack overflow, and a list equals only a list of the same size |
| Equality.ListEqual | src/pulse/Interpreter.java:336-342 | `ArrayList.equals` holds for the same list, fails only by stack overflow, and holds only for lists of the same size |
| TextProps.NumberPrints | src/pulse/Interpreter.java:347-352 | a number prints as its host text less one trailing ".0" |
| TextProps.NilInsideList | src/pulse/Interpreter.java:343-355 | null prints as "nil" on its own but as "null" inside a list |
| TextProps.FlatListPrints | src/pulse/Interpreter.java:354 | a list with no list elements prints as its elements' texts joined by ", " in brackets |
| TextProps.SelfContainingListPrints | src/pulse/Interpreter.java:354 | a list containing itself prints "(this Collection)" in its place |
| TextProps.MutuallyContainingListsOverflow | src/pulse/Interpreter.java:354 | two lists containing each other overflow the host stack when printed |
| TextProps.DecimalRoundTrip | src/pulse/Interpreter.java:129-130 | the decimal text of a count is non-empty, all digits, with no leading zero, and reads back as the count |
| Text.Stringify | src/pulse/Interpreter.java:343-355 | `stringify` fails only on a list, by stack overflow, and a printed list is enclosed in brackets |
| Text.ListText | src/pulse/Interpreter.java:354 | `AbstractCollection.toString` fails only by stack overflow, and its text starts with `[` and ends with `]` |

## Left out

- `src/pulse/Pulse.java`: reading files, the prompt, reporting errors on stderr and the exit codes are I/O. A reported runtime error is the verdict `Reported(err)` of `Interpreter.Interpret`.
- `src/tool/GenerateAst.java` writes Java source at build time. Only the node shapes it lists are modelled, in `Ast`.
- The body of a user-function call, binding its parameters and catching its `return`. `PulseFunction` is not part of this model. A call of a user function is the host's `Invoker`. The only constraint on it is that it ends in a valid state extending the one it started in.
- The clock reading (`System.currentTimeMillis`). It is a host function of the state, `Host.clock`.
- IEEE-754 arithmetic. Numbers are `real`, so there is no rounding, infinity or NaN. `Double.toString` and a function object's `toString` are the host's `Printer`. Only the `stringify` rule of dropping one trailing ".0" is modelled.
- OperatorsProps.ComparisonsMirror: its last clause, `>=` as the negation of `<`, holds for the model's exact numbers only; in the host a NaN (reachable as `inf - inf`) makes both `<` and `>=` false. The mirror clauses hold for doubles as well.
- Java exception details. Every exception that is not a `RuntimeError` is one host failure, `HostException`. Examples are a failed cast, a null dereference, and `List.get` or `List.set` with a negative index.
- Stack depth. Unbounded recursion (`StackOverflow`) is modelled only where equality or printing re-enters the same list. Deep but finite nesting never overflows in the model.
- `System.out`. Printing appends a line to `State.out`.
- Non-termination of `while`. Loops run under a step bound (`fuel`). A run that uses it up ends with the verdict `CutOff`. `RunProps.RunFuel` shows that a larger bound never changes a run that was not cut off. No other construct can loop, because the bodies of user functions are not modelled.
- Interpreter.Eval, Interpreter.Exec, Interpreter.ExecBlock: their own contracts state only the state invariant (a valid result state that extends the starting one, with the same current scope). What each node does is stated by the lemmas of `InterpreterProps`, `ExecProps` and `RunProps`.
- Interpreter.EvalAssign, Interpreter.EvalUnary, Interpreter.EvalBinary, Interpreter.EvalLogical, Interpreter.EvalCall, Interpreter.EvalSet, Interpreter.EvalArray, Interpreter.EvalSubscript: their own contracts state only the state invariant. Their behaviour is stated by the `InterpreterProps` lemmas named in their rows.
- Interpreter.Invoke: its own contract states only the state invariant. The user-function body it stands for is not part of this model; `InterpreterProps.ClockCall` states the `clock` case.
- Interpreter.ExecList, Interpreter.ExecWhile: their own contracts state only the state invariant. `RunProps.ExecListAppend`, `RunProps.StopsAtFirstError`, `RunProps.WhileFuel` and `ExecProps.NeverLoops` state the sequencing and the loop.
- Operators.Index: its contract does not say which error each bad operand raises. `OperatorsProps.IndexChecks` states the order of the checks and their messages.
- Equality.IsEqual, Equality.Equal, Equality.ListEqual: their contracts do not say when two different values are equal. `EqualityProps.ScalarsEqual` states it for non-lists and `EqualityProps.FlatListsEqual` element by element for lists of non-lists.
- Text.Stringify, Text.ListText: their contracts state the outer shape of the text only. `TextProps.NumberPrints` and `TextProps.FlatListPrints` state the text of numbers and of lists of non-lists.
- Environment.Get: its own contract only says that a found value is bound to the name in some scope at an index no greater than the starting scope's, not that the scope is on the chain. `EnvironmentProps.GetFound`, `GetIff` and `GetUnbound` state which binding it finds.
- Parser.Layer, Parser.Tail, Parser.ParseUnary, Parser.ParsePrimary, Parser.ParseExpression: their own contracts state only where the cursor ends. What they build is stated by `ParserProps.ParseIff` and the lemmas of `ParserSteps`.
- The parser's error channel. A syntax error is returned as a `Diagnostic`, and `Parse` collects it into `errors`. The host's printing of it is not modelled.
- `Parser.Synchronize` is modelled, but nothing in this snapshot's parser calls it.
- `ArrayList.equals` compares lists of different lengths as unequal without looking at their elements. The model does the same, but does not model the host's check that the other object is a `List`: lists are the only list-like values.
- A `return` outside any function escapes `interpret`, because it is not a `RuntimeError`. It is the verdict `ReturnEscaped`.
