/** What printing promises: decimal text reads back as the number it was made
    from, `stringify` only ever drops a trailing ".0" from the host's number
    text, and a list prints as its elements' texts joined by ", " between
    brackets, the way the host's string builder appends them. */
module TextProps {
  import opened Wrappers
  import opened Ast
  import opened Values
  import opened Text

  // ---------------------------------------------------------------------------
  // Decimal text

  /** The number a string of decimal digits denotes, read left to right. */
  function DecimalValue(s: string): int
  {
    if s == [] then 0 else DecimalValue(s[..|s| - 1]) * 10 + (s[|s| - 1] as int - '0' as int)
  }

  predicate IsDigit(c: char)
  {
    '0' <= c <= '9'
  }

  /** Decimal text is digits only, has no leading zero, and reads back as
      the number. */
  lemma {:induction false} DecimalRoundTrip(n: nat)
    ensures var t := DecimalText(n);
              && |t| > 0
              && (forall i :: 0 <= i < |t| ==> IsDigit(t[i]))
              && (|t| > 1 ==> t[0] != '0')
              && DecimalValue(t) == n
    decreases n
  {
    var t := DecimalText(n);
    if n >= 10 {
      DecimalRoundTrip(n / 10);
      var u := DecimalText(n / 10);
      assert t == u + [Digit(n % 10)];
      assert t[..|t| - 1] == u;
      assert t[0] == u[0];
    }
  }

  // ---------------------------------------------------------------------------
  // Numbers

  predicate EndsPointZero(t: string)
  {
    |t| >= 2 && t[|t| - 2..] == ".0"
  }

  /** A number prints as the host's text for it, less one trailing ".0". */
  lemma NumberPrints(heap: Heap, pr: Printer, n: real)
    requires WfHeap(heap)
    ensures Stringify(heap, pr, Num(n)).Success?
    ensures var s := Stringify(heap, pr, Num(n)).value;
              pr.numText(n) == if EndsPointZero(pr.numText(n)) then s + ".0" else s
  {
    var t := pr.numText(n);
    if EndsPointZero(t) {
      assert t == t[..|t| - 2] + t[|t| - 2..];
    }
  }

  /** null prints as "nil" on its own and as the host's "null" inside a list;
      inside a list a number keeps its ".0". */
  lemma NilInsideList(pr: Printer, n: real)
    ensures Stringify([[Nil]], pr, Nil) == Success("nil")
    ensures Stringify([[Nil]], pr, Arr(0)) == Success("[null]")
    ensures Stringify([[Num(n)]], pr, Arr(0)) == Success("[" + pr.numText(n) + "]")
  {
    SingletonPrints([[Nil]], pr, 0);
    assert "[" + "null" + "]" == "[null]";
    SingletonPrints([[Num(n)]], pr, 0);
  }

  /** A list of one element prints as that element's text between brackets. */
  lemma SingletonPrints(heap: Heap, pr: Printer, x: nat)
    requires WfHeap(heap) && x < |heap| && |heap[x]| == 1
    ensures Stringify(heap, pr, Arr(x)) ==
              match ElemText(heap, pr, x, 0, {x})
              case Failure(f) => Failure(f)
              case Success(t) => Success("[" + t + "]")
  {
    ListUnfolds(heap, pr, x);
  }

  /** Printing a list prints its elements with that list on the stack. */
  lemma ListUnfolds(heap: Heap, pr: Printer, x: nat)
    requires WfHeap(heap) && x < |heap|
    ensures Stringify(heap, pr, Arr(x)) ==
              match ElemsText(heap, pr, x, 0, {x})
              case Failure(f) => Failure(f)
              case Success(body) => Success("[" + body + "]")
  {
    assert Range(|heap|)[x] == x;
    assert {} + {x} == {x};
    assert Stringify(heap, pr, Arr(x)) == ListText(heap, pr, x, {});
  }

  // ---------------------------------------------------------------------------
  // Lists

  /** The host's string builder: the parts appended left to right with ", "
      between neighbours. */
  function Join(parts: seq<string>): string
  {
    if |parts| == 0 then ""
    else if |parts| == 1 then parts[0]
    else Join(parts[..|parts| - 1]) + ", " + parts[|parts| - 1]
  }

  lemma {:induction false} JoinCons(a: string, rest: seq<string>)
    requires |rest| > 0
    ensures Join([a] + rest) == a + ", " + Join(rest)
    decreases |rest|
  {
    var all := [a] + rest;
    if |rest| > 1 {
      assert all[..|all| - 1] == [a] + rest[..|rest| - 1];
      JoinCons(a, rest[..|rest| - 1]);
    } else {
      assert all[..|all| - 1] == [a];
    }
  }

  /** The host text of a value that is not a list. */
  function ScalarText(pr: Printer, v: Value): string
    requires !v.Arr?
  {
    match v
    case Nil => "null"
    case Bool(b) => if b then "true" else "false"
    case Num(n) => pr.numText(n)
    case Str(s) => s
    case Fn(f) => FnText(pr, f)
  }

  /** The texts of the elements of a flat list. */
  function Texts(heap: Heap, pr: Printer, x: nat): seq<string>
    requires x < |heap| && Flat(heap, x)
  {
    seq(|heap[x]|, j requires 0 <= j < |heap[x]| => ScalarText(pr, heap[x][j]))
  }

  /** A flat list prints as its elements' texts, joined, between brackets. */
  lemma FlatListPrints(heap: Heap, pr: Printer, x: nat)
    requires WfHeap(heap) && x < |heap| && Flat(heap, x)
    ensures Stringify(heap, pr, Arr(x)) == Success("[" + Join(Texts(heap, pr, x)) + "]")
  {
    ListUnfolds(heap, pr, x);
    FlatElemsPrint(heap, pr, x, 0, {x});
    assert Texts(heap, pr, x)[0..] == Texts(heap, pr, x);
  }

  lemma {:induction false} FlatElemsPrint(heap: Heap, pr: Printer, x: nat, i: nat, stack: set<nat>)
    requires WfHeap(heap) && x < |heap| && Flat(heap, x) && i <= |heap[x]|
    ensures ElemsText(heap, pr, x, i, stack) == Success(Join(Texts(heap, pr, x)[i..]))
    decreases |heap[x]| - i
  {
    var ts := Texts(heap, pr, x);
    if i < |heap[x]| {
      assert ElemText(heap, pr, x, i, stack) == Success(ts[i]);
      if i + 1 < |heap[x]| {
        FlatElemsPrint(heap, pr, x, i + 1, stack);
        assert ts[i..] == [ts[i]] + ts[i + 1..];
        JoinCons(ts[i], ts[i + 1..]);
      } else {
        assert ts[i..] == [ts[i]];
      }
    }
  }

  /** A list that contains itself prints "(this Collection)" in its place. */
  lemma SelfContainingListPrints(pr: Printer)
    ensures Stringify([[Arr(0)]], pr, Arr(0)) == Success("[(this Collection)]")
  {
    SingletonPrints([[Arr(0)]], pr, 0);
    assert "[" + "(this Collection)" + "]" == "[(this Collection)]";
  }

  /** Two lists that contain each other print forever: the host overflows
      its stack. */
  lemma MutuallyContainingListsOverflow(pr: Printer)
    ensures Stringify([[Arr(1)], [Arr(0)]], pr, Arr(0)) == Failure(StackOverflow)
  {
    var heap: Heap := [[Arr(1)], [Arr(0)]];
    assert Range(2)[0] == 0 && Range(2)[1] == 1;
    assert ListText(heap, pr, 0, {0, 1}) == Failure(StackOverflow);
    assert ElemsText(heap, pr, 1, 0, {0, 1}) == Failure(StackOverflow);
    assert {0} + {1} == {0, 1};
    assert ListText(heap, pr, 1, {0}) == Failure(StackOverflow);
    assert ElemsText(heap, pr, 0, 0, {0}) == Failure(StackOverflow);
    assert {} + {0} == {0};
  }
}
