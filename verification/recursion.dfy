/**
  A recursive grammar.  In Go a parser refers to itself through a `Lazy`
  whose thunk reads a parser variable assigned later (examples/polishcalc.go
  builds `expr` and `operationParser` that way).  Here the variable is rule 0
  of a one-rule grammar:

      nest := digits | "(" nest ")"
*/
module Recursion {
  import opened ParseState
  import opened Scan
  import opened Engine
  import opened Laws

  function NestRules(): seq<Parser> {
    [Or(Digits, [And([Literal("("), Rule(0), Literal(")")])])]
  }

  /** The grammar's variable `nest`. */
  function Nest(): Parser {
    Grammar(NestRules(), 0)
  }

  /** A bracketed nest. */
  function Bracketed(): Parser {
    And([Literal("("), Nest(), Literal(")")])
  }

  /** Running Nest runs its rule, with the reference bound to Nest itself. */
  lemma NestUnfolds(s: State, fuel: nat)
    requires s.Valid() && fuel > 0
    ensures Apply(Nest(), s, fuel) == Apply(Or(Digits, [Bracketed()]), s, fuel - 1)
  {
    var rules := NestRules();
    var inner := [Literal("("), Rule(0), Literal(")")];
    assert Resolve(And(inner), rules).parsers == [Literal("("), Nest(), Literal(")")];
    assert Resolve(rules[0], rules).others == [Bracketed()];
  }

  /** n opening brackets. */
  function Opens(n: nat): (t: string)
    ensures |t| == n
  {
    if n == 0 then "" else "(" + Opens(n - 1)
  }

  /** n closing brackets. */
  function Closes(n: nat): (t: string)
    ensures |t| == n
  {
    if n == 0 then "" else Closes(n - 1) + ")"
  }

  /** The payload of digits `w` inside n pairs of brackets. */
  function Nested(n: nat, w: string): Res {
    if n == 0 then Str(w) else List([Str("("), Nested(n - 1, w), Str(")")])
  }

  /** Digits alone: Nest reads the whole run. */
  lemma NestReadsDigits(w: string, u: string, s: State, fuel: nat)
    requires s.Valid() && !s.isError && fuel > 0
    requires |w| > 0 && AllIn(Digit, w) && s.Rest() == w + u && (|u| == 0 || !In(Digit, u[0]))
    ensures Apply(Nest(), s, fuel) == Halts(s.SetResult(Str(w)).SetIndex(s.index + |w|))
  {
    NestUnfolds(s, fuel);
    SpanStopsAt(Digit, w, u);
    assert s.Rest()[..|w|] == w;
    OrPicksFirstSuccess(Or(Digits, [Bracketed()]), s, fuel - 1, 0);
  }

  /** The state after a one-character literal `c` that the input starts with. */
  lemma OneChar(c: char, x: string, s: State)
    requires s.Valid() && !s.isError && s.Rest() == [c] + x
    ensures StringStep([c], s) == s.SetResult(Str([c])).SetIndex(s.index + 1)
    ensures StringStep([c], s).Rest() == x
  {
    assert [c] <= s.Rest();
    assert s.target[s.index + 1..] == s.Rest()[1..];
  }

  /** One level of brackets: "(" then a nest that leaves ")" + u. */
  lemma NestBracketed(s: State, fuel: nat, a: State, d: State, u: string)
    requires s.Valid() && !s.isError && fuel > 0
    requires |s.Rest()| > 0 && s.Rest()[0] == '('
    requires a == s.SetResult(Str("(")).SetIndex(s.index + 1)
    requires Apply(Nest(), a, fuel - 1) == Halts(d) && !d.isError && d.Rest() == [')'] + u
    ensures Apply(Nest(), s, fuel)
         == Halts(d.SetResult(List([Str("("), d.result, Str(")")])).SetIndex(d.index + 1))
  {
    assert "(" <= s.Rest();
    assert StringStep("(", s) == a;
    OneChar(')', u, d);
    var c := StringStep(")", d);
    AndOfThree(Literal("("), Nest(), Literal(")"), s, fuel - 1, a, d, c);
    NestUnfolds(s, fuel);
    OrPicksFirstSuccess(Or(Digits, [Bracketed()]), s, fuel - 1, 1);
  }

  /** n pairs of brackets around digits: Nest reads all of them, and its
      payload mirrors the nesting.  Each level spends one unit of fuel. */
  lemma {:induction false} NestReads(n: nat, w: string, u: string, s: State, fuel: nat)
    requires s.Valid() && !s.isError && fuel > n
    requires |w| > 0 && AllIn(Digit, w)
    requires s.Rest() == Opens(n) + w + Closes(n) + u
    requires n == 0 && |u| > 0 ==> !In(Digit, u[0])
    ensures Apply(Nest(), s, fuel) == Halts(s.SetResult(Nested(n, w)).SetIndex(s.index + 2 * n + |w|))
    decreases n
  {
    if n == 0 {
      assert s.Rest() == w + u;
      NestReadsDigits(w, u, s, fuel);
    } else {
      var a := OpenBracket(n, w, u, s);
      NestReads(n - 1, w, [')'] + u, a, fuel - 1);
      CloseBracket(n, w, u, s, fuel, a);
    }
  }

  /** The first of n opening brackets is read by the "(" literal. */
  lemma OpenBracket(n: nat, w: string, u: string, s: State) returns (a: State)
    requires s.Valid() && !s.isError && n > 0
    requires s.Rest() == Opens(n) + w + Closes(n) + u
    ensures a == s.SetResult(Str("(")).SetIndex(s.index + 1)
    ensures |s.Rest()| > 0 && s.Rest()[0] == '(' && a.Valid() && !a.isError
    ensures a.Rest() == Opens(n - 1) + w + Closes(n - 1) + ([')'] + u)
  {
    var x := Opens(n - 1) + w + Closes(n - 1) + ([')'] + u);
    assert s.Rest() == ['('] + x;
    OneChar('(', x, s);
    a := s.SetResult(Str("(")).SetIndex(s.index + 1);
  }

  /** Given the inner nest, the closing bracket completes one level. */
  lemma CloseBracket(n: nat, w: string, u: string, s: State, fuel: nat, a: State)
    requires s.Valid() && !s.isError && n > 0 && fuel > n && |w| > 0
    requires |s.Rest()| > 0 && s.Rest()[0] == '('
    requires a == s.SetResult(Str("(")).SetIndex(s.index + 1) && a.Valid()
    requires a.Rest() == Opens(n - 1) + w + Closes(n - 1) + ([')'] + u)
    requires Apply(Nest(), a, fuel - 1) == Halts(a.SetResult(Nested(n - 1, w)).SetIndex(a.index + 2 * (n - 1) + |w|))
    ensures Apply(Nest(), s, fuel) == Halts(s.SetResult(Nested(n, w)).SetIndex(s.index + 2 * n + |w|))
  {
    var d := a.SetResult(Nested(n - 1, w)).SetIndex(a.index + 2 * (n - 1) + |w|);
    assert d.Rest() == [')'] + u by {
      assert d.Rest() == a.Rest()[2 * (n - 1) + |w|..];
    }
    NestBracketed(s, fuel, a, d, u);
  }

  /** "((1))" is read whole once the fuel covers the three unfoldings. */
  lemma NestReadsDoubleBrackets(fuel: nat)
    requires fuel > 2
    ensures Run(Nest(), "((1))", fuel) == Halts(State(false, "((1))", 5, Nested(2, "1"), Plain("")))
  {
    var s := Initial("((1))");
    assert Opens(2) + "1" + Closes(2) + "" == "((1))";
    assert s.Rest() == "((1))";
    NestReads(2, "1", "", s, fuel);
  }
}
