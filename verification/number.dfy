/**
  Number() of core/parsers.go: an optional minus sign, a run of digits and an
  optional fraction ".digits", joined back into one string payload.

  The proof goes in two layers.  The first runs the interpreter once per
  combinator and shows that Number is the composition of three plain state
  transitions (SignStage, ClassStep, FractionStage).  The second is about
  those transitions only: how far each one moves the cursor, measured with
  SignLength, Span and FractionLength, and which slice of the target its
  payload is.
*/
module Numbers {
  import opened ParseState
  import opened Scan
  import opened Engine
  import opened Derived
  import opened Laws

  // ---------------------------------------------------------------- the parser

  /** The text a possibly absent string payload contributes. */
  function Piece(r: Res): string {
    if r.Str? then r.s else ""
  }

  /** Payload map of the fractional part: nil stays nil, a list of strings is
      joined.  The source's type assertion would panic on any other shape,
      which Optional(And(...)) never produces. */
  function JoinFraction(r: Res): Res {
    if r.Nil? then Nil
    else if StringList(r) then Str(Join(StringsOf(r)))
    else Nil
  }

  /** Payload map of Number: sign, digits and fraction concatenated, absent
      parts contributing nothing. */
  function JoinNumber(r: Res): Res {
    if r.List? && |r.items| == 3 then Str(Piece(r.items[0]) + Piece(r.items[1]) + Piece(r.items[2]))
    else Nil
  }

  /** Optional ".digits". */
  function Fraction(): Parser {
    Map(Optional(And([Literal("."), Digits])), JoinFraction)
  }

  /** Number(): an optional minus sign, digits, and an optional fraction. */
  function Number(): Parser {
    Map(And([Optional(Literal("-")), Digits, Fraction()]), JoinNumber)
  }

  // ---------------------------------------------------------------- the literal

  /** Length of the sign the input starts with (0 or 1). */
  function SignLength(t: string): (k: nat)
    ensures k <= |t|
    ensures k == 1 <==> |t| > 0 && t[0] == '-'
  {
    if |t| > 0 && t[0] == '-' then 1 else 0
  }

  /** Length of a fraction ".digits" the input starts with, 0 when there is none. */
  function FractionLength(t: string): (f: nat)
    ensures f <= |t|
    ensures f > 0 ==> f >= 2 && t[0] == '.'
  {
    if |t| > 0 && t[0] == '.' && Span(Digit, t[1..]) > 0 then 1 + Span(Digit, t[1..]) else 0
  }

  /** Length of the numeric literal -?[0-9]+(\.[0-9]+)? the input starts
      with, taking each part as long as it goes; 0 when there is none. */
  function NumberLength(t: string): (n: nat)
    ensures n <= |t|
  {
    var k := SignLength(t);
    var w := Span(Digit, t[k..]);
    if w == 0 then 0 else k + w + FractionLength(t[k + w..])
  }

  /** NumberLength is the sum of the three parts' lengths. */
  lemma LiteralLength(rest: string, k: nat, w: nat, f: nat)
    requires k == SignLength(rest) && w == Span(Digit, rest[k..]) && w > 0
    requires f == FractionLength(rest[k + w..])
    ensures NumberLength(rest) == k + w + f
  {
  }

  predicate IsDigits(w: string) {
    |w| > 0 && AllIn(Digit, w)
  }

  /** The shape [0-9]+(\.[0-9]+)?. */
  predicate IsUnsignedLiteral(b: string) {
    IsDigits(b) || exists k :: 0 < k < |b| && b[k] == '.' && IsDigits(b[..k]) && IsDigits(b[k + 1..])
  }

  /** The shape -?[0-9]+(\.[0-9]+)?. */
  predicate IsNumberLiteral(x: string) {
    IsUnsignedLiteral(if |x| > 0 && x[0] == '-' then x[1..] else x)
  }

  /** Span is zero exactly when the first character is not of the class. */
  lemma SpanZero(cls: Class, t: string)
    ensures Span(cls, t) == 0 <==> |t| == 0 || !In(cls, t[0])
  {
    var n := Span(cls, t);
    if n > 0 {
      assert t[..n][0] == t[0];
    }
  }

  /** The run Span measures from position i is made of digits. */
  lemma RunIsDigits(t: string, i: nat, j: nat)
    requires i <= |t| && j == i + Span(Digit, t[i..]) && j > i
    ensures IsDigits(t[i..j])
  {
    assert t[i..][..j - i] == t[i..j];
  }

  /** A fraction FractionLength measures from position i is "." and digits. */
  lemma FractionIsDotDigits(t: string, i: nat, j: nat)
    requires i <= |t| && j == i + FractionLength(t[i..]) && j > i
    ensures t[i] == '.' && IsDigits(t[i + 1..j])
  {
    assert t[i..][1..] == t[i + 1..];
    RunIsDigits(t, i + 1, j);
  }

  /** What follows an optional minus sign in the first n characters. */
  lemma AfterMinus(t: string, k: nat, n: nat)
    requires k == SignLength(t) && k < n <= |t| && (k == 0 ==> t[0] != '-')
    ensures var x := t[..n];
      (if |x| > 0 && x[0] == '-' then x[1..] else x) == t[k..n]
  {
  }

  /** Slices of a slice are slices of the whole. */
  lemma SubSlices(t: string, i: nat, j: nat, l: nat)
    requires i + l <= j <= |t|
    ensures t[i..j][..l] == t[i..i + l] && t[i..j][l..] == t[i + l..j]
  {
  }

  /** Digits, optionally followed by "." and digits, have the unsigned shape. */
  lemma UnsignedShape(b: string, w: nat)
    requires 0 < w <= |b| && IsDigits(b[..w])
    requires w < |b| ==> b[w] == '.' && IsDigits(b[w + 1..])
    ensures IsUnsignedLiteral(b)
  {
    if w == |b| {
      assert b[..w] == b;
    }
  }

  /** t[k..m] digits, then either nothing or "." and digits up to n: the
      unsigned shape. */
  lemma UnsignedParts(t: string, k: nat, m: nat, n: nat)
    requires k < m <= n <= |t| && IsDigits(t[k..m])
    requires m < n ==> t[m] == '.' && IsDigits(t[m + 1..n])
    ensures IsUnsignedLiteral(t[k..n])
  {
    SubSlices(t, k, n, m - k);
    if m < n {
      SubSlices(t, k, n, m - k + 1);
    }
    UnsignedShape(t[k..n], m - k);
  }

  /** The digits and the fraction NumberLength measures after the sign. */
  lemma DigitsThenFraction(t: string, k: nat, w: nat, f: nat, n: nat)
    requires k <= |t| && w == Span(Digit, t[k..]) && w > 0
    requires f == FractionLength(t[k + w..]) && n == k + w + f
    ensures IsDigits(t[k..k + w])
    ensures f > 0 ==> t[k + w] == '.' && IsDigits(t[k + w + 1..n])
  {
    RunIsDigits(t, k, k + w);
    if f > 0 {
      FractionIsDotDigits(t, k + w, n);
    }
  }

  /** The literal's shape, from the three lengths NumberLength adds up. */
  lemma ShapeOfParts(t: string, k: nat, w: nat, f: nat, n: nat)
    requires k == SignLength(t) && w == Span(Digit, t[k..]) && w > 0
    requires f == FractionLength(t[k + w..]) && n == k + w + f
    ensures IsNumberLiteral(t[..n])
  {
    DigitsThenFraction(t, k, w, f, n);
    UnsignedParts(t, k, k + w, n);
    if k == 0 {
      SpanZero(Digit, t[k..]);
    }
    AfterMinus(t, k, n);
  }

  /** What NumberLength measures has the literal's shape. */
  lemma LiteralShape(t: string, n: nat)
    requires n == NumberLength(t) && n > 0
    ensures IsNumberLiteral(t[..n])
  {
    var k := SignLength(t);
    var w := Span(Digit, t[k..]);
    var f := FractionLength(t[k + w..]);
    LiteralLength(t, k, w, f);
    ShapeOfParts(t, k, w, f, n);
  }

  /** A prefix of the class is no longer than the run. */
  lemma SpanAtLeast(cls: Class, t: string, n: nat)
    requires n <= |t| && AllIn(cls, t[..n])
    ensures Span(cls, t) >= n
  {
  }

  /** Digits, a dot and digits at the start of `r`: the dot ends the digit
      run, and the second digits lie within the fraction. */
  lemma DottedIsLongest(r: string, l: nat, j: nat)
    requires j < l <= |r| && IsDigits(r[..j]) && r[j] == '.' && IsDigits(r[j + 1..l])
    ensures Span(Digit, r) == j && l <= j + FractionLength(r[j..])
  {
    SpanUnique(Digit, r, j);
    var after := r[j + 1..];
    assert after[..l - j - 1] == r[j + 1..l];
    SpanAtLeast(Digit, after, l - j - 1);
    assert r[j..][1..] == after;
  }

  /** An unsigned literal at the start of `r` ends within the digit run and
      the fraction that follows it. */
  lemma UnsignedIsLongest(r: string, l: nat)
    requires l <= |r| && IsUnsignedLiteral(r[..l])
    ensures var w := Span(Digit, r); w > 0 && l <= w + FractionLength(r[w..])
  {
    var b := r[..l];
    if IsDigits(b) {
      SpanAtLeast(Digit, r, l);
    } else {
      var j :| 0 < j < |b| && b[j] == '.' && IsDigits(b[..j]) && IsDigits(b[j + 1..]);
      assert b[..j] == r[..j] && b[j + 1..] == r[j + 1..l];
      DottedIsLongest(r, l, j);
    }
  }

  /** No prefix longer than NumberLength has the literal's shape: the
      literal Number measures is the longest one. */
  lemma LiteralIsLongest(t: string, m: nat)
    requires m <= |t| && IsNumberLiteral(t[..m])
    ensures m <= NumberLength(t)
  {
    var x := t[..m];
    var k := SignLength(t);
    var b := if |x| > 0 && x[0] == '-' then x[1..] else x;
    assert m > 0;
    assert x[0] == t[0];
    assert b == t[k..][..m - k];
    UnsignedIsLongest(t[k..], m - k);
    var w := Span(Digit, t[k..]);
    assert t[k..][w..] == t[k + w..];
    LiteralLength(t, k, w, FractionLength(t[k + w..]));
  }

  // ---------------------------------------------------------------- the stages

  /** Optional(String("-")) as a transition. */
  function SignStage(s: State): State
    requires s.Valid()
  {
    var e := StringStep("-", s);
    if e.isError then s.SetResult(Nil) else e
  }

  /** Fraction() as a transition: "." then digits, both or nothing. */
  function FractionStage(d: State): State
    requires d.Valid()
  {
    var e := StringStep(".", d);
    var g := ClassStep(Digit, e);
    var t := g.SetResult(List([e.result, g.result]));
    if t.isError then d.SetResult(Nil) else t.SetResult(JoinFraction(t.result))
  }

  /** Number() as a transition on a state that is not in error. */
  function NumberStage(s: State): State
    requires s.Valid()
  {
    var a := SignStage(s);
    var d := ClassStep(Digit, a);
    var c := FractionStage(d);
    var t := c.SetResult(List([a.result, d.result, c.result]));
    if t.isError then t else t.SetResult(JoinNumber(t.result))
  }

  // ---------------------------------------------------------------- layer 1: the interpreter

  lemma SignStep(s: State, fuel: nat)
    requires s.Valid()
    ensures Apply(Optional(Literal("-")), s, fuel) == Halts(SignStage(s))
  {
  }

  lemma DotDigitsStep(d: State, fuel: nat)
    requires d.Valid()
    ensures var e := StringStep(".", d);
      var g := ClassStep(Digit, e);
      Apply(And([Literal("."), Digits]), d, fuel)
        == Halts(if d.isError then d else g.SetResult(List([e.result, g.result])))
  {
    if !d.isError {
      var e := StringStep(".", d);
      AndOfTwo(Literal("."), Digits, d, fuel, e, ClassStep(Digit, e));
    }
  }

  lemma FractionStep(d: State, fuel: nat)
    requires d.Valid()
    ensures Apply(Fraction(), d, fuel) == Halts(FractionStage(d))
  {
    DotDigitsStep(d, fuel);
  }

  /** The And inside Number threads the three stages. */
  lemma NumberPartsStep(s: State, fuel: nat)
    requires s.Valid() && !s.isError
    ensures var a := SignStage(s);
      var d := ClassStep(Digit, a);
      var c := FractionStage(d);
      Apply(And([Optional(Literal("-")), Digits, Fraction()]), s, fuel)
        == Halts(c.SetResult(List([a.result, d.result, c.result])))
  {
    var a := SignStage(s);
    var d := ClassStep(Digit, a);
    SignStep(s, fuel);
    assert Apply(Digits, a, fuel) == Halts(d);
    FractionStep(d, fuel);
    AndOfThree(Optional(Literal("-")), Digits, Fraction(), s, fuel, a, d, FractionStage(d));
  }

  /** Map applied to a parser whose outcome is known. */
  lemma MapStep(q: Parser, fn: Res -> Res, s: State, fuel: nat, t: State)
    requires s.Valid() && Apply(q, s, fuel) == Halts(t)
    ensures Apply(Map(q, fn), s, fuel) == Halts(if t.isError then t else t.SetResult(fn(t.result)))
  {
  }

  lemma NumberStep(s: State, fuel: nat)
    requires s.Valid() && !s.isError
    ensures Apply(Number(), s, fuel) == Halts(NumberStage(s))
  {
    var a := SignStage(s);
    var d := ClassStep(Digit, a);
    var c := FractionStage(d);
    NumberPartsStep(s, fuel);
    MapStep(And([Optional(Literal("-")), Digits, Fraction()]), JoinNumber, s, fuel,
            c.SetResult(List([a.result, d.result, c.result])));
  }

  // ---------------------------------------------------------------- layer 2: the transitions

  /** The sign stage consumes SignLength characters, its payload being them. */
  lemma SignStageFacts(s: State)
    requires s.Valid() && !s.isError
    ensures var a := SignStage(s);
      && a.Valid() && a.target == s.target && !a.isError && a.error == s.error
      && a.index == s.index + SignLength(s.Rest())
      && Piece(a.result) == s.target[s.index..a.index]
  {
    var rest := s.Rest();
    if SignLength(rest) == 1 {
      assert "-" <= rest;
    }
  }

  lemma SignStageRest(s: State)
    requires s.Valid() && !s.isError
    ensures SignStage(s).Rest() == s.Rest()[SignLength(s.Rest())..]
  {
    SignStageFacts(s);
  }

  /** Digits stops after the run Span measures. */
  lemma DigitStageFacts(a: State)
    requires a.Valid() && !ClassStep(Digit, a).isError
    ensures var d := ClassStep(Digit, a);
      && d.Valid() && d.target == a.target && d.error == a.error && a.index < d.index
      && d.index == a.index + Span(Digit, a.Rest())
      && Piece(d.result) == a.target[a.index..d.index]
  {
  }

  lemma DigitStageRest(a: State)
    requires a.Valid() && !ClassStep(Digit, a).isError
    ensures ClassStep(Digit, a).Rest() == a.Rest()[Span(Digit, a.Rest())..]
  {
    DigitStageFacts(a);
  }

  /** Join of "." and some digits. */
  lemma JoinDot(x: string)
    ensures JoinFraction(List([Str("."), Str(x)])) == Str("." + x)
  {
    assert StringsOf(List([Str("."), Str(x)])) == [".", x];
    assert [".", x][1..] == [x] && [x][1..] == [];
    assert Join([x]) == x + Join([]) == x;
  }

  /** Without a leading ".", there is no fraction and the stage consumes nothing. */
  lemma FractionWithoutDot(d: State)
    requires d.Valid() && !d.isError && StringStep(".", d).isError
    ensures FractionLength(d.Rest()) == 0
    ensures FractionStage(d) == d.SetResult(Nil)
  {
    var rest := d.Rest();
    assert |rest| > 0 && rest[0] == '.' ==> "." <= rest;
  }

  /** A "." that no digit follows is not a fraction, and is not consumed. */
  lemma FractionWithoutDigits(d: State, e: State)
    requires d.Valid() && !d.isError && e == StringStep(".", d) && !e.isError
    requires ClassStep(Digit, e).isError
    ensures FractionLength(d.Rest()) == 0
    ensures FractionStage(d) == d.SetResult(Nil)
  {
    var rest := d.Rest();
    assert e.Rest() == rest[1..];
    SpanZero(Digit, rest[1..]);
  }

  /** A "." followed by digits is consumed whole, and is the payload. */
  lemma FractionWithDigits(d: State, e: State, g: State)
    requires d.Valid() && !d.isError && e == StringStep(".", d) && !e.isError
    requires g == ClassStep(Digit, e) && !g.isError
    ensures g.index == d.index + FractionLength(d.Rest())
    ensures FractionStage(d) == g.SetResult(Str(d.target[d.index..g.index]))
  {
    var rest := d.Rest();
    assert e.Rest() == rest[1..];
    DigitStageFacts(e);
    assert rest[0] == '.';
    var x := d.target[e.index..g.index];
    JoinDot(x);
    assert d.target[d.index..g.index] == "." + x;
  }

  /** The fraction stage consumes FractionLength characters and its payload
      is them; it never fails on a state that is not in error. */
  lemma FractionStageFacts(d: State)
    requires d.Valid() && !d.isError
    ensures var c := FractionStage(d);
      && c.Valid() && c.target == d.target && !c.isError && c.error == d.error
      && c.index == d.index + FractionLength(d.Rest())
      && Piece(c.result) == d.target[d.index..c.index]
  {
    var e := StringStep(".", d);
    if e.isError {
      FractionWithoutDot(d);
    } else if ClassStep(Digit, e).isError {
      FractionWithoutDigits(d, e);
    } else {
      FractionWithDigits(d, e, ClassStep(Digit, e));
    }
  }

  lemma DropDrop(t: string, i: nat, j: nat)
    requires i + j <= |t|
    ensures t[i..][j..] == t[i + j..]
  {
  }

  lemma SlicesJoin(t: string, i0: int, i1: int, i2: int, i3: int)
    requires 0 <= i0 <= i1 <= i2 <= i3 <= |t|
    ensures t[i0..i1] + t[i1..i2] + t[i2..i3] == t[i0..i3]
  {
    assert t[i0..i2] == t[i0..i1] + t[i1..i2];
    assert t[i0..i3] == t[i0..i2] + t[i2..i3];
  }

  /** Where the digits stage stops, measured on the input of the sign stage. */
  lemma DigitsAfterSign(s: State, a: State, d: State, k: nat, w: nat)
    requires s.Valid() && !s.isError
    requires a == SignStage(s) && d == ClassStep(Digit, a) && !d.isError
    requires k == SignLength(s.Rest()) && w == Span(Digit, s.Rest()[k..])
    ensures w > 0 && d.index == s.index + k + w && d.Rest() == s.Rest()[k + w..]
  {
    SignStageFacts(s);
    SignStageRest(s);
    DigitStageFacts(a);
    DigitStageRest(a);
    DropDrop(s.Rest(), k, w);
  }

  /** The cursor after the three stages, when the digits succeed. */
  lemma StagesConsumeLiteral(s: State, a: State, d: State, c: State)
    requires s.Valid() && !s.isError
    requires a == SignStage(s) && d == ClassStep(Digit, a) && c == FractionStage(d)
    requires !d.isError
    ensures NumberLength(s.Rest()) > 0
    ensures c.index == s.index + NumberLength(s.Rest())
  {
    var rest := s.Rest();
    var k := SignLength(rest);
    var w := Span(Digit, rest[k..]);
    DigitsAfterSign(s, a, d, k, w);
    FractionStageFacts(d);
    LiteralLength(rest, k, w, FractionLength(d.Rest()));
  }

  /** Three adjacent payload slices joined make the whole consumed slice. */
  lemma Assemble(s: State, a: State, d: State, c: State)
    requires !c.isError && c.target == s.target
    requires 0 <= s.index <= a.index <= d.index <= c.index <= |s.target|
    requires Piece(a.result) == s.target[s.index..a.index]
    requires Piece(d.result) == s.target[a.index..d.index]
    requires Piece(c.result) == s.target[d.index..c.index]
    ensures JoinNumber(List([a.result, d.result, c.result])) == Str(s.target[s.index..c.index])
  {
    SlicesJoin(s.target, s.index, a.index, d.index, c.index);
    var r := List([a.result, d.result, c.result]);
    assert r.items[0] == a.result && r.items[1] == d.result && r.items[2] == c.result;
  }

  /** When the digits succeed, Number's state is the fraction stage's, with
      the consumed slice as payload. */
  lemma NumberStageSucceeds(s: State)
    requires s.Valid() && !s.isError && !ClassStep(Digit, SignStage(s)).isError
    ensures var t := NumberStage(s);
      && !t.isError && t.target == s.target && t.error == s.error
      && t.index == s.index + NumberLength(s.Rest())
      && t.result == Str(s.target[s.index..t.index])
  {
    var a := SignStage(s);
    var d := ClassStep(Digit, a);
    var c := FractionStage(d);
    SignStageFacts(s);
    DigitStageFacts(a);
    FractionStageFacts(d);
    StagesConsumeLiteral(s, a, d, c);
    Assemble(s, a, d, c);
  }

  /** When the digits fail, Number fails just after the sign. */
  lemma NumberStageFails(s: State)
    requires s.Valid() && !s.isError && ClassStep(Digit, SignStage(s)).isError
    ensures NumberLength(s.Rest()) == 0
    ensures NumberStage(s).isError && NumberStage(s).index == s.index + SignLength(s.Rest())
  {
    var rest := s.Rest();
    var k := SignLength(rest);
    SignStageFacts(s);
    SignStageRest(s);
    SpanZero(Digit, rest[k..]);
  }

  /** The consumed slice has the literal's shape. */
  lemma LiteralAt(s: State, e: int)
    requires s.Valid() && NumberLength(s.Rest()) > 0 && e == s.index + NumberLength(s.Rest())
    ensures IsNumberLiteral(s.target[s.index..e])
  {
    var rest := s.Rest();
    assert rest[..e - s.index] == s.target[s.index..e];
    LiteralShape(rest, e - s.index);
  }

  /** Number succeeds exactly when the input starts with an optional minus
      and a digit.  It then consumes the literal -?[0-9]+(\.[0-9]+)? that
      NumberLength measures (the longest one, see LiteralIsLongest), and its
      payload is exactly the consumed slice of the target.  When it fails,
      it fails just after an optional minus sign. */
  lemma NumberReadsLiteral(s: State, fuel: nat)
    requires s.Valid() && !s.isError
    ensures Apply(Number(), s, fuel).Halts?
    ensures var t := Apply(Number(), s, fuel).state;
      var rest := s.Rest();
      && (!t.isError <==> NumberLength(rest) > 0)
      && (!t.isError ==> t.index == s.index + NumberLength(rest))
      && (!t.isError ==> t.result == Str(s.target[s.index..t.index]))
      && (!t.isError ==> IsNumberLiteral(s.target[s.index..t.index]))
      && (t.isError ==> t.index == s.index + SignLength(rest))
  {
    NumberStep(s, fuel);
    if ClassStep(Digit, SignStage(s)).isError {
      NumberStageFails(s);
    } else {
      NumberStageSucceeds(s);
      LiteralAt(s, NumberStage(s).index);
    }
  }

  // ---------------------------------------------------------------- examples

  /** Number run on a whole input whose literal is n characters long. */
  lemma RunNumber(t: string, n: nat, fuel: nat)
    requires n == NumberLength(t) && n > 0
    ensures Run(Number(), t, fuel) == Halts(State(false, t, n, Str(t[..n]), Plain("")))
  {
    var s := Initial(t);
    assert s.Rest() == t;
    NumberReadsLiteral(s, fuel);
  }

  /** A string that starts with exactly two digits has a run of two. */
  lemma TwoDigits(t: string)
    requires |t| >= 2 && In(Digit, t[0]) && In(Digit, t[1]) && (|t| > 2 ==> !In(Digit, t[2]))
    ensures Span(Digit, t) == 2
  {
    assert t[..2][0] == t[0] && t[..2][1] == t[1];
    SpanUnique(Digit, t, 2);
  }

  lemma BareDotLength()
    ensures NumberLength("12.") == 2
  {
    var t := "12.";
    assert t[0..] == t;
    TwoDigits(t);
    assert t[2..] == "." && "."[1..] == "";
  }

  /** "12." is read as "12": a "." without digits after it is left over. */
  lemma NumberLeavesBareDot(fuel: nat)
    ensures Run(Number(), "12.", fuel) == Halts(State(false, "12.", 2, Str("12"), Plain("")))
  {
    BareDotLength();
    RunNumber("12.", 2, fuel);
    assert "12."[..2] == "12";
  }

  lemma SignedFractionLength()
    ensures NumberLength("-12.34") == 6
  {
    var t := "-12.34";
    assert t[1..] == "12.34";
    TwoDigits(t[1..]);
    assert t[3..] == ".34" && ".34"[1..] == "34";
    TwoDigits("34");
  }

  /** "-12.34" is read whole: sign, digits and fraction. */
  lemma NumberReadsSignedFraction(fuel: nat)
    ensures Run(Number(), "-12.34", fuel) == Halts(State(false, "-12.34", 6, Str("-12.34"), Plain("")))
  {
    SignedFractionLength();
    RunNumber("-12.34", 6, fuel);
    assert "-12.34"[..6] == "-12.34";
  }
}
