/**
  The tree evaluator of the Polish-notation example (examples/polishcalc.go).

  A node is a number, an operation with an operator and two operands, or a
  node of any other type.  Go's `int` is 64 bits wide on 64-bit targets: sums, differences and
  products wrap around, and `/` truncates toward zero.  A zero divisor makes
  Go panic; the model answers `DivideByZero` there.
*/
module PolishCalc {

  const Int64Min: int := -0x8000_0000_0000_0000
  const Int64Max: int := 0x7FFF_FFFF_FFFF_FFFF
  const Modulus: int := 0x1_0000_0000_0000_0000

  /** The values of Go's 64-bit `int`. */
  type Int64 = x: int | Int64Min <= x <= Int64Max

  predicate IsInt64(x: int) {
    Int64Min <= x <= Int64Max
  }

  /** A node type other than "number" and "operation". */
  type OtherKind = k: string | k != "number" && k != "operation" witness ""

  /** A tree node: Value{Type: "number"}, Value{Type: "operation"} holding an
      Operation, or a Value of any other type. */
  datatype Node =
    | Number(value: Int64)
    | Operation(op: string, a: Node, b: Node)
    | Other(kind: OtherKind)

  /** What evaluation gives: a number, or the panic of a zero divisor. */
  datatype Answer = Value(n: int) | DivideByZero

  // ---------------------------------------------------------------- machine arithmetic

  /** Two's-complement wrap-around to 64 bits. */
  function Wrap(x: int): (r: int)
    ensures IsInt64(r)
  {
    (x - Int64Min) % Modulus + Int64Min
  }

  /** Wrap moves its argument by a whole number of moduli. */
  lemma WrapShift(x: int) returns (k: int)
    ensures Wrap(x) == x + k * Modulus
  {
    k := -((x - Int64Min) / Modulus);
  }

  /** Euclidean division by the modulus has a unique remainder. */
  lemma ModUnique(a: int, q: int, r: int)
    requires a == q * Modulus + r && 0 <= r < Modulus
    ensures a % Modulus == r
  {
    var q' := a / Modulus;
    assert (q - q') * Modulus == a % Modulus - r;
  }

  /** Values that differ by whole moduli wrap to the same value. */
  lemma {:induction false} WrapCongruent(x: int, k: int)
    ensures Wrap(x + k * Modulus) == Wrap(x)
  {
    var a := x - Int64Min;
    var q, r := a / Modulus, a % Modulus;
    assert a + k * Modulus == (q + k) * Modulus + r;
    ModUnique(a + k * Modulus, q + k, r);
  }

  /** Wrap leaves 64-bit values alone, and only those. */
  lemma WrapFixes(x: int)
    ensures Wrap(x) == x <==> IsInt64(x)
  {
    if IsInt64(x) {
      ModUnique(x - Int64Min, 0, x - Int64Min);
    }
  }

  /** Wrapping the operands first does not change a wrapped product. */
  lemma WrapProduct(x: int, y: int, i: int, j: int)
    requires Wrap(x) == x + i * Modulus && Wrap(y) == y + j * Modulus
    ensures Wrap(Wrap(x) * Wrap(y)) == Wrap(x * y)
  {
    var k := x * j + i * y + i * j * Modulus;
    assert (x + i * Modulus) * (y + j * Modulus) == x * y + k * Modulus;
    WrapCongruent(x * y, k);
  }

  /** Wrapping the operands first does not change a wrapped sum, difference or product. */
  lemma {:induction false} WrapHomomorphic(x: int, y: int)
    ensures Wrap(Wrap(x) + Wrap(y)) == Wrap(x + y)
    ensures Wrap(Wrap(x) - Wrap(y)) == Wrap(x - y)
    ensures Wrap(Wrap(x) * Wrap(y)) == Wrap(x * y)
  {
    var i := WrapShift(x);
    var j := WrapShift(y);
    WrapCongruent(x + y, i + j);
    WrapCongruent(x - y, i - j);
    WrapProduct(x, y, i, j);
  }

  function Abs(x: int): nat {
    if x < 0 then -x else x
  }

  /** Natural division leaves a remainder below the divisor. */
  lemma NatDivision(x: nat, y: nat)
    requires y > 0
    ensures 0 <= x - (x / y) * y < y
  {
  }

  /** Go's integer division: the quotient truncated toward zero.  The
      remainder a - q * b has the sign of `a` and is smaller than `b` in size. */
  function TruncDiv(a: int, b: int): (q: int)
    requires b != 0
    ensures Abs(a - q * b) < Abs(b)
    ensures a >= 0 ==> a - q * b >= 0
    ensures a < 0 ==> a - q * b <= 0
  {
    var m := Abs(a) / Abs(b);
    NatDivision(Abs(a), Abs(b));
    var mb := m * Abs(b);
    assert m * b == (if b < 0 then -mb else mb);
    if (a < 0) == (b < 0) then
      m
    else
      assert (-m) * b == -(m * b);
      -m
  }

  /** The three properties of TruncDiv determine the quotient: any q with a
      remainder of a's sign and of size below |b| is TruncDiv(a, b). */
  lemma TruncDivUnique(a: int, b: int, q: int)
    requires b != 0
    requires Abs(a - q * b) < Abs(b)
    requires a >= 0 ==> a - q * b >= 0
    requires a < 0 ==> a - q * b <= 0
    ensures q == TruncDiv(a, b)
  {
    var t := TruncDiv(a, b);
    var r1, r2 := a - t * b, a - q * b;
    var gap := r1 - r2;
    assert gap == (q - t) * b;
    assert Abs(gap) < Abs(b);
    if q != t {
      MultipleAtLeast(q - t, b);
    }
  }

  /** A nonzero multiple of b is at least as large as b. */
  lemma MultipleAtLeast(d: int, b: int)
    requires d != 0 && b != 0
    ensures Abs(d * b) >= Abs(b)
  {
    var m := Abs(d) * Abs(b);
    assert m >= Abs(b);
    assert d * b == m || d * b == -m;
  }

  // ---------------------------------------------------------------- Evaluate

  /** The four operators Evaluate knows. */
  predicate Known(op: string) {
    op == "+" || op == "-" || op == "*" || op == "/"
  }

  /** The machine operation of `op` on two 64-bit values. */
  function Apply64(op: string, x: int, y: int): (r: Answer)
    requires Known(op)
    ensures r.Value? ==> IsInt64(r.n)
    ensures r == DivideByZero <==> op == "/" && y == 0
  {
    if op == "+" then Value(Wrap(x + y))
    else if op == "-" then Value(Wrap(x - y))
    else if op == "*" then Value(Wrap(x * y))
    else if y == 0 then DivideByZero
    else Value(Wrap(TruncDiv(x, y)))
  }

  /** Evaluate(node).  Operands are evaluated left, then right, and only
      under a known operator; an unknown operator or node type gives 0. */
  function Evaluate(node: Node): (r: Answer)
    ensures r.Value? ==> IsInt64(r.n)
    ensures node.Number? ==> r == Value(node.value)
    ensures node.Other? ==> r == Value(0)
    ensures node.Operation? && !Known(node.op) ==> r == Value(0)
  {
    match node
    case Number(v) => Value(v)
    case Other(_) => Value(0)
    case Operation(op, a, b) =>
      if !Known(op) then Value(0)
      else
        match Evaluate(a)
        case DivideByZero => DivideByZero
        case Value(x) =>
          match Evaluate(b)
          case DivideByZero => DivideByZero
          case Value(y) => Apply64(op, x, y)
  }

  // ---------------------------------------------------------------- the reference: exact arithmetic

  /** The same tree evaluated in unbounded integers, with Go's truncating division. */
  function Exact(node: Node): Answer {
    match node
    case Number(v) => Value(v)
    case Other(_) => Value(0)
    case Operation(op, a, b) =>
      if !Known(op) then Value(0)
      else
        match Exact(a)
        case DivideByZero => DivideByZero
        case Value(x) =>
          match Exact(b)
          case DivideByZero => DivideByZero
          case Value(y) =>
            if op == "+" then Value(x + y)
            else if op == "-" then Value(x - y)
            else if op == "*" then Value(x * y)
            else if y == 0 then DivideByZero
            else Value(TruncDiv(x, y))
  }

  /** Every exact intermediate value of the tree fits in 64 bits. */
  predicate Fits(node: Node) {
    (Exact(node).Value? ==> IsInt64(Exact(node).n))
    && (node.Operation? && Known(node.op) ==> Fits(node.a) && Fits(node.b))
  }

  /** Without overflow, Evaluate computes the exact value, and panics exactly
      where exact arithmetic divides by zero. */
  lemma {:induction false} EvaluateIsExactWithoutOverflow(node: Node)
    requires Fits(node)
    ensures Evaluate(node) == Exact(node)
  {
    match node
    case Number(_) =>
    case Other(_) =>
    case Operation(op, a, b) =>
      if Known(op) {
        EvaluateIsExactWithoutOverflow(a);
        EvaluateIsExactWithoutOverflow(b);
        if Exact(node).Value? {
          WrapFixes(Exact(node).n);
        }
      }
  }

  /** A tree without division. */
  predicate DivisionFree(node: Node) {
    node.Operation? ==> node.op != "/" && DivisionFree(node.a) && DivisionFree(node.b)
  }

  /** Without division, Evaluate never panics and gives the exact value
      wrapped to 64 bits, however large the intermediate values grow. */
  lemma {:induction false} EvaluateWrapsExact(node: Node)
    requires DivisionFree(node)
    ensures Exact(node).Value? && Evaluate(node) == Value(Wrap(Exact(node).n))
  {
    match node
    case Number(v) =>
      WrapFixes(v);
    case Other(_) =>
      WrapFixes(0);
    case Operation(op, a, b) =>
      if Known(op) {
        EvaluateWrapsExact(a);
        EvaluateWrapsExact(b);
        WrapHomomorphic(Exact(a).n, Exact(b).n);
      } else {
        WrapFixes(0);
      }
  }

  /** The example tree (+ 10 (/ 40 20)) evaluates to 12. */
  lemma ExampleTree()
    ensures Evaluate(Operation("+", Number(10), Operation("/", Number(40), Number(20)))) == Value(12)
  {
    assert TruncDiv(40, 20) == 2;
    WrapFixes(2);
    WrapFixes(12);
  }

  /** Division truncates toward zero: (/ -7 2) is -3, not Dafny's -4. */
  lemma DivisionTruncates()
    ensures Evaluate(Operation("/", Number(-7), Number(2))) == Value(-3)
  {
    TruncDivUnique(-7, 2, -3);
    WrapFixes(-3);
  }

  /** The one overflowing division: the most negative value divided by -1
      wraps back to itself. */
  lemma MinDivMinusOne()
    ensures Evaluate(Operation("/", Number(Int64Min), Number(-1))) == Value(Int64Min)
  {
    TruncDivUnique(Int64Min, -1, -Int64Min);
    WrapCongruent(Int64Min, 1);
    WrapFixes(Int64Min);
  }

  /** An unknown operator gives 0 without looking at its operands, so even a
      zero divisor below it does no harm. */
  lemma UnknownOperatorIgnoresOperands(op: string, a: Node, b: Node)
    requires !Known(op)
    ensures Evaluate(Operation(op, a, b)) == Value(0)
    ensures Evaluate(Operation(op, Operation("/", Number(1), Number(0)), b)) == Value(0)
  {
  }
}
