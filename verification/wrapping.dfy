/**
  The Lazy wrappers of core/parsers.go.  Every constructor there (String,
  Letters, Digits, And, Or, Many, ManyOne, Seperated, SeperatedOne, Optional)
  returns `Lazy(func() Parser { ... })`: the parser it builds sits behind a
  thunk that always returns it.  Map and ErrorMap are methods and add no
  wrapper.  The rest of the model builds parsers without these wrappers;
  this module shows that putting them back changes no answer, only the fuel
  a parse needs.  `Padded(p, w, n)` says that `w` is `p` with Lazy wrappers
  put around any of its sub-parsers, at most `n` of them on any path from
  the root; then

  - a parse of `p` that halts gives the same state as `w` given `n` more
    units of fuel (`PaddedAgrees`);
  - a parse of `w` that halts gives the same state as `p` on the same fuel
    (`PaddedAgreesBack`).

  `SourceShape(p)` places the wrappers where the constructors of
  core/parsers.go do (`SourceShapeIsPadded`).  WhiteSpace and Number put
  one more around their whole body (`BuilderAsBuilt`); Between does too,
  and its parts are wrapped builders themselves (`BetweenAsBuilt`).  The
  rules of a Grammar are kept as they are: `Resolve` cannot bind a rule
  reference hidden behind a thunk.
*/
module Wrapping {
  import opened ParseState
  import opened Engine
  import opened Adequacy
  import Derived

  /** Lazy with a thunk that always returns `p`. */
  function Wrap(p: Parser): Parser {
    Lazy(() => p)
  }

  /** `p` as the constructors of core/parsers.go build it: each String,
      Letters, Digits, And, Or, repetition, separated list and Optional
      behind a constant Lazy; Map and ErrorMap add nothing; a Lazy of the
      grammar author, a rule reference and a Grammar are kept. */
  function SourceShape(p: Parser): Parser {
    match p
    case Lazy(_) => p
    case Literal(_) => Wrap(p)
    case Letters => Wrap(p)
    case Digits => Wrap(p)
    case And(ps) => Wrap(And(seq(|ps|, k requires 0 <= k < |ps| => SourceShape(ps[k]))))
    case Or(first, others) =>
      Wrap(Or(SourceShape(first), seq(|others|, k requires 0 <= k < |others| => SourceShape(others[k]))))
    case Repeat(q, atLeastOne) => Wrap(Repeat(SourceShape(q), atLeastOne))
    case SepBy(sep, value, atLeastOne) => Wrap(SepBy(SourceShape(sep), SourceShape(value), atLeastOne))
    case Optional(q) => Wrap(Optional(SourceShape(q)))
    case Map(q, fn) => Map(SourceShape(q), fn)
    case ErrorMap(q, errFn) => ErrorMap(SourceShape(q), errFn)
    case Rule(_) => p
    case Grammar(_, _) => p
  }

  /** The most wrappers `SourceShape(p)` stacks on one path from its root:
      the extra fuel the wrapped parser may need. */
  function Depth(p: Parser): (d: nat)
    ensures p.And? ==> forall j :: 0 <= j < |p.parsers| ==> Depth(p.parsers[j]) < d
    ensures p.Or? ==> Depth(p.first) < d && forall j :: 0 <= j < |p.others| ==> Depth(p.others[j]) < d
    ensures (p.Repeat? || p.Optional?) ==> Depth(p.inner) < d
    ensures p.SepBy? ==> Depth(p.separator) < d && Depth(p.value) < d
    ensures (p.Map? || p.ErrorMap?) ==> Depth(p.inner) == d
    decreases p, 1
  {
    match p
    case Lazy(_) => 0
    case Literal(_) => 1
    case Letters => 1
    case Digits => 1
    case And(_) => 1 + PartsDepth(p, 0)
    case Or(first, _) => 1 + Larger(Depth(first), OthersDepth(p, 0))
    case Repeat(q, _) => 1 + Depth(q)
    case SepBy(sep, value, _) => 1 + Larger(Depth(sep), Depth(value))
    case Optional(q) => 1 + Depth(q)
    case Map(q, _) => Depth(q)
    case ErrorMap(q, _) => Depth(q)
    case Rule(_) => 0
    case Grammar(_, _) => 0
  }

  function Larger(a: nat, b: nat): (m: nat)
    ensures a <= m && b <= m && (m == a || m == b)
  {
    if a >= b then a else b
  }

  /** The deepest of the parts i.. of an And. */
  function PartsDepth(p: Parser, i: nat): (m: nat)
    requires p.And? && i <= |p.parsers|
    ensures forall j :: i <= j < |p.parsers| ==> Depth(p.parsers[j]) <= m
    decreases p, 0, |p.parsers| - i
  {
    if i == |p.parsers| then 0 else Larger(Depth(p.parsers[i]), PartsDepth(p, i + 1))
  }

  /** The deepest of the later alternatives i.. of an Or. */
  function OthersDepth(p: Parser, i: nat): (m: nat)
    requires p.Or? && i <= |p.others|
    ensures forall j :: i <= j < |p.others| ==> Depth(p.others[j]) <= m
    decreases p, 0, |p.others| - i
  {
    if i == |p.others| then 0 else Larger(Depth(p.others[i]), OthersDepth(p, i + 1))
  }

  /** `w` is `p` with Lazy wrappers around some of its sub-parsers (or
      around `p` itself), at most `n` of them on any path from the root.  A
      thunk takes no argument and reads nothing, so it always returns the
      same parser: it is a constant wrapper. */
  ghost predicate Padded(p: Parser, w: Parser, n: nat)
    decreases p, n
  {
    || (w.Lazy? && n > 0 && Padded(p, w.thunk(), n - 1))
    || (match p
        case Lazy(_) => w == p
        case Literal(_) => w == p
        case Letters => w == p
        case Digits => w == p
        case And(ps) =>
          w.And? && |w.parsers| == |ps| && forall j :: 0 <= j < |ps| ==> Padded(ps[j], w.parsers[j], n)
        case Or(first, others) =>
          && w.Or? && |w.others| == |others| && Padded(first, w.first, n)
          && forall j :: 0 <= j < |others| ==> Padded(others[j], w.others[j], n)
        case Repeat(q, atLeastOne) => w.Repeat? && w.atLeastOne == atLeastOne && Padded(q, w.inner, n)
        case SepBy(sep, value, atLeastOne) =>
          && w.SepBy? && w.atLeastOne == atLeastOne
          && Padded(sep, w.separator, n) && Padded(value, w.value, n)
        case Optional(q) => w.Optional? && Padded(q, w.inner, n)
        case Map(q, fn) => w.Map? && w.fn == fn && Padded(q, w.inner, n)
        case ErrorMap(q, errFn) => w.ErrorMap? && w.errFn == errFn && Padded(q, w.inner, n)
        case Rule(_) => w == p
        case Grammar(_, _) => w == p)
  }

  /** The alternatives of two padded Ors correspond, in order. */
  lemma PaddedAlternatives(p: Parser, w: Parser, n: nat)
    requires p.Or? && w.Or? && |w.others| == |p.others| && Padded(p.first, w.first, n)
    requires forall j :: 0 <= j < |p.others| ==> Padded(p.others[j], w.others[j], n)
    ensures w.Arity() == p.Arity()
    ensures forall i :: 0 <= i < p.Arity() ==> Padded(p.Alternative(i), w.Alternative(i), n)
  {
    forall i | 0 <= i < p.Arity()
      ensures Padded(p.Alternative(i), w.Alternative(i), n)
    {
      if i > 0 {
        assert Padded(p.others[i - 1], w.others[i - 1], n);
      }
    }
  }

  /** A bound on the wrappers per path may be loosened. */
  lemma {:induction false} PaddedMonotone(p: Parser, w: Parser, n: nat, m: nat)
    requires Padded(p, w, n) && n <= m
    ensures Padded(p, w, m)
    decreases p, n
  {
    if w.Lazy? && n > 0 && Padded(p, w.thunk(), n - 1) {
      PaddedMonotone(p, w.thunk(), n - 1, m - 1);
    } else {
      match p
      case And(ps) =>
        forall j | 0 <= j < |ps| ensures Padded(ps[j], w.parsers[j], m) {
          PaddedMonotone(ps[j], w.parsers[j], n, m);
        }
      case Or(first, others) =>
        PaddedMonotone(first, w.first, n, m);
        forall j | 0 <= j < |others| ensures Padded(others[j], w.others[j], m) {
          PaddedMonotone(others[j], w.others[j], n, m);
        }
      case Repeat(q, _) => PaddedMonotone(q, w.inner, n, m);
      case SepBy(sep, value, _) =>
        PaddedMonotone(sep, w.separator, n, m);
        PaddedMonotone(value, w.value, n, m);
      case Optional(q) => PaddedMonotone(q, w.inner, n, m);
      case Map(q, _) => PaddedMonotone(q, w.inner, n, m);
      case ErrorMap(q, _) => PaddedMonotone(q, w.inner, n, m);
      case _ =>
    }
  }

  /** The constructors' placement is a padding, with `Depth(p)` wrappers per path. */
  lemma {:induction false} SourceShapeIsPadded(p: Parser)
    ensures Padded(p, SourceShape(p), Depth(p))
    decreases p, 1
  {
    if p.Literal? || p.Letters? || p.Digits? {
      assert SourceShape(p) == Wrap(p) && Padded(p, p, 0);
    } else if p.And? {
      AndShapeIsPadded(p);
    } else if p.Or? {
      OrShapeIsPadded(p);
    } else if p.Repeat? || p.Optional? {
      InnerShapeIsPadded(p);
    } else if p.SepBy? {
      SepByShapeIsPadded(p);
    } else if p.Map? || p.ErrorMap? {
      SourceShapeIsPadded(p.inner);
    }
  }

  /** The wrapped `q` is a padding of `q` within a bound above its depth. */
  lemma ChildShapeIsPadded(q: Parser, m: nat)
    requires Depth(q) <= m
    ensures Padded(q, SourceShape(q), m)
    decreases q, 2
  {
    SourceShapeIsPadded(q);
    PaddedMonotone(q, SourceShape(q), Depth(q), m);
  }

  lemma AndShapeIsPadded(p: Parser)
    requires p.And?
    ensures Padded(p, SourceShape(p), Depth(p))
    decreases p, 0
  {
    var ps, d := p.parsers, Depth(p);
    var x := SourceShape(p).thunk();
    assert x.And? && |x.parsers| == |ps|;
    assert forall j :: 0 <= j < |ps| ==> x.parsers[j] == SourceShape(ps[j]);
    forall j | 0 <= j < |ps| ensures Padded(ps[j], x.parsers[j], d - 1) {
      ChildShapeIsPadded(ps[j], d - 1);
    }
    PartsPadded(ps, x.parsers, d - 1);
  }

  /** Parts padded one by one make a padded And. */
  lemma PartsPadded(ps: seq<Parser>, qs: seq<Parser>, m: nat)
    requires |ps| == |qs| && forall j :: 0 <= j < |ps| ==> Padded(ps[j], qs[j], m)
    ensures Padded(And(ps), And(qs), m)
  {
  }

  lemma OrShapeIsPadded(p: Parser)
    requires p.Or?
    ensures Padded(p, SourceShape(p), Depth(p))
    decreases p, 0
  {
    var others, d := p.others, Depth(p);
    var x := SourceShape(p).thunk();
    assert x.Or? && x.first == SourceShape(p.first) && |x.others| == |others|;
    assert forall j :: 0 <= j < |others| ==> x.others[j] == SourceShape(others[j]);
    ChildShapeIsPadded(p.first, d - 1);
    forall j | 0 <= j < |others| ensures Padded(others[j], x.others[j], d - 1) {
      ChildShapeIsPadded(others[j], d - 1);
    }
    AlternativesPadded(p.first, others, x.first, x.others, d - 1);
  }

  /** Alternatives padded one by one make a padded Or. */
  lemma AlternativesPadded(first: Parser, others: seq<Parser>, wFirst: Parser, wOthers: seq<Parser>, m: nat)
    requires Padded(first, wFirst, m) && |wOthers| == |others|
    requires forall j :: 0 <= j < |others| ==> Padded(others[j], wOthers[j], m)
    ensures Padded(Or(first, others), Or(wFirst, wOthers), m)
  {
  }

  lemma InnerShapeIsPadded(p: Parser)
    requires p.Repeat? || p.Optional?
    ensures Padded(p, SourceShape(p), Depth(p))
    decreases p, 0
  {
    var w := if p.Repeat? then Repeat(SourceShape(p.inner), p.atLeastOne) else Optional(SourceShape(p.inner));
    assert SourceShape(p) == Wrap(w);
    ChildShapeIsPadded(p.inner, Depth(p) - 1);
    assert Padded(p, w, Depth(p) - 1);
  }

  lemma SepByShapeIsPadded(p: Parser)
    requires p.SepBy?
    ensures Padded(p, SourceShape(p), Depth(p))
    decreases p, 0
  {
    var w := SepBy(SourceShape(p.separator), SourceShape(p.value), p.atLeastOne);
    assert SourceShape(p) == Wrap(w);
    ChildShapeIsPadded(p.separator, Depth(p) - 1);
    ChildShapeIsPadded(p.value, Depth(p) - 1);
    assert Padded(p, w, Depth(p) - 1);
  }

  /** One more constant wrapper around a padding is a padding: the outer
      Lazy that WhiteSpace, Between and Number put around their bodies. */
  lemma OuterWrapperPads(p: Parser, w: Parser, n: nat)
    requires Padded(p, w, n)
    ensures Padded(p, Wrap(w), n + 1)
  {
  }

  // ---------------------------------------------------------------- unwrapped halts, so does wrapped

  /** A parse of `p` that halts gives the same state as a padding of `p`
      with at most `n` wrappers per path, once the padding is given `n` more
      units of fuel. */
  lemma {:induction false} PaddedAgrees(p: Parser, w: Parser, n: nat, s: State, fuel: nat, more: nat)
    requires s.Valid() && Padded(p, w, n) && Apply(p, s, fuel).Halts? && fuel + n <= more
    ensures Apply(w, s, more) == Apply(p, s, fuel)
    decreases p, n, 3, 0
  {
    if w.Lazy? && n > 0 && Padded(p, w.thunk(), n - 1) {
      PaddedAgrees(p, w.thunk(), n - 1, s, fuel, more - 1);
    } else if p.And? {
      if !s.isError {
        AndLoopPadded(p, w, n, 0, s, fuel, more);
      }
    } else if p.Or? {
      if !s.isError {
        PaddedAlternatives(p, w, n);
        OrLoopPadded(p, w, n, 0, s, fuel, more);
      }
    } else if p.Repeat? {
      if !s.isError {
        RepeatLoopPadded(p.inner, w.inner, n, s, fuel, more);
      }
    } else if p.SepBy? {
      if !s.isError {
        SepLoopPadded(p, w, n, s, fuel, more);
      }
    } else if p.Optional? || p.Map? || p.ErrorMap? {
      PaddedAgrees(p.inner, w.inner, n, s, fuel, more);
    } else {
      FuelMonotone(p, s, fuel, more);
    }
  }

  lemma {:induction false} AndLoopPadded(p: Parser, w: Parser, n: nat, i: nat, st: State, fuel: nat, more: nat)
    requires p.And? && w.And? && |w.parsers| == |p.parsers| && i <= |p.parsers| && st.Valid()
    requires forall j :: 0 <= j < |p.parsers| ==> Padded(p.parsers[j], w.parsers[j], n)
    requires AndLoop(p, i, st, fuel).Collected? && fuel + n <= more
    ensures AndLoop(w, i, st, more) == AndLoop(p, i, st, fuel)
    decreases p, n, 1, |p.parsers| - i
  {
    if i < |p.parsers| {
      PaddedAgrees(p.parsers[i], w.parsers[i], n, st, fuel, more);
      AndLoopPadded(p, w, n, i + 1, Apply(p.parsers[i], st, fuel).state, fuel, more);
    }
  }

  lemma {:induction false} OrLoopPadded(p: Parser, w: Parser, n: nat, i: nat, s: State, fuel: nat, more: nat)
    requires p.Or? && w.Or? && w.Arity() == p.Arity() && i < p.Arity() && s.Valid() && !s.isError
    requires forall k :: 0 <= k < p.Arity() ==> Padded(p.Alternative(k), w.Alternative(k), n)
    requires OrLoop(p, i, s, fuel).Halts? && fuel + n <= more
    ensures OrLoop(w, i, s, more) == OrLoop(p, i, s, fuel)
    decreases p, n, 1, p.Arity() - i
  {
    PaddedAgrees(p.Alternative(i), w.Alternative(i), n, s, fuel, more);
    var t := Apply(p.Alternative(i), s, fuel).state;
    if t.isError && i + 1 < p.Arity() {
      OrLoopPadded(p, w, n, i + 1, s, fuel, more);
    }
  }

  lemma {:induction false} RepeatLoopPadded(q: Parser, v: Parser, n: nat, st: State, fuel: nat, more: nat)
    requires st.Valid() && !st.isError && Padded(q, v, n)
    requires RepeatLoop(q, st, fuel).Collected? && fuel + n <= more
    ensures RepeatLoop(v, st, more) == RepeatLoop(q, st, fuel)
    decreases q, n, 4, |st.target| - st.index
  {
    PaddedAgrees(q, v, n, st, fuel, more);
    var t := Apply(q, st, fuel).state;
    if !t.isError && t.index != st.index {
      RepeatLoopPadded(q, v, n, t, fuel, more);
    }
  }

  lemma {:induction false} SepLoopPadded(p: Parser, w: Parser, n: nat, st: State, fuel: nat, more: nat)
    requires p.SepBy? && w.SepBy? && st.Valid() && !st.isError
    requires Padded(p.value, w.value, n) && Padded(p.separator, w.separator, n)
    requires SepLoop(p, st, fuel).Collected? && fuel + n <= more
    ensures SepLoop(w, st, more) == SepLoop(p, st, fuel)
    decreases p, n, 1, |st.target| - st.index
  {
    PaddedAgrees(p.value, w.value, n, st, fuel, more);
    var v := Apply(p.value, st, fuel).state;
    if !v.isError {
      PaddedAgrees(p.separator, w.separator, n, v, fuel, more);
      var u := Apply(p.separator, v, fuel).state;
      if !u.isError && u.index != st.index {
        SepLoopPadded(p, w, n, u, fuel, more);
      }
    }
  }

  // ---------------------------------------------------------------- wrapped halts, so does unwrapped

  /** A parse of a padding of `p` that halts gives the same state as `p` on
      the same fuel: the wrappers never change an answer. */
  lemma {:induction false} PaddedAgreesBack(p: Parser, w: Parser, n: nat, s: State, fuel: nat)
    requires s.Valid() && Padded(p, w, n) && Apply(w, s, fuel).Halts?
    ensures Apply(p, s, fuel) == Apply(w, s, fuel)
    decreases p, n, 3, 0
  {
    if w.Lazy? && n > 0 && Padded(p, w.thunk(), n - 1) {
      PaddedAgreesBack(p, w.thunk(), n - 1, s, fuel - 1);
      FuelMonotone(p, s, fuel - 1, fuel);
    } else if p.And? {
      if !s.isError {
        AndLoopPaddedBack(p, w, n, 0, s, fuel);
      }
    } else if p.Or? {
      if !s.isError {
        PaddedAlternatives(p, w, n);
        OrLoopPaddedBack(p, w, n, 0, s, fuel);
      }
    } else if p.Repeat? {
      if !s.isError {
        RepeatLoopPaddedBack(p.inner, w.inner, n, s, fuel);
      }
    } else if p.SepBy? {
      if !s.isError {
        SepLoopPaddedBack(p, w, n, s, fuel);
      }
    } else if p.Optional? || p.Map? || p.ErrorMap? {
      PaddedAgreesBack(p.inner, w.inner, n, s, fuel);
    }
  }

  lemma {:induction false} AndLoopPaddedBack(p: Parser, w: Parser, n: nat, i: nat, st: State, fuel: nat)
    requires p.And? && w.And? && |w.parsers| == |p.parsers| && i <= |p.parsers| && st.Valid()
    requires forall j :: 0 <= j < |p.parsers| ==> Padded(p.parsers[j], w.parsers[j], n)
    requires AndLoop(w, i, st, fuel).Collected?
    ensures AndLoop(p, i, st, fuel) == AndLoop(w, i, st, fuel)
    decreases p, n, 1, |p.parsers| - i
  {
    if i < |p.parsers| {
      PaddedAgreesBack(p.parsers[i], w.parsers[i], n, st, fuel);
      AndLoopPaddedBack(p, w, n, i + 1, Apply(w.parsers[i], st, fuel).state, fuel);
    }
  }

  lemma {:induction false} OrLoopPaddedBack(p: Parser, w: Parser, n: nat, i: nat, s: State, fuel: nat)
    requires p.Or? && w.Or? && w.Arity() == p.Arity() && i < p.Arity() && s.Valid() && !s.isError
    requires forall k :: 0 <= k < p.Arity() ==> Padded(p.Alternative(k), w.Alternative(k), n)
    requires OrLoop(w, i, s, fuel).Halts?
    ensures OrLoop(p, i, s, fuel) == OrLoop(w, i, s, fuel)
    decreases p, n, 1, p.Arity() - i
  {
    PaddedAgreesBack(p.Alternative(i), w.Alternative(i), n, s, fuel);
    var t := Apply(w.Alternative(i), s, fuel).state;
    if t.isError && i + 1 < p.Arity() {
      OrLoopPaddedBack(p, w, n, i + 1, s, fuel);
    }
  }

  lemma {:induction false} RepeatLoopPaddedBack(q: Parser, v: Parser, n: nat, st: State, fuel: nat)
    requires st.Valid() && !st.isError && Padded(q, v, n)
    requires RepeatLoop(v, st, fuel).Collected?
    ensures RepeatLoop(q, st, fuel) == RepeatLoop(v, st, fuel)
    decreases q, n, 4, |st.target| - st.index
  {
    PaddedAgreesBack(q, v, n, st, fuel);
    var t := Apply(v, st, fuel).state;
    if !t.isError && t.index != st.index {
      RepeatLoopPaddedBack(q, v, n, t, fuel);
    }
  }

  lemma {:induction false} SepLoopPaddedBack(p: Parser, w: Parser, n: nat, st: State, fuel: nat)
    requires p.SepBy? && w.SepBy? && st.Valid() && !st.isError
    requires Padded(p.value, w.value, n) && Padded(p.separator, w.separator, n)
    requires SepLoop(w, st, fuel).Collected?
    ensures SepLoop(p, st, fuel) == SepLoop(w, st, fuel)
    decreases p, n, 1, |st.target| - st.index
  {
    PaddedAgreesBack(p.value, w.value, n, st, fuel);
    var v := Apply(w.value, st, fuel).state;
    if !v.isError {
      PaddedAgreesBack(p.separator, w.separator, n, v, fuel);
      var u := Apply(w.separator, v, fuel).state;
      if !u.isError && u.index != st.index {
        SepLoopPaddedBack(p, w, n, u, fuel);
      }
    }
  }

  // ---------------------------------------------------------------- the constructors' placement

  /** A parse that halts without the wrappers halts with them where the
      constructors put them, in the same state, given `Depth(p)` more fuel. */
  lemma ShapeAgrees(p: Parser, s: State, fuel: nat, more: nat)
    requires s.Valid() && Apply(p, s, fuel).Halts? && fuel + Depth(p) <= more
    ensures Apply(SourceShape(p), s, more) == Apply(p, s, fuel)
  {
    SourceShapeIsPadded(p);
    PaddedAgrees(p, SourceShape(p), Depth(p), s, fuel, more);
  }

  /** A parse that halts with the constructors' wrappers halts without
      them, on the same fuel, in the same state. */
  lemma ShapeAgreesBack(p: Parser, s: State, fuel: nat)
    requires s.Valid() && Apply(SourceShape(p), s, fuel).Halts?
    ensures Apply(p, s, fuel) == Apply(SourceShape(p), s, fuel)
  {
    SourceShapeIsPadded(p);
    PaddedAgreesBack(p, SourceShape(p), Depth(p), s, fuel);
  }

  // ---------------------------------------------------------------- builders that nest builders

  /** WhiteSpace() as core/parsers.go builds it: a Lazy around the Map of
      the wrapped repetition of wrapped literals. */
  function SourceWhiteSpace(): Parser {
    Wrap(SourceShape(Derived.WhiteSpace()))
  }

  /** Between(brackets, content) as core/parsers.go builds it, around a
      `content` the caller built: each WhiteSpace and String inside is
      itself a wrapped builder. */
  function SourceBetween(brackets: string, content: Parser): Parser
    requires |brackets| >= 2
  {
    var ws := SourceWhiteSpace();
    Wrap(Map(Wrap(And([ws, Wrap(Literal([brackets[0]])), ws, content,
                       ws, Wrap(Literal([brackets[1]])), ws])), Derived.Fourth))
  }

  /** WhiteSpace and Number as core/parsers.go builds them: the
      constructors' wrappers inside and one more around the whole body, so
      Depth(p) + 1 wrappers per path. */
  lemma BuilderAsBuilt(p: Parser)
    ensures Padded(p, Wrap(SourceShape(p)), Depth(p) + 1)
  {
    SourceShapeIsPadded(p);
    OuterWrapperPads(p, SourceShape(p), Depth(p));
  }

  function WhiteSpaceDepth(): nat {
    Depth(Derived.WhiteSpace()) + 1
  }

  /** The source's Between, over any padding of the content, is a padding
      of the model's Between. */
  lemma BetweenAsBuilt(brackets: string, content: Parser, built: Parser, n: nat)
    requires |brackets| >= 2 && Padded(content, built, n)
    ensures Padded(Derived.Between(brackets, content), SourceBetween(brackets, built), Larger(WhiteSpaceDepth(), n) + 2)
  {
    BracketedAsBuilt(Derived.WhiteSpace(), Literal([brackets[0]]), Literal([brackets[1]]), content, built, n);
  }

  /** Between's body with the whitespace parser `ws` as a parameter: with
      `ws` built as a wrapped builder, the paddings of the parts carry over
      to the whole. */
  lemma BracketedAsBuilt(ws: Parser, open: Parser, close: Parser, content: Parser, built: Parser, n: nat)
    requires open.Literal? && close.Literal? && Padded(content, built, n)
    ensures var wsBuilt := Wrap(SourceShape(ws));
      Padded(Map(And([ws, open, ws, content, ws, close, ws]), Derived.Fourth),
             Wrap(Map(Wrap(And([wsBuilt, Wrap(open), wsBuilt, built, wsBuilt, Wrap(close), wsBuilt])), Derived.Fourth)),
             Larger(Depth(ws) + 1, n) + 2)
  {
    var m := Larger(Depth(ws) + 1, n);
    var wsBuilt := Wrap(SourceShape(ws));
    BuilderAsBuilt(ws);
    PaddedMonotone(ws, wsBuilt, Depth(ws) + 1, m);
    PaddedMonotone(content, built, n, m);
    BracketedPadded(ws, wsBuilt, open, close, content, built, m);
  }

  /** The same, with the bound `m` and the paddings of the parts given. */
  lemma BracketedPadded(ws: Parser, wsBuilt: Parser, open: Parser, close: Parser, content: Parser, built: Parser, m: nat)
    requires open.Literal? && close.Literal? && m >= 1
    requires Padded(ws, wsBuilt, m) && Padded(content, built, m)
    ensures Padded(Map(And([ws, open, ws, content, ws, close, ws]), Derived.Fourth),
                   Wrap(Map(Wrap(And([wsBuilt, Wrap(open), wsBuilt, built, wsBuilt, Wrap(close), wsBuilt])), Derived.Fourth)),
                   m + 2)
  {
    WrappedLeafPads(open, m);
    WrappedLeafPads(close, m);
    var a := SevenPartsPadded([ws, open, ws, content, ws, close, ws], [wsBuilt, Wrap(open), wsBuilt, built, wsBuilt, Wrap(close), wsBuilt], m);
    OuterWrapperPads(And([ws, open, ws, content, ws, close, ws]), a, m);
    OuterWrapperPads(Map(And([ws, open, ws, content, ws, close, ws]), Derived.Fourth), Map(Wrap(a), Derived.Fourth), m + 1);
  }

  /** The constructor's wrapper around a literal, under a bound of at least one. */
  lemma WrappedLeafPads(p: Parser, m: nat)
    requires p.Literal? && m >= 1
    ensures Padded(p, Wrap(p), m)
  {
    assert Padded(p, p, m - 1);
  }

  /** Seven parts padded one by one make a padded And. */
  lemma SevenPartsPadded(ps: seq<Parser>, qs: seq<Parser>, m: nat) returns (a: Parser)
    requires |ps| == 7 && |qs| == 7
    requires Padded(ps[0], qs[0], m) && Padded(ps[1], qs[1], m) && Padded(ps[2], qs[2], m)
    requires Padded(ps[3], qs[3], m) && Padded(ps[4], qs[4], m) && Padded(ps[5], qs[5], m)
    requires Padded(ps[6], qs[6], m)
    ensures a == And(qs) && Padded(And(ps), a, m)
  {
    a := And(qs);
    assert forall j :: 0 <= j < 7 ==> Padded(ps[j], qs[j], m);
  }
}
