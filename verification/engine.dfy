/**
  The combinator engine: core/parser.go and core/parsers.go.

  A Go `Parser` wraps a closure `State -> State`.  The model keeps the
  grammar as data — one constructor per combinator — and gives it meaning
  with the interpreter `Apply`.  Closures the grammar author supplies stay
  closures: the thunk of `Lazy`, the payload map of `Map` and the message
  map of `ErrorMap`.

  A Go grammar is recursive when a `Lazy` thunk reads a parser variable
  that is assigned later, so that the parser graph has a cycle (the `expr`
  and `operationParser` of examples/polishcalc.go).  A Dafny value cannot
  contain itself, so the model names such variables instead: `Grammar(rules,
  i)` is the i-th of some mutually recursive parser variables, and
  `Rule(j)` inside a rule stands for the j-th of them.  Running a Grammar
  unfolds its rule (`Resolve`), like the Go thunk that reads the variable.

  Two things can keep a Go parse from returning.  Lazy thunks and rule
  references may unfold a recursive grammar without end; the interpreter
  spends one unit of `fuel` per unfolding and answers `Diverges` when it
  runs out.  A repetition whose inner parser succeeds without consuming
  input loops for ever (the inner parser is then a fixed point, see
  Repetition.StalledRepeatIsFixedPoint); the interpreter answers
  `Diverges` there as well.
*/
module Engine {
  import opened ParseState
  import opened Scan

  datatype Parser =
    | Lazy(thunk: () -> Parser)                 // build the parser when it is run
    | Literal(pattern: string)                  // String(pattern)
    | Letters                                   // Letters()
    | Digits                                    // Digits()
    | And(parsers: seq<Parser>)                 // And(parsers)
    | Or(first: Parser, others: seq<Parser>)    // Or([first] + others)
    | Repeat(inner: Parser, atLeastOne: bool)   // Many / ManyOne
    | SepBy(separator: Parser, value: Parser, atLeastOne: bool)  // Seperated / SeperatedOne
    | Optional(inner: Parser)                   // Optional(inner)
    | Map(inner: Parser, fn: Res -> Res)        // inner.Map(fn)
    | ErrorMap(inner: Parser, errFn: (Msg, int) -> string)  // inner.ErrorMap(errFn)
    | Rule(index: nat)                          // the parser variable `index` of the enclosing grammar
    | Grammar(rules: seq<Parser>, start: nat)   // variable `start` of mutually recursive `rules`
  {
    /** Number of alternatives of an Or. */
    function Arity(): nat
      requires Or?
    {
      1 + |others|
    }

    /** The i-th alternative of an Or, in the order they are tried. */
    function Alternative(i: nat): Parser
      requires Or? && i < Arity()
    {
      if i == 0 then first else others[i - 1]
    }
  }

  /** `p` has no rule reference outside a Lazy thunk or a Grammar: every
      reference Resolve can reach is bound. */
  predicate NoFree(p: Parser) {
    match p
    case Lazy(_) => true
    case Literal(_) => true
    case Letters => true
    case Digits => true
    case And(ps) => forall k :: 0 <= k < |ps| ==> NoFree(ps[k])
    case Or(first, others) => NoFree(first) && forall k :: 0 <= k < |others| ==> NoFree(others[k])
    case Repeat(q, _) => NoFree(q)
    case SepBy(sep, value, _) => NoFree(sep) && NoFree(value)
    case Optional(q) => NoFree(q)
    case Map(q, _) => NoFree(q)
    case ErrorMap(q, _) => NoFree(q)
    case Rule(_) => false
    case Grammar(_, _) => true
  }

  /** `p` with every free rule reference bound to `rules`: Rule(j) becomes
      Grammar(rules, j).  An inner Grammar binds its own references, and a
      Lazy thunk is a closure the model cannot look into, so both are kept. */
  function Resolve(p: Parser, rules: seq<Parser>): (r: Parser)
    ensures !r.Rule? && NoFree(r)
  {
    match p
    case Lazy(_) => p
    case Literal(_) => p
    case Letters => p
    case Digits => p
    case And(ps) => And(seq(|ps|, k requires 0 <= k < |ps| => Resolve(ps[k], rules)))
    case Or(first, others) =>
      Or(Resolve(first, rules), seq(|others|, k requires 0 <= k < |others| => Resolve(others[k], rules)))
    case Repeat(q, atLeastOne) => Repeat(Resolve(q, rules), atLeastOne)
    case SepBy(sep, value, atLeastOne) => SepBy(Resolve(sep, rules), Resolve(value, rules), atLeastOne)
    case Optional(q) => Optional(Resolve(q, rules))
    case Map(q, fn) => Map(Resolve(q, rules), fn)
    case ErrorMap(q, errFn) => ErrorMap(Resolve(q, rules), errFn)
    case Rule(j) => Grammar(rules, j)
    case Grammar(_, _) => p
  }

  /** Many(p): zero or more repetitions. */
  function Many(p: Parser): Parser { Repeat(p, false) }

  /** ManyOne(p): one or more repetitions. */
  function ManyOne(p: Parser): Parser { Repeat(p, true) }

  /** Seperated(sep, value): values separated by separators, possibly none. */
  function Seperated(sep: Parser, value: Parser): Parser { SepBy(sep, value, false) }

  /** SeperatedOne(sep, value): at least one value. */
  function SeperatedOne(sep: Parser, value: Parser): Parser { SepBy(sep, value, true) }

  /** What running a parser yields: a final state, or no answer at all. */
  datatype Outcome = Halts(state: State) | Diverges

  /** What a sequencing or repetition loop yields: the state it stopped in
      and the payloads it collected, in order. */
  datatype Collected = Collected(last: State, results: seq<Res>) | Diverged

  /** `t` is reachable from `s`: same target, cursor not moved back, still in bounds. */
  predicate Follows(s: State, t: State) {
    t.target == s.target && s.index <= t.index <= |t.target|
  }

  /** The transition function of String(pattern). */
  function StringStep(pattern: string, s: State): (r: State)
    requires s.Valid()
    ensures Follows(s, r)
    ensures s.isError ==> r == s
    ensures !r.isError <==> !s.isError && |s.Rest()| > 0 && pattern <= s.Rest()
    ensures !r.isError ==> r.index == s.index + |pattern| && r.result == Str(pattern)
    ensures !r.isError ==> r.result == Str(s.target[s.index..r.index]) && r.error == s.error
    ensures r.isError ==> r.index == s.index && r.result == s.result
    ensures !s.isError && |s.Rest()| == 0 ==> r.error == EndOfInput(pattern)
  {
    if s.isError then s
    else if |s.Rest()| == 0 then s.SetError(EndOfInput(pattern))
    else if pattern <= s.Rest() then
      assert s.target[s.index..s.index + |pattern|] == pattern;
      s.SetResult(Str(pattern)).SetIndex(s.index + |pattern|)
    else s.SetError(Mismatch(pattern, s.Rest()))
  }

  /** Name of a class in the source's messages. */
  function ClassName(cls: Class): string {
    match cls
    case Letter => "letter"
    case Digit => "digit"
    case Space => "space"
  }

  /** The transition function of Letters() (cls = Letter) and Digits() (cls = Digit). */
  function ClassStep(cls: Class, s: State): (r: State)
    requires s.Valid()
    ensures Follows(s, r)
    ensures s.isError ==> r == s
    ensures !r.isError <==> !s.isError && |s.Rest()| > 0 && In(cls, s.Rest()[0])
    ensures !r.isError ==> s.index < r.index && r.error == s.error
    ensures !r.isError ==> r.result == Str(s.target[s.index..r.index])
    ensures !r.isError ==> AllIn(cls, s.target[s.index..r.index])
    ensures !r.isError && r.index < |r.target| ==> !In(cls, r.target[r.index])
    ensures r.isError ==> r.index == s.index && r.result == s.result
    ensures !s.isError && |s.Rest()| == 0 ==> r.error == EndOfInput("'" + ClassName(cls) + "'")
  {
    if s.isError then s
    else if |s.Rest()| == 0 then s.SetError(EndOfInput("'" + ClassName(cls) + "'"))
    else
      var n := Span(cls, s.Rest());
      if n > 0 then
        assert s.Rest()[..n] == s.target[s.index..s.index + n];
        s.SetResult(Str(s.Rest()[..n])).SetIndex(s.index + n)
      else s.SetError(ExpectedAt(ClassName(cls), s.index))
  }

  /** Runs parser `p` on state `s`.  Lazy and Grammar unfoldings spend
      `fuel`; a rule reference outside any grammar has no meaning. */
  function Apply(p: Parser, s: State, fuel: nat): (o: Outcome)
    requires s.Valid()
    ensures o.Halts? ==> Follows(s, o.state)
    ensures o.Halts? && s.isError ==> o.state.isError && o.state.index == s.index
    ensures o.Halts? && !o.state.isError ==> o.state.error == s.error
    decreases fuel, p, 2, 0
  {
    match p
    case Lazy(thunk) =>
      if fuel == 0 then Diverges else Apply(thunk(), s, fuel - 1)
    case Literal(pattern) => Halts(StringStep(pattern, s))
    case Letters => Halts(ClassStep(Letter, s))
    case Digits => Halts(ClassStep(Digit, s))
    case And(_) =>
      if s.isError then Halts(s)
      else
        (match AndLoop(p, 0, s, fuel)
         case Diverged => Diverges
         case Collected(last, results) => Halts(last.SetResult(List(results))))
    case Or(_, _) =>
      if s.isError then Halts(s) else OrLoop(p, 0, s, fuel)
    case Repeat(_, atLeastOne) =>
      if s.isError then Halts(s)
      else
        (match RepeatLoop(p.inner, s, fuel)
         case Diverged => Diverges
         case Collected(last, results) =>
           if atLeastOne && |results| < 1 then Halts(last.SetError(AtLeastOne(last.index)))
           else Halts(last.SetResult(List(results))))
    case SepBy(_, _, atLeastOne) =>
      if s.isError then Halts(s)
      else
        (match SepLoop(p, s, fuel)
         case Diverged => Diverges
         case Collected(last, results) =>
           if atLeastOne && |results| < 1 then Halts(last.SetError(AtLeastOne(last.index)))
           else Halts(last.SetResult(List(results))))
    case Optional(q) =>
      (match Apply(q, s, fuel)
       case Diverges => Diverges
       case Halts(t) => if t.isError then Halts(s.SetResult(Nil)) else Halts(t))
    case Map(q, fn) =>
      (match Apply(q, s, fuel)
       case Diverges => Diverges
       case Halts(t) => if t.isError then Halts(t) else Halts(t.SetResult(fn(t.result))))
    case ErrorMap(q, errFn) =>
      (match Apply(q, s, fuel)
       case Diverges => Diverges
       case Halts(t) => if !t.isError then Halts(t) else Halts(t.SetError(Plain(errFn(t.error, t.index)))))
    case Rule(_) => Diverges
    case Grammar(rules, start) =>
      if fuel == 0 || start >= |rules| then Diverges else Apply(Resolve(rules[start], rules), s, fuel - 1)
  }

  /** And's loop: threads the state through parsers[i..] with no early exit,
      collecting every sub-parser's payload. */
  function AndLoop(p: Parser, i: nat, st: State, fuel: nat): (c: Collected)
    requires p.And? && i <= |p.parsers| && st.Valid()
    ensures c.Collected? ==> Follows(st, c.last) && |c.results| == |p.parsers| - i
    ensures c.Collected? && st.isError ==> c.last.isError && c.last.index == st.index
    ensures c.Collected? && !c.last.isError ==> c.last.error == st.error
    decreases fuel, p, 1, |p.parsers| - i
  {
    if i == |p.parsers| then Collected(st, [])
    else
      match Apply(p.parsers[i], st, fuel)
      case Diverges => Diverged
      case Halts(t) =>
        match AndLoop(p, i + 1, t, fuel)
        case Diverged => Diverged
        case Collected(last, results) => Collected(last, [t.result] + results)
  }

  /** Or's loop: tries alternative i, and the later ones, each from the same
      state `s`; the first success wins; when the last alternative fails too,
      its state is marked "no matches" at its own index. */
  function OrLoop(p: Parser, i: nat, s: State, fuel: nat): (o: Outcome)
    requires p.Or? && i < p.Arity() && s.Valid() && !s.isError
    ensures o.Halts? ==> Follows(s, o.state)
    ensures o.Halts? && !o.state.isError ==> o.state.error == s.error
    decreases fuel, p, 1, p.Arity() - i
  {
    match Apply(p.Alternative(i), s, fuel)
    case Diverges => Diverges
    case Halts(t) =>
      if !t.isError then Halts(t)
      else if i + 1 == p.Arity() then Halts(t.SetError(NoMatches(t.index)))
      else OrLoop(p, i + 1, s, fuel)
  }

  /** The loop of Many / ManyOne: applies parser `q` until it fails and keeps
      the state after the last success.  A success that consumes nothing would
      repeat for ever. */
  function RepeatLoop(q: Parser, st: State, fuel: nat): (c: Collected)
    requires st.Valid() && !st.isError
    ensures c.Collected? ==> Follows(st, c.last) && !c.last.isError && c.last.error == st.error
    ensures c.Collected? && |c.results| == 0 ==> c.last == st
    decreases fuel, q, 3, |st.target| - st.index
  {
    match Apply(q, st, fuel)
    case Diverges => Diverged
    case Halts(t) =>
      if t.isError then Collected(st, [])
      else if t.index == st.index then Diverged
      else
        match RepeatLoop(q, t, fuel)
        case Diverged => Diverged
        case Collected(last, results) => Collected(last, [t.result] + results)
  }

  /** The loop of Seperated / SeperatedOne: a value, then a separator, then
      again; stops at the first failure.  A separator that succeeds is kept
      even when no value follows it. */
  function SepLoop(p: Parser, st: State, fuel: nat): (c: Collected)
    requires p.SepBy? && st.Valid() && !st.isError
    ensures c.Collected? ==> Follows(st, c.last) && !c.last.isError && c.last.error == st.error
    ensures c.Collected? && |c.results| == 0 ==> c.last == st
    decreases fuel, p, 1, |st.target| - st.index
  {
    match Apply(p.value, st, fuel)
    case Diverges => Diverged
    case Halts(v) =>
      if v.isError then Collected(st, [])
      else
        match Apply(p.separator, v, fuel)
        case Diverges => Diverged
        case Halts(w) =>
          if w.isError then Collected(v, [v.result])
          else if w.index == st.index then Diverged
          else
            match SepLoop(p, w, fuel)
            case Diverged => Diverged
            case Collected(last, results) => Collected(last, [v.result] + results)
  }

  /** Parser.Run: applies `p` once to the initial state of `target`. */
  function Run(p: Parser, target: string, fuel: nat): (o: Outcome)
    ensures o.Halts? ==> o.state.target == target && 0 <= o.state.index <= |target|
    ensures o.Halts? && !o.state.isError ==> o.state.error == Plain("")
  {
    Apply(p, Initial(target), fuel)
  }
}
