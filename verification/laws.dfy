/**
  Laws of the individual combinators of core/parser.go and core/parsers.go:
  Run, Map, ErrorMap, Lazy, Optional, String, the error pass-through
  convention, And and Or.
*/
module Laws {
  import opened ParseState
  import opened Engine
  import opened Adequacy

  /** `p` returns, and returns a failure. */
  predicate Fails(p: Parser, s: State, fuel: nat)
    requires s.Valid()
  {
    Apply(p, s, fuel).Halts? && Apply(p, s, fuel).state.isError
  }

  /** `p` returns, and returns a success. */
  predicate Succeeds(p: Parser, s: State, fuel: nat)
    requires s.Valid()
  {
    Apply(p, s, fuel).Halts? && !Apply(p, s, fuel).state.isError
  }

  // ---------------------------------------------------------------- Run

  /** Run applies the parser exactly once, to the state with no error, the
      whole input as target, cursor 0, nil payload and empty message. */
  lemma RunAppliesOnceToInitial(p: Parser, target: string, fuel: nat)
    ensures Run(p, target, fuel) == Apply(p, State(false, target, 0, Nil, Plain("")), fuel)
  {
  }

  // ---------------------------------------------------------------- Map / ErrorMap

  /** Map passes a failure through untouched and, on success, replaces only the
      payload, by `fn` of the inner payload. */
  lemma MapLaw(q: Parser, fn: Res -> Res, s: State, fuel: nat)
    requires s.Valid()
    ensures var o, m := Apply(q, s, fuel), Apply(Map(q, fn), s, fuel);
      && (m.Halts? <==> o.Halts?)
      && (o.Halts? && o.state.isError ==> m == o)
      && (o.Halts? && !o.state.isError ==>
            && m.state.result == fn(o.state.result)
            && m.state.index == o.state.index && m.state.target == o.state.target
            && !m.state.isError && m.state.error == o.state.error)
  {
  }

  /** On a failure Map never consults its function: any two functions give
      the same answer. */
  lemma MapIgnoresFnOnFailure(q: Parser, f: Res -> Res, g: Res -> Res, s: State, fuel: nat)
    requires s.Valid() && Fails(q, s, fuel)
    ensures Apply(Map(q, f), s, fuel) == Apply(Map(q, g), s, fuel) == Apply(q, s, fuel)
  {
  }

  /** ErrorMap passes a success through untouched and, on failure, replaces
      only the message, by `errFn(message, index)`. */
  lemma ErrorMapLaw(q: Parser, errFn: (Msg, int) -> string, s: State, fuel: nat)
    requires s.Valid()
    ensures var o, m := Apply(q, s, fuel), Apply(ErrorMap(q, errFn), s, fuel);
      && (m.Halts? <==> o.Halts?)
      && (o.Halts? && !o.state.isError ==> m == o)
      && (o.Halts? && o.state.isError ==>
            && m.state.error == Plain(errFn(o.state.error, o.state.index))
            && m.state.isError && m.state.index == o.state.index
            && m.state.target == o.state.target && m.state.result == o.state.result)
  {
  }

  // ---------------------------------------------------------------- Lazy

  /** Lazy calls its thunk when run and hands the state to the parser it got. */
  lemma LazyDelegates(thunk: () -> Parser, s: State, fuel: nat)
    requires s.Valid() && fuel > 0
    ensures Apply(Lazy(thunk), s, fuel) == Apply(thunk(), s, fuel - 1)
  {
  }

  /** Wrapping a parser in Lazy with a constant thunk, as every constructor in
      core/parsers.go does, changes no answer once enough fuel is given. */
  lemma LazyWrapperIsTransparent(q: Parser, s: State, fuel: nat, more: nat)
    requires s.Valid() && Apply(q, s, fuel).Halts? && fuel < more
    ensures Apply(Lazy(() => q), s, more) == Apply(q, s, fuel)
  {
    FuelMonotone(q, s, fuel, more - 1);
  }

  /** Resolve changes nothing in a parser that has no free reference, so
      resolving twice is resolving once. */
  lemma {:induction false} ResolveKeepsClosed(p: Parser, rules: seq<Parser>)
    requires NoFree(p)
    ensures Resolve(p, rules) == p
  {
    match p
    case And(ps) =>
      forall k | 0 <= k < |ps| ensures Resolve(ps[k], rules) == ps[k] {
        ResolveKeepsClosed(ps[k], rules);
      }
      assert seq(|ps|, k requires 0 <= k < |ps| => Resolve(ps[k], rules)) == ps;
    case Or(first, others) =>
      ResolveKeepsClosed(first, rules);
      forall k | 0 <= k < |others| ensures Resolve(others[k], rules) == others[k] {
        ResolveKeepsClosed(others[k], rules);
      }
      assert seq(|others|, k requires 0 <= k < |others| => Resolve(others[k], rules)) == others;
    case Repeat(q, _) => ResolveKeepsClosed(q, rules);
    case SepBy(sep, value, _) =>
      ResolveKeepsClosed(sep, rules);
      ResolveKeepsClosed(value, rules);
    case Optional(q) => ResolveKeepsClosed(q, rules);
    case Map(q, _) => ResolveKeepsClosed(q, rules);
    case ErrorMap(q, _) => ResolveKeepsClosed(q, rules);
    case _ =>
  }

  /** Running variable `start` of a grammar runs its rule, with the rule's
      references bound to the same grammar: the Go thunk reading a parser
      variable that was assigned after the Lazy was built. */
  lemma GrammarUnfolds(rules: seq<Parser>, start: nat, s: State, fuel: nat)
    requires s.Valid() && fuel > 0 && start < |rules|
    ensures Apply(Grammar(rules, start), s, fuel) == Apply(Resolve(rules[start], rules), s, fuel - 1)
  {
  }

  // ---------------------------------------------------------------- Optional

  /** Optional absorbs a failure: it returns its input state with a nil
      payload; a success is returned as it is. */
  lemma OptionalLaw(q: Parser, s: State, fuel: nat)
    requires s.Valid()
    ensures var o, r := Apply(q, s, fuel), Apply(Optional(q), s, fuel);
      && (r.Halts? <==> o.Halts?)
      && (o.Halts? && o.state.isError ==> r == Halts(s.SetResult(Nil)))
      && (o.Halts? && !o.state.isError ==> r == o)
      && (r.Halts? ==> r.state.isError == s.isError)
  {
  }

  // ---------------------------------------------------------------- error pass-through

  /** Parsers whose transition function starts with `if state.IsError { return state }`,
      possibly under Maps.  Optional, ErrorMap, Lazy and rule references are
      not of this kind. */
  predicate Guarded(p: Parser) {
    match p
    case Map(q, _) => Guarded(q)
    case Lazy(_) => false
    case Optional(_) => false
    case ErrorMap(_, _) => false
    case Rule(_) => false
    case Grammar(_, _) => false
    case _ => true
  }

  /** A guarded parser returns an already failed state unchanged. */
  lemma {:induction false} GuardedPassesErrors(p: Parser, s: State, fuel: nat)
    requires s.Valid() && s.isError && Guarded(p)
    ensures Apply(p, s, fuel) == Halts(s)
  {
    match p
    case Map(q, _) => GuardedPassesErrors(q, s, fuel);
    case _ =>
  }

  // ---------------------------------------------------------------- String

  /** String(p) run on `p + rest` matches `p` and stops right after it
      (unless the whole input is empty, which is an end-of-input failure). */
  lemma StringMatchesPrefix(pattern: string, rest: string, fuel: nat)
    requires |pattern + rest| > 0
    ensures Run(Literal(pattern), pattern + rest, fuel)
         == Halts(State(false, pattern + rest, |pattern|, Str(pattern), Plain("")))
  {
    assert pattern <= pattern + rest;
  }

  /** String(p) on input that does not start with `p` fails without consuming. */
  lemma StringMismatchConsumesNothing(pattern: string, s: State, fuel: nat)
    requires s.Valid() && !s.isError && !(pattern <= s.Rest())
    ensures Fails(Literal(pattern), s, fuel)
    ensures Apply(Literal(pattern), s, fuel).state.index == s.index
  {
  }

  // ---------------------------------------------------------------- And

  /** One step of And's loop: the i-th part runs on the threaded state and
      its payload goes in front of the later parts' payloads. */
  lemma AndLoopCons(p: Parser, i: nat, st: State, fuel: nat, t: State, last: State, rest: seq<Res>)
    requires p.And? && i < |p.parsers| && st.Valid() && Apply(p.parsers[i], st, fuel) == Halts(t)
    requires AndLoop(p, i + 1, t, fuel) == Collected(last, rest)
    ensures AndLoop(p, i, st, fuel) == Collected(last, [t.result] + rest)
  {
  }

  /** And's outcome once its loop is known. */
  lemma AndHalts(p: Parser, s: State, fuel: nat, last: State, results: seq<Res>)
    requires p.And? && s.Valid() && !s.isError && AndLoop(p, 0, s, fuel) == Collected(last, results)
    ensures Apply(p, s, fuel) == Halts(last.SetResult(List(results)))
  {
  }

  /** A two-part And threads the state through both parts. */
  lemma AndOfTwo(x: Parser, y: Parser, s: State, fuel: nat, a: State, b: State)
    requires s.Valid() && !s.isError
    requires Apply(x, s, fuel) == Halts(a) && Apply(y, a, fuel) == Halts(b)
    ensures Apply(And([x, y]), s, fuel) == Halts(b.SetResult(List([a.result, b.result])))
  {
    var p := And([x, y]);
    AndLoopCons(p, 1, a, fuel, b, b, []);
    AndLoopCons(p, 0, s, fuel, a, b, [b.result]);
    AndHalts(p, s, fuel, b, [a.result, b.result]);
  }

  /** A three-part And threads the state through its three parts. */
  lemma AndOfThree(x: Parser, y: Parser, z: Parser, s: State, fuel: nat, a: State, d: State, c: State)
    requires s.Valid() && !s.isError
    requires Apply(x, s, fuel) == Halts(a) && Apply(y, a, fuel) == Halts(d)
    requires Apply(z, d, fuel) == Halts(c)
    ensures Apply(And([x, y, z]), s, fuel) == Halts(c.SetResult(List([a.result, d.result, c.result])))
  {
    var p := And([x, y, z]);
    ThreeParts(p, s, fuel, a, d, c);
    AndHalts(p, s, fuel, c, [a.result, d.result, c.result]);
  }

  /** And's loop over three parts. */
  lemma ThreeParts(p: Parser, s: State, fuel: nat, a: State, d: State, c: State)
    requires p.And? && |p.parsers| == 3 && s.Valid()
    requires Apply(p.parsers[0], s, fuel) == Halts(a) && Apply(p.parsers[1], a, fuel) == Halts(d)
    requires Apply(p.parsers[2], d, fuel) == Halts(c)
    ensures AndLoop(p, 0, s, fuel) == Collected(c, [a.result, d.result, c.result])
  {
    AndLoopCons(p, 2, d, fuel, c, c, []);
    AndLoopCons(p, 1, a, fuel, d, c, [c.result]);
    AndLoopCons(p, 0, s, fuel, a, c, [d.result, c.result]);
  }

  /** After a failure, a run of guarded parsers leaves the failed state as it
      is and only collects its payload once per remaining parser. */
  lemma {:induction false} AndLoopKeepsFailure(p: Parser, i: nat, st: State, fuel: nat)
    requires p.And? && i <= |p.parsers| && st.Valid() && st.isError
    requires forall j :: i <= j < |p.parsers| ==> Guarded(p.parsers[j])
    ensures AndLoop(p, i, st, fuel) == Collected(st, seq(|p.parsers| - i, _ => st.result))
    decreases |p.parsers| - i
  {
    if i < |p.parsers| {
      GuardedPassesErrors(p.parsers[i], st, fuel);
      AndLoopKeepsFailure(p, i + 1, st, fuel);
      assert [st.result] + seq(|p.parsers| - (i + 1), _ => st.result)
          == seq(|p.parsers| - i, _ => st.result);
    }
  }

  /** When the first part of an And fails and the later parts are guarded,
      the And reports exactly that failure: its message and index. */
  lemma AndReportsFirstFailure(p: Parser, s: State, fuel: nat)
    requires p.And? && |p.parsers| > 0 && s.Valid() && !s.isError
    requires Fails(p.parsers[0], s, fuel)
    requires forall j :: 1 <= j < |p.parsers| ==> Guarded(p.parsers[j])
    ensures var e := Apply(p.parsers[0], s, fuel).state;
      Apply(p, s, fuel) == Halts(e.SetResult(List(seq(|p.parsers|, _ => e.result))))
  {
    var e := Apply(p.parsers[0], s, fuel).state;
    AndLoopKeepsFailure(p, 1, e, fuel);
    assert [e.result] + seq(|p.parsers| - 1, _ => e.result) == seq(|p.parsers|, _ => e.result);
  }

  /** Wherever the first failure happens, And reports it: when part k fails
      on the state threaded to it and the later parts are guarded, the And
      ends in that failed state, with its message and index, and the list of
      payloads as its payload. */
  lemma AndReportsFailureAt(p: Parser, s: State, fuel: nat, k: nat) returns (u: State, v: State)
    requires p.And? && k < |p.parsers| && s.Valid() && !s.isError && Apply(p, s, fuel).Halts?
    requires forall j :: k < j < |p.parsers| ==> Guarded(p.parsers[j])
    ensures Follows(s, u) && Apply(p.parsers[k], u, fuel) == Halts(v)
    ensures AndLoop(p, 0, s, fuel).Collected? && AndLoop(p, 0, s, fuel).results[k] == v.result
    ensures v.isError ==> Apply(p, s, fuel) == Halts(v.SetResult(List(AndLoop(p, 0, s, fuel).results)))
  {
    u, v := AndPart(p, 0, s, fuel, k);
    if v.isError {
      AndLoopKeepsFailure(p, k + 1, v, fuel);
    }
  }

  /** The k-th payload of an And is what its k-th part produced on the state
      threaded to it; when the And succeeds, every part succeeded. */
  lemma {:induction false} AndPart(p: Parser, i: nat, st: State, fuel: nat, k: nat) returns (u: State, v: State)
    requires p.And? && i <= k < |p.parsers| && st.Valid()
    requires AndLoop(p, i, st, fuel).Collected?
    ensures u.Valid() && Follows(st, u) && Follows(v, AndLoop(p, i, st, fuel).last)
    ensures Apply(p.parsers[k], u, fuel) == Halts(v)
    ensures AndLoop(p, i, st, fuel).results[k - i] == v.result
    ensures !AndLoop(p, i, st, fuel).last.isError ==> !u.isError && !v.isError
    ensures AndLoop(p, k + 1, v, fuel)
         == Collected(AndLoop(p, i, st, fuel).last, AndLoop(p, i, st, fuel).results[k + 1 - i..])
    decreases k - i
  {
    var t := Apply(p.parsers[i], st, fuel).state;
    if k == i {
      u, v := st, t;
    } else {
      u, v := AndPart(p, i + 1, t, fuel, k);
    }
  }

  /** And returns one payload per part, in order. */
  lemma AndCollectsOnePayloadPerPart(p: Parser, s: State, fuel: nat)
    requires p.And? && s.Valid() && !s.isError && Apply(p, s, fuel).Halts?
    ensures Apply(p, s, fuel).state.result.List?
    ensures |Apply(p, s, fuel).state.result.items| == |p.parsers|
  {
  }

  // ---------------------------------------------------------------- Or

  /** Failing alternatives are skipped: the loop goes on from the same state. */
  lemma {:induction false} OrLoopSkipsFailures(p: Parser, i: nat, k: nat, s: State, fuel: nat)
    requires p.Or? && i <= k < p.Arity() && s.Valid() && !s.isError
    requires forall j :: i <= j < k ==> Fails(p.Alternative(j), s, fuel)
    ensures OrLoop(p, i, s, fuel) == OrLoop(p, k, s, fuel)
    decreases k - i
  {
    if i < k {
      OrLoopSkipsFailures(p, i + 1, k, s, fuel);
    }
  }

  /** Or returns the first alternative that succeeds from the original state. */
  lemma OrPicksFirstSuccess(p: Parser, s: State, fuel: nat, k: nat)
    requires p.Or? && k < p.Arity() && s.Valid() && !s.isError
    requires forall j :: 0 <= j < k ==> Fails(p.Alternative(j), s, fuel)
    requires Succeeds(p.Alternative(k), s, fuel)
    ensures Apply(p, s, fuel) == Apply(p.Alternative(k), s, fuel)
  {
    OrLoopSkipsFailures(p, 0, k, s, fuel);
  }

  /** When every alternative fails, Or fails at the last alternative's index. */
  lemma OrAllFail(p: Parser, s: State, fuel: nat)
    requires p.Or? && s.Valid() && !s.isError
    requires forall j :: 0 <= j < p.Arity() ==> Fails(p.Alternative(j), s, fuel)
    ensures Fails(p.Alternative(p.Arity() - 1), s, fuel)
    ensures var last := Apply(p.Alternative(p.Arity() - 1), s, fuel).state;
      Apply(p, s, fuel) == Halts(last.SetError(NoMatches(last.index)))
  {
    OrLoopSkipsFailures(p, 0, p.Arity() - 1, s, fuel);
  }

  /** Conversely, a success of Or is the success of some alternative k, and
      every alternative before k failed. */
  lemma {:induction false} OrLoopWinner(p: Parser, i: nat, s: State, fuel: nat) returns (k: nat)
    requires p.Or? && i < p.Arity() && s.Valid() && !s.isError
    requires OrLoop(p, i, s, fuel).Halts? && !OrLoop(p, i, s, fuel).state.isError
    ensures i <= k < p.Arity() && Apply(p.Alternative(k), s, fuel) == OrLoop(p, i, s, fuel)
    ensures forall j :: i <= j < k ==> Fails(p.Alternative(j), s, fuel)
    decreases p.Arity() - i
  {
    var o := Apply(p.Alternative(i), s, fuel);
    if !o.state.isError {
      k := i;
    } else {
      k := OrLoopWinner(p, i + 1, s, fuel);
    }
  }

  lemma OrWinner(p: Parser, s: State, fuel: nat) returns (k: nat)
    requires p.Or? && s.Valid() && !s.isError && Succeeds(p, s, fuel)
    ensures k < p.Arity() && Apply(p.Alternative(k), s, fuel) == Apply(p, s, fuel)
    ensures forall j :: 0 <= j < k ==> Fails(p.Alternative(j), s, fuel)
  {
    k := OrLoopWinner(p, 0, s, fuel);
  }

  /** And a failure of Or means that every alternative failed. */
  lemma {:induction false} OrLoopLoser(p: Parser, i: nat, s: State, fuel: nat)
    requires p.Or? && i < p.Arity() && s.Valid() && !s.isError
    requires OrLoop(p, i, s, fuel).Halts? && OrLoop(p, i, s, fuel).state.isError
    ensures forall j :: i <= j < p.Arity() ==> Fails(p.Alternative(j), s, fuel)
    decreases p.Arity() - i
  {
    if i + 1 < p.Arity() {
      OrLoopLoser(p, i + 1, s, fuel);
    }
  }

  lemma OrFailsOnlyIfAllFail(p: Parser, s: State, fuel: nat)
    requires p.Or? && s.Valid() && !s.isError && Fails(p, s, fuel)
    ensures forall j :: 0 <= j < p.Arity() ==> Fails(p.Alternative(j), s, fuel)
  {
    OrLoopLoser(p, 0, s, fuel);
  }
}
