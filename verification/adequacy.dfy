/**
  Two facts about the interpreter as a whole.

  - The incoming payload does not steer a parse: states that differ only in
    `result` lead to the same outcome, with equal payloads on success.  This
    is what makes a repetition whose inner parser succeeds without consuming
    input spin for ever in the source (Repetition.StalledRepeatIsFixedPoint).
  - Fuel only bounds Lazy and Grammar unfolding: once a parse halts, more
    fuel gives the very same answer, so `Diverges` for lack of fuel is never
    a wrong answer, only a missing one.
*/
module Adequacy {
  import opened ParseState
  import opened Engine

  /** Two states that differ at most in their payload. */
  predicate SameButResult(a: State, b: State) {
    a.isError == b.isError && a.target == b.target && a.index == b.index && a.error == b.error
  }

  /** Same but payload, and the same payload too when they are successes. */
  predicate Alike(a: State, b: State) {
    SameButResult(a, b) && (!a.isError ==> a.result == b.result)
  }

  predicate AlikeOutcomes(o1: Outcome, o2: Outcome) {
    o1.Halts? == o2.Halts? && (o1.Halts? ==> Alike(o1.state, o2.state))
  }

  /** The outcome of a parser does not depend on the payload it is handed. */
  lemma {:induction false} ResultIrrelevant(p: Parser, s1: State, s2: State, fuel: nat)
    requires s1.Valid() && s2.Valid() && SameButResult(s1, s2)
    ensures AlikeOutcomes(Apply(p, s1, fuel), Apply(p, s2, fuel))
    decreases fuel, p, 2, 0
  {
    match p
    case Lazy(thunk) =>
      if fuel > 0 {
        ResultIrrelevant(thunk(), s1, s2, fuel - 1);
      }
    case Literal(_) =>
    case Letters =>
    case Digits =>
    case And(_) =>
      if !s1.isError {
        AndLoopResultIrrelevant(p, 0, s1, s2, fuel);
      }
    case Or(_, _) =>
      if !s1.isError {
        OrLoopResultIrrelevant(p, 0, s1, s2, fuel);
      }
    case Repeat(_, _) =>
      if !s1.isError {
        RepeatLoopResultIrrelevant(p.inner, s1, s2, fuel);
      }
    case SepBy(_, _, _) =>
      if !s1.isError {
        SepLoopResultIrrelevant(p, s1, s2, fuel);
      }
    case Optional(q) =>
      ResultIrrelevant(q, s1, s2, fuel);
    case Map(q, _) =>
      ResultIrrelevant(q, s1, s2, fuel);
    case ErrorMap(q, _) =>
      ResultIrrelevant(q, s1, s2, fuel);
    case Rule(_) =>
    case Grammar(rules, start) =>
      if fuel > 0 && start < |rules| {
        ResultIrrelevant(Resolve(rules[start], rules), s1, s2, fuel - 1);
      }
  }

  lemma {:induction false} AndLoopResultIrrelevant(p: Parser, i: nat, st1: State, st2: State, fuel: nat)
    requires p.And? && i <= |p.parsers| && st1.Valid() && st2.Valid() && SameButResult(st1, st2)
    ensures var c1, c2 := AndLoop(p, i, st1, fuel), AndLoop(p, i, st2, fuel);
      c1.Collected? == c2.Collected? &&
      (c1.Collected? ==> SameButResult(c1.last, c2.last) && (!c1.last.isError ==> c1.results == c2.results))
    decreases fuel, p, 1, |p.parsers| - i
  {
    if i < |p.parsers| {
      ResultIrrelevant(p.parsers[i], st1, st2, fuel);
      var o1, o2 := Apply(p.parsers[i], st1, fuel), Apply(p.parsers[i], st2, fuel);
      if o1.Halts? {
        AndLoopResultIrrelevant(p, i + 1, o1.state, o2.state, fuel);
      }
    }
  }

  lemma {:induction false} OrLoopResultIrrelevant(p: Parser, i: nat, s1: State, s2: State, fuel: nat)
    requires p.Or? && i < p.Arity() && s1.Valid() && s2.Valid() && !s1.isError && SameButResult(s1, s2)
    ensures AlikeOutcomes(OrLoop(p, i, s1, fuel), OrLoop(p, i, s2, fuel))
    decreases fuel, p, 1, p.Arity() - i
  {
    ResultIrrelevant(p.Alternative(i), s1, s2, fuel);
    var o1 := Apply(p.Alternative(i), s1, fuel);
    if o1.Halts? && o1.state.isError && i + 1 < p.Arity() {
      OrLoopResultIrrelevant(p, i + 1, s1, s2, fuel);
    }
  }

  lemma {:induction false} RepeatLoopResultIrrelevant(q: Parser, st1: State, st2: State, fuel: nat)
    requires st1.Valid() && st2.Valid() && !st1.isError && SameButResult(st1, st2)
    ensures var c1, c2 := RepeatLoop(q, st1, fuel), RepeatLoop(q, st2, fuel);
      c1.Collected? == c2.Collected? &&
      (c1.Collected? ==> SameButResult(c1.last, c2.last) && c1.results == c2.results)
    decreases fuel, q, 3, 0
  {
    ResultIrrelevant(q, st1, st2, fuel);
  }

  lemma {:induction false} SepLoopResultIrrelevant(p: Parser, st1: State, st2: State, fuel: nat)
    requires p.SepBy? && st1.Valid() && st2.Valid() && !st1.isError && SameButResult(st1, st2)
    ensures var c1, c2 := SepLoop(p, st1, fuel), SepLoop(p, st2, fuel);
      c1.Collected? == c2.Collected? &&
      (c1.Collected? ==> SameButResult(c1.last, c2.last) && c1.results == c2.results)
    decreases fuel, p, 1, 0
  {
    ResultIrrelevant(p.value, st1, st2, fuel);
  }

  /** More fuel never changes an answer that was already reached. */
  lemma {:induction false} FuelMonotone(p: Parser, s: State, fuel: nat, more: nat)
    requires s.Valid() && fuel <= more && Apply(p, s, fuel).Halts?
    ensures Apply(p, s, more) == Apply(p, s, fuel)
    decreases fuel, p, 2, 0
  {
    match p
    case Lazy(thunk) =>
      FuelMonotone(thunk(), s, fuel - 1, more - 1);
    case Literal(_) =>
    case Letters =>
    case Digits =>
    case And(_) =>
      if !s.isError {
        AndLoopFuelMonotone(p, 0, s, fuel, more);
      }
    case Or(_, _) =>
      if !s.isError {
        OrLoopFuelMonotone(p, 0, s, fuel, more);
      }
    case Repeat(_, _) =>
      if !s.isError {
        RepeatLoopFuelMonotone(p.inner, s, fuel, more);
      }
    case SepBy(_, _, _) =>
      if !s.isError {
        SepLoopFuelMonotone(p, s, fuel, more);
      }
    case Optional(q) =>
      FuelMonotone(q, s, fuel, more);
    case Map(q, _) =>
      FuelMonotone(q, s, fuel, more);
    case ErrorMap(q, _) =>
      FuelMonotone(q, s, fuel, more);
    case Rule(_) =>
    case Grammar(rules, start) =>
      FuelMonotone(Resolve(rules[start], rules), s, fuel - 1, more - 1);
  }

  lemma {:induction false} AndLoopFuelMonotone(p: Parser, i: nat, st: State, fuel: nat, more: nat)
    requires p.And? && i <= |p.parsers| && st.Valid() && fuel <= more
    requires AndLoop(p, i, st, fuel).Collected?
    ensures AndLoop(p, i, st, more) == AndLoop(p, i, st, fuel)
    decreases fuel, p, 1, |p.parsers| - i
  {
    if i < |p.parsers| {
      FuelMonotone(p.parsers[i], st, fuel, more);
      AndLoopFuelMonotone(p, i + 1, Apply(p.parsers[i], st, fuel).state, fuel, more);
    }
  }

  lemma {:induction false} OrLoopFuelMonotone(p: Parser, i: nat, s: State, fuel: nat, more: nat)
    requires p.Or? && i < p.Arity() && s.Valid() && !s.isError && fuel <= more
    requires OrLoop(p, i, s, fuel).Halts?
    ensures OrLoop(p, i, s, more) == OrLoop(p, i, s, fuel)
    decreases fuel, p, 1, p.Arity() - i
  {
    FuelMonotone(p.Alternative(i), s, fuel, more);
    var t := Apply(p.Alternative(i), s, fuel).state;
    if t.isError && i + 1 < p.Arity() {
      OrLoopFuelMonotone(p, i + 1, s, fuel, more);
    }
  }

  lemma {:induction false} RepeatLoopFuelMonotone(q: Parser, st: State, fuel: nat, more: nat)
    requires st.Valid() && !st.isError && fuel <= more
    requires RepeatLoop(q, st, fuel).Collected?
    ensures RepeatLoop(q, st, more) == RepeatLoop(q, st, fuel)
    decreases fuel, q, 3, |st.target| - st.index
  {
    FuelMonotone(q, st, fuel, more);
    var t := Apply(q, st, fuel).state;
    if !t.isError && t.index != st.index {
      RepeatLoopFuelMonotone(q, t, fuel, more);
    }
  }

  lemma {:induction false} SepLoopFuelMonotone(p: Parser, st: State, fuel: nat, more: nat)
    requires p.SepBy? && st.Valid() && !st.isError && fuel <= more
    requires SepLoop(p, st, fuel).Collected?
    ensures SepLoop(p, st, more) == SepLoop(p, st, fuel)
    decreases fuel, p, 1, |st.target| - st.index
  {
    FuelMonotone(p.value, st, fuel, more);
    var v := Apply(p.value, st, fuel).state;
    if !v.isError {
      FuelMonotone(p.separator, v, fuel, more);
      var w := Apply(p.separator, v, fuel).state;
      if !w.isError && w.index != st.index {
        SepLoopFuelMonotone(p, w, fuel, more);
      }
    }
  }
}
