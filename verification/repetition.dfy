/**
  Repetition and separation: Many, ManyOne, Seperated and SeperatedOne of
  core/parsers.go.
*/
module Repetition {
  import opened ParseState
  import opened Engine
  import opened Adequacy
  import opened Laws

  /** Puts `x` in front of the payload list of a halted outcome. */
  function Cons(x: Res, o: Outcome): Outcome {
    match o
    case Halts(u) => if u.result.List? then Halts(u.SetResult(List([x] + u.result.items))) else o
    case Diverges => Diverges
  }

  // ---------------------------------------------------------------- Many / ManyOne

  /** Many satisfies the recursive equation  Many(q) = q Many(q) | nothing:
      on failure of `q` it succeeds with an empty list at the input state (the
      failed attempt is dropped); on success it continues from there and puts
      the payload first. */
  lemma ManyUnfold(q: Parser, s: State, fuel: nat)
    requires s.Valid() && !s.isError
    ensures Apply(Many(q), s, fuel) ==
      match Apply(q, s, fuel)
      case Diverges => Diverges
      case Halts(t) =>
        if t.isError then Halts(s.SetResult(List([])))
        else if t.index == s.index then Diverges
        else Cons(t.result, Apply(Many(q), t, fuel))
  {
  }

  /** Many never fails on a state that has not failed already. */
  lemma ManyNeverFails(q: Parser, s: State, fuel: nat)
    requires s.Valid() && !s.isError && Apply(Many(q), s, fuel).Halts?
    ensures Succeeds(Many(q), s, fuel)
    ensures Apply(Many(q), s, fuel).state.result.List?
  {
  }

  lemma {:induction false} RepeatLoopStopsWhereInnerFails(q: Parser, st: State, fuel: nat)
    requires st.Valid() && !st.isError && RepeatLoop(q, st, fuel).Collected?
    ensures Fails(q, RepeatLoop(q, st, fuel).last, fuel)
    decreases |st.target| - st.index
  {
    var t := Apply(q, st, fuel).state;
    if !t.isError {
      RepeatLoopStopsWhereInnerFails(q, t, fuel);
    }
  }

  /** Many is greedy: it only stops where one more attempt of `q` fails. */
  lemma ManyStopsWhereInnerFails(q: Parser, s: State, fuel: nat)
    requires s.Valid() && !s.isError && Apply(Many(q), s, fuel).Halts?
    ensures Fails(q, Apply(Many(q), s, fuel).state, fuel)
  {
    var last := RepeatLoop(q, s, fuel).last;
    RepeatLoopStopsWhereInnerFails(q, s, fuel);
    ResultIrrelevant(q, last, Apply(Many(q), s, fuel).state, fuel);
  }

  /** ManyOne is Many that fails, at the unchanged input index, when there
      was no match at all. */
  lemma ManyOneLaw(q: Parser, s: State, fuel: nat)
    requires s.Valid() && !s.isError
    ensures var m, o := Apply(Many(q), s, fuel), Apply(ManyOne(q), s, fuel);
      && (m.Halts? <==> o.Halts?)
      && (m.Halts? ==> m.state.result.List?)
      && (m.Halts? && m.state.result != List([]) ==> o == m)
      && (m.Halts? && m.state.result == List([]) ==> o == Halts(s.SetError(AtLeastOne(s.index))))
  {
  }

  /** A success of `q` that consumes nothing is a fixed point of `q`: from
      the state it produced, `q` produces that state again, so the source's
      loop never exits.  The model answers Diverges there. */
  lemma StalledRepeatIsFixedPoint(q: Parser, s: State, fuel: nat)
    requires s.Valid() && !s.isError && Succeeds(q, s, fuel)
    requires Apply(q, s, fuel).state.index == s.index
    ensures Apply(q, Apply(q, s, fuel).state, fuel) == Apply(q, s, fuel)
    ensures Apply(Many(q), s, fuel) == Diverges && Apply(ManyOne(q), s, fuel) == Diverges
  {
    ResultIrrelevant(q, s, Apply(q, s, fuel).state, fuel);
  }

  // ---------------------------------------------------------------- Seperated / SeperatedOne

  /** Seperated and SeperatedOne share their loop. */
  lemma {:induction false} SepLoopIgnoresFlag(sep: Parser, value: Parser, st: State, fuel: nat)
    requires st.Valid() && !st.isError
    ensures SepLoop(SepBy(sep, value, false), st, fuel) == SepLoop(SepBy(sep, value, true), st, fuel)
    decreases |st.target| - st.index
  {
    var v := Apply(value, st, fuel);
    if v.Halts? && !v.state.isError {
      var w := Apply(sep, v.state, fuel);
      if w.Halts? && !w.state.isError && w.state.index != st.index {
        SepLoopIgnoresFlag(sep, value, w.state, fuel);
      }
    }
  }

  /** The recursive equation of Seperated: a value, then either a separator
      and the rest, or nothing. */
  lemma SeperatedUnfold(sep: Parser, value: Parser, s: State, fuel: nat)
    requires s.Valid() && !s.isError
    ensures Apply(Seperated(sep, value), s, fuel) ==
      match Apply(value, s, fuel)
      case Diverges => Diverges
      case Halts(v) =>
        if v.isError then Halts(s.SetResult(List([])))
        else
          match Apply(sep, v, fuel)
          case Diverges => Diverges
          case Halts(w) =>
            if w.isError then Halts(v.SetResult(List([v.result])))
            else if w.index == s.index then Diverges
            else Cons(v.result, Apply(Seperated(sep, value), w, fuel))
  {
  }

  /** A separator that succeeds but is not followed by a value is consumed:
      the result ends after the separator. */
  lemma TrailingSeparatorIsConsumed(sep: Parser, value: Parser, s: State, fuel: nat)
    requires s.Valid() && !s.isError && Succeeds(value, s, fuel)
    requires Succeeds(sep, Apply(value, s, fuel).state, fuel)
    requires Apply(sep, Apply(value, s, fuel).state, fuel).state.index > s.index
    requires Fails(value, Apply(sep, Apply(value, s, fuel).state, fuel).state, fuel)
    ensures var v := Apply(value, s, fuel).state;
      var w := Apply(sep, v, fuel).state;
      Apply(Seperated(sep, value), s, fuel) == Halts(w.SetResult(List([v.result])))
  {
    var p := SepBy(sep, value, false);
    var v := Apply(value, s, fuel).state;
    var w := Apply(sep, v, fuel).state;
    assert SepLoop(p, w, fuel) == Collected(w, []);
    assert SepLoop(p, s, fuel) == Collected(w, [v.result]);
  }

  lemma {:induction false} SepLoopStops(p: Parser, st: State, fuel: nat)
    requires p.SepBy? && st.Valid() && !st.isError && SepLoop(p, st, fuel).Collected?
    ensures var last := SepLoop(p, st, fuel).last;
      Fails(p.value, last, fuel) || Fails(p.separator, last, fuel)
    decreases |st.target| - st.index
  {
    var v := Apply(p.value, st, fuel).state;
    if !v.isError {
      var w := Apply(p.separator, v, fuel).state;
      if !w.isError {
        SepLoopStops(p, w, fuel);
      }
    }
  }

  /** Seperated stops only where the value parser or the separator fails. */
  lemma SeperatedStopsAtFailure(sep: Parser, value: Parser, s: State, fuel: nat)
    requires s.Valid() && !s.isError && Apply(Seperated(sep, value), s, fuel).Halts?
    ensures var t := Apply(Seperated(sep, value), s, fuel).state;
      !t.isError && t.result.List? && (Fails(value, t, fuel) || Fails(sep, t, fuel))
  {
    var p := SepBy(sep, value, false);
    var last := SepLoop(p, s, fuel).last;
    SepLoopStops(p, s, fuel);
    var t := Apply(Seperated(sep, value), s, fuel).state;
    ResultIrrelevant(value, last, t, fuel);
    ResultIrrelevant(sep, last, t, fuel);
  }

  /** SeperatedOne is Seperated that fails, at the unchanged input index,
      when no value was parsed. */
  lemma SeperatedOneLaw(sep: Parser, value: Parser, s: State, fuel: nat)
    requires s.Valid() && !s.isError
    ensures var m, o := Apply(Seperated(sep, value), s, fuel), Apply(SeperatedOne(sep, value), s, fuel);
      && (m.Halts? <==> o.Halts?)
      && (m.Halts? ==> m.state.result.List?)
      && (m.Halts? && m.state.result != List([]) ==> o == m)
      && (m.Halts? && m.state.result == List([]) ==> o == Halts(s.SetError(AtLeastOne(s.index))))
  {
    SepLoopIgnoresFlag(sep, value, s, fuel);
  }

  /** When a value and a separator together consume nothing, the pair
      repeats the same states for ever in the source; the model answers
      Diverges. */
  lemma StalledSeparationRepeats(sep: Parser, value: Parser, s: State, fuel: nat, v: State, w: State)
    requires s.Valid() && !s.isError
    requires Apply(value, s, fuel) == Halts(v) && !v.isError
    requires Apply(sep, v, fuel) == Halts(w) && !w.isError && w.index == s.index
    ensures Apply(value, w, fuel) == Halts(v)
    ensures Apply(Seperated(sep, value), s, fuel) == Diverges
  {
    ResultIrrelevant(value, s, w, fuel);
    assert SepLoop(SepBy(sep, value, false), s, fuel) == Diverged;
  }
}
