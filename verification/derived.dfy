/**
  Parsers that core/parsers.go builds from the others: WhiteSpace, Between
  and the payload helper fromAnyArraytoStringArray (Number has a module of
  its own).  The source wraps
  each of them, and each constructor inside them, in a Lazy with a constant
  thunk; the model leaves those wrappers out, and the Wrapping module shows
  that they change no answer (Wrapping.BuilderAsBuilt,
  Wrapping.BetweenAsBuilt, Wrapping.PaddedAgrees).
*/
module Derived {
  import opened ParseState
  import opened Scan
  import opened Engine
  import opened Adequacy
  import opened Laws

  // ---------------------------------------------------------------- WhiteSpace

  /** One of the four whitespace literals, tried in the source's order. */
  function SpaceChar(): Parser {
    Or(Literal(" "), [Literal("\t"), Literal("\n"), Literal("\r")])
  }

  /** WhiteSpace(): any number of whitespace characters, payload "". */
  function WhiteSpace(): Parser {
    Map(Many(SpaceChar()), _ => Str(""))
  }

  /** SpaceChar consumes exactly one whitespace character, or fails. */
  lemma SpaceCharStep(st: State, fuel: nat)
    requires st.Valid() && !st.isError
    ensures Apply(SpaceChar(), st, fuel).Halts?
    ensures var t := Apply(SpaceChar(), st, fuel).state;
      && (!t.isError <==> |st.Rest()| > 0 && In(Space, st.Rest()[0]))
      && (!t.isError ==> t == st.SetResult(Str([st.Rest()[0]])).SetIndex(st.index + 1))
  {
    var p := SpaceChar();
    var rest := st.Rest();
    if |rest| > 0 && In(Space, rest[0]) {
      var k := if rest[0] == ' ' then 0 else if rest[0] == '\t' then 1 else if rest[0] == '\n' then 2 else 3;
      assert p.Alternative(k).Literal? && p.Alternative(k).pattern == [rest[0]];
      assert [rest[0]] <= rest;
      forall j | 0 <= j < k
        ensures Fails(p.Alternative(j), st, fuel)
      {
        assert p.Alternative(j).pattern[0] != rest[0];
      }
      OrPicksFirstSuccess(p, st, fuel, k);
    } else {
      forall j | 0 <= j < p.Arity()
        ensures Fails(p.Alternative(j), st, fuel)
      {
        assert |p.Alternative(j).pattern| == 1 && In(Space, p.Alternative(j).pattern[0]);
      }
      OrAllFail(p, st, fuel);
    }
  }

  lemma {:induction false} SkipSpaces(st: State, fuel: nat)
    requires st.Valid() && !st.isError
    ensures var c := RepeatLoop(SpaceChar(), st, fuel);
      c.Collected? && SameButResult(c.last, st.SetIndex(st.index + Span(Space, st.Rest())))
    decreases |st.target| - st.index
  {
    SpaceCharStep(st, fuel);
    var t := Apply(SpaceChar(), st, fuel).state;
    if !t.isError {
      assert t.Rest() == st.Rest()[1..];
      SkipSpaces(t, fuel);
    }
  }

  /** WhiteSpace never fails: it skips the longest leading run of spaces,
      tabs, newlines and carriage returns and yields the payload "". */
  lemma WhiteSpaceSkipsRun(s: State, fuel: nat)
    requires s.Valid() && !s.isError
    ensures Apply(WhiteSpace(), s, fuel)
         == Halts(s.SetIndex(s.index + Span(Space, s.Rest())).SetResult(Str("")))
  {
    SkipSpaces(s, fuel);
  }

  // ---------------------------------------------------------------- Between

  /** The seven parts Between sequences; the content is the fourth. */
  function BetweenParts(brackets: string, content: Parser): seq<Parser>
    requires |brackets| >= 2
  {
    [WhiteSpace(), Literal([brackets[0]]), WhiteSpace(), content,
     WhiteSpace(), Literal([brackets[1]]), WhiteSpace()]
  }

  /** The payload Between keeps: the fourth element of the sequence's list.
      The source's type assertion would panic on any other shape, which the
      seven-part And never produces. */
  function Fourth(r: Res): Res {
    if r.List? && |r.items| > 3 then r.items[3] else Nil
  }

  /** Between(brackets, content): `content` inside the two bracket characters,
      whitespace allowed around each.  The source indexes brackets[0] and
      brackets[1], so it needs two characters. */
  function Between(brackets: string, content: Parser): Parser
    requires |brackets| >= 2
  {
    Map(And(BetweenParts(brackets, content)), Fourth)
  }

  /** A one-character literal that succeeds sits on that character. */
  lemma BracketAt(c: char, u: State, fuel: nat, v: State)
    requires u.Valid() && Apply(Literal([c]), u, fuel) == Halts(v) && !v.isError
    ensures u.index < |u.target| && u.target[u.index] == c && v.index == u.index + 1
  {
    assert [c] <= u.Rest();
    assert u.Rest()[0] == u.target[u.index];
  }

  /** The last five of seven parts, when they succeeded and the sixth is a
      one-character literal: the fourth part runs before that character. */
  lemma ClosingPart(p: Parser, close: char, st: State, fuel: nat, d: Collected)
      returns (u: State, v: State)
    requires p.And? && |p.parsers| == 7 && p.parsers[5] == Literal([close]) && st.Valid()
    requires d == AndLoop(p, 2, st, fuel) && d.Collected? && !d.last.isError
    ensures Follows(st, u) && Follows(v, d.last)
    ensures Apply(p.parsers[3], u, fuel) == Halts(v) && !v.isError && d.results[1] == v.result
    ensures exists j :: v.index <= j < d.last.index && st.target[j] == close
  {
    u, v := AndPart(p, 2, st, fuel, 3);
    var u5, v5 := AndPart(p, 4, v, fuel, 5);
    BracketAt(close, u5, fuel, v5);
  }

  /** A seven-part sequence that succeeded, with one-character literals
      second and sixth: the fourth part runs between the two characters. */
  lemma BracketedPart(p: Parser, open: char, close: char, s: State, fuel: nat, c: Collected)
      returns (u: State, v: State)
    requires p.And? && |p.parsers| == 7
    requires p.parsers[1] == Literal([open]) && p.parsers[5] == Literal([close])
    requires s.Valid() && !s.isError
    requires c == AndLoop(p, 0, s, fuel) && c.Collected? && !c.last.isError
    ensures Follows(s, u) && Follows(v, c.last)
    ensures Apply(p.parsers[3], u, fuel) == Halts(v) && !v.isError && c.results[3] == v.result
    ensures exists j :: s.index <= j < u.index && s.target[j] == open
    ensures exists j :: v.index <= j < c.last.index && s.target[j] == close
  {
    var u1, v1 := AndPart(p, 0, s, fuel, 1);
    BracketAt(open, u1, fuel, v1);
    u, v := ClosingPart(p, close, v1, fuel, AndLoop(p, 2, v1, fuel));
    assert c.results[2..][1] == c.results[3];
  }

  /** A success of Between contains an opening bracket, then a success of the
      content whose payload is Between's payload, then a closing bracket. */
  lemma BetweenYieldsContent(brackets: string, content: Parser, s: State, fuel: nat) returns (u: State, v: State)
    requires |brackets| >= 2 && s.Valid() && !s.isError
    requires Succeeds(Between(brackets, content), s, fuel)
    ensures var t := Apply(Between(brackets, content), s, fuel).state;
      && Follows(s, u) && Follows(v, t)
      && Apply(content, u, fuel) == Halts(v) && !v.isError
      && t.result == v.result
      && (exists j :: s.index <= j < u.index && s.target[j] == brackets[0])
      && (exists j :: v.index <= j < t.index && s.target[j] == brackets[1])
  {
    var p := And(BetweenParts(brackets, content));
    MapLaw(p, Fourth, s, fuel);
    var c := AndLoop(p, 0, s, fuel);
    assert Apply(p, s, fuel) == Halts(c.last.SetResult(List(c.results)));
    u, v := BracketedPart(p, brackets[0], brackets[1], s, fuel, c);
  }

  // ---------------------------------------------------------------- fromAnyArraytoStringArray

  /** A list payload made only of strings. */
  predicate StringList(r: Res) {
    r.List? && forall k :: 0 <= k < |r.items| ==> r.items[k].Str?
  }

  /** fromAnyArraytoStringArray: the strings of a list payload.  A payload
      that is not a list gives no strings; a list element that is not a
      string makes the source panic, so it is excluded. */
  function StringsOf(r: Res): (out: seq<string>)
    requires r.List? ==> StringList(r)
    ensures !r.List? ==> out == []
    ensures r.List? ==> |out| == |r.items|
    ensures r.List? ==> forall k :: 0 <= k < |out| ==> r.items[k] == Str(out[k])
  {
    if r.List? then seq(|r.items|, k requires 0 <= k < |r.items| => r.items[k].s) else []
  }

  /** The list payload of some strings. */
  function StrList(xs: seq<string>): (r: Res)
    ensures StringList(r)
  {
    List(seq(|xs|, k requires 0 <= k < |xs| => Str(xs[k])))
  }

  /** StringsOf undoes StrList, and StrList undoes StringsOf on string lists. */
  lemma StringsOfRoundTrip(xs: seq<string>, r: Res)
    ensures StringsOf(StrList(xs)) == xs
    ensures StringList(r) ==> StrList(StringsOf(r)) == r
  {
  }

  /** strings.Join(xs, ""). */
  function Join(xs: seq<string>): string {
    if |xs| == 0 then "" else xs[0] + Join(xs[1..])
  }
}
