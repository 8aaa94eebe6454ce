/**
  The immutable parse state of the combinator library (core/state.go).

  Go's `State` carries an untyped `Result any`; here the payload is the closed
  variant `Res`, which covers every shape the core itself produces: nothing
  (Go's nil), a string, or a list of payloads.  Error messages, which the
  source formats with `fmt.Sprintf`, are kept as the small variant `Msg`
  instead of formatted text.
*/
module ParseState {

  /** Success payload: Go's nil, a string, or a slice of payloads. */
  datatype Res = Nil | Str(s: string) | List(items: seq<Res>)

  /** Failure messages, one variant per message shape the core emits. */
  datatype Msg =
    | Plain(text: string)                      // free text: the initial "" and ErrorMap output
    | EndOfInput(expected: string)             // expected something but no input remained
    | Mismatch(expected: string, got: string)  // a literal did not match the remaining input
    | ExpectedAt(expected: string, at: int)    // no letter / digit at the cursor
    | NoMatches(at: int)                       // every alternative of an Or failed
    | AtLeastOne(at: int)                      // a ManyOne / SeperatedOne matched nothing

  /**
    One snapshot of a parse.  `index` is a byte offset into `target`; the
    model reads `target` as one character per byte (ASCII input).
  */
  datatype State = State(isError: bool, target: string, index: int, result: Res, error: Msg)
  {
    /** The cursor lies inside the target (slicing `target[index:]` is safe). */
    predicate Valid() {
      0 <= index <= |target|
    }

    /** The input that is still to be parsed. */
    function Rest(): (r: string)
      requires Valid()
      ensures |r| == |target| - index
    {
      target[index..]
    }

    /** Copy with the cursor moved; every other field is kept. */
    function SetIndex(i: int): (r: State)
      ensures r.index == i
      ensures r.isError == isError && r.target == target
      ensures r.result == result && r.error == error
    {
      this.(index := i)
    }

    /** Copy with a new payload; every other field is kept. */
    function SetResult(x: Res): (r: State)
      ensures r.result == x
      ensures r.isError == isError && r.target == target
      ensures r.index == index && r.error == error
    {
      this.(result := x)
    }

    /** Copy marked as failed with message `m`; cursor, target and payload are kept. */
    function SetError(m: Msg): (r: State)
      ensures r.isError && r.error == m
      ensures r.target == target && r.index == index && r.result == result
    {
      this.(isError := true, error := m)
    }
  }

  /** The state `Run` starts from: no error, cursor 0, nil payload, empty message. */
  function Initial(target: string): (s: State)
    ensures s.Valid() && !s.isError
    ensures s.target == target && s.index == 0
    ensures s.result == Nil && s.error == Plain("")
  {
    State(false, target, 0, Nil, Plain(""))
  }

  /** No setter changes the target, and validity only depends on the cursor. */
  lemma SettersKeepTarget(s: State, i: int, x: Res, m: Msg)
    ensures s.SetIndex(i).target == s.target
    ensures s.SetResult(x).target == s.target && s.SetError(m).target == s.target
    ensures s.Valid() ==> s.SetResult(x).Valid() && s.SetError(m).Valid()
  {
  }

  /** Setters of different fields commute; String relies on this when it sets the
      payload and then the cursor. */
  lemma SettersCommute(s: State, i: int, x: Res, m: Msg)
    ensures s.SetResult(x).SetIndex(i) == s.SetIndex(i).SetResult(x)
    ensures s.SetError(m).SetIndex(i) == s.SetIndex(i).SetError(m)
    ensures s.SetError(m).SetResult(x) == s.SetResult(x).SetError(m)
  {
  }
}
