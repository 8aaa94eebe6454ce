# parze in Dafny

parze is a small parser-combinator library in Go. A parser is a state
transformer. The state (`State`) holds the input text, a cursor, a payload of
any type, an error flag and an error message. Combinators build parsers from
other parsers:

- sequencing (`And`), first success (`Or`);
- repetition (`Many`, `ManyOne`) and separated repetition (`Seperated`,
  `SeperatedOne`);
- an optional part (`Optional`);
- payload and message rewriting (`Map`, `ErrorMap`);
- deferred construction for recursive grammars (`Lazy`).

The leaf parsers read a literal (`String`), a run of letters or digits
(`Letters`, `Digits`), whitespace (`WhiteSpace`), a bracketed item (`Between`)
and a decimal number (`Number`). An example evaluates the tree of a
Polish-notation calculator (`Evaluate`).

The model is a deep embedding. `Engine.Parser` is a datatype with one
constructor per combinator. `Engine.Apply` is the interpreter that runs a
parser on a state. It has the same branches, loops and error conditions as
each Go transition function.

A recursive grammar has a cycle in Go: a `Lazy` thunk reads a parser variable
that is assigned later. A Dafny value cannot contain itself, so the model
names such variables. `Grammar(rules, i)` is the i-th of some mutually
recursive parser variables, and `Rule(j)` inside a rule refers to the j-th of
them. Running a grammar unfolds its rule (`Engine.Resolve`), as the Go thunk
does when it reads the variable. `Recursion` proves how the grammar
`nest := digits | "(" nest ")"` reads nested brackets.

Fuel is spent only when a `Lazy` or a `Grammar` unfolds.
`Engine.Outcome` has two cases:

- `Halts(state)` is the state Go would return.
- `Diverges` means the fuel ran out, or a repetition made no progress. Go
  loops forever on such a repetition.

The modules follow the source:

- `ParseState` models `core/state.go`.
- `Scan` models the leading character runs that the regular expressions of
  `Letters` and `Digits` match.
- `Engine` models `core/parser.go` and the transition functions of
  `core/parsers.go`.
- `Adequacy` proves two facts about the interpreter as a whole: the payload
  handed in never steers a parse, and fuel bounds only `Lazy` and `Grammar`.
- `Laws` covers Run, Map, ErrorMap, Lazy, Optional, String, And and Or.
- `Repetition` covers Many, ManyOne, Seperated and SeperatedOne.
- `Derived` covers WhiteSpace, Between and `fromAnyArraytoStringArray`.
- `Numbers` covers Number.
- `Recursion` covers a recursive grammar built from rule references.
- `Wrapping` puts back the constant `Lazy` wrappers that every constructor of
  `core/parsers.go` adds, and shows they change no answer.
- `PolishCalc` covers `Evaluate` of `examples/polishcalc.go`. It uses 64-bit
  wrap-around and Go's truncating division.

Some behaviours of the code are worth knowing:

- `And` does not stop at the first failure. Every later part still runs on
  the failed state. Parts that begin with `if state.IsError { return state }`
  hand the failure on unchanged. `Optional` keeps the failure but resets the
  payload to nil, and a later `ErrorMap` would rewrite the message.
  `Laws.AndReportsFirstFailure` and `Laws.AndReportsFailureAt` therefore
  require the later parts to be guarded.
- `Or` does not return the first error. When every alternative fails, it
  marks the last alternative's state with "no matches".
- `Seperated` consumes a trailing separator that no value follows.
- `Number` leaves a "." without digits after it unconsumed: "12." reads as
  "12".

## Model

| member | source | states |
|---|---|---|
| ParseState.State.SetIndex | core/state.go:17-20 | the copy has the new cursor, and every other field is the original's |
| ParseState.State.SetResult | core/state.go:22-25 | the copy has the new payload, and every other field is the original's |
| ParseState.State.SetError | core/state.go:27-31 | the copy is marked failed with the new message; cursor, target and payload are kept |
| ParseState.SettersKeepTarget | core/state.go:17-31 | no setter changes the target, and setting the payload or the error keeps the cursor in bounds |
| ParseState.SettersCommute | core/state.go:17-31 | setters of different fields commute, so String's "payload then cursor" order is immaterial |
| ParseState.Initial | core/parser.go:34-40 | the state Run starts from is valid and not failed, with the whole input, cursor 0, nil payload and empty message |
| Engine.Run | core/parser.go:33-43 | a halted run ends on the input it was given, with the cursor inside it; a success still carries the initial empty message |
| Laws.RunAppliesOnceToInitial | core/parser.go:33-43 | Run is one application of the parser to the state (no error, input, 0, nil, "") |
| Laws.MapLaw | core/parser.go:9-19 | Map halts exactly when the inner parser does; a failure passes untouched; a success differs only in its payload, which is fn of the inner payload |
| Laws.MapIgnoresFnOnFailure | core/parser.go:12-15 | on a failure any two mapping functions give the same answer: the inner failure |
| Laws.ErrorMapLaw | core/parser.go:21-31 | ErrorMap halts exactly when the inner parser does; a success passes untouched; a failure differs only in its message, which is errFn of the inner message and index |
| Engine.Apply | core/parsers.go:9-307 | every parser of core/parsers.go (and Map and ErrorMap of core/parser.go:9-31, whose laws are the MapLaw and ErrorMapLaw rows) keeps the target and leaves the cursor in bounds and never behind its start; a failed input stays failed at its index; a success keeps the incoming message |
| Engine.AndLoop | core/parsers.go:104-111 | threading a state through the remaining parts collects exactly one payload per part, ends on a state that follows the start, keeps a failed start failed at its index, and a success at the end keeps the start's message |
| Engine.OrLoop | core/parsers.go:124-132 | trying the remaining alternatives from one state ends on a state that follows it, and a success keeps that state's message |
| Engine.RepeatLoop | core/parsers.go:145-157 | repeating a parser until it fails ends on a success that follows the start and keeps its message; with no repetition collected the end state is the start itself |
| Engine.SepLoop | core/parsers.go:204-220 | alternating values and separators until one fails ends on a success that follows the start and keeps its message; with no value collected the end state is the start itself |
| Laws.LazyDelegates | core/parsers.go:9-16 | Lazy runs whatever parser its thunk returns, on the same state |
| Laws.LazyWrapperIsTransparent | core/parsers.go:18-21 | wrapping a parser in Lazy with a constant thunk, as every constructor does, changes no answer given one more unit of fuel |
| Wrapping.PaddedAgrees | core/parsers.go:9-16 | a parse that halts gives the same state once constant Lazy wrappers are put around any of its sub-parsers, given one more unit of fuel per wrapper on a path |
| Wrapping.PaddedAgreesBack | core/parsers.go:9-16 | a parse with constant Lazy wrappers around any sub-parsers that halts gives the same state without them, on the same fuel |
| Wrapping.SourceShape | core/parsers.go:18-307 | a parser as the constructors build it: String, Letters, Digits, And, Or, Many, ManyOne, Seperated, SeperatedOne and Optional each behind a constant Lazy, Map and ErrorMap without one; Wrapping.SourceShapeIsPadded states what that placement preserves |
| Wrapping.SourceShapeIsPadded | core/parsers.go:18-307 | putting a Lazy around every String, Letters, Digits, And, Or, repetition, separated list and Optional, as their constructors do, is such a padding, with Depth(p) wrappers per path |
| Wrapping.ShapeAgrees | core/parsers.go:18-307 | a parse that halts without the constructors' wrappers gives the same state with them, given Depth(p) more fuel |
| Wrapping.ShapeAgreesBack | core/parsers.go:18-307 | a parse with the constructors' wrappers that halts gives the same state without them, on the same fuel |
| Wrapping.BuilderAsBuilt | core/parsers.go:264-277 | a Lazy around the constructor-wrapped form of a parser is a padding of it with Depth(p) + 1 wrappers per path; this is how the source builds WhiteSpace here and Number at core/parsers.go:318-345 |
| Wrapping.SourceWhiteSpace | core/parsers.go:264-277 | WhiteSpace as the source builds it: a Lazy around the Map of the wrapped Many of the wrapped Or of four wrapped String literals; Wrapping.BuilderAsBuilt states it is a padding of the model's WhiteSpace |
| Wrapping.SourceBetween | core/parsers.go:279-293 | Between as the source builds it: a Lazy around the Map of a wrapped seven-part And of wrapped WhiteSpace and String builders and the given content; Wrapping.BetweenAsBuilt states it is a padding of the model's Between |
| Wrapping.BetweenAsBuilt | core/parsers.go:279-293 | Between as the source builds it, whose parts are wrapped WhiteSpace and String builders around a padded content, is a padding of the model's Between |
| Engine.Resolve | core/parsers.go:9-16 | binding a rule's references to its grammar leaves no free reference anywhere outside a Lazy thunk or an inner grammar (`NoFree`); the Go thunk that reads a later-assigned variable is modelled this way |
| Laws.ResolveKeepsClosed | core/parsers.go:9-16 | a parser without free references is left unchanged by Resolve, so binding twice is binding once |
| Laws.GrammarUnfolds | core/parsers.go:11-14 | running a grammar variable runs its rule with the references bound to the same grammar, spending one unit of fuel like the Lazy thunk |
| Recursion.NestReads | core/parsers.go:9-16 | the recursive grammar "nest is digits, or ( nest )" reads n pairs of brackets around digits whole, with one unit of fuel per level and a payload that mirrors the nesting |
| Recursion.NestUnfolds | core/parsers.go:11-14 | running nest runs its rule, digits or a bracketed nest, with the reference bound to nest itself |
| Recursion.NestReadsDoubleBrackets | examples/polishcalc.go:63-70 | the recursive grammar reads "((1))" whole once the fuel covers three unfoldings |
| Adequacy.FuelMonotone | core/parsers.go:9-16 | once a parse halts, more fuel gives the identical answer, so fuel-bounded Lazy never gives a wrong answer |
| Adequacy.ResultIrrelevant | core/parsers.go:149-157 | two states that differ only in payload lead to the same outcome, with equal payloads on success |
| Laws.GuardedPassesErrors | core/parsers.go:22-24 | every parser that starts with the error guard, under any number of Maps, returns a failed state unchanged |
| Engine.StringStep | core/parsers.go:18-42 | String succeeds iff input remains and starts with the pattern; it then advances by the pattern's length and its payload is the consumed slice; otherwise it fails in place, with the end-of-input message when nothing remains |
| Laws.StringMatchesPrefix | core/parsers.go:32-34 | run on pattern + rest, String stops right after the pattern with the pattern as payload |
| Laws.StringMismatchConsumesNothing | core/parsers.go:36-38 | on input not starting with the pattern, String fails without moving the cursor |
| Engine.ClassStep | core/parsers.go:44-94 | Letters and Digits succeed iff the next character is in the class; they then consume a non-empty run of the class that the next character does not continue, and the payload is that run |
| Scan.Span | core/parsers.go:58-61 | the anchored match is the longest prefix of the class: all its characters are in the class, and the next one is not |
| Scan.SpanUnique | core/parsers.go:84-87 | any prefix of the class that is followed by a character outside it, or by the end, is exactly the match |
| Scan.SpanStopsAt | core/parsers.go:84-87 | a run of the class followed by text that starts outside it is matched whole |
| Laws.AndLoopKeepsFailure | core/parsers.go:107-110 | after a failure the remaining guarded parts keep the failed state and each re-collects its payload |
| Laws.AndReportsFirstFailure | core/parsers.go:96-115 | when the first part fails and the later parts are guarded, And ends in that failure with one copy of its payload per part |
| Laws.AndReportsFailureAt | core/parsers.go:104-111 | when part k fails on the state threaded to it and the later parts are guarded, the And ends in that failure, with its message and index, and part k's payload at position k |
| Laws.AndPart | core/parsers.go:104-111 | the k-th payload of And is what the k-th part produced on the state threaded to it; a successful And had every part succeed |
| Laws.AndCollectsOnePayloadPerPart | core/parsers.go:104-111 | And's payload is a list with one entry per part |
| Laws.OrPicksFirstSuccess | core/parsers.go:126-130 | Or returns the answer of the first alternative that succeeds from the original state |
| Laws.OrAllFail | core/parsers.go:126-132 | when every alternative fails, Or fails with the last alternative's state marked "no matches" at its index |
| Laws.OrWinner | core/parsers.go:117-136 | conversely, a success of Or is the success of some alternative, all earlier alternatives having failed |
| Laws.OrFailsOnlyIfAllFail | core/parsers.go:117-136 | a failure of Or means every alternative failed |
| Engine.Many | core/parsers.go:138-163 | Many as a parser value; its behaviour is stated by Repetition.ManyUnfold, ManyNeverFails and ManyStopsWhereInnerFails |
| Engine.ManyOne | core/parsers.go:165-194 | ManyOne as a parser value; its behaviour is stated by Repetition.ManyOneLaw |
| Engine.Seperated | core/parsers.go:196-226 | Seperated as a parser value; its behaviour is stated by Repetition.SeperatedUnfold and SeperatedStopsAtFailure |
| Engine.SeperatedOne | core/parsers.go:228-262 | SeperatedOne as a parser value; its behaviour is stated by Repetition.SeperatedOneLaw |
| Repetition.ManyUnfold | core/parsers.go:138-163 | Many satisfies Many(q) = q Many(q) or nothing: it stops with an empty list where q fails and otherwise puts q's payload first |
| Repetition.ManyNeverFails | core/parsers.go:145-159 | Many never fails and always yields a list |
| Repetition.ManyStopsWhereInnerFails | core/parsers.go:149-157 | Many is greedy: one more attempt of q fails where Many stopped |
| Repetition.ManyOneLaw | core/parsers.go:165-194 | ManyOne is Many, except that no match at all is a failure at the unchanged input |
| Repetition.StalledRepeatIsFixedPoint | core/parsers.go:149-157 | a success of q that consumes nothing reproduces itself, so the source loop never exits; the model answers Diverges |
| Repetition.SepLoopIgnoresFlag | core/parsers.go:239-252 | Seperated and SeperatedOne run the very same loop |
| Repetition.SeperatedUnfold | core/parsers.go:196-226 | Seperated is a value, then either a separator and more, or nothing; no value gives an empty list in place |
| Repetition.TrailingSeparatorIsConsumed | core/parsers.go:215-219 | a separator that no value follows is consumed, and the result ends after it |
| Repetition.SeperatedStopsAtFailure | core/parsers.go:207-220 | Seperated succeeds with a list and stops only where the value or the separator fails |
| Repetition.SeperatedOneLaw | core/parsers.go:254-256 | SeperatedOne is Seperated, except that no value at all is a failure at the unchanged input |
| Repetition.StalledSeparationRepeats | core/parsers.go:207-220 | a value and separator that together consume nothing repeat the same states; the model answers Diverges |
| Laws.OptionalLaw | core/parsers.go:295-307 | Optional returns a success unchanged and turns a failure into its input state with a nil payload; it never changes the error flag |
| Derived.SpaceCharStep | core/parsers.go:267-272 | the whitespace alternative succeeds iff the next character is a space, tab, newline or carriage return, and consumes exactly that character |
| Derived.SpaceChar | core/parsers.go:267-272 | the four whitespace literals in the source's order; Derived.SpaceCharStep states what they accept |
| Derived.WhiteSpace | core/parsers.go:264-277 | Many of the whitespace alternatives mapped to ""; Derived.WhiteSpaceSkipsRun states what it reads |
| Derived.WhiteSpaceSkipsRun | core/parsers.go:264-277 | WhiteSpace never fails; it skips the longest whitespace run and yields "" |
| Derived.BetweenYieldsContent | core/parsers.go:279-293 | a success of Between contains the opening bracket, then a success of the content whose payload is Between's, then the closing bracket |
| Derived.Between | core/parsers.go:279-293 | the seven-part sequence of whitespace, bracket, whitespace, content, whitespace, bracket, whitespace, keeping the fourth payload; Derived.BetweenYieldsContent states what a success means |
| Derived.Fourth | core/parsers.go:289-291 | Between's payload map: the fourth element of the sequence's list |
| Derived.StringsOf | core/parsers.go:309-316 | the strings of a list payload, one per element in order; a payload that is not a list gives none |
| Derived.StringsOfRoundTrip | core/parsers.go:309-316 | StringsOf and building a list of strings undo each other |
| Derived.Join | core/parsers.go:330 | strings.Join with the empty separator; Numbers.JoinDot states it on the fraction's payload |
| Numbers.NumberReadsLiteral | core/parsers.go:318-345 | Number succeeds iff the input starts with an optional minus and a digit; it then consumes the longest literal -?[0-9]+(\.[0-9]+)? and its payload is exactly the consumed text; otherwise it fails just after the optional minus |
| Numbers.LiteralIsLongest | core/parsers.go:320-331 | no prefix of the input longer than what Number consumes has the literal's shape, and when Number fails no prefix has it |
| Numbers.Number | core/parsers.go:318-345 | the parser: optional minus, digits, optional fraction, joined by a payload map; Numbers.NumberReadsLiteral states what it reads |
| Numbers.Fraction | core/parsers.go:323-331 | the optional "." and digits with the joining map; Numbers.FractionStageFacts states what it reads |
| Numbers.JoinFraction | core/parsers.go:326-331 | the fraction's payload map: nil stays nil, a list of strings is joined; Numbers.JoinDot states it on "." and digits |
| Numbers.JoinNumber | core/parsers.go:332-343 | Number's payload map: sign, digits and fraction concatenated, absent parts adding nothing; Numbers.NumberStageSucceeds relies on it for the consumed slice |
| Numbers.NumberStep | core/parsers.go:320-343 | Number is the composition of the sign stage, the digits and the fraction stage |
| Numbers.SignStage | core/parsers.go:321 | Optional(String("-")) as a transition: the minus consumed, or the input kept with a nil payload; Numbers.SignStep states it is what the interpreter runs |
| Numbers.FractionStage | core/parsers.go:323-331 | the optional "." and digits with the joining map as a transition; Numbers.FractionStageFacts states it never fails and consumes both parts or nothing |
| Numbers.NumberStage | core/parsers.go:320-343 | the three stages in sequence, with the joining map on success; Numbers.NumberStep states that Number runs exactly this |
| Numbers.NumberStageSucceeds | core/parsers.go:320-343 | once digits follow the optional minus, Number succeeds, advances by the length of the longest literal and yields the consumed slice, keeping the target and the message |
| Numbers.FractionStageFacts | core/parsers.go:323-331 | the optional fraction never fails; it consumes "." and digits together or nothing, and its payload is the consumed text |
| Numbers.NumberStageFails | core/parsers.go:320-322 | without a digit after the optional minus there is no literal, and Number fails just after the minus |
| Numbers.JoinDot | core/parsers.go:326-331 | the fraction's payload map joins "." and the digits into one string |
| Numbers.LiteralShape | core/parsers.go:320-331 | the text Number measures has the shape -?[0-9]+(\.[0-9]+)? |
| Numbers.NumberLeavesBareDot | core/parsers.go:323-331 | on "12." Number reads "12" and leaves the "." |
| Numbers.NumberReadsSignedFraction | core/parsers.go:318-345 | on "-12.34" Number reads all six characters and yields "-12.34" |
| PolishCalc.Evaluate | examples/polishcalc.go:20-42 | every value is a 64-bit integer; a number evaluates to itself; an unknown operator or node type gives 0 |
| PolishCalc.Apply64 | examples/polishcalc.go:28-35 | the machine operation of a known operator gives a 64-bit value, and fails exactly on division by zero |
| PolishCalc.EvaluateIsExactWithoutOverflow | examples/polishcalc.go:27-35 | when no intermediate value overflows, Evaluate equals evaluation in unbounded integers, including where it divides by zero |
| PolishCalc.EvaluateWrapsExact | examples/polishcalc.go:28-33 | without division, Evaluate never panics and gives the exact value wrapped to 64 bits |
| PolishCalc.WrapHomomorphic | examples/polishcalc.go:28-33 | wrapping the operands first does not change a wrapped sum, difference or product |
| PolishCalc.WrapFixes | examples/polishcalc.go:20-24 | wrapping leaves exactly the 64-bit values unchanged |
| PolishCalc.TruncDiv | examples/polishcalc.go:34-35 | the quotient leaves a remainder of the dividend's sign that is smaller than the divisor in size |
| PolishCalc.TruncDivUnique | examples/polishcalc.go:34-35 | those two remainder properties determine the quotient: it is division truncated toward zero |
| PolishCalc.ExampleTree | examples/polishcalc.go:27-35 | the tree (+ 10 (/ 40 20)) evaluates to 12 |
| PolishCalc.DivisionTruncates | examples/polishcalc.go:34-35 | (/ -7 2) is -3, not the floor -4 |
| PolishCalc.MinDivMinusOne | examples/polishcalc.go:34-35 | the most negative value divided by -1 wraps back to itself |
| PolishCalc.UnknownOperatorIgnoresOperands | examples/polishcalc.go:36-37 | an unknown operator gives 0 without evaluating its operands, even a division by zero below it |

## Left out

- `State.Display` (core/state.go:33-42) prints JSON and is output only.
- `main.go` calls a `Then` method that the core does not define, so it is not part of this model.
- `Interpreter` (examples/polishcalc.go:44-94) is not modelled:
  - it calls `Between` with three parsers, which does not match the core's `Between(brackets string, content Parser)`;
  - its number parser stores `int64` where `Evaluate` asserts `int`;
  - it only prints.
- The regular-expression engine of `Letters` and `Digits` is replaced by the leading run of a character class (`Scan.Span`), which is what the anchored patterns match.
- Error messages are the variant `Msg`, one case per message shape, instead of formatted text. The exact wording is not modelled.
- The payload is the closed variant `Res` (nil, string, list) instead of Go's `any`.
  - A `Map` function is a total Dafny function, so a panicking Go map function is not modelled.
  - Type assertions that would panic on other payload shapes (in `Between`, `Number`, `fromAnyArraytoStringArray`) are replaced by fallbacks on shapes the combinators never produce.
- Derived.StringsOf: a list with a non-string element makes the source panic. The precondition excludes such payloads.
- `Or` over an empty list is not modelled. The model's `Or` has at least one alternative. In the source it would mark Go's zero `State` (empty target, index 0) as failed.
- The model builds each combinator without the `Lazy` wrapper the source puts around it. The `Wrapping` module shows that constant wrappers around any sub-parsers change no answer and only cost fuel (`Wrapping.PaddedAgrees`, `Wrapping.PaddedAgreesBack`), and that the source's placement is such a padding (`Wrapping.SourceShapeIsPadded`, `Wrapping.BuilderAsBuilt`, `Wrapping.BetweenAsBuilt`).
- Wrappers inside the rules of a `Grammar` are not covered. `Engine.Resolve` does not look behind a thunk, so a rule reference under a wrapper would stay unbound; the rules of a grammar are written without wrappers.
- Fuel bounds only `Lazy` and `Grammar` unfolding. A parse that needs more unfoldings than the fuel answers `Diverges` (`Adequacy.FuelMonotone`).
- Recursion goes through `Grammar` and `Rule` rather than through a `Lazy` thunk. A `Lazy` thunk is a closure the model cannot look into, so a rule reference inside one is not bound by `Engine.Resolve`. A rule reference outside any grammar answers `Diverges`.
- A repetition whose step consumes nothing loops forever in the source. The model answers `Diverges` instead.
- The target is read as one character per byte, so only ASCII input is modelled faithfully. Cursor arithmetic uses unbounded integers instead of Go's `int`.
- `Between` with fewer than two bracket characters makes the source panic on an index out of range. The model requires two characters.
- Derived.BetweenYieldsContent: states what a success of Between implies, not when Between succeeds, because that depends on the content parser.
- PolishCalc.Evaluate: a zero divisor makes Go panic. The model answers `DivideByZero`.
  - Go's failing type assertions on malformed nodes cannot happen, because `Node` is a closed datatype.
