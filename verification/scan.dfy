/**
  Leading character runs.  Letters and Digits in core/parsers.go match the
  anchored regular expressions `^[A-Za-z]+` and `^[0-9]+`; the model replaces
  the regular-expression engine by the length of the longest leading run of a
  character class.  WhiteSpace's four literals form a third class.
*/
module Scan {

  datatype Class = Letter | Digit | Space

  predicate In(cls: Class, c: char) {
    match cls
    case Letter => 'A' <= c <= 'Z' || 'a' <= c <= 'z'
    case Digit => '0' <= c <= '9'
    case Space => c == ' ' || c == '\t' || c == '\n' || c == '\r'
  }

  /** Every character of `t` is in the class. */
  predicate AllIn(cls: Class, t: string) {
    forall k {:trigger In(cls, t[k])} :: 0 <= k < |t| ==> In(cls, t[k])
  }

  /** Length of the longest prefix of `t` made only of characters of `cls`. */
  function Span(cls: Class, t: string): (n: nat)
    ensures n <= |t|
    ensures AllIn(cls, t[..n])
    ensures n < |t| ==> !In(cls, t[n])
  {
    if |t| == 0 || !In(cls, t[0]) then 0
    else
      var m := Span(cls, t[1..]);
      assert t[..1 + m] == [t[0]] + t[1..][..m];
      1 + m
  }

  /** The run is the unique maximal prefix: any prefix of the class that is
      followed by a character outside it (or by the end) has exactly that length. */
  lemma SpanUnique(cls: Class, t: string, n: nat)
    requires n <= |t| && AllIn(cls, t[..n])
    requires n < |t| ==> !In(cls, t[n])
    ensures Span(cls, t) == n
  {
  }

  /** A run is unchanged by appending text that starts outside the class. */
  lemma SpanStopsAt(cls: Class, t: string, u: string)
    requires AllIn(cls, t)
    requires |u| == 0 || !In(cls, u[0])
    ensures Span(cls, t + u) == |t|
  {
    assert (t + u)[..|t|] == t;
    SpanUnique(cls, t + u, |t|);
  }
}
