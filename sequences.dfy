// Order-keeping selection from a sequence: what `Array.prototype.filter` and
// similar de-duplicating passes produce.
module Sequences {

  /** r is ms with some elements left out, the rest in their order. */
  predicate IsSubsequence<T(==)>(r: seq<T>, ms: seq<T>)
    decreases |ms|
  {
    r == [] || (ms != [] && ((r[0] == ms[0] && IsSubsequence(r[1..], ms[1..])) || IsSubsequence(r, ms[1..])))
  }

  /** Every element of a subsequence is an element of the sequence. */
  lemma {:induction false} SubsequenceMembers<T>(r: seq<T>, ms: seq<T>)
    requires IsSubsequence(r, ms)
    ensures forall e :: e in r ==> e in ms
    decreases |ms|
  {
    if r != [] {
      if r[0] == ms[0] && IsSubsequence(r[1..], ms[1..]) {
        SubsequenceMembers(r[1..], ms[1..]);
        assert forall e :: e in r ==> e == r[0] || e in r[1..];
      } else {
        SubsequenceMembers(r, ms[1..]);
      }
      assert forall e :: e in ms[1..] ==> e in ms;
    }
  }
}
