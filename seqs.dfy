/**
 * List comprehensions with a condition (`[x for x in s if p(x)]`) and the
 * facts about them that the hooks' loops need.
 */
module Seqs {

  /** `[x for x in s if p(x)]`: the elements satisfying `p`, in their order. */
  function Filter<T>(p: T -> bool, s: seq<T>): (r: seq<T>)
    ensures |r| <= |s|
    ensures forall x :: x in r ==> x in s && p(x)
    ensures forall x :: x in s && p(x) ==> x in r
  {
    if s == [] then []
    else (if p(s[0]) then [s[0]] else []) + Filter(p, s[1..])
  }

  /** Filtering distributes over concatenation, so a loop may filter one element at a time. */
  lemma {:induction false} FilterAppend<T>(p: T -> bool, a: seq<T>, b: seq<T>)
    ensures Filter(p, a + b) == Filter(p, a) + Filter(p, b)
  {
    if a == [] {
      assert a + b == b;
    } else {
      assert (a + b)[1..] == a[1..] + b;
      FilterAppend(p, a[1..], b);
    }
  }

  /** The complement of a condition. */
  function Negate<T>(p: T -> bool): T -> bool
  {
    x => !p(x)
  }

  /** Every element is kept by exactly one of `p` and its negation. */
  lemma {:induction false} FilterPartition<T>(p: T -> bool, s: seq<T>)
    ensures |Filter(p, s)| + |Filter(Negate(p), s)| == |s|
  {
    if s != [] {
      FilterPartition(p, s[1..]);
    }
  }
}
