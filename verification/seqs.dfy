/** Order-preserving filtering of sequences. */
module Seqs {

  /** `r` can be obtained from `s` by deleting elements (greedy left-to-right matching). */
  predicate Subsequence<T(==)>(r: seq<T>, s: seq<T>)
    decreases |s|
  {
    if r == [] then true
    else if s == [] then false
    else if r[0] == s[0] then Subsequence(r[1..], s[1..])
    else Subsequence(r, s[1..])
  }

  /** `Array.prototype.filter`: the elements of `s` satisfying `p`, in their original order. */
  function Filter<T(==,!new)>(s: seq<T>, p: T -> bool): (r: seq<T>)
    ensures |r| <= |s|
    ensures forall x :: x in r <==> x in s && p(x)
    ensures forall x :: p(x) ==> multiset(r)[x] == multiset(s)[x]
    ensures Subsequence(r, s)
    decreases |s|
  {
    if s == [] then []
    else if p(s[0]) then
      assert s == [s[0]] + s[1..];
      [s[0]] + Filter(s[1..], p)
    else
      assert s == [s[0]] + s[1..];
      Filter(s[1..], p)
  }

  /** `s.filter(x => !drop.includes(x))`: `s` without any element listed in `drop`. */
  function Without<T(==,!new)>(s: seq<T>, drop: seq<T>): (r: seq<T>)
    ensures forall x :: x in r <==> x in s && x !in drop
    ensures forall x :: x !in drop ==> multiset(r)[x] == multiset(s)[x]
    ensures Subsequence(r, s)
  {
    Filter(s, x => x !in drop)
  }
}
