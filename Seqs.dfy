/** Sequence operations the handlers express with `filter` over an index and
    with two arrays kept side by side. */
module Seqs {

  /** `s.filter((_, i) => i !== index)`, written as the filter it is: every
      element is kept unless its position equals `index`. */
  function DropIndex<T>(s: seq<T>, index: int): (r: seq<T>)
    ensures 0 <= index < |s| ==> r == s[..index] + s[index + 1..]
    ensures !(0 <= index < |s|) ==> r == s
  {
    if s == [] then []
    else
      var init := DropIndex(s[..|s| - 1], index);
      assert s == s[..|s| - 1] + [s[|s| - 1]];
      if |s| - 1 != index then init + [s[|s| - 1]] else init
  }

  /** Pairs up two sequences position by position. */
  function Zip<A, B>(a: seq<A>, b: seq<B>): (r: seq<(A, B)>)
    requires |a| == |b|
    ensures |r| == |a|
    ensures forall k :: 0 <= k < |r| ==> r[k] == (a[k], b[k])
  {
    seq(|a|, k requires 0 <= k < |a| => (a[k], b[k]))
  }

  /** Appending to both sides appends the pairs. */
  lemma ZipAppend<A, B>(a: seq<A>, b: seq<B>, na: seq<A>, nb: seq<B>)
    requires |a| == |b| && |na| == |nb|
    ensures Zip(a + na, b + nb) == Zip(a, b) + Zip(na, nb)
  {
  }

  /** Dropping the same position from two aligned sequences keeps them
      aligned: the pairs that remain are exactly the old pairs with that one
      removed. */
  lemma {:induction false} DropIndexZip<A, B>(a: seq<A>, b: seq<B>, index: int)
    requires |a| == |b|
    ensures |DropIndex(a, index)| == |DropIndex(b, index)|
    ensures Zip(DropIndex(a, index), DropIndex(b, index)) == DropIndex(Zip(a, b), index)
  {
    var z := Zip(a, b);
    if 0 <= index < |a| {
      var ra, rb, rz := DropIndex(a, index), DropIndex(b, index), DropIndex(z, index);
      assert |ra| == |rz|;
      forall k | 0 <= k < |rz| ensures rz[k] == (ra[k], rb[k]) {
        if k < index {
          assert rz[k] == z[k] && ra[k] == a[k] && rb[k] == b[k];
        } else {
          assert rz[k] == z[k + 1] && ra[k] == a[k + 1] && rb[k] == b[k + 1];
        }
      }
    }
  }

  /** `a` is `b` with some elements left out: the elements of `a` occur in
      `b` in the same order. */
  ghost predicate Subsequence<T>(a: seq<T>, b: seq<T>)
    decreases |b|
  {
    if a == [] then true
    else if b == [] then false
    else (a[0] == b[0] && Subsequence(a[1..], b[1..])) || Subsequence(a, b[1..])
  }

  /** No element occurs twice. */
  predicate NoDuplicates<T(==)>(s: seq<T>) {
    forall i, j :: 0 <= i < j < |s| ==> s[i] != s[j]
  }
}
