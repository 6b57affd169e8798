/** The array operations the reducers are written with (`Array.prototype.map`,
    `filter` and the index search behind `find`), as functions over sequences,
    with the facts about them that the reducer proofs rely on. */
module Seqs {

  /** `s.map(f)`: same length, element by element. */
  function Map<T, U>(s: seq<T>, f: T -> U): (r: seq<U>)
    ensures |r| == |s|
    ensures forall i :: 0 <= i < |s| ==> r[i] == f(s[i])
  {
    seq(|s|, i requires 0 <= i < |s| => f(s[i]))
  }

  /** `s.filter(keep)`: the elements that satisfy `keep`, in their order.
      Defined by peeling the last element so that prefixes are easy to reason about. */
  function Filter<T(==)>(s: seq<T>, keep: T -> bool): (r: seq<T>)
    ensures |r| <= |s|
    ensures forall i :: 0 <= i < |r| ==> r[i] in s && keep(r[i])
    ensures forall i :: 0 <= i < |s| && keep(s[i]) ==> s[i] in r
  {
    if |s| == 0 then []
    else Filter(s[..|s| - 1], keep) + (if keep(s[|s| - 1]) then [s[|s| - 1]] else [])
  }

  /** The position of the first element equal to `x`, or `|s|` when there is none. */
  function IndexOf<T(==)>(s: seq<T>, x: T): (k: nat)
    ensures k <= |s|
    ensures k < |s| ==> s[k] == x
    ensures forall j :: 0 <= j < k ==> s[j] != x
  {
    if |s| == 0 then 0
    else if s[0] == x then 0
    else 1 + IndexOf(s[1..], x)
  }

  lemma {:induction false} FilterAppend<T>(a: seq<T>, b: seq<T>, keep: T -> bool)
    ensures Filter(a + b, keep) == Filter(a, keep) + Filter(b, keep)
    decreases |b|
  {
    if |b| == 0 {
      assert a + b == a;
    } else {
      var b' := b[..|b| - 1];
      assert (a + b)[..|a + b| - 1] == a + b';
      FilterAppend(a, b', keep);
    }
  }

  /** Filtering a sequence whose every element is kept changes nothing. */
  lemma {:induction false} FilterKeepsAll<T>(s: seq<T>, keep: T -> bool)
    requires forall i :: 0 <= i < |s| ==> keep(s[i])
    ensures Filter(s, keep) == s
  {
    if |s| > 0 {
      FilterKeepsAll(s[..|s| - 1], keep);
    }
  }

  /** A kept element at index `i` lands at index `|Filter(s[..i], keep)|` of the
      result, so kept elements appear in the order they had. */
  lemma FilterPosition<T>(s: seq<T>, keep: T -> bool, i: int)
    requires 0 <= i < |s| && keep(s[i])
    ensures |Filter(s[..i], keep)| < |Filter(s, keep)|
    ensures Filter(s, keep)[|Filter(s[..i], keep)|] == s[i]
  {
    assert s == s[..i] + [s[i]] + s[i + 1..];
    FilterAppend(s[..i] + [s[i]], s[i + 1..], keep);
    FilterAppend(s[..i], [s[i]], keep);
    assert Filter([s[i]], keep) == Filter([], keep) + [s[i]];
  }

  /** FilterPosition for every kept element at once. */
  lemma FilterRanks<T>(s: seq<T>, keep: T -> bool)
    ensures forall k :: 0 <= k < |s| && keep(s[k]) ==>
      |Filter(s[..k], keep)| < |Filter(s, keep)| && Filter(s, keep)[|Filter(s[..k], keep)|] == s[k]
  {
    forall k | 0 <= k < |s| && keep(s[k])
      ensures |Filter(s[..k], keep)| < |Filter(s, keep)| && Filter(s, keep)[|Filter(s[..k], keep)|] == s[k]
    {
      FilterPosition(s, keep, k);
    }
  }

  /** The positions of kept elements grow strictly with their index. */
  lemma {:induction false} FilterRankMonotone<T>(s: seq<T>, keep: T -> bool, i: int, j: int)
    requires 0 <= i < j <= |s| && keep(s[i])
    ensures |Filter(s[..i], keep)| < |Filter(s[..j], keep)|
    decreases j - i
  {
    var t := s[..j];
    assert t[..|t| - 1] == s[..j - 1];
    if j - 1 == i {
      assert s[..i] == s[..j - 1];
    } else {
      FilterRankMonotone(s, keep, i, j - 1);
    }
  }

  /** Mapping then filtering equals filtering then mapping, when the two tests agree. */
  lemma {:induction false} FilterMapCommute<T, U>(s: seq<T>, f: T -> U, p: T -> bool, q: U -> bool)
    requires forall x :: p(x) == q(f(x))
    ensures Map(Filter(s, p), f) == Filter(Map(s, f), q)
  {
    if |s| > 0 {
      var s' := s[..|s| - 1];
      FilterMapCommute(s', f, p, q);
      assert Map(s, f)[..|s| - 1] == Map(s', f);
      var tail := if p(s[|s| - 1]) then [s[|s| - 1]] else [];
      assert Filter(s, p) == Filter(s', p) + tail;
      assert Map(Filter(s', p) + tail, f) == Map(Filter(s', p), f) + Map(tail, f);
    }
  }
}
