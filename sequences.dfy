/** Sequence facts shared by the deck, the hands and the seating of a match. */
module Sequences {

  /** `s` without the element at position `k`: what `Array.prototype.splice(k, 1)` leaves behind. */
  function RemoveAt<T>(s: seq<T>, k: nat): (r: seq<T>)
    requires k < |s|
    ensures |r| == |s| - 1
    ensures forall j :: 0 <= j < k ==> r[j] == s[j]
    ensures forall j :: k <= j < |r| ==> r[j] == s[j + 1]
  {
    s[..k] + s[k + 1..]
  }

  /** Removing one position takes away exactly one occurrence of the element found there. */
  lemma RemoveAtMultiset<T>(s: seq<T>, k: nat)
    requires k < |s|
    ensures multiset(s) == multiset(RemoveAt(s, k)) + multiset{s[k]}
  {
    assert s == s[..k] + [s[k]] + s[k + 1..];
  }

  /** The prefix one longer is the prefix with the next element added. */
  lemma PrefixStep<T>(s: seq<T>, i: nat)
    requires i < |s|
    ensures s[..i + 1] == s[..i] + [s[i]]
  {
  }

  /** The sum of a sequence of integers, folded from the left as `Array.prototype.reduce` does. */
  function SumInts(s: seq<int>): int
  {
    if s == [] then 0 else SumInts(s[..|s| - 1]) + s[|s| - 1]
  }

  lemma {:induction false} SumIntsAppend(a: seq<int>, b: seq<int>)
    ensures SumInts(a + b) == SumInts(a) + SumInts(b)
    decreases |b|
  {
    if b != [] {
      assert (a + b)[..|a + b| - 1] == a + b[..|b| - 1];
      SumIntsAppend(a, b[..|b| - 1]);
    } else {
      assert a + b == a;
    }
  }

  /** Changing one entry changes the sum by exactly the difference at that entry. */
  lemma SumIntsUpdate(s: seq<int>, k: nat, v: int)
    requires k < |s|
    ensures SumInts(s[k := v]) == SumInts(s) - s[k] + v
  {
    assert s == s[..k] + [s[k]] + s[k + 1..];
    assert s[k := v] == s[..k] + [v] + s[k + 1..];
    SumIntsAppend(s[..k] + [s[k]], s[k + 1..]);
    SumIntsAppend(s[..k] + [v], s[k + 1..]);
    SumIntsAppend(s[..k], [s[k]]);
    SumIntsAppend(s[..k], [v]);
  }

  /** Entry-wise, `after` is `before` minus `taken` plus `given`; then so are the sums. */
  lemma {:induction false} SumIntsShift(before: seq<int>, after: seq<int>, taken: seq<int>, given: seq<int>)
    requires |after| == |before| == |taken| == |given|
    requires forall j :: 0 <= j < |before| ==> after[j] == before[j] - taken[j] + given[j]
    ensures SumInts(after) == SumInts(before) - SumInts(taken) + SumInts(given)
    decreases |before|
  {
    if before != [] {
      var n := |before| - 1;
      SumIntsShift(before[..n], after[..n], taken[..n], given[..n]);
    }
  }

  lemma {:induction false} SumIntsZero(s: seq<int>)
    requires forall j :: 0 <= j < |s| ==> s[j] == 0
    ensures SumInts(s) == 0
    decreases |s|
  {
    if s != [] {
      SumIntsZero(s[..|s| - 1]);
    }
  }

  /** All elements at different positions are different objects or values. */
  predicate Distinct<T(==)>(s: seq<T>)
  {
    forall i, j :: 0 <= i < j < |s| ==> s[i] != s[j]
  }

  /**
    * `s` turned cyclically so that it starts at position `k`: the elements from `k` on, then those
    * before `k`. This is the reference definition of the re-seating done after every trick.
    */
  function Rotated<T>(s: seq<T>, k: nat): (r: seq<T>)
    requires k < |s|
    ensures |r| == |s|
  {
    s[k..] + s[..k]
  }

  /** The index arithmetic of the re-seating loop lands on the same element as the reference definition. */
  lemma RotatedAt<T>(s: seq<T>, k: nat, j: nat)
    requires k < |s| && j < |s|
    ensures Rotated(s, k)[j] == s[(k + j) % |s|]
  {
    var n := |s|;
    if k + j < n {
      assert (k + j) % n == k + j;
    } else {
      assert (k + j) % n == k + j - n;
    }
  }

  /** A rotation is a permutation that starts with the element it was pivoted at. */
  lemma RotatedPermutation<T>(s: seq<T>, k: nat)
    requires k < |s|
    ensures multiset(Rotated(s, k)) == multiset(s)
    ensures Rotated(s, k)[0] == s[k]
  {
    assert s == s[..k] + s[k..];
  }

  lemma RotatedDistinct<T>(s: seq<T>, k: nat)
    requires k < |s| && Distinct(s)
    ensures Distinct(Rotated(s, k))
  {
    var r, n := Rotated(s, k), |s|;
    forall i, j | 0 <= i < j < n
      ensures r[i] != r[j]
    {
      var i' := if i < n - k then k + i else i - (n - k);
      var j' := if j < n - k then k + j else j - (n - k);
      assert r[i] == s[i'] && r[j] == s[j'];
    }
  }

  /** Two rotations in a row are one rotation by the sum of the offsets, taken cyclically. */
  lemma RotatedTwice<T>(s: seq<T>, a: nat, b: nat)
    requires a < |s| && b < |s|
    ensures Rotated(Rotated(s, a), b) == Rotated(s, CyclicSum(a, b, |s|))
  {
    if a + b < |s| {
      RotatedTwiceShort(s, a, b);
    } else {
      RotatedTwiceWrapping(s, a, b);
    }
  }

  /** `(a + b) % n` for offsets below `n`, written without the modulus. */
  function CyclicSum(a: nat, b: nat, n: nat): (c: nat)
    requires a < n && b < n
    ensures c < n && c == (a + b) % n
  {
    if a + b < n then a + b else a + b - n
  }

  lemma RotatedTwiceShort<T>(s: seq<T>, a: nat, b: nat)
    requires a < |s| && b < |s| && a + b < |s|
    ensures Rotated(Rotated(s, a), b) == Rotated(s, a + b)
  {
    var r := Rotated(s, a);
    assert r[b..] == s[a + b..] + s[..a];
    assert r[..b] == s[a..a + b];
    assert s[..a + b] == s[..a] + s[a..a + b];
  }

  lemma RotatedTwiceWrapping<T>(s: seq<T>, a: nat, b: nat)
    requires a < |s| && b < |s| && |s| <= a + b
    ensures Rotated(Rotated(s, a), b) == Rotated(s, a + b - |s|)
  {
    var r, c := Rotated(s, a), a + b - |s|;
    assert r[b..] == s[c..a];
    assert r[..b] == s[a..] + s[..c];
    assert s[c..] == s[c..a] + s[a..];
  }

  /** A rotated sequence has the same sum. */
  lemma RotatedSum(s: seq<int>, k: nat)
    requires k < |s|
    ensures SumInts(Rotated(s, k)) == SumInts(s)
  {
    assert s == s[..k] + s[k..];
    SumIntsAppend(s[k..], s[..k]);
    SumIntsAppend(s[..k], s[k..]);
  }

  /** The elements at even positions 0, 2, ...: `filter((p, i) => i % 2 === 0)`. */
  function EvenSeats<T>(s: seq<T>): seq<T>
    decreases |s|
  {
    if s == [] then [] else [s[0]] + OddSeats(s[1..])
  }

  /** The elements at odd positions 1, 3, ...: `filter((p, i) => i % 2 === 1)`. */
  function OddSeats<T>(s: seq<T>): seq<T>
    decreases |s|
  {
    if s == [] then [] else EvenSeats(s[1..])
  }

  /** The filters keep exactly the positions of their parity, in order. */
  lemma {:induction false} SeatsAt<T>(s: seq<T>)
    ensures |EvenSeats(s)| == (|s| + 1) / 2 && |OddSeats(s)| == |s| / 2
    ensures forall i :: 0 <= i < |EvenSeats(s)| ==> EvenSeats(s)[i] == s[2 * i]
    ensures forall i :: 0 <= i < |OddSeats(s)| ==> OddSeats(s)[i] == s[2 * i + 1]
    decreases |s|
  {
    if s != [] {
      SeatsAt(s[1..]);
      assert EvenSeats(s) == [s[0]] + OddSeats(s[1..]);
      assert OddSeats(s) == EvenSeats(s[1..]);
    }
  }

  /** The two teams together hold every seat once: their sums add up to the sum over all seats. */
  lemma {:induction false} SeatsSum(s: seq<int>)
    ensures SumInts(EvenSeats(s)) + SumInts(OddSeats(s)) == SumInts(s)
    decreases |s|
  {
    if s != [] {
      SeatsSum(s[1..]);
      SumIntsAppend([s[0]], OddSeats(s[1..]));
      assert s == [s[0]] + s[1..];
      SumIntsAppend([s[0]], s[1..]);
    }
  }
}
