/** `random.shuffle` as CPython performs it: for i from n-1 down to 1 the
    element at i is exchanged with the element at a position j drawn
    uniformly from [0, i]. The generator is not modelled; its draws are a
    parameter, so every outcome the generator can produce is an outcome of
    `Shuffle` for some draws, and every property proved below holds for
    all of them. */
module Shuffling {
  import opened Seqs

  /** Exchanges the elements at positions i and j. */
  function Swap<T>(s: seq<T>, i: nat, j: nat): (r: seq<T>)
    requires i < |s| && j < |s|
    ensures |r| == |s|
    ensures multiset(r) == multiset(s)
  {
    s[i := s[j]][j := s[i]]
  }

  /** The position the generator pairs with position i: a value in [0, i].
      A draw the caller did not supply reads as 0. */
  function Partner(draws: seq<nat>, i: nat): (j: nat)
    ensures j <= i
    ensures i < |draws| && draws[i] <= i ==> j == draws[i]
  {
    if i < |draws| then draws[i] % (i + 1) else 0
  }

  /** The shuffle loop after the positions at or above `upto` have been
      visited: visits upto-1, upto-2, ..., 1 in turn. */
  function ShuffleBelow<T>(s: seq<T>, draws: seq<nat>, upto: nat): (r: seq<T>)
    requires upto <= |s|
    ensures |r| == |s|
    ensures multiset(r) == multiset(s)
    ensures r[upto..] == s[upto..]
    decreases upto
  {
    if upto <= 1 then s
    else ShuffleBelow(Swap(s, upto - 1, Partner(draws, upto - 1)), draws, upto - 1)
  }

  /** `random.shuffle(s)` driven by the given draws: a permutation of `s`. */
  function Shuffle<T>(s: seq<T>, draws: seq<nat>): (r: seq<T>)
    ensures |r| == |s|
    ensures multiset(r) == multiset(s)
  {
    ShuffleBelow(s, draws, |s|)
  }

  /** The loop below `upto` reads only the draws below `upto`. */
  lemma {:induction false} ShuffleBelowReadsBelow<T>(s: seq<T>, d1: seq<nat>, d2: seq<nat>, upto: nat)
    requires upto <= |s|
    requires forall i :: 0 <= i < upto ==> Partner(d1, i) == Partner(d2, i)
    ensures ShuffleBelow(s, d1, upto) == ShuffleBelow(s, d2, upto)
    decreases upto
  {
    if upto > 1 {
      ShuffleBelowReadsBelow(Swap(s, upto - 1, Partner(d1, upto - 1)), d1, d2, upto - 1);
    }
  }

  /** A swap inside the first n positions is a swap of the prefix and
      leaves the rest alone. */
  lemma SwapInPrefix<T>(s: seq<T>, i: nat, j: nat, n: nat)
    requires i < n && j < n && n <= |s|
    ensures Swap(s, i, j)[..n] == Swap(s[..n], i, j)
    ensures Swap(s, i, j)[n..] == s[n..]
  {
  }

  /** Swapping the element t[upto-1] into position upto-1 leaves a prefix
      that is a rearrangement of t's shorter prefix. */
  lemma SwapIntoPlace<T>(s: seq<T>, t: seq<T>, upto: nat, j: nat) returns (s': seq<T>)
    requires |s| == |t| && 0 < upto <= |s| && j < upto
    requires multiset(s[..upto]) == multiset(t[..upto])
    requires s[upto..] == t[upto..]
    requires s[j] == t[upto - 1]
    ensures s' == Swap(s, upto - 1, j) && |s'| == |t|
    ensures multiset(s'[..upto - 1]) == multiset(t[..upto - 1])
    ensures s'[upto - 1..] == t[upto - 1..]
  {
    var last := upto - 1;
    s' := Swap(s, last, j);
    SwapInPrefix(s, last, j, upto);
    PrefixSnoc(s', upto);
    PrefixSnoc(t, upto);
    Cancel(multiset(s'[..last]), multiset(t[..last]), t[last]);
    assert s'[last..] == [s'[last]] + s'[upto..];
    assert t[last..] == [t[last]] + t[upto..];
  }

  /** With at most one position below `upto` there is nothing to rearrange. */
  lemma NothingToRearrange<T>(s: seq<T>, t: seq<T>, upto: nat) returns (draws: seq<nat>)
    requires |s| == |t| && upto <= 1 && upto <= |s|
    requires multiset(s[..upto]) == multiset(t[..upto])
    requires s[upto..] == t[upto..]
    ensures s == t
    ensures |draws| == upto && ShuffleBelow(s, draws, upto) == t
    ensures forall i :: 0 <= i < upto ==> draws[i] <= i
  {
    draws := if upto == 0 then [] else [0];
    if upto == 1 {
      assert s[..1] == [s[0]] && t[..1] == [t[0]];
      assert s[0] in multiset(t[..1]);
      assert s == [s[0]] + s[1..] && t == [t[0]] + t[1..];
    } else {
      assert s == s[0..] && t == t[0..];
    }
  }

  /** Appending the draw for position `last` leaves the partners of the
      positions below it as they were. */
  lemma AppendDraw(inner: seq<nat>, j: nat, last: nat)
    requires |inner| == last && j <= last
    ensures Partner(inner + [j], last) == j
    ensures forall i :: 0 <= i < last ==> Partner(inner + [j], i) == Partner(inner, i)
  {
  }

  /** Every rearrangement of the first `upto` positions is an outcome of the
      loop for some draws, each within its range [0, i]. */
  lemma {:induction false} ShuffleBelowReaches<T>(s: seq<T>, t: seq<T>, upto: nat) returns (draws: seq<nat>)
    requires |s| == |t| && upto <= |s|
    requires multiset(s[..upto]) == multiset(t[..upto])
    requires s[upto..] == t[upto..]
    ensures |draws| == upto
    ensures forall i :: 0 <= i < upto ==> draws[i] <= i
    ensures ShuffleBelow(s, draws, upto) == t
    decreases upto
  {
    if upto <= 1 {
      draws := NothingToRearrange(s, t, upto);
    } else {
      var j := FindPartner(s, t, upto);
      var s' := SwapIntoPlace(s, t, upto, j);
      var inner := ShuffleBelowReaches(s', t, upto - 1);
      draws := ExtendDraws(s, t, inner, j, upto);
    }
  }

  /** Some position below `upto` holds the element that must end at
      position upto-1. */
  lemma FindPartner<T>(s: seq<T>, t: seq<T>, upto: nat) returns (j: nat)
    requires 0 < upto <= |s| && upto <= |t|
    requires multiset(s[..upto]) == multiset(t[..upto])
    ensures j < upto && s[j] == t[upto - 1]
  {
    assert t[upto - 1] in multiset(s[..upto]) by {
      assert t[..upto][upto - 1] == t[upto - 1];
    }
    var k :| 0 <= k < upto && s[..upto][k] == t[upto - 1];
    j := k;
  }

  /** Draws that take the swapped sequence to t below upto-1, followed by
      the draw j for position upto-1, take s to t below upto: the loop
      first swaps upto-1 with j and then never reads the new draw again. */
  lemma ExtendDraws<T>(s: seq<T>, t: seq<T>, inner: seq<nat>, j: nat, upto: nat) returns (draws: seq<nat>)
    requires 1 < upto <= |s| && |inner| == upto - 1 && j < upto
    requires forall i :: 0 <= i < upto - 1 ==> inner[i] <= i
    requires ShuffleBelow(Swap(s, upto - 1, j), inner, upto - 1) == t
    ensures |draws| == upto
    ensures forall i :: 0 <= i < upto ==> draws[i] <= i
    ensures ShuffleBelow(s, draws, upto) == t
  {
    var last := upto - 1;
    draws := inner + [j];
    DrawsInRange(inner, j, last);
    AppendDraw(inner, j, last);
    var s' := Swap(s, last, j);
    assert ShuffleBelow(s, draws, upto) == ShuffleBelow(s', draws, last);
    ShuffleBelowReadsBelow(s', draws, inner, last);
  }

  /** Appending a draw within [0, last] to draws within their ranges keeps
      every draw within its range. */
  lemma DrawsInRange(inner: seq<nat>, j: nat, last: nat)
    requires |inner| == last && j <= last
    requires forall i :: 0 <= i < last ==> inner[i] <= i
    ensures forall i :: 0 <= i <= last ==> (inner + [j])[i] <= i
  {
  }

  /** `Shuffle` can produce every permutation of its input and nothing else:
      it is exactly "some permutation", as `random.shuffle` promises. */
  lemma ShuffleReachesEveryPermutation<T>(s: seq<T>, t: seq<T>)
    requires multiset(s) == multiset(t)
    ensures exists draws: seq<nat> :: Shuffle(s, draws) == t
  {
    assert |s| == |multiset(s)| == |multiset(t)| == |t|;
    assert s[..|s|] == s && t[..|t|] == t;
    var draws := ShuffleBelowReaches(s, t, |s|);
    assert Shuffle(s, draws) == t;
  }
}
