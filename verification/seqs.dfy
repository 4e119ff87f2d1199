/** Generic facts about sequences of sequences and subsequences. */
module Seqs {

  /** The concatenation of a list of lists, left to right
      (`flat = []; for xs in xss: flat += xs`). */
  function Concat<T>(xss: seq<seq<T>>): seq<T>
  {
    if |xss| == 0 then [] else xss[0] + Concat(xss[1..])
  }

  /** The multiset union of a list of multisets. */
  function SumOf<T>(parts: seq<multiset<T>>): multiset<T>
  {
    if |parts| == 0 then multiset{} else parts[0] + SumOf(parts[1..])
  }

  /** Concatenating lists whose contents are `parts` yields their union. */
  lemma {:induction false} ConcatParts<T>(xss: seq<seq<T>>, parts: seq<multiset<T>>)
    requires |xss| == |parts|
    requires forall k :: 0 <= k < |xss| ==> multiset(xss[k]) == parts[k]
    ensures multiset(Concat(xss)) == SumOf(parts)
  {
    if |xss| > 0 {
      ConcatParts(xss[1..], parts[1..]);
    }
  }

  /** Concatenation distributes over appending lists of lists. */
  lemma {:induction false} ConcatAppend<T>(a: seq<seq<T>>, b: seq<seq<T>>)
    ensures Concat(a + b) == Concat(a) + Concat(b)
  {
    if |a| == 0 {
      assert a + b == b;
    } else {
      assert (a + b)[1..] == a[1..] + b;
      ConcatAppend(a[1..], b);
    }
  }

  /** Removing the list at position k removes exactly that list from the
      multiset of lists. */
  lemma RemoveAt<T>(yss: seq<seq<T>>, k: nat)
    requires k < |yss|
    ensures multiset(yss[..k] + yss[k + 1..]) == multiset(yss) - multiset{yss[k]}
  {
    var pre, x, post := yss[..k], yss[k], yss[k + 1..];
    assert yss == pre + [x] + post;
    assert multiset(yss) == multiset(pre) + multiset{x} + multiset(post);
  }

  /** Removing the list at position k removes exactly its elements from the
      concatenation. */
  lemma RemoveAtConcat<T>(yss: seq<seq<T>>, k: nat)
    requires k < |yss|
    ensures multiset(Concat(yss)) == multiset(Concat(yss[..k] + yss[k + 1..])) + multiset(yss[k])
  {
    var a, b := Concat(yss[..k]), Concat(yss[k + 1..]);
    SplitAt(yss, k);
    ConcatAppend(yss[..k], yss[k + 1..]);
    assert multiset(a + yss[k] + b) == multiset(a) + multiset(yss[k]) + multiset(b);
    assert multiset(a + b) == multiset(a) + multiset(b);
  }

  /** The concatenation around position k. */
  lemma SplitAt<T>(yss: seq<seq<T>>, k: nat)
    requires k < |yss|
    ensures Concat(yss) == Concat(yss[..k]) + yss[k] + Concat(yss[k + 1..])
  {
    Around(yss, k);
    ConcatAround(yss[..k], yss[k], yss[k + 1..]);
  }

  /** A list is its part before k, element k and its part after k. */
  lemma Around<T>(s: seq<T>, k: nat)
    requires k < |s|
    ensures s == s[..k] + [s[k]] + s[k + 1..]
  {
  }

  /** Concatenation of a list placed between two lists of lists. */
  lemma ConcatAround<T>(pre: seq<seq<T>>, x: seq<T>, post: seq<seq<T>>)
    ensures Concat(pre + [x] + post) == Concat(pre) + x + Concat(post)
  {
    ConcatAppend(pre + [x], post);
    ConcatAppend(pre, [x]);
    ConcatSingle(x);
  }

  /** A single list concatenates to itself. */
  lemma ConcatSingle<T>(x: seq<T>)
    ensures Concat([x]) == x
  {
    assert [x][1..] == [];
  }

  /** Concatenating a list of lists whose multiset of members is the same
      gives the same multiset of elements: reordering whole lists moves no
      element into or out of the concatenation. */
  lemma {:induction false} ConcatReorder<T>(xss: seq<seq<T>>, yss: seq<seq<T>>)
    requires multiset(xss) == multiset(yss)
    ensures multiset(Concat(xss)) == multiset(Concat(yss))
  {
    if |xss| == 0 {
      assert |yss| == |multiset(yss)| == 0;
    } else {
      var x := xss[0];
      assert x in multiset(yss) by { assert x in multiset(xss); }
      var k :| 0 <= k < |yss| && yss[k] == x;
      var rest := yss[..k] + yss[k + 1..];
      RemoveAt(yss, k);
      RemoveAtConcat(yss, k);
      assert xss == [x] + xss[1..];
      assert multiset(xss[1..]) == multiset(xss) - multiset{x};
      ConcatReorder(xss[1..], rest);
    }
  }

  /** Multiset union with a singleton cancels. */
  lemma Cancel<T>(a: multiset<T>, b: multiset<T>, x: T)
    requires a + multiset{x} == b + multiset{x}
    ensures a == b
  {
    assert a == (a + multiset{x}) - multiset{x};
  }

  /** A prefix one longer adds its last element to the multiset. */
  lemma PrefixSnoc<T>(s: seq<T>, n: nat)
    requires 0 < n <= |s|
    ensures multiset(s[..n]) == multiset(s[..n - 1]) + multiset{s[n - 1]}
  {
    assert s[..n] == s[..n - 1] + [s[n - 1]];
  }

  /** Concatenating empty lists gives the empty list. */
  lemma {:induction false} ConcatOfEmpties<T>(xss: seq<seq<T>>)
    requires forall k :: 0 <= k < |xss| ==> xss[k] == []
    ensures Concat(xss) == []
  {
    if |xss| > 0 {
      ConcatOfEmpties(xss[1..]);
    }
  }

  /** `a` can be obtained from `b` by deleting elements, keeping the rest in order. */
  predicate IsSubsequence<T(==)>(a: seq<T>, b: seq<T>)
    decreases |b|
  {
    if |a| == 0 then true
    else if |b| == 0 then false
    else (a[0] == b[0] && IsSubsequence(a[1..], b[1..])) || IsSubsequence(a, b[1..])
  }

  /** Every sequence is a subsequence of itself. */
  lemma {:induction false} SubsequenceRefl<T>(s: seq<T>)
    ensures IsSubsequence(s, s)
  {
    if |s| > 0 {
      SubsequenceRefl(s[1..]);
    }
  }

  /** No element occurs twice. */
  predicate Distinct<T(==)>(s: seq<T>)
  {
    forall i, j :: 0 <= i < j < |s| ==> s[i] != s[j]
  }

  /** Every element occurs at most once in the multiset of a sequence without repeats. */
  lemma {:induction false} DistinctMultiset<T>(s: seq<T>, x: T)
    requires Distinct(s)
    ensures multiset(s)[x] <= 1
  {
    if |s| > 0 {
      assert s == [s[0]] + s[1..];
      DistinctMultiset(s[1..], x);
      if s[0] == x {
        assert x !in s[1..];
      }
    }
  }
}
