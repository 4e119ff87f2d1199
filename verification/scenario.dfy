/** A worked instance of the sampler's planning: lengths 10, 12, 25, 26 and
    40 with `min_seq_len` 10, `max_seq_len` 40 and a bin size of 15. */
module Scenario {
  import opened Wrappers
  import opened Seqs
  import opened Binning
  import opened Batching
  import opened Planner

  /** The bins start at 10 and 25, and the record of length exactly 40
      falls past the last bin. */
  lemma WorkedKeys()
    ensures BinKeys(10, 40, 15) == [10, 25]
    ensures FirstBin([10, 25], 15, 40) == None
  {
    assert Range(40, 40, 15) == [];
    assert Range(25, 40, 15) == [25];
  }

  /** Bin [10, 25) holds records 0 and 1. */
  lemma WorkedFirstBin()
    ensures IndicesIn([10, 12, 25, 26, 40], 10, 25) == [0, 1]
  {
    var lens: seq<nat> := [10, 12, 25, 26, 40];
    assert lens[..5] == lens && lens[..0] == [];
    IndicesInSnoc(lens, 0, 10, 25);
    IndicesInSnoc(lens, 1, 10, 25);
    IndicesInSnoc(lens, 2, 10, 25);
    IndicesInSnoc(lens, 3, 10, 25);
    IndicesInSnoc(lens, 4, 10, 25);
  }

  /** Bin [25, 40) holds records 2 and 3; record 4, of length 40, is in
      neither. */
  lemma WorkedSecondBin()
    ensures IndicesIn([10, 12, 25, 26, 40], 25, 40) == [2, 3]
  {
    var lens: seq<nat> := [10, 12, 25, 26, 40];
    assert lens[..5] == lens && lens[..0] == [];
    IndicesInSnoc(lens, 0, 25, 40);
    IndicesInSnoc(lens, 1, 25, 40);
    IndicesInSnoc(lens, 2, 25, 40);
    IndicesInSnoc(lens, 3, 25, 40);
    IndicesInSnoc(lens, 4, 25, 40);
  }

  /** With a batch size of 2 the four binned indices form two full batches. */
  lemma WorkedBatches()
    ensures Chunks<nat>([0, 1, 2, 3], 2) == [[0, 1], [2, 3]]
  {
    var flat: seq<nat> := [0, 1, 2, 3];
    assert flat[..2] == [0, 1] && flat[2..] == [2, 3];
  }

  /** Any sampler built for this instance with a batch size of 2 holds two
      batches, one a shuffle of records 0 and 1 and the other a shuffle of
      records 2 and 3, in either order; record 4 is in neither. */
  lemma WorkedPlan(s: BatchSampler)
    requires IsPlanFor(s, SamplerArgs(10, 40, 15, 2), [10, 12, 25, 26, 40])
    ensures |s.batches| == 2
    ensures || (multiset(s.batches[0]) == multiset{0, 1} && multiset(s.batches[1]) == multiset{2, 3})
            || (multiset(s.batches[0]) == multiset{2, 3} && multiset(s.batches[1]) == multiset{0, 1})
    ensures forall k :: 0 <= k < |s.batches| ==> 4 !in s.batches[k]
  {
    assert ShuffledBinsOf(s.bins, BinKeys(10, 40, 15), 15, [10, 12, 25, 26, 40]);
    assert multiset(s.batches) == multiset(Chunks<nat>(Flatten(s.bins), 2));
    WorkedBins(s.bins);
    WorkedChunks(s.bins);
    WorkedOrder(s.batches, s.bins[0].members, s.bins[1].members);
  }

  /** The shuffled bins of the instance: a shuffle of records 0 and 1, then
      a shuffle of records 2 and 3. */
  lemma WorkedBins(bins: seq<Bin>)
    requires ShuffledBinsOf(bins, BinKeys(10, 40, 15), 15, [10, 12, 25, 26, 40])
    ensures |bins| == 2
    ensures multiset(bins[0].members) == multiset{0, 1}
    ensures multiset(bins[1].members) == multiset{2, 3}
  {
    WorkedKeys();
    WorkedFirstBin();
    WorkedSecondBin();
    assert multiset([0, 1]) == multiset{0, 1};
    assert multiset([2, 3]) == multiset{2, 3};
  }

  /** Two bins of two records each make two batches of 2, one per bin. */
  lemma WorkedChunks(bins: seq<Bin>)
    requires |bins| == 2
    requires multiset(bins[0].members) == multiset{0, 1}
    requires multiset(bins[1].members) == multiset{2, 3}
    ensures Chunks<nat>(Flatten(bins), 2) == [bins[0].members, bins[1].members]
  {
    var m0, m1 := bins[0].members, bins[1].members;
    assert |m0| == |multiset(m0)| == 2;
    assert |m1| == |multiset(m1)| == 2;
    var flat := Flatten(bins);
    WorkedFlatten(bins);
    assert flat[..2] == m0 && flat[2..] == m1;
  }

  /** The bins of the instance flatten to their two member lists in order. */
  lemma WorkedFlatten(bins: seq<Bin>)
    requires |bins| == 2
    ensures Flatten(bins) == bins[0].members + bins[1].members
  {
    var lists: seq<seq<nat>> := MemberLists(bins);
    assert |lists[1..][1..]| == 0;
    assert Concat(lists[1..]) == bins[1].members + Concat<nat>([]);
  }

  /** Batches that are a reordering of the two bins' lists hold a shuffle of
      records 0 and 1 and a shuffle of records 2 and 3, and never record 4. */
  lemma WorkedOrder(batches: seq<seq<nat>>, m0: seq<nat>, m1: seq<nat>)
    requires multiset(batches) == multiset([m0, m1])
    requires multiset(m0) == multiset{0, 1} && multiset(m1) == multiset{2, 3}
    ensures |batches| == 2
    ensures || (multiset(batches[0]) == multiset{0, 1} && multiset(batches[1]) == multiset{2, 3})
            || (multiset(batches[0]) == multiset{2, 3} && multiset(batches[1]) == multiset{0, 1})
    ensures forall k :: 0 <= k < |batches| ==> 4 !in batches[k]
  {
    assert multiset([m0, m1]) == multiset{m0, m1};
    TwoOrders(batches, m0, m1);
    assert multiset(m0)[4] == 0 && multiset(m1)[4] == 0;
  }

  /** A list holding exactly a and b is [a, b] or [b, a]. */
  lemma TwoOrders<T>(xs: seq<T>, a: T, b: T)
    requires multiset(xs) == multiset{a, b}
    ensures xs == [a, b] || xs == [b, a]
  {
    assert |xs| == |multiset(xs)| == 2;
    assert xs[0] in multiset(xs) && xs[1] in multiset(xs);
    assert multiset(xs) == multiset{xs[0], xs[1]} by {
      assert xs == [xs[0]] + [xs[1]];
    }
    if xs[0] == a {
      assert multiset{xs[1]} == multiset{b};
    } else {
      assert xs[0] == b;
      assert multiset{xs[1]} == multiset{a};
    }
  }
}
