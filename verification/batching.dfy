/** Cutting the bins into batches (`ESMBatchSampler.create_batches`). */
module Batching {
  import opened Seqs
  import opened Binning
  import opened Arith

  /** The bins' index lists, in key order. */
  function MemberLists(bins: seq<Bin>): (r: seq<seq<nat>>)
    ensures |r| == |bins|
    ensures forall j :: 0 <= j < |bins| ==> r[j] == bins[j].members
  {
    seq(|bins|, j requires 0 <= j < |bins| => bins[j].members)
  }

  /** `bins_flattened`: every bin's list appended in key order. */
  function Flatten(bins: seq<Bin>): seq<nat>
  {
    Concat(MemberLists(bins))
  }

  /** `[flat[i : i + b] for i in range(0, len(flat), b)]` for a non-zero b:
      consecutive slices of b elements, the last one possibly shorter. A
      negative b makes the range empty. */
  function Chunks<T>(flat: seq<T>, batchSize: int): seq<seq<T>>
    requires batchSize != 0
    decreases |flat|
  {
    if batchSize < 0 || |flat| == 0 then []
    else if |flat| <= batchSize then [flat]
    else [flat[..batchSize]] + Chunks(flat[batchSize..], batchSize)
  }

  /** Concatenating the batches in order gives back the flattened bins: no
      index is lost or duplicated, and the order is kept. A negative batch
      size yields no batch at all. */
  lemma {:induction false} ChunksConcat<T>(flat: seq<T>, batchSize: int)
    requires batchSize != 0
    ensures batchSize > 0 ==> Concat(Chunks(flat, batchSize)) == flat
    ensures batchSize < 0 ==> Chunks(flat, batchSize) == []
    decreases |flat|
  {
    if batchSize > 0 && |flat| > 0 {
      if |flat| <= batchSize {
        assert [flat][1..] == [];
      } else {
        var rest := Chunks(flat[batchSize..], batchSize);
        ChunksConcat(flat[batchSize..], batchSize);
        assert ([flat[..batchSize]] + rest)[1..] == rest;
      }
    }
  }

  /** Every batch holds between 1 and b indices, and every batch but the
      last holds exactly b. */
  lemma {:induction false} ChunkSizes<T>(flat: seq<T>, batchSize: int)
    requires batchSize != 0
    ensures forall k :: 0 <= k < |Chunks(flat, batchSize)| ==> 0 < |Chunks(flat, batchSize)[k]| <= batchSize
    ensures forall k :: 0 <= k < |Chunks(flat, batchSize)| - 1 ==> |Chunks(flat, batchSize)[k]| == batchSize
    decreases |flat|
  {
    if batchSize > 0 && |flat| > batchSize {
      ChunkSizes(flat[batchSize..], batchSize);
      var rest := Chunks(flat[batchSize..], batchSize);
      assert forall k :: 0 < k < |rest| + 1 ==> ([flat[..batchSize]] + rest)[k] == rest[k - 1];
    }
  }

  /** There are ceil(|flat| / b) batches. */
  lemma {:induction false} ChunkCount<T>(flat: seq<T>, batchSize: int)
    requires batchSize > 0
    ensures |Chunks(flat, batchSize)| == (|flat| + batchSize - 1) / batchSize
    decreases |flat|
  {
    if |flat| == 0 {
      DivUnique(batchSize - 1, batchSize, 0, batchSize - 1);
    } else if |flat| <= batchSize {
      DivUnique(|flat| + batchSize - 1, batchSize, 1, |flat| - 1);
    } else {
      ChunkCount(flat[batchSize..], batchSize);
      DivShift(|flat| + batchSize - 1, batchSize);
    }
  }

  /** Batch k is the slice of the concatenation starting at k * b, clipped
      to its end: the comprehension's iteration with i = k * b. */
  lemma ChunksAreSlices<T>(flat: seq<T>, batchSize: int, k: nat)
    requires batchSize > 0
    requires k < |Chunks(flat, batchSize)|
    ensures k * batchSize < |flat|
    ensures Chunks(flat, batchSize)[k]
         == flat[k * batchSize .. if k * batchSize + batchSize < |flat| then k * batchSize + batchSize else |flat|]
  {
    OffsetIsProduct(k, batchSize);
    ChunkAt(flat, batchSize, k, Offset(k, batchSize));
  }

  /** k * b, accumulated by repeated addition. */
  function Offset(k: nat, b: int): (r: int)
    ensures b >= 0 ==> r >= 0
  {
    if k == 0 then 0 else Offset(k - 1, b) + b
  }

  lemma {:induction false} OffsetIsProduct(k: nat, b: int)
    ensures Offset(k, b) == k * b
  {
    if k > 0 {
      OffsetIsProduct(k - 1, b);
      MulPred(k, b);
    }
  }

  /** `ChunksAreSlices` with the start offset named. */
  lemma {:induction false} ChunkAt<T>(flat: seq<T>, b: int, k: nat, start: int)
    requires b > 0 && start == Offset(k, b)
    requires k < |Chunks(flat, b)|
    ensures start < |flat|
    ensures Chunks(flat, b)[k] == flat[start .. if start + b < |flat| then start + b else |flat|]
    decreases |flat|
  {
    if k == 0 {
      if |flat| <= b {
        assert flat[0..|flat|] == flat;
      }
    } else {
      var tail := flat[b..];
      ChunksUnfold(flat, b);
      var head, rest := [flat[..b]], Chunks(tail, b);
      assert Chunks(flat, b) == head + rest;
      assert (head + rest)[k] == rest[k - 1];
      ChunkAt(tail, b, k - 1, start - b);
      var hi := if start < |tail| then start else |tail|;
      assert tail[start - b..hi] == flat[start..hi + b];
    }
  }

  /** One step of the comprehension: at most one batch when everything fits,
      otherwise the first b elements followed by the batches of the rest. */
  lemma ChunksUnfold<T>(flat: seq<T>, b: int)
    requires b > 0
    ensures |flat| <= b ==> |Chunks(flat, b)| <= 1
    ensures |flat| > b ==> Chunks(flat, b) == [flat[..b]] + Chunks(flat[b..], b)
  {
  }
}
