/** The length-bucketed batch planner (`ESMBatchSampler`): bins, batches,
    `__len__` and `__iter__`, and the properties of the plan as a whole. */
module Planner {
  import opened Wrappers
  import opened Seqs
  import opened Arith
  import opened Shuffling
  import opened LengthFilter
  import opened Binning
  import opened Batching

  /** The arguments the sampler reads: `min_seq_len`, `max_seq_len`,
      `sampler["bin_size"]` and `batch_size`. */
  datatype SamplerArgs = SamplerArgs(minSeqLen: int, maxSeqLen: int, binSize: int, batchSize: int)

  /** The random draws consumed while the sampler is built: one list per bin
      for the per-bin shuffles, one for the shuffle of the batch order. */
  datatype Draws = Draws(binDraws: seq<seq<nat>>, batchDraws: seq<nat>)

  /** A constructed sampler: its bins and its batches in iteration order. */
  datatype BatchSampler = BatchSampler(bins: seq<Bin>, batches: seq<seq<nat>>)

  /** `create_batches`: the flattened bins cut into consecutive chunks of
      `batch_size`, then the order of the chunks shuffled. A zero batch size
      makes `range` raise. */
  function CreateBatches(bins: seq<Bin>, batchSize: int, draws: seq<nat>): (r: Result<seq<seq<nat>>, PlanError>)
    ensures r.Failure? <==> batchSize == 0
    ensures r.Failure? ==> r.error == RangeStepZero
    ensures r.Success? ==> multiset(r.value) == multiset(Chunks<nat>(Flatten(bins), batchSize))
  {
    if batchSize == 0 then Failure(RangeStepZero)
    else Success(Shuffle<seq<nat>>(Chunks<nat>(Flatten(bins), batchSize), draws))
  }

  /** The shuffled batches are whole chunks: each holds 1 to `batch_size`
      indices, there are ceil(total / batch_size) of them, and together they
      hold exactly the flattened bins' indices. */
  lemma CreateBatchesShape(bins: seq<Bin>, batchSize: int, draws: seq<nat>)
    requires batchSize > 0
    ensures forall k :: 0 <= k < |CreateBatches(bins, batchSize, draws).value| ==>
              0 < |CreateBatches(bins, batchSize, draws).value[k]| <= batchSize
    ensures |CreateBatches(bins, batchSize, draws).value| == (|Flatten(bins)| + batchSize - 1) / batchSize
    ensures multiset(Concat<nat>(CreateBatches(bins, batchSize, draws).value)) == multiset(Flatten(bins))
  {
    BatchSizes(bins, batchSize, draws);
    BatchCount(bins, batchSize, draws);
    BatchesHoldFlattened(bins, batchSize, draws);
  }

  /** Each shuffled batch is a chunk, so it holds 1 to `batch_size` indices. */
  lemma BatchSizes(bins: seq<Bin>, batchSize: int, draws: seq<nat>)
    requires batchSize > 0
    ensures forall k :: 0 <= k < |CreateBatches(bins, batchSize, draws).value| ==>
              0 < |CreateBatches(bins, batchSize, draws).value[k]| <= batchSize
  {
    var chunks := Chunks<nat>(Flatten(bins), batchSize);
    var r := CreateBatches(bins, batchSize, draws).value;
    ChunkSizes<nat>(Flatten(bins), batchSize);
    forall k | 0 <= k < |r|
      ensures 0 < |r[k]| <= batchSize
    {
      assert r[k] in multiset(chunks) by { assert r[k] in multiset(r); }
    }
  }

  /** Shuffling keeps the number of chunks, ceil(total / batch_size). */
  lemma BatchCount(bins: seq<Bin>, batchSize: int, draws: seq<nat>)
    requires batchSize > 0
    ensures |CreateBatches(bins, batchSize, draws).value| == (|Flatten(bins)| + batchSize - 1) / batchSize
  {
    var chunks := Chunks<nat>(Flatten(bins), batchSize);
    var r := CreateBatches(bins, batchSize, draws).value;
    ChunkCount<nat>(Flatten(bins), batchSize);
    assert |r| == |multiset(r)| == |multiset(chunks)| == |chunks|;
  }

  /** Together the batches hold exactly the flattened bins' indices. */
  lemma BatchesHoldFlattened(bins: seq<Bin>, batchSize: int, draws: seq<nat>)
    requires batchSize > 0
    ensures multiset(Concat<nat>(CreateBatches(bins, batchSize, draws).value)) == multiset(Flatten(bins))
  {
    var chunks := Chunks<nat>(Flatten(bins), batchSize);
    var r := CreateBatches(bins, batchSize, draws).value;
    ChunksConcat<nat>(Flatten(bins), batchSize);
    ConcatReorder<nat>(r, chunks);
  }

  /** The flattened bins hold each index whose length lies in
      [min_seq_len, min_seq_len + n * bin_size) exactly once, n being the
      number of bins, and nothing else. */
  lemma FlattenCoverage(bins: seq<Bin>, minSeqLen: int, maxSeqLen: int, binSize: int, lens: seq<nat>)
    requires binSize != 0
    requires ShuffledBinsOf(bins, BinKeys(minSeqLen, maxSeqLen, binSize), binSize, lens)
    ensures multiset(Flatten(bins))
         == multiset(IndicesIn(lens, minSeqLen, minSeqLen + |BinKeys(minSeqLen, maxSeqLen, binSize)| * binSize))
  {
    var n := |BinKeys(minSeqLen, maxSeqLen, binSize)|;
    var hi := minSeqLen + Offset(n, binSize);
    OffsetIsProduct(n, binSize);
    assert hi == minSeqLen + n * binSize;
    if binSize > 0 {
      FlattenPositive(bins, minSeqLen, maxSeqLen, binSize, lens, n);
    } else {
      FlattenNegative(bins, minSeqLen, maxSeqLen, binSize, lens);
      OffsetNonPositive(n, binSize);
      IndicesInEmpty(lens, minSeqLen, hi);
    }
  }

  /** With a positive bin size the n bins hold the n bands from min_seq_len. */
  lemma FlattenPositive(bins: seq<Bin>, minSeqLen: int, maxSeqLen: int, binSize: int, lens: seq<nat>, n: nat)
    requires binSize > 0 && n == |BinKeys(minSeqLen, maxSeqLen, binSize)|
    requires ShuffledBinsOf(bins, BinKeys(minSeqLen, maxSeqLen, binSize), binSize, lens)
    ensures multiset(Flatten(bins)) == multiset(IndicesIn(lens, minSeqLen, minSeqLen + Offset(n, binSize)))
  {
    var lists := MemberLists(bins);
    forall k | 0 <= k < n
      ensures multiset(lists[k]) == Bands(lens, minSeqLen, binSize, n)[k]
    {
      BinIsBand(bins, minSeqLen, maxSeqLen, binSize, lens, n, k);
    }
    BandsCover(lists, lens, minSeqLen, binSize, n);
  }

  /** Lists holding consecutive bands of positive width together hold the
      indices of the whole covered range. */
  lemma BandsCover(lists: seq<seq<nat>>, lens: seq<nat>, lo: int, b: int, n: nat)
    requires b > 0 && n == |lists|
    requires forall k :: 0 <= k < n ==> multiset(lists[k]) == Bands(lens, lo, b, n)[k]
    ensures multiset(Concat<nat>(lists)) == multiset(IndicesIn(lens, lo, lo + Offset(n, b)))
  {
    ConcatParts<nat>(lists, Bands(lens, lo, b, n));
    BandsUnion(lens, lo, b, n);
  }

  /** Bin k holds band k. */
  lemma BinIsBand(bins: seq<Bin>, minSeqLen: int, maxSeqLen: int, binSize: int, lens: seq<nat>, n: nat, k: nat)
    requires binSize > 0
    requires ShuffledBinsOf(bins, BinKeys(minSeqLen, maxSeqLen, binSize), binSize, lens)
    requires n == |bins| && k < n
    ensures multiset(MemberLists(bins)[k]) == Bands(lens, minSeqLen, binSize, n)[k]
  {
    BinHolds(bins, minSeqLen, maxSeqLen, binSize, lens, k);
    BandAt(lens, minSeqLen, binSize, n, k);
  }

  /** A negative step never exceeds zero in total. */
  lemma {:induction false} OffsetNonPositive(k: nat, b: int)
    requires b < 0
    ensures Offset(k, b) <= 0
  {
    if k > 0 {
      OffsetNonPositive(k - 1, b);
    }
  }

  /** With a negative bin size every bin interval is empty, so nothing is
      binned. */
  lemma FlattenNegative(bins: seq<Bin>, minSeqLen: int, maxSeqLen: int, binSize: int, lens: seq<nat>)
    requires binSize < 0
    requires ShuffledBinsOf(bins, BinKeys(minSeqLen, maxSeqLen, binSize), binSize, lens)
    ensures Flatten(bins) == []
  {
    var keys := BinKeys(minSeqLen, maxSeqLen, binSize);
    var lists := MemberLists(bins);
    forall k | 0 <= k < |lists|
      ensures lists[k] == []
    {
      IndicesInEmpty(lens, keys[k], keys[k] + binSize);
      assert |multiset(lists[k])| == 0;
    }
    ConcatOfEmpties(lists);
  }

  /** Bin j holds the indices with length in [min + j * b, min + (j + 1) * b). */
  lemma BinHolds(bins: seq<Bin>, minSeqLen: int, maxSeqLen: int, binSize: int, lens: seq<nat>, j: nat)
    requires binSize != 0
    requires ShuffledBinsOf(bins, BinKeys(minSeqLen, maxSeqLen, binSize), binSize, lens)
    requires j < |bins|
    ensures multiset(MemberLists(bins)[j])
         == multiset(IndicesIn(lens, minSeqLen + Offset(j, binSize), minSeqLen + Offset(j, binSize) + binSize))
  {
    OffsetIsProduct(j, binSize);
  }

  /** The contents of n consecutive length bands of width b from `lo`:
      band k holds the indices with length in [lo + k * b, lo + (k + 1) * b). */
  function Bands(lens: seq<nat>, lo: int, b: int, n: nat): (r: seq<multiset<nat>>)
    ensures |r| == n
    decreases n
  {
    if n == 0 then [] else [multiset(IndicesIn(lens, lo, lo + b))] + Bands(lens, lo + b, b, n - 1)
  }

  /** Band k of `Bands` covers [lo + k * b, lo + (k + 1) * b). */
  lemma {:induction false} BandAt(lens: seq<nat>, lo: int, b: int, n: nat, k: nat)
    requires k < n
    decreases k
    ensures Bands(lens, lo, b, n)[k] == multiset(IndicesIn(lens, lo + Offset(k, b), lo + Offset(k, b) + b))
  {
    if k > 0 {
      BandAt(lens, lo + b, b, n - 1, k - 1);
      OffsetShift(k, b);
      assert Bands(lens, lo, b, n)[k] == Bands(lens, lo + b, b, n - 1)[k - 1];
    }
  }

  /** Adjacent bands of positive width together cover their union. */
  lemma {:induction false} BandsUnion(lens: seq<nat>, lo: int, b: int, n: nat)
    requires b > 0
    ensures SumOf<nat>(Bands(lens, lo, b, n)) == multiset(IndicesIn(lens, lo, lo + Offset(n, b)))
    decreases n
  {
    if n == 0 {
      IndicesInEmpty(lens, lo, lo);
    } else {
      var m: nat, mid := n - 1, lo + b;
      BandsUnion(lens, mid, b, m);
      BandsUnionStep(lens, lo, mid, b, n, m);
    }
  }

  /** One more band in front of bands that cover [mid, mid + m * b) covers
      [lo, lo + n * b). */
  lemma BandsUnionStep(lens: seq<nat>, lo: int, mid: int, b: int, n: nat, m: nat)
    requires b > 0 && mid == lo + b && n == m + 1
    requires SumOf<nat>(Bands(lens, mid, b, m)) == multiset(IndicesIn(lens, mid, mid + Offset(m, b)))
    ensures SumOf<nat>(Bands(lens, lo, b, n)) == multiset(IndicesIn(lens, lo, lo + Offset(n, b)))
  {
    var hi := lo + Offset(n, b);
    BandsFirst(lens, lo, mid, b, n, m);
    OffsetShift(n, b);
    assert mid + Offset(m, b) == hi;
    IndicesInSplit(lens, lo, mid, hi);
  }

  /** The union of the bands is the first band plus the union of the rest. */
  lemma BandsFirst(lens: seq<nat>, lo: int, mid: int, b: int, n: nat, m: nat)
    requires mid == lo + b && n == m + 1
    ensures SumOf<nat>(Bands(lens, lo, b, n))
         == multiset(IndicesIn(lens, lo, mid)) + SumOf<nat>(Bands(lens, mid, b, m))
  {
    var r := Bands(lens, lo, b, n);
    assert r[0] == multiset(IndicesIn(lens, lo, mid));
    assert r[1..] == Bands(lens, mid, b, m);
  }

  /** Peeling the first step off an offset. */
  lemma OffsetShift(n: nat, b: int)
    requires n > 0
    ensures Offset(n, b) == b + Offset(n - 1, b)
  {
  }

  /** What a constructed sampler guarantees about records with lengths
      `lens`: its bins hold shuffles of the right indices; its batches are
      the chunks of the flattened bins, reordered; every batch holds 1 to
      `batch_size` indices; and together the batches hold exactly the
      indices of the covered length range. */
  predicate IsPlanFor(s: BatchSampler, args: SamplerArgs, lens: seq<nat>)
    requires args.binSize != 0 && args.batchSize != 0
  {
    var keys := BinKeys(args.minSeqLen, args.maxSeqLen, args.binSize);
    && ShuffledBinsOf(s.bins, keys, args.binSize, lens)
    && multiset(s.batches) == multiset(Chunks<nat>(Flatten(s.bins), args.batchSize))
    && (args.batchSize < 0 ==> s.batches == [])
    && (forall k :: 0 <= k < |s.batches| ==> 0 < |s.batches[k]| <= args.batchSize)
    && (args.batchSize > 0 ==>
          multiset(Concat<nat>(s.batches)) == multiset(IndicesIn(lens, args.minSeqLen, args.minSeqLen + |keys| * args.binSize)))
  }

  /** Batching correctly binned records yields a plan. */
  lemma BatchingGivesPlan(bins: seq<Bin>, args: SamplerArgs, lens: seq<nat>, draws: seq<nat>)
    requires args.binSize != 0 && args.batchSize != 0
    requires ShuffledBinsOf(bins, BinKeys(args.minSeqLen, args.maxSeqLen, args.binSize), args.binSize, lens)
    ensures IsPlanFor(BatchSampler(bins, CreateBatches(bins, args.batchSize, draws).value), args, lens)
  {
    if args.batchSize > 0 {
      PositiveBatchingGivesPlan(bins, args, lens, draws);
    } else {
      NegativeBatchingGivesPlan(bins, args, lens, draws);
    }
  }

  /** With a positive batch size the batches cover the binned indices. */
  lemma PositiveBatchingGivesPlan(bins: seq<Bin>, args: SamplerArgs, lens: seq<nat>, draws: seq<nat>)
    requires args.binSize != 0 && args.batchSize > 0
    requires ShuffledBinsOf(bins, BinKeys(args.minSeqLen, args.maxSeqLen, args.binSize), args.binSize, lens)
    ensures IsPlanFor(BatchSampler(bins, CreateBatches(bins, args.batchSize, draws).value), args, lens)
  {
    var batches := CreateBatches(bins, args.batchSize, draws).value;
    CreateBatchesShape(bins, args.batchSize, draws);
    BatchesCoverBinned(bins, args, lens, draws);
  }

  /** With a positive batch size the batches hold the covered indices. */
  lemma BatchesCoverBinned(bins: seq<Bin>, args: SamplerArgs, lens: seq<nat>, draws: seq<nat>)
    requires args.binSize != 0 && args.batchSize > 0
    requires ShuffledBinsOf(bins, BinKeys(args.minSeqLen, args.maxSeqLen, args.binSize), args.binSize, lens)
    ensures multiset(Concat<nat>(CreateBatches(bins, args.batchSize, draws).value))
         == multiset(IndicesIn(lens, args.minSeqLen,
                               args.minSeqLen + |BinKeys(args.minSeqLen, args.maxSeqLen, args.binSize)| * args.binSize))
  {
    BatchesHoldFlattened(bins, args.batchSize, draws);
    FlattenCoverage(bins, args.minSeqLen, args.maxSeqLen, args.binSize, lens);
  }

  /** With a negative batch size there are no batches. */
  lemma NegativeBatchingGivesPlan(bins: seq<Bin>, args: SamplerArgs, lens: seq<nat>, draws: seq<nat>)
    requires args.binSize != 0 && args.batchSize < 0
    requires ShuffledBinsOf(bins, BinKeys(args.minSeqLen, args.maxSeqLen, args.binSize), args.binSize, lens)
    ensures IsPlanFor(BatchSampler(bins, CreateBatches(bins, args.batchSize, draws).value), args, lens)
  {
    var batches := CreateBatches(bins, args.batchSize, draws).value;
    ChunksConcat<nat>(Flatten(bins), args.batchSize);
    assert |batches| == |multiset(batches)| == 0;
  }

  /** With a positive batch size, a plan's batches hold every index whose
      length lies in the covered range exactly once, and no other index. */
  lemma PlanBatchesEachIndexOnce(s: BatchSampler, args: SamplerArgs, lens: seq<nat>, i: int)
    requires args.binSize != 0 && args.batchSize > 0 && IsPlanFor(s, args, lens)
    ensures multiset(Concat<nat>(s.batches))[i]
         == if 0 <= i < |lens| && args.minSeqLen <= lens[i] < args.minSeqLen + |BinKeys(args.minSeqLen, args.maxSeqLen, args.binSize)| * args.binSize
            then 1 else 0
  {
    var n := |BinKeys(args.minSeqLen, args.maxSeqLen, args.binSize)|;
    CountOfCovered(s.batches, lens, args.minSeqLen, args.minSeqLen + n * args.binSize, i);
  }

  /** Batches holding the indices of a length range hold each index once
      when its length lies in the range, and not at all otherwise. */
  lemma CountOfCovered(batches: seq<seq<nat>>, lens: seq<nat>, lo: int, hi: int, i: int)
    requires multiset(Concat<nat>(batches)) == multiset(IndicesIn(lens, lo, hi))
    ensures multiset(Concat<nat>(batches))[i] == if 0 <= i < |lens| && lo <= lens[i] < hi then 1 else 0
  {
    IndicesInCount(lens, lo, hi, i);
  }

  /** On data already filtered to [min_seq_len, max_seq_len], with positive
      bin and batch sizes, a record is batched exactly once unless its length
      is exactly `max_seq_len` and the bin size divides the length range, in
      which case it falls past the last bin and is never yielded. */
  lemma FilteredRecordBatchedIff(s: BatchSampler, args: SamplerArgs, data: seq<Record>, i: nat)
    requires args.binSize > 0 && args.batchSize > 0 && IsPlanFor(s, args, Lengths(data))
    requires forall k :: 0 <= k < |data| ==> InWindow(data[k], args.maxSeqLen, args.minSeqLen)
    requires i < |data|
    ensures multiset(Concat<nat>(s.batches))[i]
         == if |data[i].sequence| == args.maxSeqLen && (args.maxSeqLen - args.minSeqLen) % args.binSize == 0 then 0 else 1
  {
    var len := |data[i].sequence|;
    assert InWindow(data[i], args.maxSeqLen, args.minSeqLen);
    PlanBatchesEachIndexOnce(s, args, Lengths(data), i);
    CoveredIff(args.minSeqLen, args.maxSeqLen, args.binSize, len);
  }

  /** A length in the window lies below the end of the last bin unless it
      is max_seq_len and bin_size divides the length range. */
  lemma CoveredIff(minSeqLen: int, maxSeqLen: int, binSize: int, len: int)
    requires binSize > 0 && minSeqLen <= len <= maxSeqLen
    ensures len < minSeqLen + |BinKeys(minSeqLen, maxSeqLen, binSize)| * binSize
        <==> !(len == maxSeqLen && (maxSeqLen - minSeqLen) % binSize == 0)
  {
    BinnedIff(minSeqLen, maxSeqLen, binSize, len);
    FilteredRecordBinnedIff(minSeqLen, maxSeqLen, binSize, len);
  }

  /** `ESMBatchSampler(data, args)`: builds the bins, then the batches. */
  method NewSampler(data: seq<Record>, args: SamplerArgs, draws: Draws) returns (r: Result<BatchSampler, PlanError>)
    ensures r.Failure? <==> args.binSize == 0 || args.batchSize == 0
    ensures r.Failure? ==> r.error == RangeStepZero
    ensures r.Success? ==> args.binSize != 0 && args.batchSize != 0 && IsPlanFor(r.value, args, Lengths(data))
  {
    var bins := CreateBins(data, args.minSeqLen, args.maxSeqLen, args.binSize, draws.binDraws);
    if bins.Failure? {
      return Failure(bins.error);
    }
    var batches := CreateBatches(bins.value, args.batchSize, draws.batchDraws);
    if batches.Failure? {
      return Failure(batches.error);
    }
    BatchingGivesPlan(bins.value, args, Lengths(data), draws.batchDraws);
    return Success(BatchSampler(bins.value, batches.value));
  }

  /** `ESMBatchSampler(data, args)` where `max_seq_len` may be unset: the
      dataset accepts None and then skips its filter. `range` converts its
      stop before it validates its step, so `range(min_seq_len, None,
      bin_size)` raises TypeError whatever the bin and batch sizes. */
  method ConfiguredSampler(data: seq<Record>, minSeqLen: int, maxSeqLen: Option<int>, binSize: int, batchSize: int, draws: Draws)
    returns (r: Result<BatchSampler, PlanError>)
    ensures maxSeqLen.None? ==> r == Failure(RangeStopNone)
    ensures maxSeqLen.Some? ==> (r.Failure? <==> binSize == 0 || batchSize == 0)
    ensures maxSeqLen.Some? && r.Failure? ==> r.error == RangeStepZero
    ensures r.Success? ==>
              && maxSeqLen.Some? && binSize != 0 && batchSize != 0
              && IsPlanFor(r.value, SamplerArgs(minSeqLen, maxSeqLen.value, binSize, batchSize), Lengths(data))
  {
    if maxSeqLen.None? {
      return Failure(RangeStopNone);
    }
    r := NewSampler(data, SamplerArgs(minSeqLen, maxSeqLen.value, binSize, batchSize), draws);
  }

  /** `__len__`: the number of batches. */
  function Len(s: BatchSampler): nat
  {
    |s.batches|
  }

  /** One step of `__iter__`: the batch at the cursor, or None once the
      batches are exhausted. */
  function Next(s: BatchSampler, cursor: nat): Option<seq<nat>>
  {
    if cursor < |s.batches| then Some(s.batches[cursor]) else None
  }

  /** Everything iteration yields from the cursor on, until exhaustion. */
  function Drain(s: BatchSampler, cursor: nat): seq<seq<nat>>
    decreases |s.batches| - cursor
  {
    if cursor < |s.batches| then [Next(s, cursor).value] + Drain(s, cursor + 1) else []
  }

  /** From any cursor, iteration yields the remaining batches in order. */
  lemma {:induction false} DrainFrom(s: BatchSampler, cursor: nat)
    requires cursor <= |s.batches|
    ensures Drain(s, cursor) == s.batches[cursor..]
    decreases |s.batches| - cursor
  {
    if cursor < |s.batches| {
      DrainFrom(s, cursor + 1);
      assert s.batches[cursor..] == [s.batches[cursor]] + s.batches[cursor + 1..];
    }
  }

  /** Iteration yields every stored batch exactly once, in stored order, as
      many as `__len__` reports, and is then exhausted. */
  lemma IterationYieldsBatches(s: BatchSampler)
    ensures Drain(s, 0) == s.batches
    ensures |Drain(s, 0)| == Len(s)
    ensures Next(s, Len(s)) == None
  {
    DrainFrom(s, 0);
  }
}
