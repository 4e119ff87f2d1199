/** Assignment of record indices to length bins (`ESMBatchSampler.create_bins`). */
module Binning {
  import opened Wrappers
  import opened Seqs
  import opened Shuffling
  import opened LengthFilter
  import opened Arith

  /** One entry of the bins dictionary: the bin's start length and the
      indices it holds. The bin covers lengths [start, start + bin_size). */
  datatype Bin = Bin(start: int, members: seq<nat>)

  /** The exceptions `range` raises while the sampler is built. */
  datatype PlanError =
    | RangeStepZero  // `range` with step 0: ValueError
    | RangeStopNone  // `range` with stop None: TypeError

  /** Python's `range(start, stop, step)` for a non-zero step. */
  function Range(start: int, stop: int, step: int): (r: seq<int>)
    requires step != 0
    ensures forall j :: 0 <= j < |r| ==> r[j] == start + j * step
    ensures forall j :: 0 <= j < |r| ==> if step > 0 then r[j] < stop else r[j] > stop
    ensures step > 0 ==> start + |r| * step >= stop
    ensures step < 0 ==> start + |r| * step <= stop
    decreases if step > 0 then stop - start else start - stop
  {
    if (step > 0 && start < stop) || (step < 0 && start > stop) then
      var rest := Range(start + step, stop, step);
      PrependKey(start, step, rest);
      [start] + rest
    else
      []
  }

  /** Prepending `start` to the progression from `start + step` gives the
      progression from `start`. */
  lemma PrependKey(start: int, step: int, rest: seq<int>)
    requires forall j :: 0 <= j < |rest| ==> rest[j] == start + step + j * step
    ensures forall j :: 0 <= j <= |rest| ==> ([start] + rest)[j] == start + j * step
    ensures start + step + |rest| * step == start + (|rest| + 1) * step
  {
    forall j | 0 < j <= |rest|
      ensures ([start] + rest)[j] == start + j * step
    {
      assert ([start] + rest)[j] == rest[j - 1];
      assert start + step + (j - 1) * step == start + j * step;
    }
  }

  /** The keys of the bins dictionary, in insertion order. */
  function BinKeys(minSeqLen: int, maxSeqLen: int, binSize: int): seq<int>
    requires binSize != 0
  {
    Range(minSeqLen, maxSeqLen, binSize)
  }

  /** The bin starting at `start` holds a record of length `len`. */
  predicate Holds(start: int, binSize: int, len: int)
  {
    start <= len < start + binSize
  }

  /** The inner loop of the binning pass with its `break`: the position of
      the first key, from `from` on, whose bin holds `len`. */
  function FirstBinFrom(keys: seq<int>, binSize: int, len: int, from: nat): (r: Option<nat>)
    requires from <= |keys|
    ensures r.Some? ==> from <= r.value < |keys| && Holds(keys[r.value], binSize, len)
    ensures r.Some? ==> forall j :: from <= j < r.value ==> !Holds(keys[j], binSize, len)
    ensures r.None? ==> forall j :: from <= j < |keys| ==> !Holds(keys[j], binSize, len)
    decreases |keys| - from
  {
    if from == |keys| then None
    else if Holds(keys[from], binSize, len) then Some(from)
    else FirstBinFrom(keys, binSize, len, from + 1)
  }

  /** The position of the bin a record of length `len` is appended to, or
      None when no bin holds it. */
  function FirstBin(keys: seq<int>, binSize: int, len: int): (r: Option<nat>)
  {
    FirstBinFrom(keys, binSize, len, 0)
  }

  /** The indices i of `lens` with lo <= lens[i] < hi, in increasing order:
      the reference definition of what a bin holds. */
  function IndicesIn(lens: seq<nat>, lo: int, hi: int): seq<nat>
  {
    if |lens| == 0 then []
    else
      var n := |lens| - 1;
      var rest := IndicesIn(lens[..n], lo, hi);
      if lo <= lens[n] < hi then rest + [n] else rest
  }

  /** `IndicesIn` lists exactly the indices whose length lies in [lo, hi),
      each once, in increasing order. */
  lemma IndicesInExactly(lens: seq<nat>, lo: int, hi: int)
    ensures forall i :: i in IndicesIn(lens, lo, hi) <==> 0 <= i < |lens| && lo <= lens[i] < hi
    ensures forall k, k' :: 0 <= k < k' < |IndicesIn(lens, lo, hi)| ==>
              IndicesIn(lens, lo, hi)[k] < IndicesIn(lens, lo, hi)[k']
  {
    IndicesInMembers(lens, lo, hi);
    IndicesInIncreasing(lens, lo, hi);
  }

  /** An index is listed exactly when its length lies in [lo, hi). */
  lemma {:induction false} IndicesInMembers(lens: seq<nat>, lo: int, hi: int)
    ensures forall i :: i in IndicesIn(lens, lo, hi) <==> 0 <= i < |lens| && lo <= lens[i] < hi
  {
    if |lens| > 0 {
      var n := |lens| - 1;
      IndicesInMembers(lens[..n], lo, hi);
      forall i
        ensures i in IndicesIn(lens, lo, hi) <==> 0 <= i < |lens| && lo <= lens[i] < hi
      {
        if 0 <= i < n {
          assert lens[..n][i] == lens[i];
        }
      }
    }
  }

  /** The listed indices increase strictly. */
  lemma {:induction false} IndicesInIncreasing(lens: seq<nat>, lo: int, hi: int)
    ensures forall k, k' :: 0 <= k < k' < |IndicesIn(lens, lo, hi)| ==>
              IndicesIn(lens, lo, hi)[k] < IndicesIn(lens, lo, hi)[k']
  {
    if |lens| > 0 {
      var n := |lens| - 1;
      var rest := IndicesIn(lens[..n], lo, hi);
      IndicesInIncreasing(lens[..n], lo, hi);
      IndicesInMembers(lens[..n], lo, hi);
      forall k | 0 <= k < |rest|
        ensures rest[k] < n
      {
        assert rest[k] in rest;
      }
    }
  }

  /** The sequence length of every record, by index. */
  function Lengths(data: seq<Record>): (lens: seq<nat>)
    ensures |lens| == |data|
    ensures forall i :: 0 <= i < |data| ==> lens[i] == |data[i].sequence|
  {
    seq(|data|, i requires 0 <= i < |data| => |data[i].sequence|)
  }

  /** With a positive bin size the keys step upward by exactly `binSize`. */
  lemma KeysStep(minSeqLen: int, maxSeqLen: int, binSize: int, j: nat, j': nat)
    requires binSize > 0
    requires j < j' < |BinKeys(minSeqLen, maxSeqLen, binSize)|
    ensures BinKeys(minSeqLen, maxSeqLen, binSize)[j] + binSize <= BinKeys(minSeqLen, maxSeqLen, binSize)[j']
  {
    var keys := BinKeys(minSeqLen, maxSeqLen, binSize);
    assert keys[j] == minSeqLen + j * binSize;
    assert keys[j'] == minSeqLen + j' * binSize;
    MulMonotone(j + 1, j', binSize);
  }


  /** At most one bin holds any given length: the intervals of the keys are
      pairwise disjoint (and all empty when the step is negative). */
  lemma {:induction false} AtMostOneBinHolds(minSeqLen: int, maxSeqLen: int, binSize: int, len: int, j: nat, j': nat)
    requires binSize != 0
    requires j < |BinKeys(minSeqLen, maxSeqLen, binSize)| && j' < |BinKeys(minSeqLen, maxSeqLen, binSize)|
    requires Holds(BinKeys(minSeqLen, maxSeqLen, binSize)[j], binSize, len)
    requires Holds(BinKeys(minSeqLen, maxSeqLen, binSize)[j'], binSize, len)
    ensures j == j'
  {
    if j < j' {
      KeysStep(minSeqLen, maxSeqLen, binSize, j, j');
    } else if j' < j {
      KeysStep(minSeqLen, maxSeqLen, binSize, j', j);
    }
  }

  /** The first-match search finds exactly the bin that holds the length. */
  lemma FirstBinIsTheBin(minSeqLen: int, maxSeqLen: int, binSize: int, len: int, j: nat)
    requires binSize != 0
    requires j < |BinKeys(minSeqLen, maxSeqLen, binSize)|
    ensures FirstBin(BinKeys(minSeqLen, maxSeqLen, binSize), binSize, len) == Some(j)
        <==> Holds(BinKeys(minSeqLen, maxSeqLen, binSize)[j], binSize, len)
  {
    var keys := BinKeys(minSeqLen, maxSeqLen, binSize);
    var r := FirstBin(keys, binSize, len);
    if Holds(keys[j], binSize, len) && r.Some? {
      AtMostOneBinHolds(minSeqLen, maxSeqLen, binSize, len, j, r.value);
    }
  }

  /** The bin keys are exactly the lengths in [min_seq_len, max_seq_len) that
      are congruent to min_seq_len modulo a positive bin size, in strictly
      increasing order. */
  lemma {:induction false} BinKeysExactly(minSeqLen: int, maxSeqLen: int, binSize: int)
    requires binSize > 0
    ensures forall k :: k in BinKeys(minSeqLen, maxSeqLen, binSize)
              <==> minSeqLen <= k < maxSeqLen && (k - minSeqLen) % binSize == 0
    ensures forall j, j' :: 0 <= j < j' < |BinKeys(minSeqLen, maxSeqLen, binSize)| ==>
              BinKeys(minSeqLen, maxSeqLen, binSize)[j] < BinKeys(minSeqLen, maxSeqLen, binSize)[j']
    ensures minSeqLen >= maxSeqLen <==> |BinKeys(minSeqLen, maxSeqLen, binSize)| == 0
  {
    var keys := BinKeys(minSeqLen, maxSeqLen, binSize);
    var n := |keys|;
    forall k | k in keys
      ensures minSeqLen <= k < maxSeqLen && (k - minSeqLen) % binSize == 0
    {
      var j :| 0 <= j < n && keys[j] == k;
      MultipleMod(j, binSize);
    }
    forall k | minSeqLen <= k < maxSeqLen && (k - minSeqLen) % binSize == 0
      ensures k in keys
    {
      var q := (k - minSeqLen) / binSize;
      assert k - minSeqLen == q * binSize;
      MulLess(q, n, binSize);
      assert keys[q] == k;
    }
    forall j, j' | 0 <= j < j' < n
      ensures keys[j] < keys[j']
    {
      KeysStep(minSeqLen, maxSeqLen, binSize, j, j');
    }
    if n > 0 {
      assert keys[0] == minSeqLen;
    }
  }




  /** Extending the scanned prefix by index i appends i exactly when its
      length lies in [lo, hi). */
  lemma IndicesInSnoc(lens: seq<nat>, i: nat, lo: int, hi: int)
    requires i < |lens|
    ensures IndicesIn(lens[..i + 1], lo, hi)
         == if lo <= lens[i] < hi then IndicesIn(lens[..i], lo, hi) + [i] else IndicesIn(lens[..i], lo, hi)
  {
    assert lens[..i + 1][..i] == lens[..i];
  }

  /** Each bin holds exactly the indices of `lens` whose length it holds,
      in increasing order. */
  predicate BinsOf(bins: seq<Bin>, keys: seq<int>, binSize: int, lens: seq<nat>)
  {
    && |bins| == |keys|
    && forall j :: 0 <= j < |keys| ==> bins[j] == Bin(keys[j], IndicesIn(lens, keys[j], keys[j] + binSize))
  }

  /** Appending index i to the bin the search finds, if any, extends the
      binning of the first i indices to the first i + 1. */
  lemma AppendToFoundBin(minSeqLen: int, maxSeqLen: int, binSize: int, lens: seq<nat>, i: nat, bins: seq<Bin>)
    requires binSize != 0 && i < |lens|
    requires BinsOf(bins, BinKeys(minSeqLen, maxSeqLen, binSize), binSize, lens[..i])
    ensures BinsOf(AppendFound(bins, BinKeys(minSeqLen, maxSeqLen, binSize), binSize, lens[i], i),
                   BinKeys(minSeqLen, maxSeqLen, binSize), binSize, lens[..i + 1])
  {
    var keys := BinKeys(minSeqLen, maxSeqLen, binSize);
    forall j | 0 <= j < |keys|
      ensures AppendFound(bins, keys, binSize, lens[i], i)[j] == Bin(keys[j], IndicesIn(lens[..i + 1], keys[j], keys[j] + binSize))
    {
      AppendToOneBin(minSeqLen, maxSeqLen, binSize, lens, i, bins, j);
    }
  }

  /** The effect of one step of the binning pass on bin j. */
  lemma AppendToOneBin(minSeqLen: int, maxSeqLen: int, binSize: int, lens: seq<nat>, i: nat, bins: seq<Bin>, j: nat)
    requires binSize != 0 && i < |lens|
    requires j < |BinKeys(minSeqLen, maxSeqLen, binSize)|
    requires |bins| == |BinKeys(minSeqLen, maxSeqLen, binSize)|
    requires bins[j] == Bin(BinKeys(minSeqLen, maxSeqLen, binSize)[j],
                            IndicesIn(lens[..i], BinKeys(minSeqLen, maxSeqLen, binSize)[j],
                                      BinKeys(minSeqLen, maxSeqLen, binSize)[j] + binSize))
    ensures AppendFound(bins, BinKeys(minSeqLen, maxSeqLen, binSize), binSize, lens[i], i)[j]
         == Bin(BinKeys(minSeqLen, maxSeqLen, binSize)[j],
                IndicesIn(lens[..i + 1], BinKeys(minSeqLen, maxSeqLen, binSize)[j],
                          BinKeys(minSeqLen, maxSeqLen, binSize)[j] + binSize))
  {
    var keys := BinKeys(minSeqLen, maxSeqLen, binSize);
    var lo, hi := keys[j], keys[j] + binSize;
    IndicesInSnoc(lens, i, lo, hi);
    FirstBinIsTheBin(minSeqLen, maxSeqLen, binSize, lens[i], j);
    var found := FirstBin(keys, binSize, lens[i]);
    if lo <= lens[i] < hi {
      assert found == Some(j);
    } else if found.Some? {
      assert found.value != j;
    }
  }

  /** One step of the binning pass: index i, of length len, is appended to
      the first bin that holds it, if any. */
  function AppendFound(bins: seq<Bin>, keys: seq<int>, binSize: int, len: nat, i: nat): (r: seq<Bin>)
    requires |bins| == |keys|
    ensures |r| == |bins|
  {
    match FirstBin(keys, binSize, len)
    case Some(k) => bins[k := Bin(bins[k].start, bins[k].members + [i])]
    case None => bins
  }

  /** The binning pass of `create_bins`: one empty bin per key, then every
      index appended to the first bin that holds its length. Each bin ends up
      with exactly the indices whose length it holds, in increasing order. */
  method AssignBins(lens: seq<nat>, minSeqLen: int, maxSeqLen: int, binSize: int) returns (bins: seq<Bin>)
    requires binSize != 0
    ensures BinsOf(bins, BinKeys(minSeqLen, maxSeqLen, binSize), binSize, lens)
  {
    var keys := BinKeys(minSeqLen, maxSeqLen, binSize);
    bins := seq(|keys|, j requires 0 <= j < |keys| => Bin(keys[j], []));
    assert lens[..0] == [];
    for i := 0 to |lens|
      invariant BinsOf(bins, keys, binSize, lens[..i])
    {
      AppendToFoundBin(minSeqLen, maxSeqLen, binSize, lens, i, bins);
      bins := AppendFound(bins, keys, binSize, lens[i], i);
    }
    assert lens[..|lens|] == lens;
  }

  /** Distinct bins never share an index. */
  lemma BinsDisjoint(lens: seq<nat>, minSeqLen: int, maxSeqLen: int, binSize: int, j: nat, j': nat, i: nat)
    requires binSize != 0
    requires j < |BinKeys(minSeqLen, maxSeqLen, binSize)| && j' < |BinKeys(minSeqLen, maxSeqLen, binSize)|
    requires i in IndicesIn(lens, BinKeys(minSeqLen, maxSeqLen, binSize)[j], BinKeys(minSeqLen, maxSeqLen, binSize)[j] + binSize)
    requires i in IndicesIn(lens, BinKeys(minSeqLen, maxSeqLen, binSize)[j'], BinKeys(minSeqLen, maxSeqLen, binSize)[j'] + binSize)
    ensures j == j'
  {
    var keys := BinKeys(minSeqLen, maxSeqLen, binSize);
    IndicesInExactly(lens, keys[j], keys[j] + binSize);
    IndicesInExactly(lens, keys[j'], keys[j'] + binSize);
    AtMostOneBinHolds(minSeqLen, maxSeqLen, binSize, lens[i], j, j');
  }

  /** With a positive bin size, a length is binned exactly when it lies in
      [min_seq_len, min_seq_len + n * bin_size), n being the number of keys. */
  lemma BinnedIff(minSeqLen: int, maxSeqLen: int, binSize: int, len: int)
    requires binSize > 0
    ensures FirstBin(BinKeys(minSeqLen, maxSeqLen, binSize), binSize, len).Some?
        <==> minSeqLen <= len < minSeqLen + |BinKeys(minSeqLen, maxSeqLen, binSize)| * binSize
  {
    var keys := BinKeys(minSeqLen, maxSeqLen, binSize);
    var r := FirstBin(keys, binSize, len);
    if r.Some? {
      BinnedInRange(minSeqLen, maxSeqLen, binSize, len, r.value);
    }
    if minSeqLen <= len < minSeqLen + |keys| * binSize {
      InRangeBinned(minSeqLen, maxSeqLen, binSize, len);
    }
  }

  /** The bin holding a length lies inside the covered range. */
  lemma BinnedInRange(minSeqLen: int, maxSeqLen: int, binSize: int, len: int, j: nat)
    requires binSize > 0
    requires j < |BinKeys(minSeqLen, maxSeqLen, binSize)|
    requires Holds(BinKeys(minSeqLen, maxSeqLen, binSize)[j], binSize, len)
    ensures minSeqLen <= len < minSeqLen + |BinKeys(minSeqLen, maxSeqLen, binSize)| * binSize
  {
    var n := |BinKeys(minSeqLen, maxSeqLen, binSize)|;
    assert BinKeys(minSeqLen, maxSeqLen, binSize)[j] == minSeqLen + j * binSize;
    MulMonotone(0, j, binSize);
    MulMonotone(j + 1, n, binSize);
    assert (j + 1) * binSize == j * binSize + binSize;
  }

  /** Every length in the covered range has a bin. */
  lemma InRangeBinned(minSeqLen: int, maxSeqLen: int, binSize: int, len: int)
    requires binSize > 0
    requires minSeqLen <= len < minSeqLen + |BinKeys(minSeqLen, maxSeqLen, binSize)| * binSize
    ensures FirstBin(BinKeys(minSeqLen, maxSeqLen, binSize), binSize, len).Some?
  {
    var keys := BinKeys(minSeqLen, maxSeqLen, binSize);
    var q := (len - minSeqLen) / binSize;
    assert q * binSize <= len - minSeqLen < q * binSize + binSize;
    MulLess(q, |keys|, binSize);
    assert Holds(keys[q], binSize, len);
  }

  /** A record that passed the length filter is binned unless its length is
      exactly max_seq_len and bin_size divides max_seq_len - min_seq_len: the
      last bin then ends at max_seq_len, excluded. */
  lemma FilteredRecordBinnedIff(minSeqLen: int, maxSeqLen: int, binSize: int, len: int)
    requires binSize > 0
    requires minSeqLen <= len <= maxSeqLen
    ensures FirstBin(BinKeys(minSeqLen, maxSeqLen, binSize), binSize, len).None?
        <==> len == maxSeqLen && (maxSeqLen - minSeqLen) % binSize == 0
  {
    var keys := BinKeys(minSeqLen, maxSeqLen, binSize);
    var n := |keys|;
    BinnedIff(minSeqLen, maxSeqLen, binSize, len);
    BinKeysExactly(minSeqLen, maxSeqLen, binSize);
    if n > 0 {
      assert keys[n - 1] == minSeqLen + (n - 1) * binSize;
      LastKeyBound(minSeqLen, maxSeqLen, binSize, n);
    }
  }

  /** With n > 0 keys, the keys end exactly at max_seq_len iff bin_size
      divides the length range. */
  lemma LastKeyBound(minSeqLen: int, maxSeqLen: int, binSize: int, n: nat)
    requires binSize > 0 && n > 0
    requires minSeqLen + (n - 1) * binSize < maxSeqLen <= minSeqLen + n * binSize
    ensures maxSeqLen == minSeqLen + n * binSize <==> (maxSeqLen - minSeqLen) % binSize == 0
  {
    if maxSeqLen == minSeqLen + n * binSize {
      MultipleMod(n, binSize);
    }
    if (maxSeqLen - minSeqLen) % binSize == 0 {
      var q := (maxSeqLen - minSeqLen) / binSize;
      assert maxSeqLen - minSeqLen == q * binSize;
      MulLess(n - 1, q, binSize);
      assert n * binSize + binSize == (n + 1) * binSize;
      MulLess(q, n + 1, binSize);
    }
  }

  /** The draws that drive the shuffle of bin j. */
  function DrawsFor(draws: seq<seq<nat>>, j: nat): seq<nat>
  {
    if j < |draws| then draws[j] else []
  }

  /** The last step of `create_bins`: every bin's list is shuffled in
      place; no index leaves its bin and no bin changes its start. */
  function ShuffleBins(bins: seq<Bin>, draws: seq<seq<nat>>): (r: seq<Bin>)
    ensures |r| == |bins|
    ensures forall j :: 0 <= j < |bins| ==>
              r[j].start == bins[j].start && multiset(r[j].members) == multiset(bins[j].members)
  {
    seq(|bins|, j requires 0 <= j < |bins| => Bin(bins[j].start, Shuffle(bins[j].members, DrawsFor(draws, j))))
  }

  /** Each bin holds, in some order, exactly the indices of `lens` whose
      length it holds. */
  predicate ShuffledBinsOf(bins: seq<Bin>, keys: seq<int>, binSize: int, lens: seq<nat>)
  {
    && |bins| == |keys|
    && forall j :: 0 <= j < |keys| ==>
         bins[j].start == keys[j] && multiset(bins[j].members) == multiset(IndicesIn(lens, keys[j], keys[j] + binSize))
  }

  /** `create_bins`: bins keyed by `range(min_seq_len, max_seq_len, bin_size)`,
      each holding a shuffle of the indices of the records whose length it
      holds. A zero bin size makes `range` raise. */
  method CreateBins(data: seq<Record>, minSeqLen: int, maxSeqLen: int, binSize: int, draws: seq<seq<nat>>)
    returns (r: Result<seq<Bin>, PlanError>)
    ensures r.Failure? <==> binSize == 0
    ensures r.Failure? ==> r.error == RangeStepZero
    ensures r.Success? ==> ShuffledBinsOf(r.value, BinKeys(minSeqLen, maxSeqLen, binSize), binSize, Lengths(data))
  {
    if binSize == 0 {
      return Failure(RangeStepZero);
    }
    var lens := Lengths(data);
    var bins := AssignBins(lens, minSeqLen, maxSeqLen, binSize);
    var shuffled := ShuffleBins(bins, draws);
    return Success(shuffled);
  }

  /** Splitting a length interval at `mid` splits its indices between the
      two halves. */
  lemma {:induction false} IndicesInSplit(lens: seq<nat>, lo: int, mid: int, hi: int)
    requires lo <= mid <= hi
    ensures multiset(IndicesIn(lens, lo, hi)) == multiset(IndicesIn(lens, lo, mid)) + multiset(IndicesIn(lens, mid, hi))
  {
    if |lens| > 0 {
      IndicesInSplit(lens[..|lens| - 1], lo, mid, hi);
    }
  }

  /** `IndicesIn` holds index i exactly once when its length lies in
      [lo, hi), and not at all otherwise. */
  lemma IndicesInCount(lens: seq<nat>, lo: int, hi: int, i: int)
    ensures multiset(IndicesIn(lens, lo, hi))[i] == if 0 <= i < |lens| && lo <= lens[i] < hi then 1 else 0
  {
    var r := IndicesIn(lens, lo, hi);
    IndicesInExactly(lens, lo, hi);
    assert Distinct(r);
    if i >= 0 {
      DistinctMultiset(r, i as nat);
    }
  }

  /** An empty length interval holds no index. */
  lemma {:induction false} IndicesInEmpty(lens: seq<nat>, lo: int, hi: int)
    requires hi <= lo
    ensures IndicesIn(lens, lo, hi) == []
  {
    if |lens| > 0 {
      IndicesInEmpty(lens[..|lens| - 1], lo, hi);
    }
  }
}
