/** The record store's length filter (`ESMDataset.filter_data`). */
module LengthFilter {
  import opened Wrappers
  import opened Seqs

  /** One sample. Only its amino-acid sequence matters to the filter and the
      planner; the coordinate arrays and labels are not modelled. */
  datatype Record = Record(sequence: string)

  /** The record's sequence length lies in [minSeqLen, maxSeqLen], both ends
      inclusive. */
  predicate InWindow(r: Record, maxSeqLen: int, minSeqLen: int)
  {
    minSeqLen <= |r.sequence| <= maxSeqLen
  }

  /** `filter_data(max_seq_len, min_seq_len)`: the records in the window, in
      their original order. */
  function FilterData(data: seq<Record>, maxSeqLen: int, minSeqLen: int): (r: seq<Record>)
    ensures forall x :: x in r ==> InWindow(x, maxSeqLen, minSeqLen)
    ensures forall x :: multiset(r)[x] == if InWindow(x, maxSeqLen, minSeqLen) then multiset(data)[x] else 0
    ensures IsSubsequence(r, data)
  {
    if |data| == 0 then []
    else if InWindow(data[0], maxSeqLen, minSeqLen) then
      assert data == [data[0]] + data[1..];
      [data[0]] + FilterData(data[1..], maxSeqLen, minSeqLen)
    else
      assert data == [data[0]] + data[1..];
      FilterData(data[1..], maxSeqLen, minSeqLen)
  }

  /** Filtering twice with the same window is filtering once. */
  lemma {:induction false} FilterIdempotent(data: seq<Record>, maxSeqLen: int, minSeqLen: int)
    ensures FilterData(FilterData(data, maxSeqLen, minSeqLen), maxSeqLen, minSeqLen)
         == FilterData(data, maxSeqLen, minSeqLen)
  {
    if |data| > 0 {
      FilterIdempotent(data[1..], maxSeqLen, minSeqLen);
      if InWindow(data[0], maxSeqLen, minSeqLen) {
        var r := [data[0]] + FilterData(data[1..], maxSeqLen, minSeqLen);
        assert r[1..] == FilterData(data[1..], maxSeqLen, minSeqLen);
      }
    }
  }

  /** The store after construction: the filter is applied only when a
      maximum length is configured. */
  function FilterIfBounded(data: seq<Record>, maxSeqLen: Option<int>, minSeqLen: int): (r: seq<Record>)
    ensures maxSeqLen.None? ==> r == data
    ensures maxSeqLen.Some? ==> forall x :: x in r ==> InWindow(x, maxSeqLen.value, minSeqLen)
    ensures maxSeqLen.Some? ==>
              forall x :: multiset(r)[x] == if InWindow(x, maxSeqLen.value, minSeqLen) then multiset(data)[x] else 0
    ensures IsSubsequence(r, data)
  {
    match maxSeqLen
    case None => SubsequenceRefl(data); data
    case Some(m) => FilterData(data, m, minSeqLen)
  }
}
