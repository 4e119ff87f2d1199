# Length-bucketed batch planning for protein-sequence datasets

This project models, in Dafny, the data-preparation core of `data.py`. That core has four parts:

- **Length filter.** `ESMDataset.filter_data` keeps the records whose amino-acid sequence length lies in `[min_seq_len, max_seq_len]`.
- **Batch sampler.** `ESMBatchSampler` plans the batches:
  - `create_bins` builds one bin per `bin_size`-wide length interval starting at every key of `range(min_seq_len, max_seq_len, bin_size)`. It appends each record index to the first bin whose half-open interval `[key, key + bin_size)` holds the record's length, then shuffles every bin.
  - `create_batches` concatenates the bins in key order, cuts the result into consecutive chunks of `batch_size` indices and shuffles the order of the chunks.
  - `__iter__` and `__len__` serve the stored batches.
- **Argument checks.** The dataset classes check their arguments and form the name of the archive they read and the label field key:
  - `ESMDataset` checks the dataset name, and the stability and fluorescence datasets check the split, before loading.
  - The remote-homology dataset checks its split before loading and its label only after the archive is unpickled.
  - The remote-homology test holdout is checked when the test loader is built (`test_dataloader`), not when data is loaded.
- **Shuffles.** Every `random.shuffle` is CPython's Fisher–Yates loop. It is driven by a caller-supplied list of draws, and the model proves that any permutation can come out of it.

A record is reduced to its sequence (`Record`). The planner works on the list of sequence lengths (`Lengths`), and bins and batches hold record indices.

Modules:

| Module | File | What it holds |
|---|---|---|
| `Wrappers` | `wrappers.dfy` | `Option` and `Result` |
| `Seqs` | `seqs.dfy` | concatenation, subsequence and multiset helpers |
| `Arith` | `arith.dfy` | small facts about multiplication and Euclidean division |
| `Shuffling` | `shuffle.dfy` | `random.shuffle` |
| `LengthFilter` | `filter.dfy` | `filter_data` |
| `Binning` | `binning.dfy` | `create_bins` |
| `Batching` | `batching.dfy` | chunking of `create_batches` |
| `Planner` | `planner.dfy` | the whole sampler and its plan-level guarantees |
| `Datasets` | `datasets.dfy` | the argument checks |
| `Scenario` | `scenario.dfy` | a worked instance |

Python's `range` raises `ValueError` for a zero step. This makes the sampler fail when `bin_size` or `batch_size` is 0, and the model returns `Failure(RangeStepZero)` in that case. The dataset accepts an unset `max_seq_len` (None) and then skips its filter, but the sampler's `range(min_seq_len, None, bin_size)` raises `TypeError`; `Planner.ConfiguredSampler` returns `Failure(RangeStopNone)` for it. A negative step counts away from `stop`. With a negative `bin_size` there are bins when `min_seq_len > max_seq_len` (keys 10, 8, 6 for `range(10, 5, -2)`), but every bin interval `[key, key + bin_size)` is empty, so no index is binned. With a negative `batch_size` there are no batches. The dataset checks are `assert` statements; under the interpreter's default mode a failed one is a `Failure` carrying a `ConfigError`.

The filter keeps records of length exactly `max_seq_len`, but the bins cover `[min_seq_len, min_seq_len + n*bin_size)`. When `bin_size` divides `max_seq_len - min_seq_len`, that range ends at `max_seq_len`. Such a record is then in no bin and in no batch, and the sampler never yields it. The model keeps this behaviour of the code, and `FilteredRecordBinnedIff` and `FilteredRecordBatchedIff` characterise it exactly.

## Model

| member | source | states |
|---|---|---|
| LengthFilter.FilterData | data.py:38-50 | The kept records all lie in the window `min <= len(seq) <= max`. Each record in the window is kept exactly as often as it occurs in the input, and no other record is kept. The result is an order-preserving subsequence of the input. |
| LengthFilter.FilterIdempotent | data.py:38-50 | Filtering an already filtered list with the same window changes nothing. |
| LengthFilter.FilterIfBounded | data.py:34-36 | Without a maximum the records are kept untouched. With one, the records in the window are kept exactly, each as often as it was loaded, and no other record is kept. Either way the result is a subsequence of the loaded records. |
| Shuffling.Shuffle | data.py:111-112 | `random.shuffle` returns a permutation of its input: same length, same multiset. |
| Shuffling.ShuffleBelow | data.py:111-112 | After the swaps for the positions below `upto`, the list is a permutation of the input and every position at or above `upto` is untouched. |
| Shuffling.ShuffleReachesEveryPermutation | data.py:111-112 | Every permutation of the input is the outcome of some sequence of draws. Together with `Shuffle`'s contract, the shuffle produces exactly the permutations. |
| Shuffling.ShuffleBelowReaches | data.py:111-112 | Any rearrangement of the first `upto` positions that leaves the rest in place is produced by draws `d` with `d[i] <= i`. |
| Shuffling.ShuffleBelowReadsBelow | data.py:111-112 | The swaps below `upto` depend only on the draws below `upto`. |
| Binning.Range | data.py:99-101 | Element `j` of `range(start, stop, step)` is `start + j*step`. Every element is on the near side of `stop`, and the first value after the last element is on the far side. |
| Binning.BinKeysExactly | data.py:99-101 | With a positive bin size, the keys are exactly the lengths in `[min, max)` congruent to `min` modulo `bin_size`. They are strictly increasing, and there are none exactly when `min >= max`. |
| Binning.FirstBinFrom | data.py:105-109 | The inner loop with its `break`: the result is the first bin from the start position whose interval holds the length, or None when no bin from there holds it. |
| Binning.AtMostOneBinHolds | data.py:99-109 | No two bins hold the same length, because the intervals of the keys are pairwise disjoint. |
| Binning.FirstBinIsTheBin | data.py:104-109 | The first-match search returns bin `j` if and only if bin `j`'s interval holds the length. |
| Binning.IndicesInExactly | data.py:103-109 | The reference definition of a bin's content holds index `i` if and only if `i` is a valid index whose length lies in the interval, and it lists these indices in increasing order. |
| Binning.IndicesInCount | data.py:103-109 | A bin's content holds each index in its interval exactly once and no other index. |
| Binning.AssignBins | data.py:99-109 | The binning pass leaves in every bin exactly the indices whose lengths its interval holds, in increasing index order. The loop invariant gives the same fact for every scanned prefix. |
| Binning.AppendToFoundBin | data.py:104-109 | One iteration of the outer loop extends the binning of the first `i` records to the first `i + 1`. |
| Binning.BinsDisjoint | data.py:104-109 | No index is in two different bins. |
| Binning.BinnedIff | data.py:99-109 | With a positive bin size, a length has a bin if and only if it lies in `[min, min + n*bin_size)`, where `n` is the number of keys. |
| Binning.FilteredRecordBinnedIff | data.py:99-109 | A length that passed the filter has no bin if and only if it equals `max_seq_len` and `bin_size` divides `max_seq_len - min_seq_len`. |
| Binning.ShuffleBins | data.py:111-112 | Shuffling keeps every bin's key and leaves every bin a permutation of itself, so no index moves between bins. |
| Binning.CreateBins | data.py:93-113 | `create_bins` fails exactly when `bin_size` is 0. Otherwise it returns one bin per key, in key order, each holding a permutation of the indices whose length the bin's interval holds. |
| Binning.IndicesInSplit | data.py:103-109 | Splitting a length interval splits its indices between the two halves. |
| Batching.ChunksConcat | data.py:119-122 | With a positive batch size, concatenating the chunks in order gives back the flattened bins. With a negative one there are no chunks. |
| Batching.ChunkSizes | data.py:119-122 | Every chunk holds between 1 and `batch_size` indices, and every chunk but the last holds exactly `batch_size`. |
| Batching.ChunkCount | data.py:119-122 | There are `ceil(total / batch_size)` chunks. |
| Batching.ChunksAreSlices | data.py:119-122 | Chunk `k` is the slice `[k*batch_size, min(k*batch_size + batch_size, total))` of the flattened bins. |
| Planner.CreateBatches | data.py:115-124 | `create_batches` fails exactly when `batch_size` is 0. Otherwise the batches are the chunks of the flattened bins in some order, each chunk's content unchanged. |
| Planner.CreateBatchesShape | data.py:115-124 | After the shuffle of the batch order, every batch holds 1 to `batch_size` indices. There are `ceil(total / batch_size)` batches, and together they hold exactly the flattened bins' indices. |
| Planner.FlattenCoverage | data.py:99-118 | The flattened bins hold each index whose length lies in `[min, min + n*bin_size)` exactly once, and no other index. |
| Planner.BandsUnion | data.py:99-109 | The contents of `n` adjacent bin intervals together are the contents of their union. |
| Planner.BatchingGivesPlan | data.py:86-124 | Batching correctly shuffled bins yields a plan: batch sizes, the reordered chunks, and coverage. |
| Planner.NewSampler | data.py:75-91 | Constructing the sampler fails exactly when `bin_size` or `batch_size` is 0. Otherwise its bins and batches form a plan for the records' lengths. |
| Planner.PlanBatchesEachIndexOnce | data.py:93-124 | In a plan with a positive batch size, the batches together hold every index whose length lies in the covered range exactly once, and no other index. |
| Planner.FilteredRecordBatchedIff | data.py:93-124 | On filtered data with positive sizes, a record appears in exactly one batch. The exception is a record whose length equals `max_seq_len` when `bin_size` divides `max_seq_len - min_seq_len`: it appears in none. |
| Planner.ConfiguredSampler | data.py:75-101 | With `max_seq_len` unset, building the sampler fails with the `range` TypeError, whatever the sizes. With it set, building fails exactly when `bin_size` or `batch_size` is 0, and otherwise yields a plan for the records' lengths. |
| Planner.DrainFrom | data.py:126-128 | Iterating from any position yields the remaining stored batches in order. |
| Planner.IterationYieldsBatches | data.py:126-131 | Iteration yields every stored batch once, in stored order, as many as `__len__` reports, and is then exhausted. |
| Datasets.EsmDataset | data.py:28-36 | Construction fails exactly when the dataset name is not "cath" or "pdb". On success the archive is `<name>/<split>.pkl`. The records are untouched without a maximum length, and otherwise kept exactly when in the window. |
| Datasets.EsmLenCountsWindow | data.py:34-57 | With a maximum configured, a loaded record is kept if and only if it is in the window, and `__len__` counts the kept records. |
| Datasets.ArchivePathInjective | data.py:351 | Different splits of one dataset are read from different archives. |
| Datasets.LabelOfKey | data.py:360 | A recovered label yields the key it was recovered from. |
| Datasets.LabelKeyRoundTrip | data.py:360 | Every label is recovered from its key `<label>_label`, and no two labels share a key. |
| Datasets.RemoteHomologyDataset | data.py:343-360 | An unknown split is rejected first, whatever the label. A known split with an unknown label is rejected as an invalid label. Both known gives the archive `remote_homology/<split>.pkl` and the key of the label field. |
| Datasets.RegressionDataset | data.py:522-529 | The split must be train, val or test; the archive is `<dir>/<split>.pkl`. |
| Datasets.StabilityDataset | data.py:522-529 | The split must be train, val or test; the archive is `stability/<split>.pkl`. |
| Datasets.FluorescenceDataset | data.py:667-674 | The split must be train, val or test; the archive is `fluoroscence/<split>.pkl`, with the directory name spelled as in the source. |
| Datasets.TestHoldout | data.py:478-489 | The holdout is rejected exactly when it is not family, superfamily or fold. An accepted holdout `h` selects the split `test_<h>_holdout`. |
| Datasets.HoldoutSelectsTestSplit | data.py:478-489 | Every accepted holdout `h` selects `test_<h>_holdout`, which is a remote-homology test split, a different one per holdout. |
| Scenario.WorkedKeys | data.py:99-109 | Example: `min` 10, `max` 40 and bin size 15 give keys 10 and 25, and a length of 40 has no bin. |
| Scenario.WorkedFirstBin | data.py:104-109 | Example: lengths 10, 12, 25, 26, 40 put indices 0 and 1 in bin 10. |
| Scenario.WorkedSecondBin | data.py:104-109 | Example: lengths 10, 12, 25, 26, 40 put indices 2 and 3 in bin 25, and index 4 in no bin. |
| Scenario.WorkedBatches | data.py:119-122 | Example: four indices with batch size 2 form two full batches. |
| Scenario.WorkedPlan | data.py:75-124 | Example, end to end: any sampler plan for lengths 10, 12, 25, 26, 40 with `min` 10, `max` 40, bin size 15 and batch size 2 has two batches. One holds records 0 and 1 and the other holds records 2 and 3, in either order and each shuffled; record 4 is in neither. |

## Left out

- Loading the pickled archives (data.py:29-32, 351-352, 528-529, 673-674) is I/O. The loaded records are a parameter `loaded`, and the data directory prefix of every path is omitted.
- The records' other fields (coordinates, labels, targets) are not modelled. Only the sequence is kept, because it is all the filter and the sampler read.
- `__getitem__`, the collate functions, `CoordBatchConverter`, the tokenizer, tensors and `float32` conversion are left out. They are numerics and calls into the ESM library, whose code is not part of this model.
- The `DataLoader` and Lightning wiring (`setup`, `teardown`, the loader constructors and their shuffle and worker flags) is framework plumbing with no logic of its own.
- `random`'s generator is left out. Every shuffle is driven by caller-supplied draws, and a missing draw reads as 0. `ShuffleReachesEveryPermutation` shows that no permutation is excluded by this.
- Datasets.TestHoldout: the later check that `setup` was called with the test stage (`dataset is not None`) is not modelled, because it depends on Lightning's call order.
- Datasets.RemoteHomologyDataset: when the split is valid and the label is not, the source opens and unpickles the archive before the label check fails. The model returns the label error without the I/O.
- The dataset checks are Python `assert` statements (data.py:28, 343, 354, 478, 522, 667). Under `python -O` they are removed, and a constructor then goes on to open an archive named after the rejected value. The model follows the default interpreter mode, in which every failed check is a `Failure`.
- Other ways the sampler's arguments can be malformed (a missing `bin_size` key, non-integer values) raise Python exceptions that are not modelled. The integer fields are typed `int`, and only an unset `max_seq_len` is modelled, as an `Option`.
- `drop_last = True` (data.py:89) is stored but never read. The model follows the code, so a trailing short batch is kept (`ChunkSizes`). A description of the sampler that promises only full batches would not match the code.
