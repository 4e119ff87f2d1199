/** The argument checks of the dataset classes and of the remote-homology
    test loader, and which archive each accepted configuration reads.
    `ESMDataset` and the regression datasets check before loading; the
    remote-homology dataset checks its split before loading and its label
    after; the holdout is checked when the test loader is built. Loading
    itself is I/O and is a parameter here: `loaded` stands for the
    unpickled records. */
module Datasets {
  import opened Wrappers
  import opened Seqs
  import opened LengthFilter

  /** The assertion that fails, with the rejected value. */
  datatype ConfigError =
    | InvalidDatasetName(name: string)
    | InvalidSplit(split: string)
    | InvalidLabel(target: string)
    | InvalidHoldout(holdout: string)

  /** The dataset names `ESMDataset` accepts. */
  const DatasetNames: seq<string> := ["cath", "pdb"]

  /** The splits `RemoteHomologyDataset` accepts. */
  const RemoteHomologySplits: seq<string> :=
    ["train", "val", "test_family_holdout", "test_superfamily_holdout", "test_fold_holdout"]

  /** The labels a remote-homology model may be asked to predict. */
  const Labels: seq<string> := ["family", "superfamily", "fold", "class"]

  /** The splits of the stability and fluorescence regression datasets. */
  const RegressionSplits: seq<string> := ["train", "val", "test"]

  /** The remote-homology holdouts a test loader can be asked for. */
  const Holdouts: seq<string> := ["family", "superfamily", "fold"]

  /** The archive `<dir>/<split>.pkl`, relative to the data directory. */
  function ArchivePath(dir: string, split: string): string
  {
    dir + "/" + split + ".pkl"
  }

  /** Two splits of one dataset never share an archive. */
  lemma ArchivePathInjective(dir: string, a: string, b: string)
    requires ArchivePath(dir, a) == ArchivePath(dir, b)
    ensures a == b
  {
    var p, q := ArchivePath(dir, a), ArchivePath(dir, b);
    assert |a| == |b|;
    forall k | 0 <= k < |a|
      ensures a[k] == b[k]
    {
      assert a[k] == p[|dir| + 1 + k];
      assert b[k] == q[|dir| + 1 + k];
    }
  }

  /** An `ESMDataset` after construction: the archive it read and the
      records it keeps. */
  datatype EsmStore = EsmStore(path: string, data: seq<Record>)

  /** `ESMDataset.__init__`: the dataset name must be "cath" or "pdb"; the
      records of `<name>/<split>.pkl` are then kept, filtered to the length
      window when a maximum length is configured. */
  function EsmDataset(name: string, split: string, loaded: seq<Record>, maxSeqLen: Option<int>, minSeqLen: int)
    : (r: Result<EsmStore, ConfigError>)
    ensures r.Failure? <==> name !in DatasetNames
    ensures r.Failure? ==> r.error == InvalidDatasetName(name)
    ensures r.Success? ==> r.value.path == ArchivePath(name, split)
    ensures r.Success? && maxSeqLen.None? ==> r.value.data == loaded
    ensures r.Success? && maxSeqLen.Some? ==>
              forall x :: multiset(r.value.data)[x]
                       == if InWindow(x, maxSeqLen.value, minSeqLen) then multiset(loaded)[x] else 0
    ensures r.Success? ==> IsSubsequence(r.value.data, loaded)
  {
    if name !in DatasetNames then Failure(InvalidDatasetName(name))
    else Success(EsmStore(ArchivePath(name, split), FilterIfBounded(loaded, maxSeqLen, minSeqLen)))
  }

  /** `ESMDataset.__len__`: the number of records kept. */
  function EsmLen(store: EsmStore): nat
  {
    |store.data|
  }

  /** A configured maximum keeps exactly the records in the window, each as
      often as it was loaded, so `__len__` counts the loaded records in the
      window. */
  lemma EsmLenCountsWindow(name: string, split: string, loaded: seq<Record>, maxSeqLen: int, minSeqLen: int)
    requires name in DatasetNames
    ensures EsmLen(EsmDataset(name, split, loaded, Some(maxSeqLen), minSeqLen).value)
         == |FilterData(loaded, maxSeqLen, minSeqLen)|
    ensures forall x :: x in EsmDataset(name, split, loaded, Some(maxSeqLen), minSeqLen).value.data
              <==> x in loaded && InWindow(x, maxSeqLen, minSeqLen)
  {
    var kept := EsmDataset(name, split, loaded, Some(maxSeqLen), minSeqLen).value.data;
    forall x
      ensures x in kept <==> x in loaded && InWindow(x, maxSeqLen, minSeqLen)
    {
      assert x in kept <==> multiset(kept)[x] > 0;
      assert x in loaded <==> multiset(loaded)[x] > 0;
    }
  }

  /** The key of the record field holding the label `target` (`label_to_predict`). */
  function LabelKey(target: string): string
  {
    target + "_label"
  }

  /** The label a field key names, if it is a label key. */
  function LabelOfKey(key: string): (r: Option<string>)
    ensures r.Some? ==> LabelKey(r.value) == key
  {
    if |key| >= 6 && key[|key| - 6..] == "_label" then
      assert key == key[..|key| - 6] + "_label";
      Some(key[..|key| - 6])
    else None
  }

  /** Every label is recovered from its key, and a key is produced by
      exactly one label. */
  lemma LabelKeyRoundTrip(target: string, other: string)
    ensures LabelOfKey(LabelKey(target)) == Some(target)
    ensures LabelKey(target) == LabelKey(other) ==> target == other
  {
    var key := LabelKey(target);
    assert key[|key| - 6..] == "_label";
    assert key[..|key| - 6] == target;
    if LabelKey(other) == key {
      assert other == LabelKey(other)[..|LabelKey(other)| - 6];
    }
  }

  /** A `RemoteHomologyDataset` after construction: the archive it read and
      the field holding the label to predict. */
  datatype RemoteHomologyStore = RemoteHomologyStore(path: string, labelKey: string)

  /** `RemoteHomologyDataset.__init__`: the split is checked first (before
      the archive is opened), then the label to predict. */
  function RemoteHomologyDataset(split: string, target: string): (r: Result<RemoteHomologyStore, ConfigError>)
    ensures split !in RemoteHomologySplits ==> r == Failure(InvalidSplit(split))
    ensures split in RemoteHomologySplits && target !in Labels ==> r == Failure(InvalidLabel(target))
    ensures r.Success? <==> split in RemoteHomologySplits && target in Labels
    ensures r.Success? ==> r.value.path == ArchivePath("remote_homology", split)
    ensures r.Success? ==> LabelOfKey(r.value.labelKey) == Some(target)
  {
    if split !in RemoteHomologySplits then Failure(InvalidSplit(split))
    else if target !in Labels then Failure(InvalidLabel(target))
    else
      LabelKeyRoundTrip(target, target);
      Success(RemoteHomologyStore(ArchivePath("remote_homology", split), LabelKey(target)))
  }

  /** The shared split check of the stability and fluorescence datasets:
      the archive of an accepted split under `dir`. */
  function RegressionDataset(dir: string, split: string): (r: Result<string, ConfigError>)
    ensures r.Failure? <==> split !in RegressionSplits
    ensures r.Failure? ==> r.error == InvalidSplit(split)
    ensures r.Success? ==> r.value == ArchivePath(dir, split)
  {
    if split !in RegressionSplits then Failure(InvalidSplit(split)) else Success(ArchivePath(dir, split))
  }

  /** `StabilityDataset.__init__`. */
  function StabilityDataset(split: string): (r: Result<string, ConfigError>)
    ensures r.Failure? <==> split !in RegressionSplits
    ensures r.Success? ==> r.value == ArchivePath("stability", split)
  {
    RegressionDataset("stability", split)
  }

  /** `FluoroscenceDataset.__init__` (the source's spelling of the directory). */
  function FluorescenceDataset(split: string): (r: Result<string, ConfigError>)
    ensures r.Failure? <==> split !in RegressionSplits
    ensures r.Success? ==> r.value == ArchivePath("fluoroscence", split)
  {
    RegressionDataset("fluoroscence", split)
  }

  /** `RemoteHomologyLightning.test_dataloader`: the holdout names the test
      split whose dataset is served. */
  function TestHoldout(holdout: string): (r: Result<string, ConfigError>)
    ensures r.Failure? <==> holdout !in Holdouts
    ensures r.Failure? ==> r.error == InvalidHoldout(holdout)
    ensures holdout == "family" ==> r == Success("test_family_holdout")
    ensures holdout == "superfamily" ==> r == Success("test_superfamily_holdout")
    ensures holdout == "fold" ==> r == Success("test_fold_holdout")
  {
    if holdout == "family" then Success("test_family_holdout")
    else if holdout == "superfamily" then Success("test_superfamily_holdout")
    else if holdout == "fold" then Success("test_fold_holdout")
    else Failure(InvalidHoldout(holdout))
  }

  /** Every accepted holdout selects a valid remote-homology split, a
      different one per holdout, and one that is a test split. */
  lemma HoldoutSelectsTestSplit(holdout: string, other: string)
    requires holdout in Holdouts
    ensures TestHoldout(holdout).value == "test_" + holdout + "_holdout"
    ensures TestHoldout(holdout).value in RemoteHomologySplits
    ensures TestHoldout(holdout).value !in ["train", "val"]
    ensures other in Holdouts && TestHoldout(other) == TestHoldout(holdout) ==> other == holdout
  {
    HoldoutSplitName(holdout);
  }

  /** The split an accepted holdout selects is named after it. */
  lemma HoldoutSplitName(holdout: string)
    requires holdout in Holdouts
    ensures TestHoldout(holdout).value == "test_" + holdout + "_holdout"
  {
    if holdout == "family" {
      assert "test_" + "family" + "_holdout" == "test_family_holdout";
    } else if holdout == "superfamily" {
      assert "test_" + "superfamily" + "_holdout" == "test_superfamily_holdout";
    } else {
      assert "test_" + "fold" + "_holdout" == "test_fold_holdout";
    }
  }

}
