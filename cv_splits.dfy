/** The split-index arithmetic of `time_series_cv` (cv_validation.py): an
    expanding training window [0, train_end) followed by a test window
    [train_end, test_end), one candidate per split. */
module CvSplits {
  import opened Wrappers

  /** The train and test row positions of one recorded fold. */
  datatype Fold = Fold(train: seq<int>, test: seq<int>)

  /** `list(range(lo, hi))`. */
  function Range(lo: int, hi: int): (r: seq<int>)
    ensures |r| == if hi <= lo then 0 else hi - lo
    ensures forall k :: 0 <= k < |r| ==> r[k] == lo + k
    decreases hi - lo
  {
    if hi <= lo then [] else [lo] + Range(lo + 1, hi)
  }

  function Min(a: int, b: int): int { if a <= b then a else b }

  /** `train_end` of split `i`; the step uses floor division, which on a
      positive divisor is Dafny's `/`. */
  function TrainEnd(n: nat, minTrain: int, testSamples: int, nSplits: int, i: nat): int
    requires i < nSplits
  {
    if i == 0 then minTrain
    else minTrain + i * ((n - minTrain - testSamples) / (nSplits - 1))
  }

  /** Split `i`: None when its test range is empty and the loop `continue`s. */
  function FoldOf(n: nat, minTrain: int, testSamples: int, nSplits: int, i: nat): Option<Fold>
    requires i < nSplits
  {
    var trainEnd := TrainEnd(n, minTrain, testSamples, nSplits, i);
    var testEnd := Min(trainEnd + testSamples, n);
    if testEnd <= trainEnd then None
    else Some(Fold(Range(0, trainEnd), Range(trainEnd, testEnd)))
  }

  /** How many times `range(n_splits)` runs. */
  function Rounds(nSplits: int): nat { if nSplits < 0 then 0 else nSplits }

  /** The folds recorded by the first `k` iterations. */
  function Folds(n: nat, minTrain: int, testSamples: int, nSplits: int, k: nat): seq<Fold>
    requires k <= Rounds(nSplits)
  {
    if k == 0 then []
    else
      var f := FoldOf(n, minTrain, testSamples, nSplits, k - 1);
      Folds(n, minTrain, testSamples, nSplits, k - 1) + (if f.Some? then [f.value] else [])
  }

  /** A recorded fold: training starts at row 0, the test window is
      non-empty, ends at or before row `n`, and lies after every training
      row. */
  predicate WellFormed(f: Fold, n: nat)
  {
    |f.test| > 0 &&
    (forall k :: 0 <= k < |f.train| ==> f.train[k] == k) &&
    (forall k :: 0 <= k < |f.test| ==> f.test[k] < n && f.test[k] == f.test[0] + k) &&
    (forall a, b :: 0 <= a < |f.train| && 0 <= b < |f.test| ==> f.train[a] < f.test[b])
  }

  lemma FoldOfWellFormed(n: nat, minTrain: int, testSamples: int, nSplits: int, i: nat)
    requires i < nSplits
    ensures FoldOf(n, minTrain, testSamples, nSplits, i).Some? ==> WellFormed(FoldOf(n, minTrain, testSamples, nSplits, i).value, n)
  {
  }

  /** The loop of `time_series_cv` that creates the split indices. */
  method SplitIndices(n: nat, minTrain: int, testSamples: int, nSplits: int) returns (folds: seq<Fold>)
    ensures folds == Folds(n, minTrain, testSamples, nSplits, Rounds(nSplits))
    ensures |folds| <= Rounds(nSplits)
    ensures forall j :: 0 <= j < |folds| ==> WellFormed(folds[j], n)
  {
    var rounds: nat := Rounds(nSplits);
    folds := [];
    var i: nat := 0;
    while i < rounds
      invariant i <= rounds
      invariant folds == Folds(n, minTrain, testSamples, nSplits, i)
      invariant |folds| <= i
      invariant forall j :: 0 <= j < |folds| ==> WellFormed(folds[j], n)
    {
      var trainEnd: int;
      if i == 0 {
        trainEnd := minTrain;
      } else {
        trainEnd := minTrain + i * ((n - minTrain - testSamples) / (nSplits - 1));
      }
      assert trainEnd == TrainEnd(n, minTrain, testSamples, nSplits, i);
      var testStart := trainEnd;
      var testEnd := if testStart + testSamples <= n then testStart + testSamples else n;
      if testEnd > testStart {
        FoldOfWellFormed(n, minTrain, testSamples, nSplits, i);
        folds := folds + [Fold(Range(0, trainEnd), Range(testStart, testEnd))];
      }
      i := i + 1;
    }
  }

  /** The first split trains on [0, min_train_samples). */
  lemma FirstFold(n: nat, minTrain: int, testSamples: int, nSplits: int)
    requires nSplits > 0 && 0 < testSamples && 0 <= minTrain < n
    ensures |Folds(n, minTrain, testSamples, nSplits, nSplits)| > 0
    ensures Folds(n, minTrain, testSamples, nSplits, nSplits)[0].train == Range(0, minTrain)
    ensures Folds(n, minTrain, testSamples, nSplits, nSplits)[0].test == Range(minTrain, Min(minTrain + testSamples, n))
  {
    FoldsPrefix(n, minTrain, testSamples, nSplits, 1, nSplits);
  }

  /** Later iterations only append. */
  lemma {:induction false} FoldsPrefix(n: nat, minTrain: int, testSamples: int, nSplits: int, j: nat, k: nat)
    requires j <= k <= Rounds(nSplits)
    ensures Folds(n, minTrain, testSamples, nSplits, j) <= Folds(n, minTrain, testSamples, nSplits, k)
    decreases k - j
  {
    if j < k {
      FoldsPrefix(n, minTrain, testSamples, nSplits, j, k - 1);
    }
  }

  /** The step of the expanding window is non-negative, and `i` steps from
      min_train_samples never pass n - test_samples. */
  lemma StepBound(n: nat, minTrain: int, testSamples: int, nSplits: int, i: nat)
    requires 0 < i < nSplits && minTrain + testSamples <= n
    ensures var q := (n - minTrain - testSamples) / (nSplits - 1);
      q >= 0 && 0 <= i * q <= n - minTrain - testSamples
  {
    MulDivBound(n - minTrain - testSamples, nSplits - 1, i);
  }

  lemma MulDivBound(d: nat, s: nat, i: nat)
    requires 0 < i <= s
    ensures 0 <= d / s && 0 <= i * (d / s) <= d
  {
    var q := d / s;
    assert s * q <= d;
    assert i * q <= s * q by {
      assert (s - i) * q >= 0;
    }
  }

  /** train_end stays within [min_train_samples, n - test_samples]. */
  lemma TrainEndBounds(n: nat, minTrain: int, testSamples: int, nSplits: int, i: nat)
    requires i < nSplits && 0 < testSamples && minTrain + testSamples <= n
    ensures minTrain <= TrainEnd(n, minTrain, testSamples, nSplits, i) <= n - testSamples
  {
    if i > 0 {
      StepBound(n, minTrain, testSamples, nSplits, i);
    }
  }

  /** train_end never decreases from one split to the next. */
  lemma TrainEndMonotone(n: nat, minTrain: int, testSamples: int, nSplits: int, i: nat, j: nat)
    requires i <= j < nSplits && minTrain + testSamples <= n
    ensures TrainEnd(n, minTrain, testSamples, nSplits, i) <= TrainEnd(n, minTrain, testSamples, nSplits, j)
  {
    if 0 < i {
      StepBound(n, minTrain, testSamples, nSplits, i);
      var q := (n - minTrain - testSamples) / (nSplits - 1);
      assert j * q == i * q + (j - i) * q;
      assert (j - i) * q >= 0;
    } else if 0 < j {
      StepBound(n, minTrain, testSamples, nSplits, j);
    }
  }

  /** The expanding window: when min_train_samples + test_samples fits in the
      data and the test size is positive, every split is recorded, and split
      `i` trains on [0, train_end_i) and tests on the next test_samples rows. */
  lemma {:induction false} ExpandingWindow(n: nat, minTrain: int, testSamples: int, nSplits: int, k: nat)
    requires 0 <= minTrain && 0 < testSamples && minTrain + testSamples <= n && k <= Rounds(nSplits)
    ensures |Folds(n, minTrain, testSamples, nSplits, k)| == k
    ensures forall i :: 0 <= i < k ==>
      var e := TrainEnd(n, minTrain, testSamples, nSplits, i);
      Folds(n, minTrain, testSamples, nSplits, k)[i] == Fold(Range(0, e), Range(e, e + testSamples))
  {
    if k > 0 {
      ExpandingWindow(n, minTrain, testSamples, nSplits, k - 1);
      TrainEndBounds(n, minTrain, testSamples, nSplits, k - 1);
    }
  }
}
