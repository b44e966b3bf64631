/**
 Train/test folds for walk-forward analysis (walk_forward.py, generate_folds).
 */
module Folds {
  import opened Common

  datatype WindowType = Rolling | Expanding

  datatype Config = Config(nSplits: nat, trainPct: real, window: WindowType, minTrainSize: nat, minTestSize: nat)

  /** Indices trainStart .. trainEnd - 1 train, testStart .. testEnd - 1 test. */
  datatype Fold = Fold(trainStart: int, trainEnd: int, testStart: int, testEnd: int)

  /** The language's conversion to int, which drops the fraction. */
  function Trunc(r: real): int {
    if r >= 0.0 then r.Floor else -(-r).Floor
  }

  function IntMax(a: int, b: int): int {
    if a < b then b else a
  }

  function IntMin(a: int, b: int): int {
    if b < a then b else a
  }

  // ----- what folds must not do -----

  /** Inside the data, and training right up to where testing starts. */
  predicate WellFormed(f: Fold, n: int) {
    0 <= f.trainStart <= f.trainEnd == f.testStart < f.testEnd <= n
  }

  /** f and everything it uses lies before g. */
  predicate Before(f: Fold, g: Fold) {
    f.testEnd <= g.trainStart
  }

  predicate Trains(f: Fold, i: int) {
    f.trainStart <= i < f.trainEnd
  }

  predicate Tests(f: Fold, i: int) {
    f.testStart <= i < f.testEnd
  }

  predicate Uses(f: Fold, i: int) {
    Trains(f, i) || Tests(f, i)
  }

  ghost predicate AllWellFormed(folds: seq<Fold>, n: int) {
    forall i :: 0 <= i < |folds| ==> WellFormed(folds[i], n)
  }

  /** The folds follow one another without sharing an index. */
  ghost predicate Consecutive(folds: seq<Fold>) {
    forall i, j :: 0 <= i < j < |folds| ==> Before(folds[i], folds[j])
  }

  /** Every fold trains on everything before its test set, and the test sets adjoin. */
  ghost predicate Growing(folds: seq<Fold>) {
    && (forall i :: 0 <= i < |folds| ==> folds[i].trainStart == 0)
    && (forall i :: 0 <= i < |folds| - 1 ==> folds[i].testEnd == folds[i + 1].testStart)
  }

  /** No index is used by two rolling folds, so no test trade is trained on in any fold. */
  lemma RollingDoesNotLeak(folds: seq<Fold>, n: int, i: nat, j: nat, k: int)
    requires AllWellFormed(folds, n) && Consecutive(folds) && i < |folds| && j < |folds|
    ensures Uses(folds[i], k) && Uses(folds[j], k) ==> i == j
    ensures !(Tests(folds[i], k) && Trains(folds[j], k))
  {
    if i < j {
      assert Before(folds[i], folds[j]);
    } else if j < i {
      assert Before(folds[j], folds[i]);
    }
  }

  lemma {:induction false} GrowingOrder(folds: seq<Fold>, n: int, i: nat, j: nat)
    requires AllWellFormed(folds, n) && Growing(folds) && i < j < |folds|
    ensures folds[i].testEnd <= folds[j].testStart
  {
    if i + 1 < j {
      GrowingOrder(folds, n, i, j - 1);
      assert WellFormed(folds[j - 1], n) && folds[j - 1].testEnd == folds[j - 1 + 1].testStart;
    }
  }

  /** An expanding fold is only ever trained on trades before its test set, and tests are disjoint. */
  lemma ExpandingDoesNotLookAhead(folds: seq<Fold>, n: int, i: nat, j: nat, k: int)
    requires AllWellFormed(folds, n) && Growing(folds) && i <= j < |folds|
    ensures Tests(folds[j], k) ==> !Trains(folds[i], k)
    ensures Tests(folds[i], k) && Tests(folds[j], k) ==> i == j
  {
    if i < j {
      GrowingOrder(folds, n, i, j);
    }
  }

  /** Adjoining test sets that end with the data test every index from the first of them on. */
  lemma {:induction false} GrowingTestsAll(folds: seq<Fold>, n: int, k: int) returns (i: nat)
    requires AllWellFormed(folds, n) && Growing(folds) && |folds| > 0
    requires folds[0].testStart <= k < folds[|folds| - 1].testEnd
    ensures i < |folds| && Tests(folds[i], k)
  {
    var last := |folds| - 1;
    if folds[last].testStart <= k {
      i := last;
    } else {
      assert folds[last - 1].testEnd == folds[last - 1 + 1].testStart;
      i := GrowingTestsAll(folds[..last], n, k);
    }
  }

  // ----- rolling windows -----

  function FoldSize(n: nat, splits: nat): real
    requires splits > 0
  {
    n as real / splits as real
  }

  function Part(chunk: real, share: real): int {
    Trunc(chunk * share)
  }

  /** The train and test sizes for a number of splits. */
  function TrainSize(n: nat, splits: nat, pct: real): int
    requires splits > 0
  {
    Part(FoldSize(n, splits), pct)
  }

  function TestSize(n: nat, splits: nat, pct: real): int
    requires splits > 0
  {
    Part(FoldSize(n, splits), 1.0 - pct)
  }

  function Step(n: nat, width: int, splits: nat): real {
    (n - width) as real / IntMax(splits - 1, 1) as real
  }

  /** The folds of the given width, laid end to end, are no longer than the data. */
  predicate Fits(n: nat, width: int, splits: nat) {
    0 <= width && width as real * splits as real <= n as real
  }

  lemma QuotientNonNeg(q: real, k: real, n: real)
    requires k > 0.0 && n >= 0.0 && q * k == n
    ensures q >= 0.0
  {
    CancelLe(0.0, q, k);
  }

  lemma ChunksCover(n: nat, splits: nat)
    requires splits > 0
    ensures FoldSize(n, splits) >= 0.0 && FoldSize(n, splits) * splits as real == n as real
  {
    DivMul(n as real, splits as real);
    QuotientNonNeg(FoldSize(n, splits), splits as real, n as real);
  }

  lemma WidthOfParts(w: real, chunk: real, k: real, n: real)
    requires w <= chunk && k >= 0.0 && chunk * k == n
    ensures w * k <= n
  {
    MulMono(w, chunk, k);
  }

  lemma PartsOfChunk(chunk: real, pct: real)
    requires chunk >= 0.0 && 0.0 <= pct <= 1.0
    ensures Part(chunk, pct) >= 0 && Part(chunk, 1.0 - pct) >= 0
    ensures (Part(chunk, pct) + Part(chunk, 1.0 - pct)) as real <= chunk
  {
    var a, b := chunk * pct, chunk * (1.0 - pct);
    ProductNonNeg(chunk, pct, a);
    ProductNonNeg(chunk, 1.0 - pct, b);
    assert a + b == chunk;
  }

  /** Two truncated parts of a chunk fit into the chunk. */
  lemma PartsFitChunk(n: nat, splits: nat, pct: real)
    requires splits > 0 && 0.0 <= pct <= 1.0
    ensures TrainSize(n, splits, pct) >= 0 && TestSize(n, splits, pct) >= 0
    ensures Fits(n, TrainSize(n, splits, pct) + TestSize(n, splits, pct), splits)
  {
    var chunk, w := FoldSize(n, splits), TrainSize(n, splits, pct) + TestSize(n, splits, pct);
    ChunksCover(n, splits);
    PartsOfChunk(chunk, pct);
    WidthOfParts(w as real, chunk, splits as real, n as real);
  }

  lemma WidthFits(w: real, k: real, n: real)
    requires w >= 0.0 && k >= 1.0 && w * k <= n
    ensures w <= n
  {
    MulMono(1.0, k, w);
  }

  lemma StepAtLeast(w: real, k: real, d: real, s: real, n: real)
    requires d > 0.0 && k == d + 1.0 && w * k <= n && s * d == n - w
    ensures w <= s
  {
    Distribute(w, d, 1.0);
    CancelLe(w, s, d);
  }

  /** With at least two splits a step is at least as wide as a fold. */
  lemma StepCoversFold(n: nat, width: int, splits: nat)
    requires splits > 0 && Fits(n, width, splits)
    ensures width <= n && Step(n, width, splits) >= 0.0
    ensures splits > 1 ==> Step(n, width, splits) >= width as real
    ensures splits > 1 ==> Step(n, width, splits) * (splits as real - 1.0) == n as real - width as real
  {
    var w, k, s := width as real, splits as real, Step(n, width, splits);
    var d := IntMax(splits - 1, 1) as real;
    WidthFits(w, k, n as real);
    DivMul((n - width) as real, d);
    QuotientNonNeg(s, d, (n - width) as real);
    if splits > 1 {
      StepAtLeast(w, k, d, s, n as real);
    }
  }

  /** Fold i starts at the truncated multiple of the step. */
  function StartOf(step: real, i: nat): int {
    Trunc(i as real * step)
  }

  lemma ProductsAdvance(step: real, x: real, y: real, p: real, q: real)
    requires step >= 0.0 && x + 1.0 <= y && p == x * step && q == y * step
    ensures p + step <= q
  {
    ProductNonNeg(y - x - 1.0, step, (y - x - 1.0) * step);
  }

  lemma FloorShift(a: real, b: real, w: int)
    requires a + w as real <= b
    ensures a.Floor + w <= b.Floor
  {
  }

  lemma StartsAdvance(step: real, width: int, i: nat, j: nat)
    requires step >= width as real >= 0.0 && i < j
    ensures 0 <= StartOf(step, i) && StartOf(step, i) + width <= StartOf(step, j)
  {
    ProductNonNeg(i as real, step, i as real * step);
    ProductsAdvance(step, i as real, j as real, i as real * step, j as real * step);
    FloorShift(i as real * step, j as real * step, width);
  }

  lemma StartWithin(step: real, i: nat, d: real, n: nat, width: int)
    requires step >= 0.0 && i as real <= d && step * d == n as real - width as real
    ensures 0 <= StartOf(step, i) && StartOf(step, i) + width <= n
  {
    var p := i as real * step;
    ProductNonNeg(i as real, step, p);
    MulMono(i as real, d, step);
    FloorShift(p, n as real, width);
  }

  lemma FirstStart(step: real)
    ensures StartOf(step, 0) == 0
  {
    assert 0 as real * step == 0.0;
  }

  /** The last fold ends at or before the end of the data. */
  lemma StartsFit(n: nat, width: int, splits: nat, i: nat)
    requires splits > 0 && Fits(n, width, splits) && i < splits
    ensures 0 <= StartOf(Step(n, width, splits), i)
    ensures StartOf(Step(n, width, splits), i) + width <= n
  {
    StepCoversFold(n, width, splits);
    if splits > 1 {
      StartWithin(Step(n, width, splits), i, splits as real - 1.0, n, width);
    } else {
      FirstStart(Step(n, width, splits));
    }
  }

  // ----- the program -----

  /** Rolling fold i for given sizes, whatever they are. */
  function FoldAt(n: nat, splits: nat, trainSize: int, testSize: int, i: nat): Fold {
    var start := StartOf(Step(n, trainSize + testSize, splits), i);
    Fold(start, start + trainSize, start + trainSize, IntMin(start + trainSize + testSize, n))
  }

  /** The folds are those before the first one with nothing to test. */
  ghost predicate AreRolling(folds: seq<Fold>, n: nat, splits: nat, trainSize: int, testSize: int) {
    && |folds| <= splits
    && (forall i :: 0 <= i < |folds| ==>
          folds[i] == FoldAt(n, splits, trainSize, testSize, i) && folds[i].testStart < folds[i].testEnd)
    && (|folds| < splits ==>
          var f := FoldAt(n, splits, trainSize, testSize, |folds|); f.testEnd <= f.testStart)
  }

  method RollingFolds(n: nat, splits: nat, trainSize: int, testSize: int) returns (folds: seq<Fold>)
    ensures AreRolling(folds, n, splits, trainSize, testSize)
  {
    hide StartOf, Step;
    folds := [];
    var step := Step(n, trainSize + testSize, splits);
    for i := 0 to splits
      invariant |folds| == i
      invariant forall k :: 0 <= k < i ==>
                  folds[k] == FoldAt(n, splits, trainSize, testSize, k) && folds[k].testStart < folds[k].testEnd
    {
      var start := StartOf(step, i);
      var trainStart, trainEnd := start, start + trainSize;
      var testStart := trainEnd;
      var testEnd := IntMin(testStart + testSize, n);
      if testEnd <= testStart {
        break;
      }
      folds := folds + [Fold(trainStart, trainEnd, testStart, testEnd)];
    }
  }

  lemma LastStart(step: real, i: nat, room: int)
    requires step * i as real == room as real && room >= 0
    ensures StartOf(step, i) == room
  {
    assert i as real * step == room as real;
  }

  /** The first fold starts with the data and the last one ends with it. */
  lemma EndsMeet(n: nat, width: int, splits: nat)
    requires splits > 1 && Fits(n, width, splits)
    ensures StartOf(Step(n, width, splits), 0) == 0
    ensures StartOf(Step(n, width, splits), splits - 1) == n - width
  {
    StepCoversFold(n, width, splits);
    FirstStart(Step(n, width, splits));
    LastStart(Step(n, width, splits), splits - 1, n - width);
  }

  /** Sizes that fit give one fold a split, in order, each inside the data and disjoint from the others. */
  lemma RollingFoldsAreSound(folds: seq<Fold>, n: nat, splits: nat, trainSize: int, testSize: int)
    requires splits > 0 && trainSize >= 0 && testSize >= 0 && Fits(n, trainSize + testSize, splits)
    requires AreRolling(folds, n, splits, trainSize, testSize)
    ensures AllWellFormed(folds, n) && Consecutive(folds)
    ensures |folds| == if testSize > 0 then splits else 0
    ensures forall i :: 0 <= i < |folds| ==>
              folds[i].trainEnd - folds[i].trainStart == trainSize && folds[i].testEnd - folds[i].testStart == testSize
    ensures splits > 1 && testSize > 0 ==> folds[0].trainStart == 0 && folds[splits - 1].testEnd == n
  {
    hide StartOf, Step, Fits;
    var width := trainSize + testSize;
    StepCoversFold(n, width, splits);
    forall i: nat | i < splits
      ensures 0 <= StartOf(Step(n, width, splits), i) && StartOf(Step(n, width, splits), i) + width <= n
    {
      StartsFit(n, width, splits, i);
    }
    assert folds != [] ==> folds[0] == FoldAt(n, splits, trainSize, testSize, 0);
    if |folds| < splits {
      StartsFit(n, width, splits, |folds|);
    }
    forall i, j | 0 <= i < j < |folds|
      ensures Before(folds[i], folds[j])
    {
      StartsAdvance(Step(n, width, splits), width, i, j);
    }
    if splits > 1 && testSize > 0 {
      EndsMeet(n, width, splits);
    }
  }

  /** The test size of expanding folds. */
  function ExpandingTest(n: nat, config: Config): nat {
    IntMax(config.minTestSize, n / (config.nSplits + 1))
  }

  /** Where the first expanding fold stops training. */
  function InitialTrain(n: nat, config: Config): nat {
    IntMax(config.minTrainSize, n - config.nSplits * ExpandingTest(n, config))
  }

  /** Where test set i starts. */
  function TestStart(n: nat, config: Config, i: nat): int {
    InitialTrain(n, config) + i * ExpandingTest(n, config)
  }

  lemma TestStartsAdvance(n: nat, config: Config, i: nat)
    ensures TestStart(n, config, 0) == InitialTrain(n, config)
    ensures TestStart(n, config, i + 1) == TestStart(n, config, i) + ExpandingTest(n, config)
  {
    assert (i + 1) * ExpandingTest(n, config) == i * ExpandingTest(n, config) + ExpandingTest(n, config);
  }

  lemma ProductAtLeast(k: nat, t: nat)
    requires k > 0 && t > 0
    ensures k * t > 0
  {
  }

  /** The test sets reach the end of the data, unless they are empty and start before it. */
  lemma TestStartsReachEnd(n: nat, config: Config)
    ensures TestStart(n, config, config.nSplits) >= n
    ensures config.nSplits > 0 && n > 0 && ExpandingTest(n, config) > 0 ==>
              (InitialTrain(n, config) < n <==> config.minTrainSize < n)
  {
    if config.nSplits > 0 && ExpandingTest(n, config) > 0 {
      ProductAtLeast(config.nSplits, ExpandingTest(n, config));
    }
  }

  method ExpandingFolds(n: nat, config: Config) returns (folds: seq<Fold>)
    requires n > 0
    ensures AllWellFormed(folds, n) && Growing(folds) && |folds| <= config.nSplits
    ensures folds != [] <==> config.nSplits > 0 && config.minTrainSize < n && ExpandingTest(n, config) > 0
    ensures folds != [] ==> folds[0].testStart == InitialTrain(n, config) && folds[|folds| - 1].testEnd == n
    ensures forall i :: 0 <= i < |folds| - 1 ==> folds[i].testEnd - folds[i].testStart == ExpandingTest(n, config)
  {
    hide TestStart, InitialTrain, ExpandingTest;
    folds := [];
    var testSize := ExpandingTest(n, config);
    TestStartsReachEnd(n, config);
    TestStartsAdvance(n, config, 0);
    for i := 0 to config.nSplits
      invariant |folds| == i && AllWellFormed(folds, n) && Growing(folds)
      invariant i > 0 ==> testSize > 0 && folds[0].testStart == InitialTrain(n, config) < n
      invariant i > 0 ==> folds[i - 1].testEnd == IntMin(folds[i - 1].testStart + testSize, n)
      invariant i > 0 ==> folds[i - 1].testStart + testSize == TestStart(n, config, i)
      invariant forall k :: 0 <= k < i - 1 ==> folds[k].testEnd - folds[k].testStart == testSize
    {
      TestStartsAdvance(n, config, i);
      var testStart := TestStart(n, config, i);
      var trainEnd := testStart;
      var testEnd := IntMin(testStart + testSize, n);
      if trainEnd >= n || testEnd <= testStart {
        break;
      }
      folds := folds + [Fold(0, trainEnd, testStart, testEnd)];
    }
  }

  /** Too small a chunk falls back to fewer splits. */
  predicate FallsBack(n: nat, config: Config)
    requires config.nSplits > 0
  {
    || TrainSize(n, config.nSplits, config.trainPct) < config.minTrainSize
    || TestSize(n, config.nSplits, config.trainPct) < config.minTestSize
  }

  /** A rolling configuration divides by zero without splits, or falling back without minimum sizes. */
  predicate Divides(n: nat, config: Config) {
    config.nSplits > 0 && (FallsBack(n, config) ==> config.minTrainSize + config.minTestSize > 0)
  }

  /** The splits a rolling configuration ends up with. */
  function SplitsUsed(n: nat, config: Config): (k: nat)
    requires Divides(n, config)
    ensures k > 0
  {
    if FallsBack(n, config) then IntMax(1, n / (config.minTrainSize + config.minTestSize)) else config.nSplits
  }

  /** With a training share within [0, 1] only a configuration without splits fails. */
  lemma ProperShareDivides(n: nat, config: Config)
    requires config.nSplits > 0 && 0.0 <= config.trainPct <= 1.0
    ensures Divides(n, config)
  {
    PartsFitChunk(n, config.nSplits, config.trainPct);
  }

  lemma SharesScale(chunk: real, k: real, n: real, share: real)
    requires chunk * k == n
    ensures Times(Times(chunk, share), k) == Times(n, share)
  {
    assert chunk * share * k == chunk * k * share;
  }

  lemma ScaleOrder(a: real, b: real, k: real)
    requires k > 0.0
    ensures a <= b <==> Times(a, k) <= Times(b, k)
  {
    if a <= b {
      MulMono(a, b, k);
    } else {
      StrictMul(b, a, k);
    }
  }

  lemma PartIsProduct(chunk: real, share: real)
    requires chunk >= 0.0 && share >= 0.0
    ensures Part(chunk, share) == Trunc(Times(chunk, share)) && Times(chunk, share) >= 0.0
  {
    ProductNonNeg(chunk, share, chunk * share);
  }

  lemma TruncReaches(r: real, minimum: nat)
    requires r >= 0.0
    ensures Trunc(r) >= minimum <==> r >= minimum as real
  {
  }

  /** A truncated share of a chunk reaches a minimum exactly when the share of the data reaches it in every chunk. */
  lemma PartReachesIff(n: nat, splits: nat, share: real, minimum: nat)
    requires splits > 0 && share >= 0.0
    ensures Part(FoldSize(n, splits), share) >= minimum <==>
            Times(n as real, share) >= Times(minimum as real, splits as real)
  {
    hide Trunc, FoldSize, Times;
    var chunk, k := FoldSize(n, splits), splits as real;
    ChunksCover(n, splits);
    PartIsProduct(chunk, share);
    SharesScale(chunk, k, n as real, share);
    ScaleOrder(minimum as real, Times(chunk, share), k);
    TruncReaches(Times(chunk, share), minimum);
  }

  /** Rolling folds, after the fallback or without it, meet both minimum sizes exactly under these two conditions. */
  lemma MinimumsMetIff(n: nat, config: Config)
    requires Divides(n, config) && 0.0 <= config.trainPct <= 1.0
    ensures var k := SplitsUsed(n, config);
            && (TrainSize(n, k, config.trainPct) >= config.minTrainSize <==>
                  Times(n as real, config.trainPct) >= Times(config.minTrainSize as real, k as real))
            && (TestSize(n, k, config.trainPct) >= config.minTestSize <==>
                  Times(n as real, 1.0 - config.trainPct) >= Times(config.minTestSize as real, k as real))
  {
    hide SplitsUsed, FoldSize, Part, Times;
    var k := SplitsUsed(n, config);
    PartReachesIff(n, k, config.trainPct, config.minTrainSize);
    PartReachesIff(n, k, 1.0 - config.trainPct, config.minTestSize);
  }

  lemma AtLeastOnce(a: real, k: real)
    requires a >= 0.0 && k >= 1.0
    ensures Times(a, k) >= a
  {
    MulMono(1.0, k, a);
  }

  /** So the fallback misses a minimum whenever the share of all trades is below it ... */
  lemma TooFewTradesMissMinimum(n: nat, config: Config)
    requires Divides(n, config) && 0.0 <= config.trainPct <= 1.0
    requires Times(n as real, config.trainPct) < config.minTrainSize as real
             || Times(n as real, 1.0 - config.trainPct) < config.minTestSize as real
    ensures var k := SplitsUsed(n, config);
            TrainSize(n, k, config.trainPct) < config.minTrainSize
            || TestSize(n, k, config.trainPct) < config.minTestSize
  {
    hide SplitsUsed, TrainSize, TestSize, Times;
    var k := SplitsUsed(n, config);
    MinimumsMetIff(n, config);
    AtLeastOnce(config.minTrainSize as real, k as real);
    AtLeastOnce(config.minTestSize as real, k as real);
  }

  /** ... even if there are as many trades as the two minimums together. */
  lemma FallbackCanMissMinimum()
    ensures var c := Config(5, 0.5, Rolling, 50, 20);
            && Divides(70, c) && c.minTrainSize + c.minTestSize <= 70
            && SplitsUsed(70, c) == 1 && TrainSize(70, 1, c.trainPct) == 35 < c.minTrainSize
  {
    var c := Config(5, 0.5, Rolling, 50, 20);
    assert FoldSize(70, 5) == 14.0 && FoldSize(70, 1) == 70.0;
    assert Part(14.0, 0.5) == 7 && Part(70.0, 0.5) == 35;
    assert FallsBack(70, c);
  }

  lemma NonPositivePart(chunk: real, share: real)
    requires chunk >= 0.0 && share <= 0.0
    ensures Part(chunk, share) <= 0
  {
    ProductNonNeg(chunk, -share, chunk * -share);
    assert chunk * share == -(chunk * -share);
  }

  /** A share above 1 leaves nothing to test, so there are no folds. */
  lemma OverfullShareIsEmpty(folds: seq<Fold>, n: nat, splits: nat, pct: real)
    requires splits > 0 && pct > 1.0
    requires AreRolling(folds, n, splits, TrainSize(n, splits, pct), TestSize(n, splits, pct))
    ensures folds == []
  {
    ChunksCover(n, splits);
    NonPositivePart(FoldSize(n, splits), 1.0 - pct);
    assert |folds| > 0 ==> folds[0] == FoldAt(n, splits, TrainSize(n, splits, pct), TestSize(n, splits, pct), 0);
  }

  /** A negative share that truncates to a negative size makes every fold stop training before it starts. */
  lemma NegativeTrainSizeIsUnsound(folds: seq<Fold>, n: nat, splits: nat, trainSize: int, testSize: int)
    requires AreRolling(folds, n, splits, trainSize, testSize) && folds != [] && trainSize < 0
    ensures !AllWellFormed(folds, n)
  {
    assert !WellFormed(folds[0], n);
  }

  /** What rolling folds of k splits promise. */
  ghost predicate AreSoundRolling(folds: seq<Fold>, n: nat, k: nat, pct: real)
    requires k > 0
  {
    && AllWellFormed(folds, n) && Consecutive(folds)
    && |folds| == (if TestSize(n, k, pct) > 0 then k else 0)
    && forall i :: 0 <= i < |folds| ==>
         && folds[i].trainEnd - folds[i].trainStart == TrainSize(n, k, pct)
         && folds[i].testEnd - folds[i].testStart == TestSize(n, k, pct)
  }

  /** The split count, with the fallback. */
  method PlanSplits(n: nat, config: Config) returns (splits: Result<nat, ArithmeticError>)
    ensures splits.Success? <==> Divides(n, config)
    ensures splits.Success? ==> splits.value == SplitsUsed(n, config)
    ensures 0.0 <= config.trainPct <= 1.0 ==> (splits.Success? <==> config.nSplits > 0)
  {
    if config.nSplits == 0 {
      return Failure(DivisionByZero);
    }
    if 0.0 <= config.trainPct <= 1.0 {
      ProperShareDivides(n, config);
    }
    var trainSize := TrainSize(n, config.nSplits, config.trainPct);
    var testSize := TestSize(n, config.nSplits, config.trainPct);
    if trainSize < config.minTrainSize || testSize < config.minTestSize {
      if config.minTrainSize + config.minTestSize == 0 {
        return Failure(DivisionByZero);
      }
      return Success(IntMax(1, n / (config.minTrainSize + config.minTestSize)));
    }
    return Success(config.nSplits);
  }

  method GenerateFolds(n: nat, config: Config) returns (r: Result<seq<Fold>, ArithmeticError>)
    ensures r.Failure? <==> n > 0 && config.window.Rolling? && !Divides(n, config)
    ensures 0.0 <= config.trainPct <= 1.0 ==>
              (r.Failure? <==> n > 0 && config.window.Rolling? && config.nSplits == 0)
    ensures r.Success? && n == 0 ==> r.value == []
    ensures r.Success? && config.window.Rolling? && n > 0 ==>
              var k := SplitsUsed(n, config);
              && AreRolling(r.value, n, k, TrainSize(n, k, config.trainPct), TestSize(n, k, config.trainPct))
              && (0.0 <= config.trainPct <= 1.0 ==> AreSoundRolling(r.value, n, k, config.trainPct))
              && (config.trainPct > 1.0 ==> r.value == [])
    ensures r.Success? && config.window.Expanding? ==>
              AllWellFormed(r.value, n) && Growing(r.value) && |r.value| <= config.nSplits
    ensures r.Success? && config.window.Expanding? && r.value != [] ==>
              r.value[0].testStart == InitialTrain(n, config) && r.value[|r.value| - 1].testEnd == n
    ensures r.Success? && config.window.Expanding? ==>
              (r.value != [] <==>
                 n > 0 && config.nSplits > 0 && config.minTrainSize < n && ExpandingTest(n, config) > 0)
  {
    hide TrainSize, TestSize, Fits, FoldAt, IntMax;
    if n == 0 {
      return Success([]);
    }
    if config.window.Rolling? {
      var splits := PlanSplits(n, config);
      if splits.Failure? {
        return Failure(splits.error);
      }
      var k := splits.value;
      var trainSize, testSize := TrainSize(n, k, config.trainPct), TestSize(n, k, config.trainPct);
      var folds := RollingFolds(n, k, trainSize, testSize);
      if 0.0 <= config.trainPct <= 1.0 {
        PartsFitChunk(n, k, config.trainPct);
        RollingFoldsAreSound(folds, n, k, trainSize, testSize);
      } else if config.trainPct > 1.0 {
        OverfullShareIsEmpty(folds, n, k, config.trainPct);
      }
      return Success(folds);
    } else {
      var folds := ExpandingFolds(n, config);
      return Success(folds);
    }
  }
}
