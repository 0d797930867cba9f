/**
  The calibration panel of src/admin/admin.controller.ts: reliability bins, expected calibration
  error and Brier score of a piecewise-constant calibration map over a gold set.
 */
module Calibration {
  import opened Collections
  import opened Reals

  datatype Sample = Sample(raw: real, correctness: real)

  /** `values[i]` is emitted for confidences up to `thresholds[i]`. */
  datatype CalibrationMap = CalibrationMap(thresholds: seq<real>, values: seq<real>)

  function Clamp01(x: real): real {
    if x < 0.0 then 0.0 else if x > 1.0 then 1.0 else x
  }

  function ValueAt(m: CalibrationMap, i: int): real {
    if 0 <= i < |m.values| then Clamp01(m.values[i]) else 1.0
  }

  function ApplyFrom(m: CalibrationMap, c: real, i: nat): real
    requires i <= |m.thresholds|
    decreases |m.thresholds| - i
  {
    if i == |m.thresholds| then ValueAt(m, |m.values| - 1)
    else if c <= m.thresholds[i] then ValueAt(m, i)
    else ApplyFrom(m, c, i + 1)
  }

  function ApplyMap(m: CalibrationMap, raw: real): real {
    ApplyFrom(m, Clamp01(raw), 0)
  }

  lemma {:induction false} FirstThatFits(m: CalibrationMap, c: real, i: nat, start: nat)
    requires start <= i <= |m.thresholds| && forall j :: start <= j < i ==> m.thresholds[j] < c
    requires i < |m.thresholds| ==> c <= m.thresholds[i]
    ensures ApplyFrom(m, c, start) == ValueAt(m, if i < |m.thresholds| then i else |m.values| - 1)
    decreases i - start
  {
    if start < i {
      FirstThatFits(m, c, i, start + 1);
    }
  }

  /** For any map: the confidence, brought into [0, 1], selects the first threshold that is not below
      it, or the last value if there is none; a missing value reads as 1, and what is emitted is
      brought into [0, 1] as well. */
  lemma AppliesFirstFit(m: CalibrationMap, raw: real, i: nat)
    requires i <= |m.thresholds|
    requires var c := if raw < 0.0 then 0.0 else if raw > 1.0 then 1.0 else raw;
      && (forall j :: 0 <= j < i ==> m.thresholds[j] < c)
      && (i < |m.thresholds| ==> c <= m.thresholds[i])
    ensures var k := if i < |m.thresholds| then i else |m.values| - 1;
      if 0 <= k < |m.values| then
        && (m.values[k] < 0.0 ==> ApplyMap(m, raw) == 0.0)
        && (m.values[k] > 1.0 ==> ApplyMap(m, raw) == 1.0)
        && (0.0 <= m.values[k] <= 1.0 ==> ApplyMap(m, raw) == m.values[k])
      else ApplyMap(m, raw) == 1.0
  {
    FirstThatFits(m, if raw < 0.0 then 0.0 else if raw > 1.0 then 1.0 else raw, i, 0);
  }

  /** The map that stands in before anything is fitted answers 1 to everything, which is the identity
      exactly for confidences of 1. */
  lemma BootstrapExactlyWhen(raw: real)
    ensures ApplyMap(CalibrationMap([1.0], [1.0]), raw) == 1.0
    ensures ApplyMap(CalibrationMap([1.0], [1.0]), raw) == raw <==> raw == 1.0
  {
    AppliesFirstFit(CalibrationMap([1.0], [1.0]), raw, 0);
  }

  /** A fitted map has rising thresholds, the last one at 1, and values in [0, 1], rising too. */
  ghost predicate Fitted(m: CalibrationMap) {
    && 0 < |m.thresholds| == |m.values|
    && (forall i, j :: 0 <= i < j < |m.thresholds| ==> m.thresholds[i] < m.thresholds[j])
    && m.thresholds[|m.thresholds| - 1] == 1.0
    && (forall i :: 0 <= i < |m.values| ==> 0.0 <= m.values[i] <= 1.0)
  }

  /** On such a map, a confidence in [0, 1] is answered with the value of the one step it lies on. */
  lemma AppliesItsStep(m: CalibrationMap, raw: real, i: nat)
    requires Fitted(m) && 0.0 <= raw <= 1.0 && i < |m.thresholds|
    requires (i > 0 ==> m.thresholds[i - 1] < raw) && raw <= m.thresholds[i]
    ensures ApplyMap(m, raw) == m.values[i]
  {
    AppliesFirstFit(m, raw, i);
  }

  /** And there is such a step. */
  lemma {:induction false} StepExists(m: CalibrationMap, raw: real) returns (i: nat)
    requires Fitted(m) && 0.0 <= raw <= 1.0
    ensures i < |m.thresholds| && (i > 0 ==> m.thresholds[i - 1] < raw) && raw <= m.thresholds[i]
  {
    i := |m.thresholds| - 1;
    while i > 0 && raw <= m.thresholds[i - 1]
      invariant i < |m.thresholds| && raw <= m.thresholds[i]
    {
      i := i - 1;
    }
  }

  // ---- what is added up ---------------------------------------------------------------------

  datatype Field = Raw | Correct | Calibrated | AbsError

  function At(m: CalibrationMap, p: Sample, f: Field): real {
    match f
    case Raw => p.raw
    case Correct => p.correctness
    case Calibrated => ApplyMap(m, p.raw)
    case AbsError => Abs(ApplyMap(m, p.raw) - p.correctness)
  }

  function SquaredError(m: CalibrationMap, p: Sample): real {
    var error := ApplyMap(m, p.raw) - p.correctness;
    error * error
  }

  function SumOfSquares(m: CalibrationMap, ps: seq<Sample>): real {
    if ps == [] then 0.0 else SumOfSquares(m, ps[..|ps| - 1]) + SquaredError(m, ps[|ps| - 1])
  }

  function Brier(m: CalibrationMap, ps: seq<Sample>): real {
    if ps == [] then 0.0 else SumOfSquares(m, ps) / |ps| as real
  }

  function FieldSum(m: CalibrationMap, ps: seq<Sample>, f: Field): real {
    if ps == [] then 0.0 else FieldSum(m, ps[..|ps| - 1], f) + At(m, ps[|ps| - 1], f)
  }

  function Mean(m: CalibrationMap, ps: seq<Sample>, f: Field): real {
    if ps == [] then 0.0 else FieldSum(m, ps, f) / |ps| as real
  }

  // ---- bins ---------------------------------------------------------------------------------

  const BIN_COUNT := 10

  datatype Bin = Bin(n: nat, meanRaw: real, meanCorrect: real, meanCalibrated: real)

  function BinOf(raw: real): (k: nat)
    requires raw >= 0.0
    ensures k < BIN_COUNT
  {
    var k := (raw * 10.0).Floor;
    if k < BIN_COUNT then k else BIN_COUNT - 1
  }

  function InBin(ps: seq<Sample>, k: nat): seq<Sample>
    requires forall p :: p in ps ==> p.raw >= 0.0
  {
    if ps == [] then []
    else
      var p := ps[|ps| - 1];
      assert p in ps;
      InBin(ps[..|ps| - 1], k) + if BinOf(p.raw) == k then [p] else []
  }

  /** A confidence in [0, 1] lands in the one tenth that contains it; the last one is closed. */
  lemma BinContains(raw: real, k: nat)
    requires 0.0 <= raw <= 1.0
    ensures k == BinOf(raw) <==>
      k < 10 && k as real / 10.0 <= raw && (raw < (k + 1) as real / 10.0 || k == 9)
  {
  }

  ghost function SizesUpTo(ps: seq<Sample>, upTo: nat): nat
    requires forall p :: p in ps ==> p.raw >= 0.0
  {
    if upTo == 0 then 0 else SizesUpTo(ps, upTo - 1) + |InBin(ps, upTo - 1)|
  }

  /** How far the bins below `upTo` are off, each by its summed predictions against outcomes. */
  ghost function GapUpTo(m: CalibrationMap, ps: seq<Sample>, upTo: nat): real
    requires forall p :: p in ps ==> p.raw >= 0.0
  {
    if upTo == 0 then 0.0
    else
      var bin := InBin(ps, upTo - 1);
      GapUpTo(m, ps, upTo - 1) + Abs(FieldSum(m, bin, Calibrated) - FieldSum(m, bin, Correct))
  }

  ghost function Ece(m: CalibrationMap, ps: seq<Sample>): real
    requires forall p :: p in ps ==> p.raw >= 0.0
  {
    EceUpTo(m, ps, BIN_COUNT)
  }

  // ---- the panel ----------------------------------------------------------------------------

  ghost predicate Filled(m: CalibrationMap, b: Bin, ps: seq<Sample>) {
    b == Bin(|ps|, FieldSum(m, ps, Raw), FieldSum(m, ps, Correct), FieldSum(m, ps, Calibrated))
  }

  ghost predicate Averaged(m: CalibrationMap, b: Bin, ps: seq<Sample>) {
    b == Bin(|ps|, Mean(m, ps, Raw), Mean(m, ps, Correct), Mean(m, ps, Calibrated))
  }

  lemma SumSnoc(m: CalibrationMap, ps: seq<Sample>, p: Sample, f: Field)
    ensures FieldSum(m, ps + [p], f) == FieldSum(m, ps, f) + At(m, p, f)
  {
    assert (ps + [p])[..|ps|] == ps;
  }

  lemma SquaresSnoc(m: CalibrationMap, ps: seq<Sample>, p: Sample)
    ensures SumOfSquares(m, ps + [p]) == SumOfSquares(m, ps) + SquaredError(m, p)
  {
    assert (ps + [p])[..|ps|] == ps;
  }

  lemma InBinSnoc(ps: seq<Sample>, p: Sample, k: nat)
    requires p.raw >= 0.0 && forall q :: q in ps ==> q.raw >= 0.0
    ensures InBin(ps + [p], k) == InBin(ps, k) + if BinOf(p.raw) == k then [p] else []
  {
    assert (ps + [p])[..|ps|] == ps;
  }

  function Grown(m: CalibrationMap, b: Bin, p: Sample): Bin {
    Bin(b.n + 1, b.meanRaw + p.raw, b.meanCorrect + p.correctness, b.meanCalibrated + ApplyMap(m, p.raw))
  }

  function Divided(b: Bin): Bin {
    if b.n == 0 then b
    else Bin(b.n, b.meanRaw / b.n as real, b.meanCorrect / b.n as real, b.meanCalibrated / b.n as real)
  }

  ghost predicate AllFilled(m: CalibrationMap, bins: seq<Bin>, ps: seq<Sample>)
    requires forall p :: p in ps ==> p.raw >= 0.0
  {
    |bins| == BIN_COUNT && forall k :: 0 <= k < BIN_COUNT ==> Filled(m, bins[k], InBin(ps, k))
  }

  /** Adding one sample to the bin it falls into keeps every bin filled with its samples. */
  lemma AddSample(m: CalibrationMap, bins: seq<Bin>, ps: seq<Sample>, p: Sample)
    requires p.raw >= 0.0 && forall q :: q in ps ==> q.raw >= 0.0
    requires AllFilled(m, bins, ps)
    ensures forall q :: q in ps + [p] ==> q.raw >= 0.0
    ensures AllFilled(m, bins[BinOf(p.raw) := Grown(m, bins[BinOf(p.raw)], p)], ps + [p])
  {
    var i := BinOf(p.raw);
    var bins' := bins[i := Grown(m, bins[i], p)];
    forall k | 0 <= k < BIN_COUNT ensures Filled(m, bins'[k], InBin(ps + [p], k)) {
      assert Filled(m, bins[k], InBin(ps, k));
      InBinSnoc(ps, p, k);
      if k == i {
        SumSnoc(m, InBin(ps, k), p, Raw);
        SumSnoc(m, InBin(ps, k), p, Correct);
        SumSnoc(m, InBin(ps, k), p, Calibrated);
      } else {
        assert InBin(ps + [p], k) == InBin(ps, k);
      }
    }
  }

  function Contribution(b: Bin, total: nat): real
    requires total > 0
  {
    b.n as real / total as real * Abs(b.meanCalibrated - b.meanCorrect)
  }

  /** Weighing a bin's mean gap by the bin's share cancels the division by its size. */
  lemma WeighedGap(n: real, t: real, a: real, b: real)
    requires n > 0.0 && t > 0.0
    ensures n / t * Abs(a / n - b / n) == Abs(a - b) / t
  {
    var g := a / n - b / n;
    assert g * n == a - b;
    TimesPositive(g, 0.0, n);
    assert Abs(g) * n == Abs(a - b);
    assert n / t * Abs(g) * t == (n / t * t) * Abs(g) == n * Abs(g);
    Quotient(Abs(a - b), t, n / t * Abs(g));
  }

  lemma AddOver(x: real, y: real, n: real)
    requires n > 0.0
    ensures (x + y) / n == x / n + y / n
  {
  }

  lemma FilledAverages(m: CalibrationMap, filled: Bin, ps: seq<Sample>)
    requires Filled(m, filled, ps)
    ensures Averaged(m, Divided(filled), ps)
  {
  }

  lemma ContributionIsGap(b: Bin, total: nat)
    requires total > 0
    ensures (if b.n == 0 then 0.0 else Contribution(Divided(b), total))
         == if b.n == 0 then 0.0 else Abs(b.meanCalibrated - b.meanCorrect) / total as real
  {
    if b.n > 0 {
      WeighedGap(b.n as real, total as real, b.meanCalibrated, b.meanCorrect);
    }
  }

  /** The calibration error of the bins below `upTo`. */
  ghost function EceUpTo(m: CalibrationMap, gold: seq<Sample>, upTo: nat): real
    requires forall p :: p in gold ==> p.raw >= 0.0
  {
    if gold == [] then 0.0 else GapUpTo(m, gold, upTo) / |gold| as real
  }

  lemma EceStep(m: CalibrationMap, gold: seq<Sample>, k: nat, filled: Bin)
    requires forall p :: p in gold ==> p.raw >= 0.0
    requires Filled(m, filled, InBin(gold, k))
    ensures filled.n > 0 ==> gold != []
    ensures EceUpTo(m, gold, k + 1)
         == EceUpTo(m, gold, k) + if filled.n == 0 then 0.0 else Contribution(Divided(filled), |gold|)
  {
    if gold != [] {
      ContributionIsGap(filled, |gold|);
      AddOver(GapUpTo(m, gold, k), Abs(filled.meanCalibrated - filled.meanCorrect), |gold| as real);
    }
  }

  /** The loop over the gold set. */
  method FillBins(m: CalibrationMap, gold: seq<Sample>) returns (bins: seq<Bin>, squares: real)
    requires forall p :: p in gold ==> p.raw >= 0.0
    ensures AllFilled(m, bins, gold) && squares == SumOfSquares(m, gold)
  {
    bins := seq(BIN_COUNT, _ => Bin(0, 0.0, 0.0, 0.0));
    squares := 0.0;
    for i := 0 to |gold|
      invariant forall p :: p in gold[..i] ==> p.raw >= 0.0
      invariant AllFilled(m, bins, gold[..i])
      invariant squares == SumOfSquares(m, gold[..i])
    {
      var p := gold[i];
      TakeNext(gold, i);
      AddSample(m, bins, gold[..i], p);
      SquaresSnoc(m, gold[..i], p);
      bins := bins[BinOf(p.raw) := Grown(m, bins[BinOf(p.raw)], p)];
      squares := squares + SquaredError(m, p);
    }
    assert gold[..|gold|] == gold;
  }

  /** The body of the loop over the bins: an empty bin is skipped. */
  method AverageBin(m: CalibrationMap, b: Bin, gold: seq<Sample>, k: nat, ece: real) returns (bin: Bin, next: real)
    requires forall p :: p in gold ==> p.raw >= 0.0
    requires Filled(m, b, InBin(gold, k)) && ece == EceUpTo(m, gold, k)
    ensures bin == Divided(b) && next == EceUpTo(m, gold, k + 1)
  {
    EceStep(m, gold, k, b);
    bin, next := Divided(b), ece;
    if bin.n != 0 {
      next := ece + Contribution(bin, |gold|);
    }
  }

  method AverageBins(m: CalibrationMap, filled: seq<Bin>, gold: seq<Sample>) returns (bins: seq<Bin>, ece: real)
    requires forall p :: p in gold ==> p.raw >= 0.0
    requires AllFilled(m, filled, gold)
    ensures |bins| == BIN_COUNT && forall k :: 0 <= k < BIN_COUNT ==> bins[k] == Divided(filled[k])
    ensures ece == Ece(m, gold)
  {
    bins, ece := filled, 0.0;
    for k := 0 to BIN_COUNT
      invariant |bins| == BIN_COUNT
      invariant forall j :: 0 <= j < k ==> bins[j] == Divided(filled[j])
      invariant forall j :: k <= j < BIN_COUNT ==> bins[j] == filled[j]
      invariant ece == EceUpTo(m, gold, k)
    {
      var bin;
      bin, ece := AverageBin(m, bins[k], gold, k, ece);
      bins := bins[k := bin];
    }
  }

  /** The figures of `calibrationStats`. A negative confidence would index no bin. */
  method CalibrationStats(m: CalibrationMap, gold: seq<Sample>) returns (bins: seq<Bin>, ece: real, brier: real)
    requires forall p :: p in gold ==> p.raw >= 0.0
    ensures |bins| == BIN_COUNT && forall k :: 0 <= k < BIN_COUNT ==> Averaged(m, bins[k], InBin(gold, k))
    ensures ece == Ece(m, gold)
    ensures brier == Brier(m, gold)
  {
    var filled, squares := FillBins(m, gold);
    bins, ece := AverageBins(m, filled, gold);
    forall k | 0 <= k < BIN_COUNT ensures Averaged(m, bins[k], InBin(gold, k)) {
      FilledAverages(m, filled[k], InBin(gold, k));
    }
    brier := squares / (if |gold| > 1 then |gold| else 1) as real;
  }

  /** A line of the reliability curve. */
  datatype BinRow = BinRow(lower: real, upper: real, midpoint: real, bin: Bin)

  datatype Panel = Panel(disabled: bool, reliability: seq<BinRow>, ece: real, brier: real, curve: seq<(real, real)>)

  /** Row `k` covers its tenth, holds the averages of the samples in it, and every sample of a
      confidence up to 1 counted there lies in that tenth (the last one closed). */
  ghost predicate RowOk(m: CalibrationMap, gold: seq<Sample>, k: nat, row: BinRow)
    requires forall p :: p in gold ==> p.raw >= 0.0
  {
    && row.lower == k as real / 10.0 && row.upper == (k + 1) as real / 10.0
    && row.midpoint == (row.lower + row.upper) / 2.0
    && Averaged(m, row.bin, InBin(gold, k))
    && (forall p :: p in InBin(gold, k) && p.raw <= 1.0 ==>
      row.lower <= p.raw && (p.raw < row.upper || (k == BIN_COUNT - 1 && p.raw == row.upper)))
  }

  lemma {:induction false} InBinMeans(ps: seq<Sample>, k: nat)
    requires forall p :: p in ps ==> p.raw >= 0.0
    ensures forall p :: p in InBin(ps, k) ==> p in ps && BinOf(p.raw) == k
  {
    if ps != [] {
      var n := |ps| - 1;
      assert ps == ps[..n] + [ps[n]];
      InBinMeans(ps[..n], k);
    }
  }

  lemma TenthContains(gold: seq<Sample>, k: nat)
    requires k < BIN_COUNT && forall p :: p in gold ==> p.raw >= 0.0
    ensures forall p :: p in InBin(gold, k) && p.raw <= 1.0 ==>
      k as real / 10.0 <= p.raw && (p.raw < (k + 1) as real / 10.0 || (k == BIN_COUNT - 1 && p.raw == 1.0))
  {
    InBinMeans(gold, k);
    forall p | p in InBin(gold, k) && p.raw <= 1.0
      ensures k as real / 10.0 <= p.raw && (p.raw < (k + 1) as real / 10.0 || (k == BIN_COUNT - 1 && p.raw == 1.0))
    {
      BinContains(p.raw, k);
    }
  }

  /** The whole answer of `calibrationStats`; without a fitted map it is empty. */
  method CalibrationPanel(map_: Option<CalibrationMap>, gold: seq<Sample>) returns (panel: Panel)
    requires forall p :: p in gold ==> p.raw >= 0.0
    ensures map_.None? ==> panel == Panel(true, [], 0.0, 0.0, [])
    ensures map_.Some? ==>
      && !panel.disabled && panel.ece == Ece(map_.value, gold) && panel.brier == Brier(map_.value, gold)
      && |panel.reliability| == 10
      && (forall k :: 0 <= k < 10 ==> RowOk(map_.value, gold, k, panel.reliability[k]))
      && |panel.curve| == 21
      && (forall i :: 0 <= i < 21 ==> panel.curve[i] == (i as real / 20.0, ApplyMap(map_.value, i as real / 20.0)))
  {
    if map_.None? {
      return Panel(true, [], 0.0, 0.0, []);
    }
    var m := map_.value;
    var bins, ece, brier := CalibrationStats(m, gold);
    var rows: seq<BinRow> := [];
    for k := 0 to BIN_COUNT
      invariant |rows| == k && forall j :: 0 <= j < k ==> RowOk(m, gold, j, rows[j])
    {
      TenthContains(gold, k);
      var row := BinRow(k as real / 10.0, (k + 1) as real / 10.0, (k as real + 0.5) / 10.0, bins[k]);
      assert RowOk(m, gold, k, row);
      rows := rows + [row];
    }
    panel := Panel(false, rows, ece, brier, Curve(m));
  }

  /** 21 points of the map on a grid of twentieths. */
  function Curve(m: CalibrationMap): seq<(real, real)> {
    seq(21, i requires 0 <= i < 21 => (i as real / 20.0, ApplyMap(m, i as real / 20.0)))
  }

  /** As many values as thresholds, rising. */
  ghost predicate Monotone(m: CalibrationMap) {
    && |m.values| == |m.thresholds|
    && forall i, j :: 0 <= i < j < |m.values| ==> m.values[i] <= m.values[j]
  }

  lemma {:induction false} AppliesMonotonically(m: CalibrationMap, c: real, d: real, i: nat)
    requires Monotone(m) && c <= d && i <= |m.thresholds|
    ensures ApplyFrom(m, c, i) <= ApplyFrom(m, d, i)
    ensures i < |m.thresholds| ==> ValueAt(m, i) <= ApplyFrom(m, d, i)
    decreases |m.thresholds| - i
  {
    if i < |m.thresholds| {
      AppliesMonotonically(m, c, d, i + 1);
    }
  }

  /** The calibration curve of a monotone map never falls. */
  lemma CurveRises(m: CalibrationMap, i: nat, j: nat)
    requires Monotone(m) && i <= j < 21
    ensures Curve(m)[i].0 <= Curve(m)[j].0 && Curve(m)[i].1 <= Curve(m)[j].1
  {
    AppliesMonotonically(m, Clamp01(i as real / 20.0), Clamp01(j as real / 20.0), 0);
  }

  // ---- what the panel's numbers mean --------------------------------------------------------

  ghost function SumUpTo(m: CalibrationMap, ps: seq<Sample>, f: Field, upTo: nat): real
    requires forall p :: p in ps ==> p.raw >= 0.0
  {
    if upTo == 0 then 0.0 else SumUpTo(m, ps, f, upTo - 1) + FieldSum(m, InBin(ps, upTo - 1), f)
  }

  lemma {:induction false} UpToSnoc(m: CalibrationMap, ps: seq<Sample>, p: Sample, f: Field, upTo: nat)
    requires p.raw >= 0.0 && forall q :: q in ps ==> q.raw >= 0.0
    ensures SumUpTo(m, ps + [p], f, upTo) == SumUpTo(m, ps, f, upTo) + if BinOf(p.raw) < upTo then At(m, p, f) else 0.0
    ensures SizesUpTo(ps + [p], upTo) == SizesUpTo(ps, upTo) + if BinOf(p.raw) < upTo then 1 else 0
  {
    if upTo > 0 {
      UpToSnoc(m, ps, p, f, upTo - 1);
      InBinSnoc(ps, p, upTo - 1);
      if BinOf(p.raw) == upTo - 1 {
        SumSnoc(m, InBin(ps, upTo - 1), p, f);
      } else {
        assert InBin(ps + [p], upTo - 1) == InBin(ps, upTo - 1);
      }
    }
  }

  lemma {:induction false} UpToNothing(m: CalibrationMap, f: Field, upTo: nat)
    ensures SumUpTo(m, [], f, upTo) == 0.0 && SizesUpTo([], upTo) == 0
  {
    if upTo > 0 {
      UpToNothing(m, f, upTo - 1);
    }
  }

  /** The bins partition the gold set: their sizes, and the sums of anything over them, add up. */
  lemma {:induction false} BinsPartition(m: CalibrationMap, gold: seq<Sample>, f: Field)
    requires forall p :: p in gold ==> p.raw >= 0.0
    ensures SizesUpTo(gold, BIN_COUNT) == |gold|
    ensures SumUpTo(m, gold, f, BIN_COUNT) == FieldSum(m, gold, f)
  {
    if gold == [] {
      UpToNothing(m, f, BIN_COUNT);
    } else {
      var n := |gold| - 1;
      assert gold == gold[..n] + [gold[n]];
      BinsPartition(m, gold[..n], f);
      UpToSnoc(m, gold[..n], gold[n], f, BIN_COUNT);
    }
  }

  lemma {:induction false} GapWithinErrors(m: CalibrationMap, ps: seq<Sample>)
    ensures Abs(FieldSum(m, ps, Calibrated) - FieldSum(m, ps, Correct)) <= FieldSum(m, ps, AbsError)
  {
    if ps != [] {
      GapWithinErrors(m, ps[..|ps| - 1]);
    }
  }

  lemma {:induction false} GapsNotNegative(m: CalibrationMap, ps: seq<Sample>, upTo: nat)
    requires forall p :: p in ps ==> p.raw >= 0.0
    ensures 0.0 <= GapUpTo(m, ps, upTo)
  {
    if upTo > 0 {
      GapsNotNegative(m, ps, upTo - 1);
    }
  }

  lemma {:induction false} GapsWithinErrors(m: CalibrationMap, ps: seq<Sample>, upTo: nat)
    requires forall p :: p in ps ==> p.raw >= 0.0
    ensures GapUpTo(m, ps, upTo) <= SumUpTo(m, ps, AbsError, upTo)
  {
    if upTo > 0 {
      GapsWithinErrors(m, ps, upTo - 1);
      GapWithinErrors(m, InBin(ps, upTo - 1));
    }
  }

  lemma DivideOrdered(a: real, b: real, n: real)
    requires n > 0.0 && 0.0 <= a <= b
    ensures 0.0 <= a / n <= b / n
  {
    Quotient(a, n, 0.0);
    Quotient(a, n, a / n);
    Quotient(b, n, a / n);
  }

  /** The calibration error never exceeds the mean absolute error of single predictions. */
  lemma EceAtMostMeanError(m: CalibrationMap, gold: seq<Sample>)
    requires forall p :: p in gold ==> p.raw >= 0.0
    ensures 0.0 <= Ece(m, gold) <= Mean(m, gold, AbsError)
  {
    if gold != [] {
      GapsNotNegative(m, gold, BIN_COUNT);
      GapsWithinErrors(m, gold, BIN_COUNT);
      BinsPartition(m, gold, AbsError);
      DivideOrdered(GapUpTo(m, gold, BIN_COUNT), FieldSum(m, gold, AbsError), |gold| as real);
    }
  }

  function Errors(m: CalibrationMap, ps: seq<Sample>): seq<real> {
    seq(|ps|, i requires 0 <= i < |ps| => At(m, ps[i], AbsError))
  }

  function Squares(m: CalibrationMap, ps: seq<Sample>): seq<real> {
    seq(|ps|, i requires 0 <= i < |ps| => SquaredError(m, ps[i]))
  }

  lemma {:induction false} ErrorsAddUp(m: CalibrationMap, ps: seq<Sample>)
    ensures FieldSum(m, ps, AbsError) == Reals.Sum(Errors(m, ps))
  {
    if ps != [] {
      var n := |ps| - 1;
      ErrorsAddUp(m, ps[..n]);
      assert Errors(m, ps)[..n] == Errors(m, ps[..n]);
    }
  }

  lemma {:induction false} SquaresAddUp(m: CalibrationMap, ps: seq<Sample>)
    ensures SumOfSquares(m, ps) == Reals.Sum(Squares(m, ps))
  {
    if ps != [] {
      var n := |ps| - 1;
      SquaresAddUp(m, ps[..n]);
      assert Squares(m, ps)[..n] == Squares(m, ps[..n]);
    }
  }

  lemma ErrorSquared(m: CalibrationMap, p: Sample)
    ensures At(m, p, AbsError) * At(m, p, AbsError) == SquaredError(m, p)
  {
  }

  lemma EachSquared(m: CalibrationMap, ps: seq<Sample>)
    ensures forall i :: 0 <= i < |ps| ==> Squares(m, ps)[i] == Errors(m, ps)[i] * Errors(m, ps)[i]
  {
    forall i | 0 <= i < |ps| ensures Squares(m, ps)[i] == Errors(m, ps)[i] * Errors(m, ps)[i] {
      ErrorSquared(m, ps[i]);
    }
  }

  lemma SquaresDominate(m: CalibrationMap, ps: seq<Sample>, s: real, q: real)
    requires s == FieldSum(m, ps, AbsError) && q == SumOfSquares(m, ps)
    ensures s * s <= |ps| as real * q
  {
    ErrorsAddUp(m, ps);
    SquaresAddUp(m, ps);
    EachSquared(m, ps);
    TotalsSquared(Errors(m, ps), Squares(m, ps), s, q);
  }

  lemma TotalsSquared(e: seq<real>, e2: seq<real>, s: real, q: real)
    requires |e2| == |e| && (forall i :: 0 <= i < |e| ==> e2[i] == e[i] * e[i])
    requires s == Reals.Sum(e) && q == Reals.Sum(e2)
    ensures s * s <= |e| as real * q
  {
    CauchySchwarz(e, e2);
  }

  lemma MeanSquare(s: real, q: real, n: real)
    requires n > 0.0 && s * s <= n * q
    ensures (s / n) * (s / n) <= q / n
  {
    var u := s / n;
    Quotient(s, n, u);
    Quotient(q, n, u * u);
    assert (u * n) * (u * n) == ((u * u) * n) * n;
    TimesPositive(q, (u * u) * n, n);
  }

  lemma SquareOrdered(e: real, a: real, q: real)
    requires 0.0 <= e <= a && a * a <= q
    ensures e * e <= q
  {
    TimesNonNegative(e, a, e);
    TimesNonNegative(e, a, a);
  }

  /** The mean absolute error never exceeds the root of the Brier score. */
  lemma MeanErrorSquaredAtMostBrier(m: CalibrationMap, gold: seq<Sample>)
    ensures Mean(m, gold, AbsError) * Mean(m, gold, AbsError) <= Brier(m, gold)
  {
    if gold != [] {
      var s, q := FieldSum(m, gold, AbsError), SumOfSquares(m, gold);
      SquaresDominate(m, gold, s, q);
      MeanSquare(s, q, |gold| as real);
    }
  }

  /** The squared calibration error never exceeds the Brier score. */
  lemma EceSquaredAtMostBrier(m: CalibrationMap, gold: seq<Sample>)
    requires forall p :: p in gold ==> p.raw >= 0.0
    ensures Ece(m, gold) * Ece(m, gold) <= Brier(m, gold)
  {
    EceAtMostMeanError(m, gold);
    MeanErrorSquaredAtMostBrier(m, gold);
    SquareOrdered(Ece(m, gold), Mean(m, gold, AbsError), Brier(m, gold));
  }
}
