/**
  Shrinking a trained decision gate (scripts/train-decision-gate.ts) and what it can do to the
  scores the gate computes; and the precision, recall and F1 the script reports.
 */
module DecisionGate {
  import opened Reals

  type Weights = map<string, real>

  function Pow10(n: nat): (r: real)
    ensures r >= 1.0
  {
    if n == 0 then 1.0 else 10.0 * Pow10(n - 1)
  }

  /** `Math.round`: to the nearest integer, halves upwards. */
  function Round(x: real): real {
    (x + 0.5).Floor as real
  }

  predicate Pruned(w: real, prune: real) {
    prune > 0.0 && Abs(w) < prune
  }

  function Nearest(w: real, factor: real): real
    requires factor >= 1.0
  {
    Round(w * factor) / factor
  }

  /** Rounding to `round` decimals; `round` below 1 means none. */
  function Rounder(round: int): real -> real {
    (w: real) => if round > 0 then Nearest(w, Pow10(round)) else w
  }

  function Shrunk(w: Weights, prune: real, rounder: real -> real): Weights {
    map k | k in w && !Pruned(w[k], prune) :: rounder(w[k])
  }

  class LinearHead {
    var bias: real
    var weights: Weights

    method Shrink(prune: real, rounder: real -> real)
      modifies this`weights
      ensures weights == Shrunk(old(weights), prune, rounder)
    {
      var keys := weights.Keys;
      while keys != {}
        invariant keys <= old(weights).Keys
        invariant forall k :: k in keys ==> k in weights && weights[k] == old(weights)[k]
        invariant forall k :: k !in keys ==>
          && (k in weights <==> k in Shrunk(old(weights), prune, rounder))
          && (k in weights ==> weights[k] == Shrunk(old(weights), prune, rounder)[k])
        decreases keys
      {
        var k :| k in keys;
        if prune > 0.0 && Abs(weights[k]) < prune {
          weights := weights - {k};
        } else {
          weights := weights[k := rounder(weights[k])];
        }
        keys := keys - {k};
      }
    }
  }

  class GateModel {
    var head: LinearHead
    var kinds: map<string, LinearHead>

    constructor (head: LinearHead, kinds: map<string, LinearHead>)
      ensures this.head == head && this.kinds == kinds
    {
      this.head, this.kinds := head, kinds;
    }

    /** The heads of a parsed model are separate objects. */
    ghost predicate Separate()
      reads this
    {
      && (forall k :: k in kinds ==> kinds[k] != head)
      && (forall j, k :: j in kinds && k in kinds && j != k ==> kinds[j] != kinds[k])
    }

    method CompactModel(prune: real, round: int)
      requires Separate()
      modifies head`weights, (set k | k in kinds :: kinds[k])`weights
      ensures head.weights == Shrunk(old(head.weights), prune, Rounder(round))
      ensures forall k :: k in kinds ==> kinds[k].weights == Shrunk(old(kinds[k].weights), prune, Rounder(round))
    {
      var rounder := Rounder(round);
      head.Shrink(prune, rounder);
      var todo := kinds.Keys;
      while todo != {}
        invariant todo <= kinds.Keys
        invariant head.weights == Shrunk(old(head.weights), prune, rounder)
        invariant forall k :: k in todo ==> kinds[k].weights == old(kinds[k].weights)
        invariant forall k :: k in kinds && k !in todo ==>
          kinds[k].weights == Shrunk(old(kinds[k].weights), prune, rounder)
        decreases todo
      {
        var k :| k in todo;
        kinds[k].Shrink(prune, rounder);
        todo := todo - {k};
      }
    }
  }

  // ---- what shrinking does to a score -------------------------------------------------------

  datatype Feature = Feature(bucket: string, value: real)

  function Product(a: real, b: real): real {
    a * b
  }

  function Terms(w: Weights, feats: seq<Feature>): seq<real> {
    seq(|feats|, i requires 0 <= i < |feats| =>
      if feats[i].bucket in w then Product(w[feats[i].bucket], feats[i].value) else 0.0)
  }

  /** The linear score of src/code-memory/capture/gate-classifier.ts before the sigmoid. */
  function Score(bias: real, w: Weights, feats: seq<Feature>): real {
    bias + Sum(Terms(w, feats))
  }

  function Shares(s: real, feats: seq<Feature>): seq<real> {
    seq(|feats|, i requires 0 <= i < |feats| => Product(s, Abs(feats[i].value)))
  }

  function Half(factor: real): real
    requires factor >= 1.0
  {
    0.5 / factor
  }

  function HalfUnit(round: int): real {
    if round > 0 then Half(Pow10(round)) else 0.0
  }

  function Sizes(feats: seq<Feature>): (sizes: seq<real>)
    ensures |sizes| == |feats|
    ensures forall i :: 0 <= i < |feats| ==>
      sizes[i] == if feats[i].value < 0.0 then -feats[i].value else feats[i].value
  {
    seq(|feats|, i requires 0 <= i < |feats| => Abs(feats[i].value))
  }

  lemma RoundingMoves(w: real, factor: real)
    requires factor >= 1.0
    ensures Abs(Nearest(w, factor) - w) <= Half(factor)
  {
    var r := Round(w * factor);
    var d := r / factor - w;
    assert -0.5 <= r - w * factor <= 0.5;
    assert d * factor == r - w * factor by { Quotient(r, factor, 0.0); }
    Quotient(0.5, factor, d);
    Quotient(0.5, factor, -d);
  }

  /** `n` is `w` with every weight moved, or dropped, by at most `s`. */
  ghost predicate CloseTo(n: Weights, w: Weights, s: real) {
    && n.Keys <= w.Keys
    && forall k :: k in w ==> Abs((if k in n then n[k] else 0.0) - w[k]) <= s
  }

  lemma RounderMoves(x: real, round: int)
    ensures Abs(Rounder(round)(x) - x) <= HalfUnit(round)
  {
    if round > 0 {
      RoundingMoves(x, Pow10(round));
    }
  }

  lemma ShrunkIsClose(w: Weights, prune: real, rounder: real -> real, s: real)
    requires forall x :: Pruned(x, prune) ==> Abs(x) <= s
    requires forall x :: Abs(rounder(x) - x) <= s
    ensures CloseTo(Shrunk(w, prune, rounder), w, s)
  {
  }

  lemma {:induction false} Pow10Adds(a: nat, b: nat)
    ensures Pow10(0) == 1.0 && Pow10(1) == 10.0
    ensures Pow10(a + b) == Pow10(a) * Pow10(b)
  {
    if a > 0 {
      Pow10Adds(a - 1, b);
      assert 10.0 * (Pow10(a - 1) * Pow10(b)) == (10.0 * Pow10(a - 1)) * Pow10(b);
    }
  }

  /** `v` is `x` with `factor` steps to the unit: a whole number of steps, the nearest one, and the
      upper one when `x` is halfway. */
  ghost predicate RoundedTo(v: real, x: real, factor: real) {
    NearestWhole(Product(v, factor), Product(x, factor))
  }

  ghost predicate NearestWhole(steps: real, y: real) {
    steps == steps.Floor as real && steps - 0.5 <= y < steps + 0.5
  }

  lemma RoundIsNearest(y: real)
    ensures NearestWhole(Round(y), y)
  {
  }

  lemma NearestTimes(x: real, factor: real)
    requires factor >= 1.0
    ensures Product(Nearest(x, factor), factor) == Round(Product(x, factor))
  {
    Quotient(Round(Product(x, factor)), factor, 0.0);
  }

  lemma NearestRounds(x: real, factor: real)
    requires factor >= 1.0
    ensures RoundedTo(Nearest(x, factor), x, factor)
  {
    RoundIsNearest(Product(x, factor));
    NearestTimes(x, factor);
  }

  /** What compaction does to each weight: gone exactly when pruning is on and it lies strictly between
      the threshold and its opposite; else rounded to that many decimals, or kept as it is. */
  lemma ShrunkExactly(w: Weights, prune: real, round: int, k: string)
    requires k in w
    ensures var n := Shrunk(w, prune, Rounder(round));
      && (k in n <==> !(prune > 0.0 && -prune < w[k] < prune))
      && (k in n && round <= 0 ==> n[k] == w[k])
      && (k in n && round > 0 ==> RoundedTo(n[k], w[k], Pow10(round)))
  {
    if round > 0 {
      NearestRounds(w[k], Pow10(round));
    }
  }

  /** A score is the bias and each feature's value times its weight; a bucket without a weight adds
      nothing. */
  lemma ScoreIs(bias: real, w: Weights, feats: seq<Feature>, f: Feature)
    ensures Score(bias, w, []) == bias
    ensures Score(bias, w, feats + [f])
         == Score(bias, w, feats) + if f.bucket in w then w[f.bucket] * f.value else 0.0
  {
    assert Terms(w, feats + [f])[..|feats|] == Terms(w, feats);
  }

  lemma ProductMoves(a: real, b: real, f: real, s: real)
    requires Abs(a - b) <= s
    ensures Abs(Product(a, f) - Product(b, f)) <= Product(s, Abs(f))
  {
    var d := a - b;
    assert a * f - b * f == d * f;
    TimesNonNegative(d, s, Abs(f));
    TimesNonNegative(-s, d, Abs(f));
  }

  lemma {:induction false} SumMoves(a: seq<real>, b: seq<real>, c: seq<real>)
    requires |a| == |b| == |c|
    requires forall i :: 0 <= i < |a| ==> Abs(a[i] - b[i]) <= c[i]
    ensures Abs(Sum(a) - Sum(b)) <= Sum(c)
  {
    if a != [] {
      var n := |a| - 1;
      SumMoves(a[..n], b[..n], c[..n]);
    }
  }

  lemma TermMoves(a: real, b: real, f: real, s: real)
    requires Abs(a - b) <= s
    ensures Abs(Product(a, f) - Product(b, f)) <= Product(s, Abs(f))
    ensures Product(0.0, f) == 0.0
  {
    ProductMoves(a, b, f, s);
  }

  lemma ScoreMoves(w: Weights, n: Weights, s: real, feats: seq<Feature>)
    requires CloseTo(n, w, s) && s >= 0.0
    ensures Abs(Sum(Terms(n, feats)) - Sum(Terms(w, feats))) <= Sum(Shares(s, feats))
  {
    forall i | 0 <= i < |feats| ensures Abs(Terms(n, feats)[i] - Terms(w, feats)[i]) <= Shares(s, feats)[i] {
      var k := feats[i].bucket;
      TermMoves(if k in n then n[k] else 0.0, if k in w then w[k] else 0.0, feats[i].value, s);
    }
    SumMoves(Terms(n, feats), Terms(w, feats), Shares(s, feats));
  }

  lemma {:induction false} SharesAddUp(s: real, feats: seq<Feature>)
    ensures Sum(Shares(s, feats)) == Product(s, Sum(Sizes(feats)))
  {
    if feats != [] {
      var n := |feats| - 1;
      SharesAddUp(s, feats[..n]);
      assert Shares(s, feats)[..n] == Shares(s, feats[..n]) && Sizes(feats)[..n] == Sizes(feats[..n]);
      ProductAdds(s, Sum(Sizes(feats[..n])), Sizes(feats)[n]);
    }
  }

  lemma ProductAdds(s: real, a: real, b: real)
    ensures Product(s, a + b) == Product(s, a) + Product(s, b)
    ensures Product(s, 0.0) == 0.0
  {
  }

  /** What one weight may move by: `s` must cover the pruning threshold and half a unit of the last
      digit kept. Then shrinking moves any score by at most `s` times the sizes of the features, so a
      verdict whose margin to its cut exceeds that is unchanged. */
  lemma VerdictKept(bias: real, w: Weights, prune: real, round: int, feats: seq<Feature>, cut: real, s: real)
    requires s >= 0.0 && (prune > 0.0 ==> prune <= s) && (round > 0 ==> 0.5 / Pow10(round) <= s)
    ensures var n, most := Shrunk(w, prune, Rounder(round)), Product(s, Sum(Sizes(feats)));
      && Abs(Score(bias, n, feats) - Score(bias, w, feats)) <= most
      && (Abs(Score(bias, w, feats) - cut) > most ==>
            (Score(bias, n, feats) >= cut <==> Score(bias, w, feats) >= cut))
  {
    forall x ensures Abs(Rounder(round)(x) - x) <= s {
      RounderMoves(x, round);
    }
    ShrunkIsClose(w, prune, Rounder(round), s);
    ScoreMoves(w, Shrunk(w, prune, Rounder(round)), s, feats);
    SharesAddUp(s, feats);
  }

  predicate Admits(bias: real, w: Weights, feats: seq<Feature>, cut: real): (admits: bool)
    ensures admits <==> Score(bias, w, feats) >= cut
  {
    Score(bias, w, feats) >= cut
  }

  /** The gate's own head and every kind head keep their clear verdicts through compaction, on every
      input and at every cut. */
  method CompactKeepsVerdicts(m: GateModel, prune: real, round: int)
    requires m.Separate()
    modifies m.head`weights, (set k | k in m.kinds :: m.kinds[k])`weights
    ensures forall h, feats, cut, s ::
      && (h == m.head || h in m.kinds.Values)
      && s >= 0.0 && (prune > 0.0 ==> prune <= s) && (round > 0 ==> 0.5 / Pow10(round) <= s)
      && Abs(Score(h.bias, old(h.weights), feats) - cut) > Product(s, Sum(Sizes(feats))) ==>
        (Admits(h.bias, h.weights, feats, cut) <==> Admits(h.bias, old(h.weights), feats, cut))
  {
    m.CompactModel(prune, round);
    forall h, feats, cut, s |
      && (h == m.head || h in m.kinds.Values)
      && s >= 0.0 && (prune > 0.0 ==> prune <= s) && (round > 0 ==> 0.5 / Pow10(round) <= s)
      && Abs(Score(h.bias, old(h.weights), feats) - cut) > Product(s, Sum(Sizes(feats)))
      ensures Admits(h.bias, h.weights, feats, cut) <==> Admits(h.bias, old(h.weights), feats, cut)
    {
      VerdictKept(h.bias, old(h.weights), prune, round, feats, cut, s);
    }
  }

  // ---- precision, recall, F1 ----------------------------------------------------------------

  function Count(preds: seq<int>, labels: seq<int>, p: int, l: int): nat
    requires |preds| == |labels|
  {
    if labels == [] then 0
    else
      var n := |labels| - 1;
      Count(preds[..n], labels[..n], p, l) + if preds[n] == p && labels[n] == l then 1 else 0
  }

  datatype Prf = Prf(accuracy: real, precision: real, recall: real, f1: real)

  function Share(a: nat, b: nat): real {
    if a + b > 0 then a as real / (a + b) as real else 0.0
  }

  function HarmonicF1(precision: real, recall: real): real {
    if precision + recall > 0.0 then (2.0 * precision * recall) / (precision + recall) else 0.0
  }

  /** F1 in its count form. */
  function CountF1(tp: nat, fp: nat, fn: nat): real {
    if tp > 0 then (2 * tp) as real / (2 * tp + fp + fn) as real else 0.0
  }

  /** With 0/1 labels and predictions: F1 in its count form, and accuracy as the agreeing share. */
  method PrecisionRecall(preds: seq<int>, labels: seq<int>) returns (r: Prf)
    requires |preds| == |labels|
    ensures var tp, fp, fn := Count(preds, labels, 1, 1), Count(preds, labels, 1, 0), Count(preds, labels, 0, 1);
      && r.precision == (if tp + fp > 0 then tp as real / (tp + fp) as real else 0.0)
      && r.recall == (if tp + fn > 0 then tp as real / (tp + fn) as real else 0.0)
      && r.f1 == CountF1(tp, fp, fn)
    ensures (forall i :: 0 <= i < |labels| ==> preds[i] in {0, 1} && labels[i] in {0, 1}) && labels != [] ==>
      r.accuracy == (Count(preds, labels, 1, 1) + Count(preds, labels, 0, 0)) as real / |labels| as real
  {
    var tp, fp, fn, correct := 0, 0, 0, 0;
    for i := 0 to |labels|
      invariant tp == Count(preds[..i], labels[..i], 1, 1)
      invariant fp == Count(preds[..i], labels[..i], 1, 0)
      invariant fn == Count(preds[..i], labels[..i], 0, 1)
      invariant (forall j :: 0 <= j < |labels| ==> preds[j] in {0, 1} && labels[j] in {0, 1}) ==>
        correct == Count(preds[..i], labels[..i], 1, 1) + Count(preds[..i], labels[..i], 0, 0)
    {
      assert preds[..i + 1][..i] == preds[..i] && labels[..i + 1][..i] == labels[..i];
      if preds[i] == labels[i] {
        correct := correct + 1;
      }
      if preds[i] == 1 && labels[i] == 1 {
        tp := tp + 1;
      } else if preds[i] == 1 && labels[i] == 0 {
        fp := fp + 1;
      } else if preds[i] == 0 && labels[i] == 1 {
        fn := fn + 1;
      }
    }
    assert preds[..|preds|] == preds && labels[..|labels|] == labels;
    var precision, recall := Share(tp, fp), Share(tp, fn);
    HarmonicMean(tp, fp, fn);
    var accuracy := if |labels| > 0 then correct as real / |labels| as real else 0.0;
    return Prf(accuracy, precision, recall, HarmonicF1(precision, recall));
  }

  lemma HarmonicMean(tp: nat, fp: nat, fn: nat)
    ensures HarmonicF1(Share(tp, fp), Share(tp, fn)) == CountF1(tp, fp, fn)
  {
    if tp > 0 {
      var t, a, b := tp as real, (tp + fp) as real, (tp + fn) as real;
      Harmonic(t, a, b);
    }
  }

  lemma Harmonic(t: real, a: real, b: real)
    requires t > 0.0 && a > 0.0 && b > 0.0
    ensures t / a + t / b > 0.0
    ensures (2.0 * (t / a) * (t / b)) / (t / a + t / b) == 2.0 * t / (a + b)
  {
    var p, r := t / a, t / b;
    Quotient(t, a, 0.0);
    Quotient(t, b, 0.0);
    TimesPositive(0.0, p, a);
    TimesPositive(0.0, r, b);
    var s, x := p + r, 2.0 * t / (a + b);
    assert p * a == t && r * b == t;
    assert (2.0 * p * r) * (a + b) == 2.0 * r * (p * a) + 2.0 * p * (r * b) == 2.0 * t * s;
    Quotient(2.0 * t, a + b, 0.0);
    assert (x * s) * (a + b) == (x * (a + b)) * s == 2.0 * t * s;
    TimesPositive(x * s, 2.0 * p * r, a + b);
    Quotient(2.0 * p * r, s, x);
  }
}
