/**
  The enable gate of scripts/scan-hnsw-parity.ts: recall and Jaccard overlap of an approximate
  nearest-neighbour index against the exact scan, per lane, folded into an exit code.
 */
module HnswParity {
  import opened Collections
  import opened Reals

  type Id = nat

  /** The rows one probe vector got from the exact scan and from the index. */
  datatype Probe = Probe(exact: seq<Id>, approx: seq<Id>)

  function Members(ids: seq<Id>): set<Id> {
    set id | id in ids
  }

  /** Both queries pass the lane's gates and are cut at `k`; only the exact one finds every row. */
  ghost predicate FromLane(p: Probe, gated: set<Id>, k: nat) {
    && Distinct(p.exact) && Distinct(p.approx)
    && Members(p.exact) <= gated && Members(p.approx) <= gated
    && |p.exact| == (if k < |gated| then k else |gated|) && |p.approx| <= k
  }

  /** `exact.filter((id) => approxSet.has(id)).length`. */
  function Hits(ids: seq<Id>, found: set<Id>): nat {
    if ids == [] then 0 else (if ids[0] in found then 1 else 0) + Hits(ids[1..], found)
  }

  function UnionSize(p: Probe): nat {
    |Members(p.exact) + Members(p.approx)|
  }

  function Recall(p: Probe): real {
    if |p.exact| > 0 then Hits(p.exact, Members(p.approx)) as real / |p.exact| as real else 1.0
  }

  function Jaccard(p: Probe): real {
    if UnionSize(p) > 0 then Hits(p.exact, Members(p.approx)) as real / UnionSize(p) as real else 1.0
  }

  datatype Measure = OfRecall | OfJaccard

  function Of(p: Probe, m: Measure): real {
    if m.OfRecall? then Recall(p) else Jaccard(p)
  }

  function Total(ps: seq<Probe>, m: Measure): real {
    if ps == [] then 0.0
    else Total(ps[..|ps| - 1], m) + Of(ps[|ps| - 1], m)
  }

  function Mean(ps: seq<Probe>, m: Measure): real
    requires ps != []
  {
    Total(ps, m) / |ps| as real
  }

  datatype Verdict = PASS | FAIL | SKIP

  /** With no probes at all and none required, the mean is not a number and the gate fails. */
  function LaneVerdict(ps: seq<Probe>, minProbes: nat): Verdict {
    if |ps| < minProbes then SKIP
    else if ps == [] then FAIL
    else if Mean(ps, OfRecall) >= 0.98 then PASS else FAIL
  }

  method RunLane(ps: seq<Probe>, minProbes: nat) returns (verdict: Verdict)
    ensures verdict == LaneVerdict(ps, minProbes)
  {
    if |ps| < minProbes {
      return SKIP;
    }
    var recall := 0.0;
    for i := 0 to |ps|
      invariant recall == Total(ps[..i], OfRecall)
    {
      recall := recall + Recall(ps[i]);
      assert ps[..i + 1][..i] == ps[..i];
    }
    assert ps[..|ps|] == ps;
    if |ps| == 0 {
      return FAIL;
    }
    return if recall / |ps| as real >= 0.98 then PASS else FAIL;
  }

  // ---- one probe ----------------------------------------------------------------------------

  lemma {:induction false} SizeOf(ids: seq<Id>)
    requires Distinct(ids)
    ensures |Members(ids)| == |ids|
  {
    if ids != [] {
      SizeOf(ids[1..]);
      MembersOf(ids);
    }
  }

  lemma MembersOf(ids: seq<Id>)
    requires ids != []
    ensures Members(ids) == {ids[0]} + Members(ids[1..])
    ensures Distinct(ids) ==> ids[0] !in Members(ids[1..])
  {
    assert ids == [ids[0]] + ids[1..];
  }

  lemma {:induction false} HitsAreShared(ids: seq<Id>, found: set<Id>)
    requires Distinct(ids)
    ensures Hits(ids, found) == |Members(ids) * found|
  {
    if ids == [] {
      assert Members(ids) * found == {};
    } else {
      HitsAreShared(ids[1..], found);
      MembersOf(ids);
      assert Members(ids) * found == ({ids[0]} * found) + (Members(ids[1..]) * found);
      assert {ids[0]} * found == if ids[0] in found then {ids[0]} else {};
    }
  }

  /** The counts of one probe: the index never returns more rows than the exact scan. */
  lemma Counts(p: Probe, gated: set<Id>, k: nat)
    requires FromLane(p, gated, k)
    ensures var h := Hits(p.exact, Members(p.approx));
      h <= |p.approx| <= |p.exact| && UnionSize(p) == |p.exact| + |p.approx| - h
  {
    HitsAreShared(p.exact, Members(p.approx));
    SizeOf(p.exact);
    SizeOf(p.approx);
    var e, a := Members(p.exact), Members(p.approx);
    SubsetSize(a, gated);
    SubsetSize(e * a, a);
    assert e + a == e + (a - e * a);
  }

  /** What is measured: the share of the exact rows that the index found, and the share of all rows
      returned that both returned; 1 when there was nothing to find. */
  lemma MeasuresAre(p: Probe)
    requires Distinct(p.exact)
    ensures var e, a := Members(p.exact), Members(p.approx);
      && Recall(p) == (if e == {} then 1.0 else |e * a| as real / |e| as real)
      && Jaccard(p) == (if e + a == {} then 1.0 else |e * a| as real / |e + a| as real)
  {
    HitsAreShared(p.exact, Members(p.approx));
    SizeOf(p.exact);
  }

  /** The gate, without the division: enough probes, at least one, and a mean recall of 0.98. */
  lemma VerdictExactlyWhen(ps: seq<Probe>, minProbes: nat)
    ensures LaneVerdict(ps, minProbes) == SKIP <==> |ps| < minProbes
    ensures LaneVerdict(ps, minProbes) == PASS
       <==> |ps| >= minProbes && |ps| > 0 && 100.0 * Total(ps, OfRecall) >= 98.0 * |ps| as real
  {
    if |ps| > 0 {
      Quotient(Total(ps, OfRecall), |ps| as real, 0.98);
    }
  }

  /** The tangent of r / (2 - r) at 49/50, cleared of denominators: a perfect square. */
  lemma Tangent(h: real, e: real, u: real)
    requires 0.0 <= h <= e <= u <= 2.0 * e - h && e > 0.0
    ensures h / u >= 49.0 / 51.0 + 5000.0 / 2601.0 * (h / e - 49.0 / 50.0)
  {
    var t := 49.0 / 51.0 + 5000.0 / 2601.0 * (h / e - 49.0 / 50.0);
    Quotient(h, e, h / e);
    var w := 2.0 * e - h;
    var d := 50.0 * h - 49.0 * e;
    assert d * d >= 0.0;
    assert t * e == (5000.0 * h - 2401.0 * e) / 2601.0;
    assert (t * w) * e == (t * e) * w == (5000.0 * h - 2401.0 * e) * w / 2601.0;
    assert (5000.0 * h - 2401.0 * e) * w == 2601.0 * (h * e) - 2.0 * (d * d) by {
      assert (5000.0 * h - 2401.0 * e) * w == 12401.0 * (h * e) - 4802.0 * (e * e) - 5000.0 * (h * h);
      assert d * d == 2500.0 * (h * h) - 4900.0 * (h * e) + 2401.0 * (e * e);
    }
    assert (t * w) * e <= h * e;
    TimesPositive(h, t * w, e);
    if t >= 0.0 {
      TimesNonNegative(u, w, t);
    } else {
      TimesPositive(t, 0.0, u);
    }
    Quotient(h, u, t);
  }

  lemma LargerDivisor(h: real, e: real, u: real)
    requires h >= 0.0 && 0.0 < e <= u
    ensures h / u <= h / e
  {
    var x := h / u;
    Quotient(h, u, x);
    Quotient(h, u, 0.0);
    TimesNonNegative(e, u, x);
    Quotient(h, e, x);
  }

  lemma ProbeBounds(p: Probe, gated: set<Id>, k: nat)
    requires FromLane(p, gated, k)
    ensures Jaccard(p) <= Recall(p)
    ensures Jaccard(p) >= 49.0 / 51.0 + 5000.0 / 2601.0 * (Recall(p) - 49.0 / 50.0)
  {
    Counts(p, gated, k);
    var h, e, u := Hits(p.exact, Members(p.approx)) as real, |p.exact| as real, UnionSize(p) as real;
    if |p.exact| > 0 {
      Tangent(h, e, u);
      LargerDivisor(h, e, u);
    }
  }

  // ---- main results -------------------------------------------------------------------------

  lemma {:induction false} TotalBounds(ps: seq<Probe>, gated: set<Id>, k: nat)
    requires forall p :: p in ps ==> FromLane(p, gated, k)
    ensures Total(ps, OfJaccard) <= Total(ps, OfRecall)
    ensures Total(ps, OfJaccard)
         >= 49.0 / 51.0 * |ps| as real + 5000.0 / 2601.0 * (Total(ps, OfRecall) - 49.0 / 50.0 * |ps| as real)
  {
    if ps != [] {
      TotalBounds(ps[..|ps| - 1], gated, k);
      ProbeBounds(ps[|ps| - 1], gated, k);
    }
  }

  lemma MeanBounds(r: real, j: real, n: real)
    requires n > 0.0 && j <= r && r / n >= 0.98
    requires j >= 49.0 / 51.0 * n + 5000.0 / 2601.0 * (r - 49.0 / 50.0 * n)
    ensures 49.0 / 51.0 <= j / n <= r / n
  {
    Quotient(r, n, 0.98);
    Quotient(j, n, 49.0 / 51.0);
    Quotient(j, n, j / n);
    Quotient(r, n, j / n);
  }

  /** A lane that passes the recall gate of 0.98 has mean overlap at least 49/51, and the mean
      overlap is never above the mean recall. */
  lemma PassBoundsJaccard(ps: seq<Probe>, minProbes: nat, gated: set<Id>, k: nat)
    requires forall p :: p in ps ==> FromLane(p, gated, k)
    requires LaneVerdict(ps, minProbes) == PASS
    ensures ps != [] && 49.0 / 51.0 <= Mean(ps, OfJaccard) <= Mean(ps, OfRecall)
  {
    TotalBounds(ps, gated, k);
    MeanBounds(Total(ps, OfRecall), Total(ps, OfJaccard), |ps| as real);
  }

  ghost function Range(a: nat, b: nat): (r: set<Id>)
    requires a <= b
    ensures forall i :: i in r <==> a <= i < b
    ensures |r| == b - a
    decreases b
  {
    if a == b then {} else Range(a, b - 1) + {b - 1}
  }

  function Consecutive(from: nat, n: nat): (ids: seq<Id>)
    ensures |ids| == n && forall i :: 0 <= i < n ==> ids[i] == from + i
  {
    seq(n, i => from + i)
  }

  lemma ConsecutiveMembers(from: nat, n: nat)
    ensures Distinct(Consecutive(from, n)) && Members(Consecutive(from, n)) == Range(from, from + n)
  {
    var ids := Consecutive(from, n);
    forall id | id in Range(from, from + n) ensures id in ids {
      assert ids[id - from] == id;
    }
  }

  /** `k` rows of which the index misses `m` and finds `m` others. */
  function Shifted(k: nat, m: nat): Probe {
    Probe(Consecutive(0, k), Consecutive(m, k))
  }

  lemma ShiftedFromLane(k: nat, m: nat)
    ensures FromLane(Shifted(k, m), Range(0, k + m), k)
  {
    ConsecutiveMembers(0, k);
    ConsecutiveMembers(m, k);
  }

  lemma RangesMeet(k: nat, m: nat)
    requires m <= k
    ensures Range(0, k) * Range(m, m + k) == Range(m, k)
  {
  }

  lemma RangesJoin(k: nat, m: nat)
    requires m <= k
    ensures Range(0, k) + Range(m, m + k) == Range(0, k + m)
  {
  }

  lemma ShiftedHits(ids: seq<Id>, found: set<Id>, k: nat, m: nat)
    requires m <= k && Distinct(ids) && Members(ids) == Range(0, k) && found == Range(m, m + k)
    ensures Hits(ids, found) == k - m
  {
    HitsAreShared(ids, found);
    RangesMeet(k, m);
  }

  lemma ShiftedUnion(e: set<Id>, a: set<Id>, k: nat, m: nat)
    requires m <= k && e == Range(0, k) && a == Range(m, m + k)
    ensures |e + a| == k + m
  {
    RangesJoin(k, m);
  }

  lemma ShiftedCounts(k: nat, m: nat)
    requires m <= k
    ensures Hits(Consecutive(0, k), Members(Consecutive(m, k))) == k - m
    ensures UnionSize(Shifted(k, m)) == k + m
  {
    var exact, approx := Consecutive(0, k), Consecutive(m, k);
    ConsecutiveMembers(0, k);
    ConsecutiveMembers(m, k);
    ShiftedHits(exact, Members(approx), k, m);
    ShiftedUnion(Members(exact), Members(approx), k, m);
  }

  lemma ShiftedRatios(k: nat, m: nat)
    requires 0 < m <= k
    ensures Recall(Shifted(k, m)) == (k - m) as real / k as real
    ensures Jaccard(Shifted(k, m)) == (k - m) as real / (k + m) as real
  {
    ShiftedCounts(k, m);
  }

  lemma SingleMean(p: Probe, f: Measure)
    ensures Mean([p], f) == Of(p, f)
  {
    assert [p][..0] == [];
    assert Total([p], f) == Total([], f) + Of(p, f);
    Quotient(Of(p, f), 1.0, 0.0);
  }

  /** The bound is sharp for every k that is a multiple of 50, the script's 200 and 400 among them:
      a lane of one probe with k / 50 rows missed passes the gate and sits exactly on it. */
  lemma BoundIsSharp(k: nat, m: nat)
    requires m > 0 && k == 50 * m
    ensures FromLane(Shifted(k, m), Range(0, k + m), k)
    ensures LaneVerdict([Shifted(k, m)], 1) == PASS && Mean([Shifted(k, m)], OfJaccard) == 49.0 / 51.0
  {
    ShiftedFromLane(k, m);
    ShiftedMeans(Shifted(k, m), k, m);
    PassesExactly(Shifted(k, m), k, m);
  }

  lemma ShiftedMeans(p: Probe, k: nat, m: nat)
    requires p == Shifted(k, m) && 0 < m <= k
    ensures Mean([p], OfRecall) == (k - m) as real / k as real
    ensures Mean([p], OfJaccard) == (k - m) as real / (k + m) as real
  {
    ShiftedRatios(k, m);
    SingleMean(p, OfRecall);
    SingleMean(p, OfJaccard);
  }

  lemma PassesExactly(p: Probe, k: nat, m: nat)
    requires m > 0 && k == 50 * m
    requires Mean([p], OfRecall) == (k - m) as real / k as real
    requires Mean([p], OfJaccard) == (k - m) as real / (k + m) as real
    ensures LaneVerdict([p], 1) == PASS && Mean([p], OfJaccard) == 49.0 / 51.0
  {
    Scaled(49.0, 50.0, m as real);
    Scaled(49.0, 51.0, m as real);
  }

  lemma Scaled(a: real, b: real, m: real)
    requires b > 0.0 && m > 0.0
    ensures (a * m) / (b * m) == a / b
  {
    var x := a / b;
    assert x * (b * m) == (x * b) * m;
    Quotient(a, b, x);
    Quotient(a * m, b * m, x);
  }

  // ---- the exit code ------------------------------------------------------------------------

  method ExitCode(verdicts: seq<Verdict>) returns (code: nat)
    ensures code == 0 <==> verdicts != [] && forall v :: v in verdicts ==> v == PASS
    ensures code == 1 <==> FAIL in verdicts
    ensures code <= 2
  {
    if FAIL in verdicts {
      return 1;
    }
    if SKIP in verdicts || |verdicts| == 0 {
      return 2;
    }
    assert forall v :: v in verdicts ==> v == PASS;
    return 0;
  }

  /** Everything swept by one run of the script. */
  method Scan(lanes: seq<seq<Probe>>, minProbes: nat) returns (code: nat)
    ensures code == 0 <==> lanes != [] && forall l :: 0 <= l < |lanes| ==> LaneVerdict(lanes[l], minProbes) == PASS
    ensures code == 1 <==> exists l :: 0 <= l < |lanes| && LaneVerdict(lanes[l], minProbes) == FAIL
    ensures code <= 2
  {
    var verdicts: seq<Verdict> := [];
    for l := 0 to |lanes|
      invariant |verdicts| == l
      invariant forall j :: 0 <= j < l ==> verdicts[j] == LaneVerdict(lanes[j], minProbes)
    {
      var v := RunLane(lanes[l], minProbes);
      verdicts := verdicts + [v];
    }
    code := ExitCode(verdicts);
    assert forall l :: 0 <= l < |lanes| ==> verdicts[l] in verdicts;
  }

  /** What a run that exits with 0 promises, lane by lane. */
  lemma CleanScanBounds(lanes: seq<seq<Probe>>, minProbes: nat, gated: seq<set<Id>>, ks: seq<nat>)
    requires |gated| == |ks| == |lanes|
    requires forall l, p :: 0 <= l < |lanes| && p in lanes[l] ==> FromLane(p, gated[l], ks[l])
    requires forall l :: 0 <= l < |lanes| ==> LaneVerdict(lanes[l], minProbes) == PASS
    ensures forall l :: 0 <= l < |lanes| ==>
      lanes[l] != [] && 49.0 / 51.0 <= Mean(lanes[l], OfJaccard) <= Mean(lanes[l], OfRecall)
  {
    forall l | 0 <= l < |lanes|
      ensures lanes[l] != [] && 49.0 / 51.0 <= Mean(lanes[l], OfJaccard) <= Mean(lanes[l], OfRecall)
    {
      PassBoundsJaccard(lanes[l], minProbes, gated[l], ks[l]);
    }
  }
}
