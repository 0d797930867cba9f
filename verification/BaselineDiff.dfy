/**
  The regression gate of scripts/eval-baseline-diff.ts, and what a chain of green runs, each one
  the next one's baseline, guarantees about a metric.
 */
module BaselineDiff {
  import opened Collections

  datatype MetricRow = MetricRow(name: string, value: Option<real>, ciLower: Option<real>, ciUpper: Option<real>)

  datatype Vertical = Vertical(vertical: string, metrics: seq<MetricRow>)

  datatype Report = Report(perVertical: seq<Vertical>, overall: seq<MetricRow>)

  // ---- tolerances ---------------------------------------------------------------------------

  datatype Tolerance = Tolerance(drop: real, lowerIsBetter: bool)

  function ToleranceOf(name: string): (t: Tolerance)
    ensures 0.0 <= t.drop <= 0.05
  {
    if name == "memory-lifecycle-correctness" then Tolerance(0.0, false)
    else if name == "privacy-leakage-mia-auc" then Tolerance(0.05, true)
    else if name == "hallucination-resistance:refusal-rate" then Tolerance(0.03, false)
    else if name == "pii-gating-correctness" || StartsWith(name, "identity-resolution") then Tolerance(0.01, false)
    else if StartsWith(name, "extraction-") || StartsWith(name, "entity-") then Tolerance(0.05, false)
    else if StartsWith(name, "recall@") || StartsWith(name, "MRR") || StartsWith(name, "NDCG")
         || EndsWith(name, "-f1") || EndsWith(name, "-precision") || EndsWith(name, "-recall")
    then Tolerance(0.03, false)
    else Tolerance(0.05, false)
  }

  /** How far the baseline's own confidence interval reaches the wrong way; hard gates get none. */
  function CiSlack(b: MetricRow): real
    requires b.value.Some?
  {
    var t := ToleranceOf(b.name);
    if t.drop < 0.03 then 0.0
    else if t.lowerIsBetter then (if b.ciUpper.Some? then b.ciUpper.value - b.value.value else 0.0)
    else (if b.ciLower.Some? then b.value.value - b.ciLower.value else 0.0)
  }

  function Allowed(b: MetricRow): real
    requires b.value.Some?
  {
    ToleranceOf(b.name).drop + CiSlack(b)
  }

  predicate Regressed(b: MetricRow, c: MetricRow)
    requires b.value.Some? && c.value.Some?
  {
    var delta := c.value.value - b.value.value;
    if ToleranceOf(b.name).lowerIsBetter then delta > Allowed(b) else delta < -Allowed(b)
  }

  // ---- one diff -----------------------------------------------------------------------------

  datatype Kind = Regression | Missing | Added

  datatype Finding = Finding(scope: string, metric: string, baseline: Option<real>, current: Option<real>,
                             delta: Option<real>, tolerance: real, lowerIsBetter: bool, kind: Kind)

  /** `new Map(rows.map((m) => [m.name, m])).get(name)`: the last row of that name. */
  function Find(rows: seq<MetricRow>, name: string): (r: Option<MetricRow>)
    ensures r.Some? ==> r.value in rows && r.value.name == name
    ensures r.None? ==> forall b :: b in rows ==> b.name != name
  {
    if rows == [] then None
    else if rows[|rows| - 1].name == name then Some(rows[|rows| - 1])
    else
      assert rows == rows[..|rows| - 1] + [rows[|rows| - 1]];
      Find(rows[..|rows| - 1], name)
  }

  /** A later row of a name replaces an earlier one. */
  lemma {:induction false} FindsLast(rows: seq<MetricRow>, i: nat)
    requires i < |rows| && forall j :: i < j < |rows| ==> rows[j].name != rows[i].name
    ensures Find(rows, rows[i].name) == Some(rows[i])
  {
    if i < |rows| - 1 {
      FindsLast(rows[..|rows| - 1], i);
    }
  }

  function FindingsFor(scope: string, b: MetricRow, cur: seq<MetricRow>): seq<Finding> {
    var t := ToleranceOf(b.name);
    var c := Find(cur, b.name);
    if c.None? then [Finding(scope, b.name, b.value, None, None, t.drop, t.lowerIsBetter, Missing)]
    else if b.value.None? || c.value.value.None? || !Regressed(b, c.value) then []
    else [Finding(scope, b.name, b.value, c.value.value, Some(c.value.value.value - b.value.value),
                  Allowed(b), t.lowerIsBetter, Regression)]
  }

  function BaseFindings(scope: string, base: seq<MetricRow>, cur: seq<MetricRow>): seq<Finding> {
    if base == [] then []
    else BaseFindings(scope, base[..|base| - 1], cur) + FindingsFor(scope, base[|base| - 1], cur)
  }

  function NewMetric(scope: string, c: MetricRow): Finding {
    var t := ToleranceOf(c.name);
    Finding(scope, c.name, None, c.value, None, t.drop, t.lowerIsBetter, Added)
  }

  function AddedFindings(scope: string, names: set<string>, cur: seq<MetricRow>): seq<Finding> {
    if cur == [] then []
    else
      var c := cur[|cur| - 1];
      AddedFindings(scope, names, cur[..|cur| - 1])
      + if c.name in names then []
        else [NewMetric(scope, c)]
  }

  function Names(rows: seq<MetricRow>): set<string> {
    set b | b in rows :: b.name
  }

  lemma FindingsSnoc(scope: string, base: seq<MetricRow>, b: MetricRow, cur: seq<MetricRow>)
    ensures BaseFindings(scope, base + [b], cur) == BaseFindings(scope, base, cur) + FindingsFor(scope, b, cur)
    ensures Names(base + [b]) == Names(base) + {b.name}
  {
    assert (base + [b])[..|base|] == base;
  }

  lemma AddedSnoc(scope: string, names: set<string>, cur: seq<MetricRow>, c: MetricRow)
    ensures AddedFindings(scope, names, cur + [c]) == AddedFindings(scope, names, cur)
      + if c.name in names then []
        else [NewMetric(scope, c)]
  {
    assert (cur + [c])[..|cur|] == cur;
  }

  method DiffMetrics(scope: string, base: seq<MetricRow>, cur: seq<MetricRow>) returns (findings: seq<Finding>)
    ensures findings == BaseFindings(scope, base, cur) + AddedFindings(scope, Names(base), cur)
  {
    findings := [];
    var seen: set<string> := {};
    for i := 0 to |base|
      invariant findings == BaseFindings(scope, base[..i], cur)
      invariant seen == Names(base[..i])
    {
      TakeNext(base, i);
      FindingsSnoc(scope, base[..i], base[i], cur);
      seen := seen + {base[i].name};
      var found := Missed(scope, base[i], cur);
      findings := findings + found;
    }
    assert base[..|base|] == base;
    var added := Unseen(scope, seen, cur);
    findings := findings + added;
  }

  /** The second loop: metrics the baseline does not have. */
  method Unseen(scope: string, seen: set<string>, cur: seq<MetricRow>) returns (found: seq<Finding>)
    ensures found == AddedFindings(scope, seen, cur)
  {
    found := [];
    for i := 0 to |cur|
      invariant found == AddedFindings(scope, seen, cur[..i])
    {
      var c := cur[i];
      AddedSnoc(scope, seen, cur[..i], c);
      assert cur[..i + 1] == cur[..i] + [c];
      if c.name !in seen {
        var t := ToleranceOf(c.name);
        found := found + [Finding(scope, c.name, None, c.value, None, t.drop, t.lowerIsBetter, Added)];
      }
    }
    assert cur[..|cur|] == cur;
  }

  /** The body of the first loop: what one baseline row adds to the findings. */
  method Missed(scope: string, b: MetricRow, cur: seq<MetricRow>) returns (found: seq<Finding>)
    ensures found == FindingsFor(scope, b, cur)
  {
    found := [];
    var t := ToleranceOf(b.name);
    var c := Find(cur, b.name);
    if c.None? {
      found := [Finding(scope, b.name, b.value, None, None, t.drop, t.lowerIsBetter, Missing)];
    } else if b.value.Some? && c.value.value.Some? {
      var delta := c.value.value.value - b.value.value;
      var allowedDrop := t.drop + CiSlack(b);
      if (if t.lowerIsBetter then delta > allowedDrop else delta < -allowedDrop) {
        found := [Finding(scope, b.name, b.value, c.value.value, Some(delta),
                          allowedDrop, t.lowerIsBetter, Regression)];
      }
    }
  }

  /** Every baseline metric is still there, and where both values exist it has not regressed. */
  ghost predicate Green(base: seq<MetricRow>, cur: seq<MetricRow>) {
    forall b :: b in base ==> RowGreen(b, cur)
  }

  ghost predicate RowGreen(b: MetricRow, cur: seq<MetricRow>) {
    && Find(cur, b.name).Some?
    && (b.value.Some? && Find(cur, b.name).value.value.Some? ==> !Regressed(b, Find(cur, b.name).value))
  }

  lemma RowFindings(scope: string, b: MetricRow, cur: seq<MetricRow>)
    ensures FindingsFor(scope, b, cur) == [] <==> RowGreen(b, cur)
    ensures forall f :: f in FindingsFor(scope, b, cur) ==> Blocking(f)
  {
  }

  predicate Blocking(f: Finding) {
    !f.kind.Added?
  }

  lemma GreenSnoc(base: seq<MetricRow>, b: MetricRow, cur: seq<MetricRow>)
    ensures Green(base + [b], cur) <==> Green(base, cur) && RowGreen(b, cur)
  {
    assert forall r :: r in base + [b] <==> r in base || r == b;
  }

  lemma {:induction false} BlockingExactlyWhen(scope: string, base: seq<MetricRow>, cur: seq<MetricRow>)
    ensures BaseFindings(scope, base, cur) == [] <==> Green(base, cur)
  {
    if base != [] {
      var n := |base| - 1;
      BlockingExactlyWhen(scope, base[..n], cur);
      RowFindings(scope, base[n], cur);
      GreenSnoc(base[..n], base[n], cur);
      assert base == base[..n] + [base[n]];
    }
  }

  lemma {:induction false} BaseFindingsBlock(scope: string, base: seq<MetricRow>, cur: seq<MetricRow>)
    ensures forall f :: f in BaseFindings(scope, base, cur) ==> Blocking(f)
  {
    if base != [] {
      BaseFindingsBlock(scope, base[..|base| - 1], cur);
      RowFindings(scope, base[|base| - 1], cur);
    }
  }

  lemma {:induction false} AddedNeverBlocks(scope: string, names: set<string>, cur: seq<MetricRow>)
    ensures forall f :: f in AddedFindings(scope, names, cur) ==> !Blocking(f)
  {
    if cur != [] {
      AddedNeverBlocks(scope, names, cur[..|cur| - 1]);
    }
  }

  /** One diff blocks exactly when it is not green. */
  lemma NoneBlocking(scope: string, base: seq<MetricRow>, cur: seq<MetricRow>)
    ensures (forall f :: f in BaseFindings(scope, base, cur) + AddedFindings(scope, Names(base), cur) ==> !Blocking(f))
       <==> Green(base, cur)
  {
    BlockingExactlyWhen(scope, base, cur);
    BaseFindingsBlock(scope, base, cur);
    AddedNeverBlocks(scope, Names(base), cur);
    var found := BaseFindings(scope, base, cur);
    if found != [] {
      assert found[0] in found;
    }
  }

  // ---- a whole report -----------------------------------------------------------------------

  /** `new Map(perVertical.map((v) => [v.vertical, v]))`. */
  function ByVertical(vs: seq<Vertical>): map<string, seq<MetricRow>> {
    if vs == [] then map[]
    else ByVertical(vs[..|vs| - 1])[vs[|vs| - 1].vertical := vs[|vs| - 1].metrics]
  }

  lemma {:induction false} LastVerticalCounts(vs: seq<Vertical>, i: nat)
    requires i < |vs| && forall j :: i < j < |vs| ==> vs[j].vertical != vs[i].vertical
    ensures vs[i].vertical in ByVertical(vs) && ByVertical(vs)[vs[i].vertical] == vs[i].metrics
  {
    if i < |vs| - 1 {
      LastVerticalCounts(vs[..|vs| - 1], i);
    }
  }

  ghost predicate GreenReport(base: Report, cur: Report) {
    && Green(base.overall, cur.overall)
    && (forall v :: v in ByVertical(base.perVertical) ==>
          && v in ByVertical(cur.perVertical)
          && Green(ByVertical(base.perVertical)[v], ByVertical(cur.perVertical)[v]))
  }

  /** The script's verdict; `false` is exit code 1. */
  method Passes(base: Report, cur: Report) returns (ok: bool)
    ensures ok <==> GreenReport(base, cur)
  {
    var findings := DiffMetrics("overall", base.overall, cur.overall);
    NoneBlocking("overall", base.overall, cur.overall);
    ok := forall f | f in findings :: !Blocking(f);
    assert ok <==> Green(base.overall, cur.overall);
    var baseVerticals, curVerticals := ByVertical(base.perVertical), ByVertical(cur.perVertical);
    var todo := baseVerticals.Keys;
    while todo != {}
      invariant todo <= baseVerticals.Keys
      invariant ok <==> Green(base.overall, cur.overall) && forall v :: v in baseVerticals && v !in todo ==>
          v in curVerticals && Green(baseVerticals[v], curVerticals[v])
      decreases todo
    {
      var v :| v in todo;
      todo := todo - {v};
      if v !in curVerticals {
        ok := false;
      } else {
        findings := DiffMetrics(v, baseVerticals[v], curVerticals[v]);
        NoneBlocking(v, baseVerticals[v], curVerticals[v]);
        var green := forall f | f in findings :: !Blocking(f);
        assert green <==> Green(baseVerticals[v], curVerticals[v]);
        ok := ok && green;
      }
    }
  }

  // ---- two promises of the header -----------------------------------------------------------

  /** A ranking or F1, precision or recall metric by its first or last letters. */
  predicate RankingName(name: string) {
    || StartsWith(name, "recall@") || StartsWith(name, "MRR") || StartsWith(name, "NDCG")
    || EndsWith(name, "-f1") || EndsWith(name, "-precision") || EndsWith(name, "-recall")
  }

  /** A name that an earlier rule takes first. */
  predicate ClaimedEarlier(name: string) {
    StartsWith(name, "identity-resolution") || StartsWith(name, "extraction-") || StartsWith(name, "entity-")
  }

  /** The four names with a rule of their own have none of those affixes. */
  lemma OwnRules(name: string)
    requires name == "memory-lifecycle-correctness" || name == "privacy-leakage-mia-auc"
      || name == "hallucination-resistance:refusal-rate" || name == "pii-gating-correctness"
    ensures !RankingName(name)
  {
    var n := |name|;
    assert name[0] == 'm' || name[0] == 'p' || name[0] == 'h';
    assert name[n - 1] == 's' || name[n - 1] == 'c' || name[n - 1] == 'e';
    Affixes(name);
  }

  lemma Affixes(name: string)
    requires name != ""
    ensures StartsWith(name, "recall@") ==> name[0] == 'r'
    ensures StartsWith(name, "MRR") ==> name[0] == 'M'
    ensures StartsWith(name, "NDCG") ==> name[0] == 'N'
    ensures EndsWith(name, "-f1") ==> name[|name| - 1] == '1'
    ensures EndsWith(name, "-precision") ==> name[|name| - 1] == 'n'
    ensures EndsWith(name, "-recall") ==> name[|name| - 1] == 'l'
  {
    LastOfSuffix(name, "-f1");
    LastOfSuffix(name, "-precision");
    LastOfSuffix(name, "-recall");
  }

  lemma FirstOfPrefix(s: string, p: string)
    requires p != ""
    ensures StartsWith(s, p) ==> s != "" && s[0] == p[0]
  {
    if StartsWith(s, p) {
      assert s[..|p|][0] == p[0];
    }
  }

  lemma LastOfSuffix(s: string, p: string)
    requires p != ""
    ensures EndsWith(s, p) ==> s != "" && s[|s| - 1] == p[|p| - 1]
  {
    if EndsWith(s, p) {
      assert s[|s| - |p|..][|p| - 1] == p[|p| - 1];
    }
  }

  /** Which metrics are held to three points. */
  lemma ThreePointsExactlyWhen(name: string)
    ensures ToleranceOf(name).drop == 0.03
       <==> name == "hallucination-resistance:refusal-rate" || (RankingName(name) && !ClaimedEarlier(name))
  {
    if name == "memory-lifecycle-correctness" || name == "privacy-leakage-mia-auc"
      || name == "hallucination-resistance:refusal-rate" || name == "pii-gating-correctness"
    {
      OwnRules(name);
    }
  }

  /** So a metric called "F1", "precision" or "recall" is not. */
  lemma BareNamesGetFive(name: string)
    requires name == "F1" || name == "precision" || name == "recall"
    ensures ToleranceOf(name) == Tolerance(0.05, false)
  {
    Affixes(name);
    assert name[0] == 'F' || name[0] == 'p' || |name| == 6;
  }

  /** What green means for one metric with values on both sides, name by name: how far it may fall
      below the baseline's value, or below the lower end of its confidence interval where the metric
      is not a hard gate. The one metric for which less is better may rise instead, from the value
      or the upper end. */
  lemma GreenRowExactlyWhen(b: MetricRow, cur: seq<MetricRow>)
    requires b.value.Some? && Find(cur, b.name).Some? && Find(cur, b.name).value.value.Some?
    ensures var was, now := b.value.value, Find(cur, b.name).value.value.value;
      var floor := if b.ciLower.Some? then b.ciLower.value else was;
      var ceiling := if b.ciUpper.Some? then b.ciUpper.value else was;
      RowGreen(b, cur) <==>
        if b.name == "privacy-leakage-mia-auc" then now <= ceiling + 0.05
        else if b.name == "memory-lifecycle-correctness" then now >= was
        else if b.name == "pii-gating-correctness" || StartsWith(b.name, "identity-resolution") then now >= was - 0.01
        else if b.name == "hallucination-resistance:refusal-rate" || (RankingName(b.name) && !ClaimedEarlier(b.name))
        then now >= floor - 0.03
        else now >= floor - 0.05
  {
    if b.name == "privacy-leakage-mia-auc" || b.name == "memory-lifecycle-correctness" {
      OwnRules(b.name);
    } else if b.name == "hallucination-resistance:refusal-rate" {
      assert b.name[0] == 'h';
      FirstOfPrefix(b.name, "identity-resolution");
    }
  }

  /** So a leak that grows by more than 0.05 never passes, and one that shrinks always does. */
  lemma LeakMayNotGrow(b: MetricRow, cur: seq<MetricRow>)
    requires b.name == "privacy-leakage-mia-auc" && b.value.Some? && b.ciUpper.None?
    requires Find(cur, b.name).Some? && Find(cur, b.name).value.value.Some?
    ensures RowGreen(b, cur) <==> Find(cur, b.name).value.value.value <= b.value.value + 0.05
  {
    GreenRowExactlyWhen(b, cur);
  }

  /** A green diff keeps the hard correctness metric at 1, its highest value, exactly when it was
      there before: the diff compares with the baseline and with nothing else. */
  lemma StaysPerfectExactlyWhen(b: MetricRow)
    requires b.name == "memory-lifecycle-correctness" && b.value.Some? && b.value.value <= 1.0
    ensures (forall cur :: RowGreen(b, cur) && AtMostOne(cur, b.name) ==> Find(cur, b.name).value.value == Some(1.0))
       <==> b.value == Some(1.0)
  {
    if b.value == Some(1.0) {
      forall cur | RowGreen(b, cur) && AtMostOne(cur, b.name) ensures Find(cur, b.name).value.value == Some(1.0) {
        assert Allowed(b) == 0.0;
      }
    } else {
      assert Find([b], b.name) == Some(b);
      assert RowGreen(b, [b]) && AtMostOne([b], b.name);
    }
  }

  predicate AtMostOne(rows: seq<MetricRow>, name: string) {
    Find(rows, name).Some? && Find(rows, name).value.value.Some? && Find(rows, name).value.value.value <= 1.0
  }

  /** Half of it stays green against itself. */
  lemma HalfIsGreen(name: string)
    requires name == "memory-lifecycle-correctness"
    ensures GreenReport(Single(name, Some(0.5)), Single(name, Some(0.5)))
  {
    SingleRow(name, Some(0.5));
  }

  // ---- chains -------------------------------------------------------------------------------

  datatype Scope = Overall | In(vertical: string)

  function RowsOf(r: Report, scope: Scope): Option<seq<MetricRow>> {
    if scope.Overall? then Some(r.overall)
    else if scope.vertical in ByVertical(r.perVertical) then Some(ByVertical(r.perVertical)[scope.vertical])
    else None
  }

  function RowOf(r: Report, scope: Scope, name: string): Option<MetricRow> {
    if RowsOf(r, scope).None? then None else Find(RowsOf(r, scope).value, name)
  }

  ghost predicate GreenChain(chain: seq<Report>) {
    forall i :: 0 <= i < |chain| - 1 ==> GreenReport(chain[i], chain[i + 1])
  }

  predicate HasValue(r: Report, scope: Scope, name: string) {
    RowOf(r, scope, name).Some? && RowOf(r, scope, name).value.value.Some?
  }

  function ValueOf(r: Report, scope: Scope, name: string): real
    requires HasValue(r, scope, name)
  {
    RowOf(r, scope, name).value.value.value
  }

  /** The sum of the moves allowed by the baselines before position `upTo` that carried a value. */
  ghost function AllowedSum(chain: seq<Report>, scope: Scope, name: string, upTo: nat): real
    requires upTo <= |chain|
  {
    if upTo == 0 then 0.0
    else AllowedSum(chain, scope, name, upTo - 1)
         + if HasValue(chain[upTo - 1], scope, name) then Allowed(RowOf(chain[upTo - 1], scope, name).value) else 0.0
  }

  /** From the first to the last report the metric moved the wrong way by no more than allowed. */
  ghost predicate WithinBudget(chain: seq<Report>, scope: Scope, name: string)
    requires chain != [] && HasValue(chain[0], scope, name) && HasValue(chain[|chain| - 1], scope, name)
  {
    var first, last := ValueOf(chain[0], scope, name), ValueOf(chain[|chain| - 1], scope, name);
    var budget := AllowedSum(chain, scope, name, |chain| - 1);
    if ToleranceOf(name).lowerIsBetter then last <= first + budget else last >= first - budget
  }

  lemma OneLink(base: Report, cur: Report, scope: Scope, name: string)
    requires GreenReport(base, cur) && RowOf(base, scope, name).Some?
    ensures RowOf(cur, scope, name).Some?
    ensures HasValue(base, scope, name) && HasValue(cur, scope, name) ==>
      if ToleranceOf(name).lowerIsBetter
      then ValueOf(cur, scope, name) <= ValueOf(base, scope, name) + Allowed(RowOf(base, scope, name).value)
      else ValueOf(cur, scope, name) >= ValueOf(base, scope, name) - Allowed(RowOf(base, scope, name).value)
  {
    var b := RowOf(base, scope, name).value;
    assert b in RowsOf(base, scope).value && b.name == name;
  }

  /** A metric of the first report is in every later one. */
  lemma {:induction false} MetricsPersist(chain: seq<Report>, scope: Scope, name: string, i: nat)
    requires GreenChain(chain) && i < |chain| && RowOf(chain[0], scope, name).Some?
    ensures RowOf(chain[i], scope, name).Some?
  {
    if i > 0 {
      MetricsPersist(chain, scope, name, i - 1);
      OneLink(chain[i - 1], chain[i], scope, name);
    }
  }

  /** As long as every report carries a value, the moves add up to at most the allowances. */
  lemma {:induction false} ChainWithinBudget(chain: seq<Report>, scope: Scope, name: string)
    requires chain != [] && GreenChain(chain)
    requires forall i :: 0 <= i < |chain| ==> HasValue(chain[i], scope, name)
    ensures WithinBudget(chain, scope, name)
  {
    var n := |chain| - 1;
    if n > 0 {
      var front := chain[..n];
      ChainWithinBudget(front, scope, name);
      SumOfPrefix(chain, n, scope, name, n - 1);
      OneLink(chain[n - 1], chain[n], scope, name);
    }
  }

  lemma {:induction false} SumOfPrefix(chain: seq<Report>, n: nat, scope: Scope, name: string, upTo: nat)
    requires upTo <= n <= |chain|
    ensures AllowedSum(chain[..n], scope, name, upTo) == AllowedSum(chain, scope, name, upTo)
  {
    if upTo > 0 {
      SumOfPrefix(chain, n, scope, name, upTo - 1);
    }
  }

  lemma {:induction false} HardGatesNeverWiden(chain: seq<Report>, scope: Scope, name: string, upTo: nat)
    requires upTo <= |chain| && ToleranceOf(name).drop < 0.03
    ensures AllowedSum(chain, scope, name, upTo) <= upTo as real * ToleranceOf(name).drop
  {
    if upTo > 0 {
      HardGatesNeverWiden(chain, scope, name, upTo - 1);
    }
  }

  /** The zero-tolerance metric never decreases while every report carries its value. */
  lemma ZeroToleranceNeverDecreases(chain: seq<Report>, scope: Scope)
    requires chain != [] && GreenChain(chain)
    requires forall i :: 0 <= i < |chain| ==> HasValue(chain[i], scope, "memory-lifecycle-correctness")
    ensures ValueOf(chain[|chain| - 1], scope, "memory-lifecycle-correctness")
         >= ValueOf(chain[0], scope, "memory-lifecycle-correctness")
  {
    ChainWithinBudget(chain, scope, "memory-lifecycle-correctness");
    HardGatesNeverWiden(chain, scope, "memory-lifecycle-correctness", |chain| - 1);
  }

  // ---- the gap a null value opens -----------------------------------------------------------

  /** Which reports of the chain carry a value for the metric. */
  ghost predicate HasPattern(chain: seq<Report>, scope: Scope, name: string, present: seq<bool>) {
    |chain| == |present| && forall i :: 0 <= i < |chain| ==> HasValue(chain[i], scope, name) == present[i]
  }

  function Single(name: string, value: Option<real>): Report {
    Report([], [MetricRow(name, value, None, None)])
  }

  /** Zero up to position `gap`, then out of every budget. */
  function Sinking(name: string, present: seq<bool>, gap: nat): seq<Report> {
    var far := (|present| + 1) as real;
    seq(|present|, i requires 0 <= i < |present| =>
      Single(name, if !present[i] then None else if i < gap then Some(0.0)
                   else Some(if ToleranceOf(name).lowerIsBetter then far else -far)))
  }

  lemma SingleRow(name: string, value: Option<real>)
    ensures RowOf(Single(name, value), Overall, name) == Some(MetricRow(name, value, None, None))
  {
  }

  lemma SinkingIsGreen(name: string, present: seq<bool>, gap: nat)
    requires gap < |present| && !present[gap]
    ensures GreenChain(Sinking(name, present, gap))
    ensures HasPattern(Sinking(name, present, gap), Overall, name, present)
  {
    var chain := Sinking(name, present, gap);
    forall i | 0 <= i < |chain| ensures HasValue(chain[i], Overall, name) == present[i] {
      SingleRow(name, chain[i].overall[0].value);
    }
    forall i | 0 <= i < |chain| - 1 ensures GreenReport(chain[i], chain[i + 1]) {
      SinglesGreen(name, chain[i].overall[0].value, chain[i + 1].overall[0].value);
    }
  }

  /** Two reports of one metric: green unless both have a value and it moved too far. */
  lemma SinglesGreen(name: string, before: Option<real>, after: Option<real>)
    requires before.Some? && after.Some? ==>
      !Regressed(MetricRow(name, before, None, None), MetricRow(name, after, None, None))
    ensures GreenReport(Single(name, before), Single(name, after))
  {
    SingleRow(name, after);
  }

  lemma {:induction false} SinkingBudget(name: string, present: seq<bool>, gap: nat, upTo: nat)
    requires upTo <= |present|
    ensures AllowedSum(Sinking(name, present, gap), Overall, name, upTo) <= upTo as real
  {
    if upTo > 0 {
      SinkingBudget(name, present, gap, upTo - 1);
      SingleRow(name, Sinking(name, present, gap)[upTo - 1].overall[0].value);
    }
  }

  lemma SinkingBreaks(name: string, present: seq<bool>, gap: nat)
    requires present != [] && present[0] && present[|present| - 1] && gap < |present| && !present[gap]
    ensures HasPattern(Sinking(name, present, gap), Overall, name, present)
    ensures !WithinBudget(Sinking(name, present, gap), Overall, name)
  {
    var chain := Sinking(name, present, gap);
    SinkingIsGreen(name, present, gap);
    SinkingBudget(name, present, gap, |present| - 1);
    SingleRow(name, chain[0].overall[0].value);
    SingleRow(name, chain[|chain| - 1].overall[0].value);
  }

  /** A row with a null value is compared with neither neighbour. So a metric that has a value at
      both ends is kept within budget by every green chain of this shape exactly when no report
      in between lost the value. */
  lemma BudgetHoldsExactlyWhen(present: seq<bool>, name: string)
    requires present != [] && present[0] && present[|present| - 1]
    ensures (forall chain: seq<Report>, scope: Scope ::
               GreenChain(chain) && HasPattern(chain, scope, name, present) ==> WithinBudget(chain, scope, name))
       <==> (forall i :: 0 <= i < |present| ==> present[i])
  {
    if forall i :: 0 <= i < |present| ==> present[i] {
      forall chain: seq<Report>, scope: Scope | GreenChain(chain) && HasPattern(chain, scope, name, present)
        ensures WithinBudget(chain, scope, name)
      {
        ChainWithinBudget(chain, scope, name);
      }
    } else {
      var gap :| 0 <= gap < |present| && !present[gap];
      var chain := Sinking(name, present, gap);
      SinkingIsGreen(name, present, gap);
      SinkingBreaks(name, present, gap);
    }
  }

  /** The hardest gate leaks through one null: from 1 to 0 in two green diffs. */
  lemma NullHidesAFall(name: string)
    requires name == "memory-lifecycle-correctness"
    ensures GreenChain([Single(name, Some(1.0)), Single(name, None), Single(name, Some(0.0))])
  {
    var chain := [Single(name, Some(1.0)), Single(name, None), Single(name, Some(0.0))];
    SingleRow(name, Some(1.0));
    SingleRow(name, None);
    SingleRow(name, Some(0.0));
    assert GreenReport(chain[0], chain[1]);
    assert GreenReport(chain[1], chain[2]);
  }
}
