/**
  Cross-tenant reads of src/admin/admin.service.ts: each tenant's newest rows merged into one
  newest-first page, and the overview rollup.
 */
module AdminReads {
  import opened Collections
  import opened Sorting

  /** A dead-letter, forgotten-entity or audit row; `at` is the stored time in nanoseconds. */
  datatype Row = Row(companyId: string, id: string, source: string, op: string, at: int)

  /** The database orders by the stored time; the merged page by its ISO string, which is in
      milliseconds. */
  datatype Precision = Nanoseconds | Milliseconds

  function When(r: Row, p: Precision): int {
    if p.Nanoseconds? then r.at else r.at / 1_000_000
  }

  function EffectiveLimit(requested: Option<int>, default: nat, cap: nat): (limit: nat)
    requires 1 <= default <= cap
    ensures 1 <= limit <= cap
    ensures requested.None? ==> limit == default
    ensures requested.Some? && 1 <= requested.value <= cap ==> limit == requested.value
    ensures requested.Some? && requested.value < 1 ==> limit == 1
    ensures requested.Some? && requested.value > cap ==> limit == cap
  {
    var n := if requested.Some? then requested.value else default;
    var atLeast := if n < 1 then 1 else n;
    if atLeast < cap then atLeast else cap
  }

  ghost predicate NewestFirst(rows: seq<Row>, p: Precision) {
    forall i, j :: 0 <= i < j < |rows| ==> When(rows[i], p) >= When(rows[j], p)
  }

  /** `out` is a newest-first list of the `k` newest rows of `pool`, ties broken arbitrarily. */
  ghost predicate NewestOf(pool: multiset<Row>, k: nat, p: Precision, out: seq<Row>) {
    && multiset(out) <= pool && |out| == Min(k, |pool|)
    && NewestFirst(out, p)
    && (forall r, o :: multiset(out)[r] < pool[r] && o in out ==> When(r, p) <= When(o, p))
  }

  // ---- sorting ------------------------------------------------------------------------------

  function Stamp(r: Row): real {
    When(r, Milliseconds) as real
  }

  /** `rows.sort((a, b) => b.ts.localeCompare(a.ts))`. */
  function SortNewest(rows: seq<Row>): seq<Row> {
    SortDescending(rows, Stamp)
  }

  lemma SortedNewest(rows: seq<Row>)
    ensures multiset(SortNewest(rows)) == multiset(rows)
    ensures NewestFirst(SortNewest(rows), Milliseconds)
  {
    SortSorts(rows, Stamp);
    var sorted := SortNewest(rows);
    forall i, j | 0 <= i < j < |sorted| ensures When(sorted[i], Milliseconds) >= When(sorted[j], Milliseconds) {
      assert Stamp(sorted[i]) >= Stamp(sorted[j]);
    }
  }

  lemma {:induction false} WhereSame(rows: seq<Row>, a: Row -> real, b: Row -> real, v: real)
    requires forall r :: a(r) == b(r)
    ensures Where(rows, a, v) == Where(rows, b, v)
  {
    if rows != [] {
      WhereSame(rows[..|rows| - 1], a, b, v);
    }
  }

  /** Rows of the same millisecond keep the order they were fetched in. */
  lemma SameTimeKeepsOrder(rows: seq<Row>, ms: int)
    ensures var inMs := (r: Row) => (r.at / 1_000_000) as real;
      Where(SortNewest(rows), inMs, ms as real) == Where(rows, inMs, ms as real)
  {
    var inMs := (r: Row) => (r.at / 1_000_000) as real;
    SortIsStable(rows, Stamp, ms as real);
    WhereSame(rows, inMs, Stamp, ms as real);
    WhereSame(SortNewest(rows), inMs, Stamp, ms as real);
  }

  // ---- merging the tenants ------------------------------------------------------------------

  /** All rows of the tenants that could be read. */
  ghost function Readable(batches: seq<Option<seq<Row>>>, pools: seq<multiset<Row>>): multiset<Row>
    requires |batches| == |pools|
  {
    if batches == [] then multiset{}
    else
      var n := |batches| - 1;
      Readable(batches[..n], pools[..n]) + if batches[n].Some? then pools[n] else multiset{}
  }

  function Fetched(batches: seq<Option<seq<Row>>>): seq<Row> {
    if batches == [] then []
    else
      var n := |batches| - 1;
      Fetched(batches[..n]) + if batches[n].Some? then batches[n].value else []
  }

  /** Every tenant that could be read answered with its newest `k` rows. */
  ghost predicate Answered(batches: seq<Option<seq<Row>>>, pools: seq<multiset<Row>>, k: nat) {
    && |batches| == |pools|
    && forall t :: 0 <= t < |batches| && batches[t].Some? ==> NewestOf(pools[t], k, Nanoseconds, batches[t].value)
  }

  lemma {:induction false} FetchedWithin(batches: seq<Option<seq<Row>>>, pools: seq<multiset<Row>>, k: nat)
    requires Answered(batches, pools, k)
    ensures multiset(Fetched(batches)) <= Readable(batches, pools)
    ensures |Fetched(batches)| < k ==> multiset(Fetched(batches)) == Readable(batches, pools)
  {
    if batches != [] {
      var n := |batches| - 1;
      FetchedWithin(batches[..n], pools[..n], k);
      if batches[n].Some? && |batches[n].value| < k {
        SameSize(multiset(batches[n].value), pools[n]);
      }
    }
  }

  lemma SameSize(a: multiset<Row>, b: multiset<Row>)
    requires a <= b && |a| == |b|
    ensures a == b
  {
    assert b == a + (b - a);
    assert |b - a| == 0;
  }

  /** A row that was never fetched was left out by its own tenant, whose batch was fetched. */
  lemma {:induction false} LeftOutByTenant(batches: seq<Option<seq<Row>>>, pools: seq<multiset<Row>>, k: nat, r: Row)
    returns (t: nat)
    requires Answered(batches, pools, k)
    requires multiset(Fetched(batches))[r] < Readable(batches, pools)[r]
    ensures t < |batches| && batches[t].Some? && multiset(batches[t].value)[r] < pools[t][r]
    ensures multiset(batches[t].value) <= multiset(Fetched(batches))
  {
    var n := |batches| - 1;
    if batches[n].Some? && multiset(batches[n].value)[r] < pools[n][r] {
      t := n;
    } else {
      t := LeftOutByTenant(batches[..n], pools[..n], k, r);
    }
  }

  /** What the page shows once the batches are in: all of them sorted, the first `k` kept. */
  function Page(batches: seq<Option<seq<Row>>>, k: nat): seq<Row> {
    var sorted := SortNewest(Fetched(batches));
    sorted[..Min(k, |sorted|)]
  }

  /** If `k` of the sorted rows are at least as new as `v`, so is everything in the first `k`. */
  lemma FirstAreNew(sorted: seq<Row>, batch: seq<Row>, k: nat, v: int, o: Row)
    requires NewestFirst(sorted, Milliseconds) && multiset(batch) <= multiset(sorted)
    requires |batch| == k <= |sorted| && o in sorted[..k]
    requires forall b :: b in batch ==> When(b, Milliseconds) >= v
    ensures When(o, Milliseconds) >= v
  {
    var i :| 0 <= i < k && sorted[..k][i] == o;
    if When(o, Milliseconds) < v {
      assert sorted == sorted[..i] + sorted[i..];
      forall b | b in multiset(batch) ensures multiset(batch)[b] <= multiset(sorted[..i])[b] {
        assert b in batch;
        assert b !in sorted[i..];
      }
      assert multiset(batch) <= multiset(sorted[..i]);
      SubbagSize(multiset(batch), multiset(sorted[..i]));
      assert false;
    }
  }

  lemma OmittedIsOlder(batches: seq<Option<seq<Row>>>, pools: seq<multiset<Row>>, k: nat, r: Row, o: Row)
    requires k >= 1 && Answered(batches, pools, k)
    requires multiset(Page(batches, k))[r] < Readable(batches, pools)[r] && o in Page(batches, k)
    ensures r.at / 1_000_000 <= o.at / 1_000_000
  {
    SortedNewest(Fetched(batches));
    if multiset(Page(batches, k))[r] < multiset(Fetched(batches))[r] {
      FetchedNotShown(SortNewest(Fetched(batches)), Min(k, |SortNewest(Fetched(batches))|), r, o);
    } else {
      NeverFetched(batches, pools, k, r, o);
    }
  }

  lemma FetchedNotShown(sorted: seq<Row>, m: nat, r: Row, o: Row)
    requires m <= |sorted| && NewestFirst(sorted, Milliseconds)
    requires multiset(sorted[..m])[r] < multiset(sorted)[r] && o in sorted[..m]
    ensures When(r, Milliseconds) <= When(o, Milliseconds)
  {
    assert sorted == sorted[..m] + sorted[m..];
    assert r in multiset(sorted[m..]);
    assert r in sorted[m..];
  }

  lemma NeverFetched(batches: seq<Option<seq<Row>>>, pools: seq<multiset<Row>>, k: nat, r: Row, o: Row)
    requires Answered(batches, pools, k)
    requires multiset(Fetched(batches))[r] < Readable(batches, pools)[r] && o in Page(batches, k)
    ensures When(r, Milliseconds) <= When(o, Milliseconds)
  {
    var fetched := Fetched(batches);
    var sorted := SortNewest(fetched);
    SortedNewest(fetched);
    var t := LeftOutByTenant(batches, pools, k, r);
    var batch := batches[t].value;
    FullBatch(batch, pools[t], k, r);
    SubbagSize(multiset(batch), multiset(fetched));
    assert |sorted| == |multiset(sorted)| == |multiset(fetched)|;
    FirstAreNew(sorted, batch, k, When(r, Milliseconds), o);
  }

  lemma FullBatch(batch: seq<Row>, pool: multiset<Row>, k: nat, r: Row)
    requires NewestOf(pool, k, Nanoseconds, batch) && multiset(batch)[r] < pool[r]
    ensures |batch| == k && forall b :: b in batch ==> When(b, Milliseconds) >= When(r, Milliseconds)
  {
    if |batch| < k {
      SameSize(multiset(batch), pool);
    }
  }

  lemma PrefixWithin(rows: seq<Row>, m: nat)
    requires m <= |rows|
    ensures multiset(rows[..m]) <= multiset(rows)
  {
    assert rows == rows[..m] + rows[m..];
  }

  lemma PageSize(batches: seq<Option<seq<Row>>>, pools: seq<multiset<Row>>, k: nat)
    requires Answered(batches, pools, k)
    ensures |Page(batches, k)| == Min(k, |Readable(batches, pools)|)
  {
    var fetched := Fetched(batches);
    SortedNewest(fetched);
    FetchedWithin(batches, pools, k);
    assert |SortNewest(fetched)| == |multiset(SortNewest(fetched))| == |multiset(fetched)|;
    SubbagSize(multiset(fetched), Readable(batches, pools));
  }

  lemma PageWithin(batches: seq<Option<seq<Row>>>, pools: seq<multiset<Row>>, k: nat)
    requires Answered(batches, pools, k)
    ensures multiset(Page(batches, k)) <= Readable(batches, pools)
    ensures NewestFirst(Page(batches, k), Milliseconds)
  {
    var sorted := SortNewest(Fetched(batches));
    SortedNewest(Fetched(batches));
    FetchedWithin(batches, pools, k);
    PrefixWithin(sorted, Min(k, |sorted|));
  }

  /** The merge theorem: the newest of the newest are the newest of all. */
  lemma MergedIsNewest(batches: seq<Option<seq<Row>>>, pools: seq<multiset<Row>>, k: nat)
    requires k >= 1 && Answered(batches, pools, k)
    ensures NewestOf(Readable(batches, pools), k, Milliseconds, Page(batches, k))
  {
    PageSize(batches, pools, k);
    PageWithin(batches, pools, k);
    var page, pool := Page(batches, k), Readable(batches, pools);
    forall r, o | multiset(page)[r] < pool[r] && o in page ensures When(r, Milliseconds) <= When(o, Milliseconds) {
      OmittedIsOlder(batches, pools, k, r, o);
    }
  }

  /** The end of every list: sort, and keep the first `limit`. */
  method SortAndSlice(rows: seq<Row>, limit: nat, ghost batches: seq<Option<seq<Row>>>, ghost pools: seq<multiset<Row>>)
    returns (page: seq<Row>)
    requires limit >= 1 && rows == Fetched(batches) && Answered(batches, pools, limit)
    ensures page == Page(batches, limit) && NewestOf(Readable(batches, pools), limit, Milliseconds, page)
  {
    MergedIsNewest(batches, pools, limit);
    var sorted := SortNewest(rows);
    page := sorted[..Min(limit, |sorted|)];
  }

  /** `listDeadLetter`, `listForgotten` and the events of `listAuditEvents`, once the fan-out has
      answered (`None` for a tenant whose read failed): a newest-first page of min(limit, total)
      rows, and no row of a readable tenant left out is newer than one shown. */
  method ListNewest(batches: seq<Option<seq<Row>>>, requested: Option<int>, default: nat, cap: nat,
                    ghost pools: seq<multiset<Row>>)
    returns (page: seq<Row>)
    requires 1 <= default <= cap && Answered(batches, pools, EffectiveLimit(requested, default, cap))
    ensures NewestOf(Readable(batches, pools), EffectiveLimit(requested, default, cap), Milliseconds, page)
    ensures page == Page(batches, EffectiveLimit(requested, default, cap))
    ensures forall i, j :: 0 <= i < j < |page| ==> page[i].at / 1_000_000 >= page[j].at / 1_000_000
    ensures forall r, o :: multiset(page)[r] < Readable(batches, pools)[r] && o in page ==>
      r.at / 1_000_000 <= o.at / 1_000_000
  {
    var limit := EffectiveLimit(requested, default, cap);
    var out: seq<Row> := [];
    for t := 0 to |batches|
      invariant out == Fetched(batches[..t])
    {
      assert batches[..t + 1][..t] == batches[..t];
      if batches[t].Some? {
        out := out + batches[t].value;
      }
    }
    assert batches[..|batches|] == batches;
    page := SortAndSlice(out, limit, batches, pools);
    NewestMeans(Readable(batches, pools), limit, page);
  }

  /** In terms of the stored time, cut to the millisecond. */
  lemma NewestMeans(pool: multiset<Row>, k: nat, page: seq<Row>)
    requires NewestOf(pool, k, Milliseconds, page)
    ensures forall i, j :: 0 <= i < j < |page| ==> page[i].at / 1_000_000 >= page[j].at / 1_000_000
    ensures forall r, o :: multiset(page)[r] < pool[r] && o in page ==> r.at / 1_000_000 <= o.at / 1_000_000
  {
    forall i, j | 0 <= i < j < |page| ensures page[i].at / 1_000_000 >= page[j].at / 1_000_000 {
      assert When(page[i], Milliseconds) >= When(page[j], Milliseconds);
    }
    forall r, o | multiset(page)[r] < pool[r] && o in page ensures r.at / 1_000_000 <= o.at / 1_000_000 {
      assert When(r, Milliseconds) <= When(o, Milliseconds);
    }
  }

  lemma FetchedSnoc(batches: seq<Option<seq<Row>>>, batch: Option<seq<Row>>)
    ensures Fetched(batches + [batch]) == Fetched(batches) + if batch.Some? then batch.value else []
  {
    assert (batches + [batch])[..|batches|] == batches;
  }

  // ---- the overview -------------------------------------------------------------------------

  /** A line of the overview table; −1 marks a tenant that could not be read. */
  datatype TenantRow = TenantRow(companyId: string, entities: int, factsActive: int, factsRetracted: int)

  /** What one tenant answers. */
  datatype TenantData = TenantData(
    row: TenantRow,
    deadLetter: seq<Row>,
    forgotten: seq<Row>,
    deadLetter24h: nat,
    forgotten24h: nat)

  datatype Overview = Overview(
    surrealOk: bool,
    tenantCount: nat,
    entities: nat,
    factsActive: nat,
    factsRetracted: nat,
    deadLetter24h: nat,
    forgotten24h: nat,
    tenants: seq<TenantRow>,
    recentDeadLetter: seq<Row>,
    recentForgotten: seq<Row>)

  const RECENT: nat := 20

  function EntitiesOf(r: TenantRow): int { r.entities }

  function ActiveOf(r: TenantRow): int { r.factsActive }

  function RetractedOf(r: TenantRow): int { r.factsRetracted }

  function EntitiesIn(d: TenantData): int { d.row.entities }

  function ActiveIn(d: TenantData): int { d.row.factsActive }

  function RetractedIn(d: TenantData): int { d.row.factsRetracted }

  function DeadLetters24h(d: TenantData): int { d.deadLetter24h }

  function Forgotten24h(d: TenantData): int { d.forgotten24h }

  /** The helper `sum`: negative entries, the unreadable tenants, count as nothing. */
  function Sum(rows: seq<TenantRow>, count: TenantRow -> int): nat {
    if rows == [] then 0
    else
      var c := count(rows[|rows| - 1]);
      Sum(rows[..|rows| - 1], count) + if c > 0 then c else 0
  }

  function DeadLettersIn(d: TenantData): seq<Row> { d.deadLetter }

  function ForgottenIn(d: TenantData): seq<Row> { d.forgotten }

  function Batches(results: seq<Option<TenantData>>, rows: TenantData -> seq<Row>): (b: seq<Option<seq<Row>>>)
    ensures |b| == |results|
    ensures forall t :: 0 <= t < |b| ==> b[t] == if results[t].Some? then Some(rows(results[t].value)) else None
  {
    if results == [] then []
    else
      var last := results[|results| - 1];
      Batches(results[..|results| - 1], rows) + [if last.Some? then Some(rows(last.value)) else None]
  }

  /** The total of a count over the tenants that answered. */
  ghost function OverReadable(results: seq<Option<TenantData>>, count: TenantData -> int): int {
    if results == [] then 0
    else
      var last := results[|results| - 1];
      OverReadable(results[..|results| - 1], count) + if last.Some? then count(last.value) else 0
  }

  ghost predicate Counted(results: seq<Option<TenantData>>) {
    forall t :: 0 <= t < |results| && results[t].Some? ==>
      var row := results[t].value.row;
      row.entities >= 0 && row.factsActive >= 0 && row.factsRetracted >= 0
  }

  function RowOf(tenant: string, result: Option<TenantData>): TenantRow {
    if result.Some? then result.value.row else TenantRow(tenant, -1, -1, -1)
  }

  ghost predicate RowsFor(tenants: seq<string>, results: seq<Option<TenantData>>, rows: seq<TenantRow>) {
    && |tenants| == |results| == |rows|
    && forall t :: 0 <= t < |rows| ==> rows[t] == RowOf(tenants[t], results[t])
  }

  /** The −1 placeholders never leak into a total. */
  lemma {:induction false} SumSkipsUnreadable(tenants: seq<string>, results: seq<Option<TenantData>>,
                                              rows: seq<TenantRow>, count: TenantRow -> int,
                                              total: TenantData -> int)
    requires RowsFor(tenants, results, rows)
    requires forall t :: 0 <= t < |results| ==> (count(rows[t]) >= 0 <==> results[t].Some?)
    requires forall d :: total(d) == count(d.row)
    ensures Sum(rows, count) == OverReadable(results, total)
  {
    if rows != [] {
      var n := |rows| - 1;
      SumSkipsUnreadable(tenants[..n], results[..n], rows[..n], count, total);
    }
  }

  /** What the gathering loop of `buildOverview` has collected from `results`. */
  datatype Gathered = Gathered(
    rows: seq<TenantRow>,
    deadLetter: seq<Row>,
    forgotten: seq<Row>,
    deadLetter24h: nat,
    forgotten24h: nat)

  function Gather(g: Gathered, tenant: string, result: Option<TenantData>): Gathered {
    match result
    case None => g.(rows := g.rows + [TenantRow(tenant, -1, -1, -1)])
    case Some(data) =>
      Gathered(g.rows + [data.row], g.deadLetter + data.deadLetter, g.forgotten + data.forgotten,
               g.deadLetter24h + data.deadLetter24h, g.forgotten24h + data.forgotten24h)
  }

  lemma BatchesSnoc(results: seq<Option<TenantData>>, r: Option<TenantData>, rows: TenantData -> seq<Row>)
    ensures Fetched(Batches(results + [r], rows))
         == Fetched(Batches(results, rows)) + if r.Some? then rows(r.value) else []
  {
    assert (results + [r])[..|results|] == results;
    FetchedSnoc(Batches(results, rows), if r.Some? then Some(rows(r.value)) else None);
  }

  lemma LastOff(results: seq<Option<TenantData>>)
    requires results != []
    ensures results == results[..|results| - 1] + [results[|results| - 1]]
  {
  }

  function GatherAll(tenants: seq<string>, results: seq<Option<TenantData>>): Gathered
    requires |tenants| == |results|
  {
    if results == [] then Gathered([], [], [], 0, 0)
    else
      var n := |results| - 1;
      Gather(GatherAll(tenants[..n], results[..n]), tenants[n], results[n])
  }

  lemma GatherSnoc(tenants: seq<string>, results: seq<Option<TenantData>>, t: string, r: Option<TenantData>)
    requires |tenants| == |results|
    ensures GatherAll(tenants + [t], results + [r]) == Gather(GatherAll(tenants, results), t, r)
  {
    assert (tenants + [t])[..|tenants|] == tenants && (results + [r])[..|results|] == results;
  }

  lemma {:induction false} GatheredRows(tenants: seq<string>, results: seq<Option<TenantData>>)
    requires |tenants| == |results|
    ensures RowsFor(tenants, results, GatherAll(tenants, results).rows)
  {
    if results != [] {
      GatheredRows(tenants[..|results| - 1], results[..|results| - 1]);
    }
  }

  lemma {:induction false} GatheredDeadLetters(tenants: seq<string>, results: seq<Option<TenantData>>)
    requires |tenants| == |results|
    ensures GatherAll(tenants, results).deadLetter == Fetched(Batches(results, DeadLettersIn))
  {
    if results != [] {
      var n := |results| - 1;
      GatheredDeadLetters(tenants[..n], results[..n]);
      BatchesSnoc(results[..n], results[n], DeadLettersIn);
      LastOff(results);
    }
  }

  lemma {:induction false} GatheredForgotten(tenants: seq<string>, results: seq<Option<TenantData>>)
    requires |tenants| == |results|
    ensures GatherAll(tenants, results).forgotten == Fetched(Batches(results, ForgottenIn))
  {
    if results != [] {
      var n := |results| - 1;
      GatheredForgotten(tenants[..n], results[..n]);
      BatchesSnoc(results[..n], results[n], ForgottenIn);
      LastOff(results);
    }
  }

  lemma {:induction false} GatheredCounts(tenants: seq<string>, results: seq<Option<TenantData>>)
    requires |tenants| == |results|
    ensures GatherAll(tenants, results).deadLetter24h == OverReadable(results, DeadLetters24h)
    ensures GatherAll(tenants, results).forgotten24h == OverReadable(results, Forgotten24h)
  {
    if results != [] {
      GatheredCounts(tenants[..|results| - 1], results[..|results| - 1]);
    }
  }

  /** The loop of `buildOverview` over the answers. */
  method GatherTenants(tenants: seq<string>, results: seq<Option<TenantData>>) returns (g: Gathered)
    requires |tenants| == |results|
    ensures g == GatherAll(tenants, results)
  {
    g := Gathered([], [], [], 0, 0);
    ghost var ts: seq<string>, rs: seq<Option<TenantData>> := [], [];
    for t := 0 to |results|
      invariant ts == tenants[..t] && rs == results[..t] && g == GatherAll(ts, rs)
    {
      GatherSnoc(ts, rs, tenants[t], results[t]);
      assert tenants[..t + 1] == ts + [tenants[t]] && results[..t + 1] == rs + [results[t]];
      g := Gather(g, tenants[t], results[t]);
      ts, rs := ts + [tenants[t]], rs + [results[t]];
    }
    assert ts == tenants && rs == results;
  }

  /** `buildOverview` after the fan-out has answered. */
  method BuildOverview(dbOk: bool, tenants: seq<string>, results: seq<Option<TenantData>>,
                       ghost dead: seq<multiset<Row>>, ghost gone: seq<multiset<Row>>)
    returns (o: Overview)
    requires |tenants| == |results| && Counted(results)
    requires Answered(Batches(results, DeadLettersIn), dead, 20)
    requires Answered(Batches(results, ForgottenIn), gone, 20)
    ensures o.surrealOk == dbOk && o.tenantCount == |o.tenants| && RowsFor(tenants, results, o.tenants)
    ensures o.entities == OverReadable(results, EntitiesIn)
    ensures o.factsActive == OverReadable(results, ActiveIn)
    ensures o.factsRetracted == OverReadable(results, RetractedIn)
    ensures o.deadLetter24h == OverReadable(results, DeadLetters24h)
    ensures o.forgotten24h == OverReadable(results, Forgotten24h)
    ensures NewestOf(Readable(Batches(results, DeadLettersIn), dead), 20, Milliseconds, o.recentDeadLetter)
    ensures NewestOf(Readable(Batches(results, ForgottenIn), gone), 20, Milliseconds, o.recentForgotten)
  {
    var g := GatherTenants(tenants, results);
    GatheredRows(tenants, results);
    GatheredDeadLetters(tenants, results);
    GatheredForgotten(tenants, results);
    GatheredCounts(tenants, results);
    TotalsAreReadable(tenants, results, g.rows);
    var deadLetter := SortAndSlice(g.deadLetter, RECENT, Batches(results, DeadLettersIn), dead);
    var forgotten := SortAndSlice(g.forgotten, RECENT, Batches(results, ForgottenIn), gone);
    o := Overview(dbOk, |tenants|, Sum(g.rows, EntitiesOf), Sum(g.rows, ActiveOf), Sum(g.rows, RetractedOf),
                  g.deadLetter24h, g.forgotten24h, g.rows, deadLetter, forgotten);
  }

  lemma TotalsAreReadable(tenants: seq<string>, results: seq<Option<TenantData>>, rows: seq<TenantRow>)
    requires RowsFor(tenants, results, rows) && Counted(results)
    ensures Sum(rows, EntitiesOf) == OverReadable(results, EntitiesIn)
    ensures Sum(rows, ActiveOf) == OverReadable(results, ActiveIn)
    ensures Sum(rows, RetractedOf) == OverReadable(results, RetractedIn)
  {
    SumSkipsUnreadable(tenants, results, rows, EntitiesOf, EntitiesIn);
    SumSkipsUnreadable(tenants, results, rows, ActiveOf, ActiveIn);
    SumSkipsUnreadable(tenants, results, rows, RetractedOf, RetractedIn);
  }
}
