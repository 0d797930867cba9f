/**
  The audit page of src/admin/admin.service.ts: the merged events, and how many rows were fetched by
  source, by operation and by hour. The first two counters are plain objects, so a key that every
  JavaScript object inherits is not absent from them; the third is a `Map`.
 */
module AuditPage {
  import opened AdminReads
  import opened Collections
  import opened Sorting

  // ---- counting -----------------------------------------------------------------------------

  function SourceOf(r: Row): string { r.source }

  function OpOf(r: Row): string { r.op }

  /** The first thirteen characters of the ISO time: the row's hour. */
  function HourOf(r: Row): (h: int)
    ensures h * 3_600_000_000_000 <= r.at < (h + 1) * 3_600_000_000_000
  {
    r.at / 3_600_000_000_000
  }

  /** `m.set(k, (m.get(k) ?? 0) + 1)`. */
  function CountUp<K(==,!new)>(counts: Dict<K, nat>, k: K): Dict<K, nat> {
    Put(counts, k, (if k in counts.at then counts.at[k] else 0) + 1)
  }

  function CountBy<K(==,!new)>(rows: seq<Row>, key: Row -> K): Dict<K, nat> {
    if rows == [] then EmptyDict()
    else CountUp(CountBy(rows[..|rows| - 1], key), key(rows[|rows| - 1]))
  }

  function Having<K(==)>(rows: seq<Row>, key: Row -> K, k: K): nat {
    if rows == [] then 0
    else Having(rows[..|rows| - 1], key, k) + if key(rows[|rows| - 1]) == k then 1 else 0
  }

  function Exact(n: nat): real { n as real }

  /** Each key that occurs is listed, with the number of rows that have it, and the counts add up
      to the rows fetched. */
  ghost predicate Tallies<K(!new)>(counts: Dict<K, nat>, rows: seq<Row>, key: Row -> K) {
    && counts.Valid()
    && (forall k :: TallyIs(counts, rows, key, k))
    && DictTotal(counts, Exact) == |rows| as real
  }

  ghost predicate TallyIs<K(!new)>(counts: Dict<K, nat>, rows: seq<Row>, key: Row -> K, k: K) {
    if k in counts.at then 0 < counts.at[k] == Having(rows, key, k) else Having(rows, key, k) == 0
  }

  lemma CountUpIs<K(!new)>(counts: Dict<K, nat>, rows: seq<Row>, key: Row -> K, r: Row, x: K)
    requires TallyIs(counts, rows, key, x)
    ensures TallyIs(CountUp(counts, key(r)), rows + [r], key, x)
  {
    assert (rows + [r])[..|rows|] == rows;
  }

  lemma CountUpTotal<K(!new)>(counts: Dict<K, nat>, k: K)
    requires counts.Valid()
    ensures CountUp(counts, k).Valid() && DictTotal(CountUp(counts, k), Exact) == DictTotal(counts, Exact) + 1.0
  {
    DictTotalPut(counts, k, (if k in counts.at then counts.at[k] else 0) + 1, Exact);
  }

  lemma CountUpTallies<K(!new)>(counts: Dict<K, nat>, rows: seq<Row>, key: Row -> K, r: Row)
    requires Tallies(counts, rows, key)
    ensures Tallies(CountUp(counts, key(r)), rows + [r], key)
  {
    CountUpTotal(counts, key(r));
    forall x ensures TallyIs(CountUp(counts, key(r)), rows + [r], key, x) {
      assert TallyIs(counts, rows, key, x);
      CountUpIs(counts, rows, key, r, x);
    }
  }

  lemma {:induction false} CountByTallies<K(!new)>(rows: seq<Row>, key: Row -> K)
    ensures Tallies(CountBy(rows, key), rows, key)
  {
    if rows == [] {
      assert forall k :: TallyIs(CountBy(rows, key), rows, key, k);
    } else {
      var n := |rows| - 1;
      CountByTallies(rows[..n], key);
      CountUpTallies(CountBy(rows[..n], key), rows[..n], key, rows[n]);
      assert rows == rows[..n] + [rows[n]];
    }
  }

  // ---- counting in a plain object -----------------------------------------------------------

  /** What every object inherits. */
  const INHERITED: set<string> := {
    "constructor", "hasOwnProperty", "isPrototypeOf", "propertyIsEnumerable", "toLocaleString", "toString", "valueOf",
    "__defineGetter__", "__defineSetter__", "__lookupGetter__", "__lookupSetter__", "__proto__"
  }

  lemma ConstructorIsGarbled(row: Row)
    requires row.source == "constructor"
    ensures CountPlainBy([row], SourceOf) == Dict(["constructor"], map["constructor" := Garbled])
  {
    assert [row][..0] == [];
    assert CountPlainBy([row], SourceOf) == CountPlain(CountPlainBy([], SourceOf), SourceOf(row));
  }

  /** A count, or the text that an inherited value turned into when 1 was added to it. */
  datatype Slot = Count(n: nat) | Garbled

  /** `out[k] = (out[k] ?? 0) + 1`. A text cannot become a prototype, so nothing is set then. */
  function CountPlain(counts: Dict<string, Slot>, k: string): Dict<string, Slot> {
    if k == "__proto__" then counts
    else if k in counts.at then Put(counts, k, if counts.at[k].Count? then Count(counts.at[k].n + 1) else Garbled)
    else Put(counts, k, if k in INHERITED then Garbled else Count(1))
  }

  function CountPlainBy(rows: seq<Row>, key: Row -> string): Dict<string, Slot> {
    if rows == [] then EmptyDict()
    else CountPlain(CountPlainBy(rows[..|rows| - 1], key), key(rows[|rows| - 1]))
  }

  /** The same counts in a plain object. */
  ghost function InObject(counts: Dict<string, nat>): Dict<string, Slot> {
    Dict(counts.order, map k | k in counts.at :: Count(counts.at[k]))
  }

  lemma CountsAlike(counts: Dict<string, nat>, k: string)
    requires k !in INHERITED
    ensures CountPlain(InObject(counts), k) == InObject(CountUp(counts, k))
  {
    assert CountPlain(InObject(counts), k).at == InObject(CountUp(counts, k)).at;
  }

  lemma {:induction false} InheritedNeverCounted(rows: seq<Row>, key: Row -> string, k: string)
    requires k in INHERITED
    ensures var counts := CountPlainBy(rows, key); k in counts.at ==> counts.at[k] == Garbled
  {
    if rows != [] {
      InheritedNeverCounted(rows[..|rows| - 1], key, k);
    }
  }

  lemma {:induction false} HavingOwnKey(rows: seq<Row>, key: Row -> string, r: Row)
    requires r in rows
    ensures Having(rows, key, key(r)) > 0
  {
    var n := |rows| - 1;
    assert rows == rows[..n] + [rows[n]];
    if r != rows[n] {
      HavingOwnKey(rows[..n], key, r);
    }
  }

  lemma {:induction false} PlainCounts(rows: seq<Row>, key: Row -> string)
    requires forall r :: r in rows ==> key(r) !in INHERITED
    ensures CountPlainBy(rows, key) == InObject(CountBy(rows, key))
  {
    if rows == [] {
      assert InObject(EmptyDict()).at == map[];
    } else {
      var n := |rows| - 1;
      assert rows == rows[..n] + [rows[n]];
      PlainCounts(rows[..n], key);
      CountsAlike(CountBy(rows[..n], key), key(rows[n]));
    }
  }

  /** A plain object holds the true counts exactly when no row has an inherited key. */
  lemma PlainCountsExactlyWhen(rows: seq<Row>, key: Row -> string)
    ensures CountPlainBy(rows, key) == InObject(CountBy(rows, key)) <==> forall r :: r in rows ==> key(r) !in INHERITED
  {
    if forall r :: r in rows ==> key(r) !in INHERITED {
      PlainCounts(rows, key);
    } else {
      var r :| r in rows && key(r) in INHERITED;
      InheritedNeverCounted(rows, key, key(r));
      CountByTallies(rows, key);
      HavingOwnKey(rows, key, r);
      assert TallyIs(CountBy(rows, key), rows, key, key(r));
      assert InObject(CountBy(rows, key)).at[key(r)].Count?;
    }
  }

  // ---- the page -----------------------------------------------------------------------------

  const AUDIT_DEFAULT: nat := 100
  const AUDIT_CAP: nat := 500

  datatype Counters = Counters(bySource: Dict<string, Slot>, byOp: Dict<string, Slot>, hourly: Dict<int, nat>)

  function CountRow(c: Counters, r: Row): Counters {
    Counters(CountPlain(c.bySource, r.source), CountPlain(c.byOp, r.op), CountUp(c.hourly, HourOf(r)))
  }

  function NoCounts(): Counters {
    Counters(EmptyDict(), EmptyDict(), EmptyDict())
  }

  function CountAll(rows: seq<Row>): Counters {
    Fold(CountRow, NoCounts(), rows)
  }

  lemma {:induction false} CountAllIs(rows: seq<Row>)
    ensures CountAll(rows) == Counters(CountPlainBy(rows, SourceOf), CountPlainBy(rows, OpOf), CountBy(rows, HourOf))
  {
    if rows != [] {
      CountAllIs(rows[..|rows| - 1]);
    }
  }

  /** The two nested loops of `listAuditEvents` over the answers. */
  method TallyEvents(batches: seq<Option<seq<Row>>>) returns (events: seq<Row>, counters: Counters)
    ensures events == Fetched(batches) && counters == CountAll(events)
  {
    events, counters := [], NoCounts();
    for t := 0 to |batches|
      invariant events == Fetched(batches[..t])
      invariant counters == CountAll(events)
    {
      TakeNext(batches, t);
      FetchedSnoc(batches[..t], batches[t]);
      if batches[t].Some? {
        events, counters := TallyBatch(events, counters, batches[t].value);
      }
    }
    assert batches[..|batches|] == batches;
  }

  method TallyBatch(events: seq<Row>, counters: Counters, batch: seq<Row>) returns (all: seq<Row>, c: Counters)
    requires counters == CountAll(events)
    ensures all == events + batch && c == CountAll(all)
  {
    all, c := events, counters;
    for i := 0 to |batch|
      invariant all == events + batch[..i]
      invariant c == CountAll(all)
    {
      PushNext(events, batch, i);
      FoldSnoc(CountRow, NoCounts(), all, batch[i]);
      all := all + [batch[i]];
      c := CountRow(c, batch[i]);
    }
    assert batch[..|batch|] == batch;
  }

  function Pairs(counts: Dict<int, nat>): (out: seq<(int, nat)>)
    requires forall i :: 0 <= i < |counts.order| ==> counts.order[i] in counts.at
    ensures |out| == |counts.order|
    ensures forall i :: 0 <= i < |out| ==> out[i] == (counts.order[i], counts.at[counts.order[i]])
  {
    seq(|counts.order|, i requires 0 <= i < |counts.order| => (counts.order[i], counts.at[counts.order[i]]))
  }

  /** Hours sort as their ISO prefixes do; the smallest comes first. */
  function Earliest(e: (int, nat)): real { -(e.0 as real) }

  function CountIn(e: (int, nat)): real { e.1 as real }

  function Hourly(counts: Dict<int, nat>): seq<(int, nat)>
    requires forall i :: 0 <= i < |counts.order| ==> counts.order[i] in counts.at
  {
    SortDescending(Pairs(counts), Earliest)
  }

  lemma {:induction false} PairsTotal(order: seq<int>, at: map<int, nat>)
    requires forall i :: 0 <= i < |order| ==> order[i] in at
    ensures forall k :: k in order ==> k in at
    ensures SumOf(Pairs(Dict(order, at)), CountIn) == Total(order, at, Exact)
  {
    if order != [] {
      assert Pairs(Dict(order, at))[1..] == Pairs(Dict(order[1..], at));
      PairsTotal(order[1..], at);
    }
  }

  lemma {:induction false} OnceEach<T>(items: seq<T>, x: T)
    requires Distinct(items)
    ensures multiset(items)[x] <= 1
  {
    if items != [] {
      OnceEach(items[1..], x);
      assert items == [items[0]] + items[1..];
      assert items[0] !in items[1..];
    }
  }

  lemma SameItemsDistinct<T(!new)>(a: seq<T>, b: seq<T>)
    requires Distinct(a) && multiset(a) == multiset(b)
    ensures Distinct(b)
  {
    forall i, j | 0 <= i < j < |b| ensures b[i] != b[j] {
      OnceEach(a, b[i]);
      assert b == b[..j] + [b[j]] + b[j + 1..];
      assert b[i] in b[..j];
    }
  }

  lemma ValidIndexed(counts: Dict<int, nat>)
    requires counts.Valid()
    ensures forall i :: 0 <= i < |counts.order| ==> counts.order[i] in counts.at
  {
    assert forall i :: 0 <= i < |counts.order| ==> counts.order[i] in counts.order;
  }

  /** The chart adds up to the rows fetched. */
  lemma ChartTotal(rows: seq<Row>, counts: Dict<int, nat>)
    requires Tallies(counts, rows, HourOf)
    ensures forall i :: 0 <= i < |counts.order| ==> counts.order[i] in counts.at
    ensures SumOf(Hourly(counts), CountIn) == |rows| as real
  {
    ValidIndexed(counts);
    SortKeepsSum(Pairs(counts), Earliest, CountIn);
    assert counts == Dict(counts.order, counts.at);
    PairsTotal(counts.order, counts.at);
  }

  lemma ChartOrder(counts: Dict<int, nat>)
    requires counts.Valid()
    ensures forall i :: 0 <= i < |counts.order| ==> counts.order[i] in counts.at
    ensures var chart := Hourly(counts); forall i, j :: 0 <= i < j < |chart| ==> chart[i].0 < chart[j].0
  {
    ValidIndexed(counts);
    var pairs, chart := Pairs(counts), Hourly(counts);
    SortSorts(pairs, Earliest);
    assert Distinct(pairs);
    SameItemsDistinct(pairs, chart);
    forall i, j | 0 <= i < j < |chart| ensures chart[i].0 < chart[j].0 {
      assert Earliest(chart[i]) >= Earliest(chart[j]);
      SameHourSamePair(counts, chart, i, j);
    }
  }

  lemma SameHourSamePair(counts: Dict<int, nat>, chart: seq<(int, nat)>, i: nat, j: nat)
    requires forall n :: 0 <= n < |counts.order| ==> counts.order[n] in counts.at
    requires multiset(chart) == multiset(Pairs(counts)) && i < |chart| && j < |chart|
    ensures chart[i].0 == chart[j].0 ==> chart[i] == chart[j]
  {
    assert chart[i] in multiset(Pairs(counts)) && chart[j] in multiset(Pairs(counts));
    assert chart[i] in Pairs(counts) && chart[j] in Pairs(counts);
  }

  /** The chart: hours strictly ascending, each with its number of rows, no hour left out, and the
      counts adding up to the rows fetched. */
  lemma HourlyIsExact(rows: seq<Row>, counts: Dict<int, nat>)
    requires counts == CountBy(rows, HourOf)
    ensures forall i :: 0 <= i < |counts.order| ==> counts.order[i] in counts.at
    ensures var chart := Hourly(counts);
      && (forall i, j :: 0 <= i < j < |chart| ==> chart[i].0 < chart[j].0)
      && (forall e :: e in chart <==> e.1 > 0 && e.1 == Having(rows, HourOf, e.0))
      && SumOf(chart, CountIn) == |rows| as real
  {
    CountByTallies(rows, HourOf);
    ChartTotal(rows, counts);
    ChartOrder(counts);
    SortSorts(Pairs(counts), Earliest);
    ChartMembers(rows, counts, Hourly(counts));
  }

  lemma ChartMembers(rows: seq<Row>, counts: Dict<int, nat>, chart: seq<(int, nat)>)
    requires Tallies(counts, rows, HourOf)
    requires forall i :: 0 <= i < |counts.order| ==> counts.order[i] in counts.at
    requires multiset(chart) == multiset(Pairs(counts))
    ensures forall e :: e in chart <==> e.1 > 0 && e.1 == Having(rows, HourOf, e.0)
  {
    forall e ensures e in chart <==> e.1 > 0 && e.1 == Having(rows, HourOf, e.0) {
      assert TallyIs(counts, rows, HourOf, e.0);
      assert e in chart <==> e in multiset(Pairs(counts));
      if e.0 in counts.at {
        assert e.0 in counts.order;
        var i :| 0 <= i < |counts.order| && counts.order[i] == e.0;
        assert Pairs(counts)[i] == (e.0, counts.at[e.0]);
      }
    }
  }

  /** `listAuditEvents`: the page is the merge theorem's, and the counters count every fetched row,
      not only the rows shown; the two plain objects as far as their keys allow. */
  method ListAuditEvents(batches: seq<Option<seq<Row>>>, requested: Option<int>, ghost pools: seq<multiset<Row>>)
    returns (page: seq<Row>, bySource: Dict<string, Slot>, byOp: Dict<string, Slot>, hourly: seq<(int, nat)>)
    requires Answered(batches, pools, EffectiveLimit(requested, 100, 500))
    ensures NewestOf(Readable(batches, pools), EffectiveLimit(requested, 100, 500), Milliseconds, page)
    ensures page == Page(batches, EffectiveLimit(requested, 100, 500))
    ensures var rows := Fetched(batches);
      && (bySource == InObject(CountBy(rows, SourceOf)) <==> forall r :: r in rows ==> r.source !in INHERITED)
      && (byOp == InObject(CountBy(rows, OpOf)) <==> forall r :: r in rows ==> r.op !in INHERITED)
      && (forall i, j :: 0 <= i < j < |hourly| ==> hourly[i].0 < hourly[j].0)
      && (forall e :: e in hourly <==> e.1 > 0 && e.1 == Having(rows, HourOf, e.0))
      && SumOf(hourly, CountIn) == |rows| as real
  {
    var limit := EffectiveLimit(requested, AUDIT_DEFAULT, AUDIT_CAP);
    var events, counters := TallyEvents(batches);
    CountAllIs(events);
    PlainCountsExactlyWhen(events, SourceOf);
    PlainCountsExactlyWhen(events, OpOf);
    HourlyIsExact(events, counters.hourly);
    bySource, byOp, hourly := counters.bySource, counters.byOp, Hourly(counters.hourly);
    page := SortAndSlice(events, limit, batches, pools);
  }
}
