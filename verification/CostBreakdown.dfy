/**
  The cost rollup of src/admin/admin.service.ts: token and call counters, labelled by kind and
  type, gathered into one bucket per model and one per operation. Nothing is lost on the way.
 */
module CostBreakdown {
  import opened Collections
  import opened Sorting

  /** A counter sample; a missing label reads as "unknown". */
  datatype Sample = Sample(kindLabel: Option<string>, typeLabel: Option<string>, value: real) {

    function Kind(): string {
      if kindLabel.Some? then kindLabel.value else "unknown"
    }

    function Type(): string {
      if typeLabel.Some? then typeLabel.value else "unknown"
    }
  }

  datatype Price = Price(promptPerMTok: real, completionPerMTok: real)

  type Pricing = map<string, Price>

  function ModelKey(kind: string): string {
    if kind == "chat" then "chat" else if kind == "embed" then "embed" else kind
  }

  function UsdOf(t: Sample, pricing: Pricing): real {
    var key := ModelKey(t.Kind());
    var price := if key in pricing then pricing[key] else Price(0.0, 0.0);
    if t.Type() == "prompt" then t.value * price.promptPerMTok / 1_000_000.0
    else if t.Type() == "completion" then t.value * price.completionPerMTok / 1_000_000.0
    else 0.0
  }

  /** A bucket's contents. */
  datatype Bucket = Bucket(
    key: string,
    calls: real,
    promptTokens: real,
    completionTokens: real,
    totalTokens: real,
    usd: real)

  function NewBucket(key: string): Bucket {
    Bucket(key, 0.0, 0.0, 0.0, 0.0, 0.0)
  }

  function WithTokens(b: Bucket, t: Sample, usd: real): Bucket {
    b.(promptTokens := b.promptTokens + if t.Type() == "prompt" then t.value else 0.0,
       completionTokens := b.completionTokens + if t.Type() == "completion" then t.value else 0.0,
       totalTokens := b.totalTokens + t.value,
       usd := b.usd + usd)
  }

  function WithCalls(b: Bucket, c: Sample): Bucket {
    b.(calls := b.calls + c.value)
  }

  // ---- what the loops compute ---------------------------------------------------------------

  function Charge(buckets: Dict<string, Bucket>, t: Sample, usd: real): Dict<string, Bucket> {
    var k := t.Kind();
    Put(buckets, k, WithTokens(if k in buckets.at then buckets.at[k] else NewBucket(k), t, usd))
  }

  /** A call of a kind that has no bucket is not given one. */
  function Call(buckets: Dict<string, Bucket>, c: Sample): Dict<string, Bucket> {
    var k := c.Kind();
    if k in buckets.at then Put(buckets, k, WithCalls(buckets.at[k], c)) else buckets
  }

  function Charged(tokens: seq<Sample>, pricing: Pricing): Dict<string, Bucket> {
    if tokens == [] then EmptyDict()
    else
      var t := tokens[|tokens| - 1];
      Charge(Charged(tokens[..|tokens| - 1], pricing), t, UsdOf(t, pricing))
  }

  function Called(buckets: Dict<string, Bucket>, calls: seq<Sample>): Dict<string, Bucket> {
    Fold(Call, buckets, calls)
  }

  lemma ChargedSnoc(tokens: seq<Sample>, t: Sample, pricing: Pricing)
    ensures Charged(tokens + [t], pricing) == Charge(Charged(tokens, pricing), t, UsdOf(t, pricing))
  {
    assert (tokens + [t])[..|tokens|] == tokens;
  }

  // ---- conservation -------------------------------------------------------------------------

  function TokensIn(b: Bucket): real { b.totalTokens }

  function UsdIn(b: Bucket): real { b.usd }

  function CallsIn(b: Bucket): real { b.calls }

  function Amount(samples: seq<Sample>): real {
    if samples == [] then 0.0 else Amount(samples[..|samples| - 1]) + samples[|samples| - 1].value
  }

  function Dollars(tokens: seq<Sample>, pricing: Pricing): real {
    if tokens == [] then 0.0
    else Dollars(tokens[..|tokens| - 1], pricing) + UsdOf(tokens[|tokens| - 1], pricing)
  }

  lemma TotalsSnoc(tokens: seq<Sample>, t: Sample, pricing: Pricing)
    ensures Amount(tokens + [t]) == Amount(tokens) + t.value
    ensures Dollars(tokens + [t], pricing) == Dollars(tokens, pricing) + UsdOf(t, pricing)
  {
    assert (tokens + [t])[..|tokens|] == tokens;
  }

  /** The calls of the kinds in `kinds`. */
  ghost function AmountOf(calls: seq<Sample>, kinds: set<string>): real {
    if calls == [] then 0.0
    else
      var c := calls[|calls| - 1];
      AmountOf(calls[..|calls| - 1], kinds) + if c.Kind() in kinds then c.value else 0.0
  }

  ghost function Kinds(samples: seq<Sample>): set<string> {
    set s | s in samples :: s.Kind()
  }

  lemma {:induction false} ChargedKeys(tokens: seq<Sample>, pricing: Pricing)
    ensures Charged(tokens, pricing).Valid()
    ensures forall k :: k in Charged(tokens, pricing).at <==> k in Kinds(tokens)
  {
    if tokens != [] {
      var n := |tokens| - 1;
      ChargedKeys(tokens[..n], pricing);
      assert tokens == tokens[..n] + [tokens[n]];
    }
  }

  /** The buckets add up to the totals, in tokens and in dollars. */
  lemma {:induction false} ChargedConserves(tokens: seq<Sample>, pricing: Pricing)
    ensures Charged(tokens, pricing).Valid()
    ensures DictTotal(Charged(tokens, pricing), TokensIn) == Amount(tokens)
    ensures DictTotal(Charged(tokens, pricing), UsdIn) == Dollars(tokens, pricing)
    ensures DictTotal(Charged(tokens, pricing), CallsIn) == 0.0
  {
    ChargedKeys(tokens, pricing);
    if tokens != [] {
      var n := |tokens| - 1;
      var before, t := Charged(tokens[..n], pricing), tokens[n];
      var k := t.Kind();
      ChargedConserves(tokens[..n], pricing);
      var b := WithTokens(if k in before.at then before.at[k] else NewBucket(k), t, UsdOf(t, pricing));
      DictTotalPut(before, k, b, TokensIn);
      DictTotalPut(before, k, b, UsdIn);
      DictTotalPut(before, k, b, CallsIn);
    }
  }

  /** Counting calls moves nothing but calls, and drops exactly the kinds without a bucket. */
  lemma {:induction false} CalledConserves(buckets: Dict<string, Bucket>, calls: seq<Sample>)
    requires buckets.Valid()
    ensures var after := Called(buckets, calls);
      && after.Valid() && after.at.Keys == buckets.at.Keys
      && DictTotal(after, TokensIn) == DictTotal(buckets, TokensIn)
      && DictTotal(after, UsdIn) == DictTotal(buckets, UsdIn)
      && DictTotal(after, CallsIn) == DictTotal(buckets, CallsIn) + AmountOf(calls, buckets.at.Keys)
  {
    if calls != [] {
      var n := |calls| - 1;
      var before, c := Called(buckets, calls[..n]), calls[n];
      CalledConserves(buckets, calls[..n]);
      if c.Kind() in before.at {
        var b := WithCalls(before.at[c.Kind()], c);
        DictTotalPut(before, c.Kind(), b, TokensIn);
        DictTotalPut(before, c.Kind(), b, UsdIn);
        DictTotalPut(before, c.Kind(), b, CallsIn);
      }
    }
  }

  lemma {:induction false} BucketedCallsAtMost(calls: seq<Sample>, kinds: set<string>)
    requires forall c :: c in calls ==> c.value >= 0.0
    ensures 0.0 <= AmountOf(calls, kinds) <= Amount(calls)
  {
    if calls != [] {
      var n := |calls| - 1;
      assert calls == calls[..n] + [calls[n]];
      BucketedCallsAtMost(calls[..n], kinds);
    }
  }

  /** A kind without a bucket hides some calls. */
  lemma {:induction false} SomeNotCounted(calls: seq<Sample>, kinds: set<string>, k: nat)
    requires forall c :: c in calls ==> c.value >= 0.0
    requires k < |calls| && calls[k].Kind() !in kinds && calls[k].value > 0.0
    ensures AmountOf(calls, kinds) < Amount(calls)
  {
    var n := |calls| - 1;
    assert calls == calls[..n] + [calls[n]];
    if k < n {
      SomeNotCounted(calls[..n], kinds, k);
    } else {
      BucketedCallsAtMost(calls[..n], kinds);
    }
  }

  /** The bucketed calls are all the calls exactly when every kind that was called has a bucket. */
  lemma BucketedCallsWithinTotal(calls: seq<Sample>, kinds: set<string>)
    requires forall c :: c in calls ==> c.value >= 0.0
    ensures 0.0 <= AmountOf(calls, kinds) <= Amount(calls)
    ensures AmountOf(calls, kinds) == Amount(calls)
       <==> forall c :: c in calls && c.value > 0.0 ==> c.Kind() in kinds
  {
    BucketedCallsAtMost(calls, kinds);
    if k :| 0 <= k < |calls| && calls[k].Kind() !in kinds && calls[k].value > 0.0 {
      SomeNotCounted(calls, kinds, k);
    } else {
      AllCounted(calls, kinds);
    }
  }

  lemma {:induction false} AllCounted(calls: seq<Sample>, kinds: set<string>)
    requires forall c :: c in calls && c.value != 0.0 ==> c.Kind() in kinds
    ensures AmountOf(calls, kinds) == Amount(calls)
  {
    if calls != [] {
      assert calls == calls[..|calls| - 1] + [calls[|calls| - 1]];
      AllCounted(calls[..|calls| - 1], kinds);
    }
  }

  // ---- each bucket on its own ---------------------------------------------------------------

  /** What bucket `k` would hold if the samples of the other kinds did not exist. */
  ghost function Alone(k: string, tokens: seq<Sample>, pricing: Pricing): Bucket {
    if tokens == [] then NewBucket(k)
    else
      var b, t := Alone(k, tokens[..|tokens| - 1], pricing), tokens[|tokens| - 1];
      if t.Kind() == k then WithTokens(b, t, UsdOf(t, pricing)) else b
  }

  /** No sample reaches another kind's bucket. */
  lemma {:induction false} BucketsDoNotMix(tokens: seq<Sample>, pricing: Pricing, k: string)
    ensures k in Charged(tokens, pricing).at ==> Charged(tokens, pricing).at[k] == Alone(k, tokens, pricing)
    ensures k !in Charged(tokens, pricing).at ==> Alone(k, tokens, pricing) == NewBucket(k)
  {
    if tokens != [] {
      BucketsDoNotMix(tokens[..|tokens| - 1], pricing, k);
    }
  }

  lemma {:induction false} CallsDoNotMix(buckets: Dict<string, Bucket>, calls: seq<Sample>, k: string)
    requires k in buckets.at
    ensures k in Called(buckets, calls).at
    ensures Called(buckets, calls).at[k]
         == buckets.at[k].(calls := buckets.at[k].calls + AmountOf(calls, {k}))
  {
    if calls != [] {
      CallsDoNotMix(buckets, calls[..|calls| - 1], k);
    }
  }

  /** The tokens of kind `k` and the given type, or of any type; what is not labelled is "unknown". */
  ghost function AmountOfKind(tokens: seq<Sample>, k: string, type_: Option<string>): real {
    if tokens == [] then 0.0
    else
      var t := tokens[|tokens| - 1];
      var kind := if t.kindLabel.None? then "unknown" else t.kindLabel.value;
      var kindOfToken := if t.typeLabel.None? then "unknown" else t.typeLabel.value;
      AmountOfKind(tokens[..|tokens| - 1], k, type_)
      + if kind == k && (type_.None? || kindOfToken == type_.value) then t.value else 0.0
  }

  /** A million of the tokens of each direction at that direction's price. */
  ghost predicate PricedAt(b: Bucket, prompt: real, completion: real) {
    1_000_000.0 * b.usd == b.promptTokens * prompt + b.completionTokens * completion
  }

  lemma PricedMore(b: Bucket, t: Sample, prompt: real, completion: real, usd: real)
    requires PricedAt(b, prompt, completion)
    requires 1_000_000.0 * usd == if t.Type() == "prompt" then t.value * prompt
                                  else if t.Type() == "completion" then t.value * completion else 0.0
    ensures PricedAt(WithTokens(b, t, usd), prompt, completion)
  {
    assert (b.promptTokens + t.value) * prompt == b.promptTokens * prompt + t.value * prompt;
    assert (b.completionTokens + t.value) * completion == b.completionTokens * completion + t.value * completion;
  }

  lemma UsdIs(t: Sample, pricing: Pricing, p: Price)
    requires p == if t.Kind() in pricing then pricing[t.Kind()] else Price(0.0, 0.0)
    ensures 1_000_000.0 * UsdOf(t, pricing)
         == if t.Type() == "prompt" then t.value * p.promptPerMTok
            else if t.Type() == "completion" then t.value * p.completionPerMTok else 0.0
  {
  }

  lemma NewBucketIsPriced(k: string, prompt: real, completion: real)
    ensures PricedAt(NewBucket(k), prompt, completion)
  {
  }

  lemma {:induction false} AloneIsPriced(k: string, tokens: seq<Sample>, pricing: Pricing, p: Price)
    requires p == if k in pricing then pricing[k] else Price(0.0, 0.0)
    ensures PricedAt(Alone(k, tokens, pricing), p.promptPerMTok, p.completionPerMTok)
  {
    if tokens == [] {
      NewBucketIsPriced(k, p.promptPerMTok, p.completionPerMTok);
    } else {
      var n := |tokens| - 1;
      AloneIsPriced(k, tokens[..n], pricing, p);
      if tokens[n].Kind() == k {
        UsdIs(tokens[n], pricing, p);
        PricedMore(Alone(k, tokens[..n], pricing), tokens[n], p.promptPerMTok, p.completionPerMTok,
                   UsdOf(tokens[n], pricing));
      }
    }
  }

  lemma {:induction false} AloneHolds(k: string, tokens: seq<Sample>, pricing: Pricing)
    ensures var b := Alone(k, tokens, pricing);
      && b.promptTokens == AmountOfKind(tokens, k, Some("prompt"))
      && b.completionTokens == AmountOfKind(tokens, k, Some("completion"))
      && b.totalTokens == AmountOfKind(tokens, k, None)
  {
    if tokens != [] {
      AloneHolds(k, tokens[..|tokens| - 1], pricing);
    }
  }

  /** A bucket's figures, whatever the other kinds used: prompt and completion tokens each on their
      own, all tokens in the total, and the calls of its kind. */
  lemma BucketHolds(tokens: seq<Sample>, calls: seq<Sample>, pricing: Pricing, k: string)
    requires k in Final(tokens, calls, pricing).at
    ensures var b := Final(tokens, calls, pricing).at[k];
      && b.key == k && b.calls == AmountOfKind(calls, k, None)
      && b.promptTokens == AmountOfKind(tokens, k, Some("prompt"))
      && b.completionTokens == AmountOfKind(tokens, k, Some("completion"))
      && b.totalTokens == AmountOfKind(tokens, k, None)
  {
    EachBucketIsItsOwn(tokens, calls, pricing, k);
    AloneHasNoCalls(k, tokens, pricing);
    AloneHolds(k, tokens, pricing);
    CallsOfOneKind(calls, k);
  }

  lemma PricedSame(a: Bucket, b: Bucket, prompt: real, completion: real)
    requires PricedAt(a, prompt, completion)
    requires b.usd == a.usd && b.promptTokens == a.promptTokens && b.completionTokens == a.completionTokens
    ensures PricedAt(b, prompt, completion)
  {
  }

  /** And its cost: each million of tokens at the price of its own direction, nothing for a kind that
      has no price. */
  lemma BucketIsPriced(tokens: seq<Sample>, calls: seq<Sample>, pricing: Pricing, k: string, p: Price)
    requires k in Final(tokens, calls, pricing).at
    requires p == if k in pricing then pricing[k] else Price(0.0, 0.0)
    ensures PricedAt(Final(tokens, calls, pricing).at[k], p.promptPerMTok, p.completionPerMTok)
  {
    EachBucketIsItsOwn(tokens, calls, pricing, k);
    AloneIsPriced(k, tokens, pricing, p);
    PricedSame(Alone(k, tokens, pricing), Final(tokens, calls, pricing).at[k], p.promptPerMTok, p.completionPerMTok);
  }

  lemma {:induction false} CallsOfOneKind(calls: seq<Sample>, k: string)
    ensures AmountOf(calls, {k}) == AmountOfKind(calls, k, None)
  {
    if calls != [] {
      CallsOfOneKind(calls[..|calls| - 1], k);
    }
  }

  lemma {:induction false} AloneHasNoCalls(k: string, tokens: seq<Sample>, pricing: Pricing)
    ensures Alone(k, tokens, pricing).calls == 0.0 && Alone(k, tokens, pricing).key == k
  {
    if tokens != [] {
      AloneHasNoCalls(k, tokens[..|tokens| - 1], pricing);
    }
  }

  // ---- the rollup ---------------------------------------------------------------------------

  /** A bucket as the loops hold it: one object, reached through its map. */
  class CostBucket {
    const key: string
    var calls: real
    var promptTokens: real
    var completionTokens: real
    var totalTokens: real
    var usd: real

    constructor (key: string)
      ensures Contents() == NewBucket(key) && this.key == key
    {
      this.key := key;
      calls, promptTokens, completionTokens, totalTokens, usd := 0.0, 0.0, 0.0, 0.0, 0.0;
    }

    function Contents(): Bucket
      reads this
    {
      Bucket(key, calls, promptTokens, completionTokens, totalTokens, usd)
    }

    method AddTokens(t: Sample, cost: real)
      modifies this
      ensures Contents() == WithTokens(old(Contents()), t, cost)
    {
      if t.Type() == "prompt" {
        promptTokens := promptTokens + t.value;
      } else if t.Type() == "completion" {
        completionTokens := completionTokens + t.value;
      }
      totalTokens := totalTokens + t.value;
      usd := usd + cost;
    }

    method AddCalls(c: Sample)
      modifies this
      ensures Contents() == WithCalls(old(Contents()), c)
    {
      calls := calls + c.value;
    }
  }

  type BucketMap = Dict<string, CostBucket>

  /** `m` holds one object per key, all among `objects`, and the objects hold `values`. */
  ghost predicate Holds(m: BucketMap, values: Dict<string, Bucket>, objects: set<CostBucket>)
    reads objects
  {
    && m.order == values.order && m.at.Keys == values.at.Keys
    && (forall k :: k in m.at ==> m.at[k] in objects && m.at[k].key == k && m.at[k].Contents() == values.at[k])
  }

  /** One object more, or one object changed; the others hold what they held. */
  lemma HoldsCharged(m: BucketMap, values: Dict<string, Bucket>, objects: set<CostBucket>,
                     r: BucketMap, bucket: CostBucket, t: Sample, cost: real)
    requires m.order == values.order && m.at.Keys == values.at.Keys && r == Put(m, t.Kind(), bucket)
    requires forall k :: k in m.at && k != t.Kind() ==>
      m.at[k] in objects && m.at[k].key == k && m.at[k].Contents() == values.at[k]
    requires bucket.key == t.Kind() && bucket.Contents() == Charge(values, t, cost).at[t.Kind()]
    ensures Holds(r, Charge(values, t, cost), objects + {bucket})
  {
  }

  method ChargeBucket(m: BucketMap, key: string, t: Sample, cost: real,
                      ghost values: Dict<string, Bucket>, ghost objects: set<CostBucket>)
    returns (r: BucketMap, ghost now: set<CostBucket>)
    requires key == t.Kind() && Holds(m, values, objects)
    modifies objects
    ensures Holds(r, Charge(values, t, cost), now)
    ensures fresh(now - objects)
  {
    var bucket;
    if key in m.at {
      bucket := m.at[key];
    } else {
      bucket := new CostBucket(key);
    }
    bucket.AddTokens(t, cost);
    r := Put(m, key, bucket);
    now := objects + {bucket};
    HoldsCharged(m, values, objects, r, bucket, t, cost);
  }

  method CallBucket(m: BucketMap, key: string, c: Sample,
                    ghost values: Dict<string, Bucket>, ghost objects: set<CostBucket>)
    requires Holds(m, values, objects) && key == c.Kind()
    modifies objects
    ensures Holds(m, Call(values, c), objects)
  {
    if key in m.at {
      var bucket := m.at[key];
      bucket.AddCalls(c);
    }
  }

  function Entries(values: Dict<string, Bucket>): (out: seq<Bucket>)
    requires forall k :: k in values.order ==> k in values.at
    ensures |out| == |values.order|
    ensures forall i :: 0 <= i < |out| ==> out[i] == values.at[values.order[i]]
  {
    seq(|values.order|, i requires 0 <= i < |values.order| => values.at[values.order[i]])
  }

  /** `[...map.values()]`, once nothing will change the buckets any more. */
  method ReadOut(m: BucketMap, ghost values: Dict<string, Bucket>, ghost objects: set<CostBucket>)
    returns (out: seq<Bucket>)
    requires Holds(m, values, objects) && values.Valid()
    ensures out == Entries(values)
  {
    out := [];
    for i := 0 to |m.order|
      invariant |out| == i
      invariant forall j :: 0 <= j < i ==> out[j] == values.at[values.order[j]]
    {
      assert m.order[i] in m.order;
      out := out + [m.at[m.order[i]].Contents()];
    }
  }

  datatype Breakdown = Breakdown(usd: real, tokens: real, calls: real, perModel: seq<Bucket>, perOperation: seq<Bucket>)

  /** The dictionary both maps end up holding. */
  function Final(tokens: seq<Sample>, calls: seq<Sample>, pricing: Pricing): Dict<string, Bucket> {
    Called(Charged(tokens, pricing), calls)
  }

  /** The two maps of the rollup hold the same figures in separate objects. */
  ghost predicate Agree(perModel: BucketMap, perOp: BucketMap, values: Dict<string, Bucket>,
                        a: set<CostBucket>, b: set<CostBucket>)
    reads a, b
  {
    Holds(perModel, values, a) && Holds(perOp, values, b) && a !! b
  }

  method BuildCostBreakdown(tokens: seq<Sample>, calls: seq<Sample>, pricing: Pricing) returns (r: Breakdown)
    ensures Final(tokens, calls, pricing).Valid()
    ensures r.perModel == r.perOperation == SortDescending(Entries(Final(tokens, calls, pricing)), UsdIn)
    ensures r.tokens == Amount(tokens) && r.usd == Dollars(tokens, pricing) && r.calls == Amount(calls)
  {
    var perModel, perOp, totalTokens, totalUsd, a, b := ChargeAll(tokens, pricing);
    var totalCalls := CountCalls(perModel, perOp, calls, Charged(tokens, pricing), a, b);
    BreakdownConserves(tokens, calls, pricing);
    var models := ReadOut(perModel, Final(tokens, calls, pricing), a);
    var operations := ReadOut(perOp, Final(tokens, calls, pricing), b);
    r := Breakdown(totalUsd, totalTokens, totalCalls, SortDescending(models, UsdIn), SortDescending(operations, UsdIn));
  }

  /** What the first loop has booked after `i` token counters. */
  ghost predicate Booked(tokens: seq<Sample>, pricing: Pricing, i: nat,
                         values: Dict<string, Bucket>, totalTokens: real, totalUsd: real) {
    && i <= |tokens| && values == Charged(tokens[..i], pricing)
    && totalTokens == Amount(tokens[..i]) && totalUsd == Dollars(tokens[..i], pricing)
  }

  lemma BookNext(tokens: seq<Sample>, pricing: Pricing, i: nat,
                 values: Dict<string, Bucket>, totalTokens: real, totalUsd: real)
    requires i < |tokens| && Booked(tokens, pricing, i, values, totalTokens, totalUsd)
    ensures var t := tokens[i]; var usd := UsdOf(t, pricing);
      Booked(tokens, pricing, i + 1, Charge(values, t, usd), totalTokens + t.value, totalUsd + usd)
  {
    TakeNext(tokens, i);
    TotalsSnoc(tokens[..i], tokens[i], pricing);
    ChargedSnoc(tokens[..i], tokens[i], pricing);
  }

  lemma BookedAll(tokens: seq<Sample>, pricing: Pricing,
                  values: Dict<string, Bucket>, totalTokens: real, totalUsd: real)
    requires Booked(tokens, pricing, |tokens|, values, totalTokens, totalUsd)
    ensures values == Charged(tokens, pricing)
    ensures totalTokens == Amount(tokens) && totalUsd == Dollars(tokens, pricing)
  {
    assert tokens[..|tokens|] == tokens;
  }

  /** The first loop, over the token counters. */
  method ChargeAll(tokens: seq<Sample>, pricing: Pricing)
    returns (perModel: BucketMap, perOp: BucketMap, totalTokens: real, totalUsd: real,
             ghost a: set<CostBucket>, ghost b: set<CostBucket>)
    ensures Agree(perModel, perOp, Charged(tokens, pricing), a, b)
    ensures fresh(a) && fresh(b)
    ensures totalTokens == Amount(tokens) && totalUsd == Dollars(tokens, pricing)
  {
    perModel, perOp, totalTokens, totalUsd := EmptyDict(), EmptyDict(), 0.0, 0.0;
    a, b := {}, {};
    ghost var values := Charged([], pricing);
    for i := 0 to |tokens|
      invariant Agree(perModel, perOp, values, a, b)
      invariant fresh(a) && fresh(b)
      invariant Booked(tokens, pricing, i, values, totalTokens, totalUsd)
    {
      var usd := UsdOf(tokens[i], pricing);
      BookNext(tokens, pricing, i, values, totalTokens, totalUsd);
      perModel, perOp, a, b := ChargeBoth(perModel, perOp, tokens[i], usd, values, a, b);
      values := Charge(values, tokens[i], usd);
      totalTokens, totalUsd := totalTokens + tokens[i].value, totalUsd + usd;
    }
    BookedAll(tokens, pricing, values, totalTokens, totalUsd);
  }

  method ChargeBoth(perModel: BucketMap, perOp: BucketMap, t: Sample, usd: real,
                    ghost values: Dict<string, Bucket>, ghost a: set<CostBucket>, ghost b: set<CostBucket>)
    returns (models: BucketMap, ops: BucketMap, ghost c: set<CostBucket>, ghost d: set<CostBucket>)
    requires Agree(perModel, perOp, values, a, b)
    modifies a, b
    ensures Agree(models, ops, Charge(values, t, usd), c, d)
    ensures fresh(c - a) && fresh(d - b)
  {
    var kind := t.Kind();
    models, c := ChargeBucket(perModel, ModelKey(kind), t, usd, values, a);
    ops, d := ChargeBucket(perOp, kind, t, usd, values, b);
  }

  /** The second loop, over the call counters. */
  method CountCalls(perModel: BucketMap, perOp: BucketMap, calls: seq<Sample>,
                    ghost values: Dict<string, Bucket>, ghost a: set<CostBucket>, ghost b: set<CostBucket>)
    returns (totalCalls: real)
    requires Agree(perModel, perOp, values, a, b)
    modifies a, b
    ensures totalCalls == Amount(calls)
    ensures Agree(perModel, perOp, Called(values, calls), a, b)
  {
    totalCalls := 0.0;
    for i := 0 to |calls|
      invariant totalCalls == Amount(calls[..i])
      invariant Agree(perModel, perOp, Called(values, calls[..i]), a, b)
    {
      ghost var seen := calls[..i];
      TakeNext(calls, i);
      totalCalls := totalCalls + calls[i].value;
      CallBoth(perModel, perOp, calls[i], Called(values, seen), a, b);
      FoldSnoc(Call, values, seen, calls[i]);
    }
    assert calls[..|calls|] == calls;
  }

  method CallBoth(perModel: BucketMap, perOp: BucketMap, c: Sample,
                  ghost values: Dict<string, Bucket>, ghost a: set<CostBucket>, ghost b: set<CostBucket>)
    requires Agree(perModel, perOp, values, a, b)
    modifies a, b
    ensures Agree(perModel, perOp, Call(values, c), a, b)
  {
    var kind := c.Kind();
    CallBucket(perOp, kind, c, values, b);
    CallBucket(perModel, ModelKey(kind), c, values, a);
  }

  lemma {:induction false} EntriesTotal(order: seq<string>, at: map<string, Bucket>, f: Bucket -> real)
    requires forall k :: k in order ==> k in at
    ensures SumOf(Entries(Dict(order, at)), f) == Total(order, at, f)
  {
    if order != [] {
      var entries := Entries(Dict(order, at));
      assert order[0] in order;
      assert entries[1..] == Entries(Dict(order[1..], at));
      EntriesTotal(order[1..], at, f);
    }
  }

  /** The list shown adds up to the totals shown; calls only as far as their kind used tokens. */
  lemma BreakdownConserves(tokens: seq<Sample>, calls: seq<Sample>, pricing: Pricing)
    ensures var d := Final(tokens, calls, pricing);
      && d.Valid()
      && (var shown := SortDescending(Entries(d), UsdIn);
      && SumOf(shown, TokensIn) == Amount(tokens)
      && SumOf(shown, UsdIn) == Dollars(tokens, pricing)
      && SumOf(shown, CallsIn) == AmountOf(calls, Kinds(tokens))
      && Descending(shown, UsdIn))
  {
    ChargedKeys(tokens, pricing);
    ChargedConserves(tokens, pricing);
    CalledConserves(Charged(tokens, pricing), calls);
    var d := Final(tokens, calls, pricing);
    assert Charged(tokens, pricing).at.Keys == Kinds(tokens);
    assert d == Dict(d.order, d.at);
    EntriesTotal(d.order, d.at, TokensIn);
    EntriesTotal(d.order, d.at, UsdIn);
    EntriesTotal(d.order, d.at, CallsIn);
    SortKeepsSum(Entries(d), UsdIn, TokensIn);
    SortKeepsSum(Entries(d), UsdIn, UsdIn);
    SortKeepsSum(Entries(d), UsdIn, CallsIn);
    SortSorts(Entries(d), UsdIn);
  }

  /** There is a bucket for exactly the kinds that used tokens, and each holds its own kind's
      samples and calls, untouched by the others. */
  lemma EachBucketIsItsOwn(tokens: seq<Sample>, calls: seq<Sample>, pricing: Pricing, k: string)
    ensures var d := Final(tokens, calls, pricing);
      && (k in d.at <==> k in Kinds(tokens))
      && (k in d.at ==> d.at[k] == Alone(k, tokens, pricing).(calls := AmountOf(calls, {k})))
  {
    ChargedKeys(tokens, pricing);
    CalledConserves(Charged(tokens, pricing), calls);
    BucketsDoNotMix(tokens, pricing, k);
    AloneHasNoCalls(k, tokens, pricing);
    if k in Charged(tokens, pricing).at {
      CallsDoNotMix(Charged(tokens, pricing), calls, k);
    }
  }
}
