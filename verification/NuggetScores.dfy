/**
  The aggregation at the end of `scoreReport` in scripts/offline-nugget-score.ts: per-ability means
  and their macro average, once over the judged scores and once over the truncated ones.
 */
module NuggetScores {
  import opened Collections
  import opened Reals

  /** `itemScores` is empty for a row without rubric items, whose score is taken as it is. */
  datatype Row = Row(questionId: string, ability: string, score: real, itemScores: seq<real>)

  function Mean(xs: seq<real>): real
    requires xs != []
  {
    Sum(xs) / |xs| as real
  }

  function Floors(xs: seq<real>): (r: seq<real>)
    ensures |r| == |xs| && forall i :: 0 <= i < |r| ==> r[i] == xs[i].Floor as real
  {
    if xs == [] then [] else Floors(xs[..|xs| - 1]) + [xs[|xs| - 1].Floor as real]
  }

  function ScoreOf(r: Row): real { r.score }

  function Truncated(r: Row): real {
    if r.itemScores == [] then r.score else Mean(Floors(r.itemScores))
  }

  /** What the judge guarantees: the score of a row with items is their mean. */
  ghost predicate Judged(r: Row) {
    r.itemScores != [] ==> r.score == Mean(r.itemScores)
  }

  // ---- pointwise below ----------------------------------------------------------------------

  ghost predicate SeqBelow(a: seq<real>, b: seq<real>) {
    |a| == |b| && forall i :: 0 <= i < |a| ==> a[i] <= b[i]
  }

  lemma {:induction false} SumBelow(a: seq<real>, b: seq<real>)
    requires SeqBelow(a, b)
    ensures Sum(a) <= Sum(b)
  {
    if a != [] {
      SumBelow(a[..|a| - 1], b[..|a| - 1]);
    }
  }

  lemma {:induction false} SumsDiffer(a: seq<real>, b: seq<real>, k: nat)
    requires SeqBelow(a, b) && k < |a| && a[k] < b[k]
    ensures Sum(a) < Sum(b)
  {
    var n := |a| - 1;
    if k < n {
      SumsDiffer(a[..n], b[..n], k);
    } else {
      SumBelow(a[..n], b[..n]);
    }
  }

  lemma SumsEqualExactlyWhen(a: seq<real>, b: seq<real>)
    requires SeqBelow(a, b)
    ensures Sum(a) <= Sum(b) && (Sum(a) == Sum(b) <==> a == b)
  {
    SumBelow(a, b);
    if k :| 0 <= k < |a| && a[k] < b[k] {
      SumsDiffer(a, b, k);
    }
  }

  lemma MeanBelow(a: seq<real>, b: seq<real>)
    requires SeqBelow(a, b) && a != []
    ensures Mean(a) <= Mean(b) && (Mean(a) == Mean(b) <==> a == b)
  {
    SumsEqualExactlyWhen(a, b);
    var n := |a| as real;
    Quotient(Sum(a), n, Mean(b));
    Quotient(Sum(b), n, Mean(a));
    TimesPositive(Mean(a), Mean(b), n);
  }

  lemma {:induction false} SumWithin(xs: seq<real>, lo: real, hi: real)
    requires forall i :: 0 <= i < |xs| ==> lo <= xs[i] <= hi
    ensures lo * |xs| as real <= Sum(xs) <= hi * |xs| as real
  {
    if xs != [] {
      SumWithin(xs[..|xs| - 1], lo, hi);
    }
  }

  /** A mean lies between the least and the greatest of its numbers. */
  lemma MeanWithin(xs: seq<real>, lo: real, hi: real)
    requires xs != [] && forall i :: 0 <= i < |xs| ==> lo <= xs[i] <= hi
    ensures lo <= Mean(xs) <= hi
  {
    SumWithin(xs, lo, hi);
    Quotient(Sum(xs), |xs| as real, lo);
    Quotient(Sum(xs), |xs| as real, hi);
  }

  /** And with one number more, it moves as far as that number's distance over the new count. */
  lemma MeanMoves(xs: seq<real>, x: real)
    requires xs != []
    ensures (Mean(xs + [x]) - Mean(xs)) * (|xs| + 1) as real == x - Mean(xs)
  {
    assert (xs + [x])[..|xs|] == xs;
    var n, a, b := |xs| as real, Mean(xs), Mean(xs + [x]);
    Quotient(Sum(xs), n, 0.0);
    Quotient(Sum(xs + [x]), n + 1.0, 0.0);
    assert a * n == Sum(xs) && b * (n + 1.0) == Sum(xs) + x;
    assert (b - a) * (n + 1.0) == b * (n + 1.0) - a * n - a;
  }

  /** Truncation never raises a row's score, and leaves it alone exactly when every item was judged
      with a whole number. */
  lemma TruncatedExactlyWhen(r: Row)
    requires Judged(r)
    ensures Truncated(r) <= r.score
    ensures Truncated(r) == r.score
       <==> forall i :: 0 <= i < |r.itemScores| ==> r.itemScores[i].Floor as real == r.itemScores[i]
  {
    if r.itemScores != [] {
      MeanBelow(Floors(r.itemScores), r.itemScores);
    }
  }

  // ---- the groups ---------------------------------------------------------------------------

  function AddScore(groups: Dict<string, seq<real>>, ability: string, x: real): Dict<string, seq<real>> {
    Put(groups, ability, (if ability in groups.at then groups.at[ability] else []) + [x])
  }

  function Grouped(rows: seq<Row>, value: Row -> real): Dict<string, seq<real>> {
    if rows == [] then EmptyDict()
    else
      var r := rows[|rows| - 1];
      AddScore(Grouped(rows[..|rows| - 1], value), r.ability, value(r))
  }

  /** `for (const r of done.values())`, run once for each of the two values. */
  method GroupScores(rows: seq<Row>, value: Row -> real) returns (groups: Dict<string, seq<real>>)
    ensures groups == Grouped(rows, value)
  {
    groups := EmptyDict();
    for i := 0 to |rows|
      invariant groups == Grouped(rows[..i], value)
    {
      assert rows[..i + 1][..i] == rows[..i];
      groups := AddScore(groups, rows[i].ability, value(rows[i]));
    }
    assert rows[..|rows|] == rows;
  }

  ghost predicate GroupsBelow(a: Dict<string, seq<real>>, b: Dict<string, seq<real>>) {
    && a.Valid() && b.Valid() && a.order == b.order
    && forall k :: k in a.at ==> k in b.at && a.at[k] != [] && SeqBelow(a.at[k], b.at[k])
  }

  lemma AddScoreBelow(a: Dict<string, seq<real>>, b: Dict<string, seq<real>>, k: string, x: real, y: real)
    requires GroupsBelow(a, b) && x <= y
    ensures GroupsBelow(AddScore(a, k, x), AddScore(b, k, y))
  {
    assert k in a.order <==> k in b.order;
  }

  function ListOf(groups: Dict<string, seq<real>>, k: string): seq<real> {
    if k in groups.at then groups.at[k] else []
  }

  lemma AddScoreInjective(a: Dict<string, seq<real>>, b: Dict<string, seq<real>>, k: string, x: real, y: real)
    requires a.order == b.order && a.at.Keys == b.at.Keys
    requires AddScore(a, k, x) == AddScore(b, k, y)
    ensures a == b && x == y
  {
    var c, d := AddScore(a, k, x), AddScore(b, k, y);
    assert c.at[k] == ListOf(a, k) + [x] && d.at[k] == ListOf(b, k) + [y];
    assert x == c.at[k][|c.at[k]| - 1] && y == d.at[k][|d.at[k]| - 1];
    assert ListOf(a, k) == c.at[k][..|c.at[k]| - 1] && ListOf(b, k) == d.at[k][..|d.at[k]| - 1];
    forall j | j in a.at ensures a.at[j] == b.at[j] {
      if j != k {
        assert a.at[j] == c.at[j] && b.at[j] == d.at[j];
      }
    }
    assert a.at == b.at;
  }

  lemma {:induction false} GroupedBelow(rows: seq<Row>, low: Row -> real, high: Row -> real)
    requires forall r :: r in rows ==> low(r) <= high(r)
    ensures GroupsBelow(Grouped(rows, low), Grouped(rows, high))
    ensures Grouped(rows, low) == Grouped(rows, high) <==> forall r :: r in rows ==> low(r) == high(r)
  {
    if rows != [] {
      var n := |rows| - 1;
      assert rows == rows[..n] + [rows[n]];
      GroupedBelow(rows[..n], low, high);
      var a, b, k := Grouped(rows[..n], low), Grouped(rows[..n], high), rows[n].ability;
      AddScoreBelow(a, b, k, low(rows[n]), high(rows[n]));
      if Grouped(rows, low) == Grouped(rows, high) {
        assert forall j :: j in a.at <==> j in a.order;
        AddScoreInjective(a, b, k, low(rows[n]), high(rows[n]));
      }
    }
  }

  function Size(xs: seq<real>): real { |xs| as real }

  /** The sizes shown per ability add up to the rows judged. */
  lemma {:induction false} GroupsCountEveryRow(rows: seq<Row>, value: Row -> real)
    ensures Grouped(rows, value).Valid() && DictTotal(Grouped(rows, value), Size) == |rows| as real
  {
    if rows != [] {
      var n := |rows| - 1;
      var before, k := Grouped(rows[..n], value), rows[n].ability;
      GroupsCountEveryRow(rows[..n], value);
      DictTotalPut(before, k, (if k in before.at then before.at[k] else []) + [value(rows[n])], Size);
    }
  }

  // ---- the macro average --------------------------------------------------------------------

  function Means(groups: Dict<string, seq<real>>): (means: seq<real>)
    requires forall k :: k in groups.order ==> k in groups.at && groups.at[k] != []
    ensures |means| == |groups.order|
    ensures forall i :: 0 <= i < |means| ==> means[i] == Mean(groups.at[groups.order[i]])
  {
    seq(|groups.order|, i requires 0 <= i < |groups.order| => Mean(groups.at[groups.order[i]]))
  }

  /** The mean of the per-ability means; without rows there is none. */
  function Macro(groups: Dict<string, seq<real>>): Option<real>
    requires forall k :: k in groups.order ==> k in groups.at && groups.at[k] != []
  {
    if groups.order == [] then None else Some(Mean(Means(groups)))
  }

  lemma MacroBelow(a: Dict<string, seq<real>>, b: Dict<string, seq<real>>)
    requires GroupsBelow(a, b) && a.order != []
    ensures forall k :: k in b.order ==> k in b.at && b.at[k] != []
    ensures Macro(a).value <= Macro(b).value && (Macro(a) == Macro(b) <==> a == b)
  {
    forall i | 0 <= i < |a.order|
      ensures Means(a)[i] <= Means(b)[i] && (Means(a)[i] == Means(b)[i] <==> a.at[a.order[i]] == b.at[a.order[i]])
    {
      MeanBelow(a.at[a.order[i]], b.at[a.order[i]]);
    }
    MeanBelow(Means(a), Means(b));
    if Means(a) == Means(b) {
      forall k | k in a.at ensures a.at[k] == b.at[k] {
        var i :| 0 <= i < |a.order| && a.order[i] == k;
        assert Means(a)[i] == Means(b)[i];
      }
      assert a.at.Keys == b.at.Keys;
    }
  }

  /** The headline comparison: the truncating aggregation never reports more, and reports the same
      exactly when no item of any row was given partial credit. */
  lemma TruncatedMacroExactlyWhen(rows: seq<Row>)
    requires rows != [] && forall r :: r in rows ==> Judged(r)
    ensures var float, trunc := Grouped(rows, ScoreOf), Grouped(rows, Truncated);
      && GroupsBelow(trunc, float)
      && trunc.order != [] && (forall k :: k in float.order ==> k in float.at && float.at[k] != [])
      && Macro(trunc).value <= Macro(float).value
      && (Macro(trunc) == Macro(float)
        <==> forall r :: r in rows ==>
          forall i :: 0 <= i < |r.itemScores| ==> r.itemScores[i].Floor as real == r.itemScores[i])
  {
    forall r | r in rows
      ensures Truncated(r) <= ScoreOf(r)
      ensures Truncated(r) == ScoreOf(r)
         <==> forall i :: 0 <= i < |r.itemScores| ==> r.itemScores[i].Floor as real == r.itemScores[i]
    {
      TruncatedExactlyWhen(r);
    }
    GroupedBelow(rows, Truncated, ScoreOf);
    MacroBelow(Grouped(rows, Truncated), Grouped(rows, ScoreOf));
  }
}
