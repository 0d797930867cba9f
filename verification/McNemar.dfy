/**
  The exact two-sided McNemar test of scripts/eval-analysis/beam-mcnemar.py and
  locomo-mcnemar.py, the paired counts it is fed with, and the grouping of rows by ability.
 */
module McNemar {
  import opened Collections

  // ---- the test -----------------------------------------------------------------------------

  function Comb(n: nat, k: nat): nat {
    if k == 0 then 1 else if n == 0 then 0 else Comb(n - 1, k - 1) + Comb(n - 1, k)
  }

  /** `sum(comb(n, k) for k in range(0, upTo))`. */
  function CombSum(n: nat, upTo: nat): nat {
    if upTo == 0 then 0 else CombSum(n, upTo - 1) + Comb(n, upTo - 1)
  }

  function Pow2(n: nat): (r: nat)
    ensures r >= 1
  {
    if n == 0 then 1 else 2 * Pow2(n - 1)
  }

  function Ratio(a: int, d: nat): real
    requires d > 0
  {
    a as real / d as real
  }

  function Unclipped(b: nat, c: nat): real {
    Ratio(2 * CombSum(b + c, Min(b, c) + 1), Pow2(b + c))
  }

  function McNemarP(b: nat, c: nat): real {
    if b + c == 0 then 1.0 else if Unclipped(b, c) < 1.0 then Unclipped(b, c) else 1.0
  }

  // ---- what the test means ------------------------------------------------------------------

  /** Of the equally likely outcomes of `n` more coin flips after `heads` heads, how many end with
      a number of heads in `event`. */
  ghost function Favourable(n: nat, heads: nat, event: nat -> bool): nat {
    if n == 0 then (if event(heads) then 1 else 0)
    else Favourable(n - 1, heads, event) + Favourable(n - 1, heads + 1, event)
  }

  function Magnitude(x: int): nat {
    if x < 0 then -x else x
  }

  /** A split of `b + c` discordant pairs at least as uneven as the one observed. */
  ghost function AsUneven(b: nat, c: nat): nat -> bool {
    (h: nat) => Magnitude(2 * h - (b + c)) >= Magnitude(b - c)
  }

  // ---- fractions with one denominator -------------------------------------------------------

  lemma RatioOrder(a: int, b: int, d: nat)
    requires d > 0
    ensures Ratio(a, d) < Ratio(b, d) <==> a < b
    ensures Ratio(a, d) == Ratio(b, d) <==> a == b
  {
    var x, y, e := Ratio(a, d), Ratio(b, d), d as real;
    assert x * e == a as real && y * e == b as real;
    if a < b {
      assert (y - x) * e > 0.0;
    } else {
      assert (x - y) * e >= 0.0;
    }
  }

  lemma RatioUnits(d: nat)
    requires d > 0
    ensures Ratio(d, d) == 1.0 && Ratio(0, d) == 0.0
  {
  }

  lemma RatioUnique(x: real, a: int, d: nat)
    requires d > 0 && x * d as real == a as real
    ensures x == Ratio(a, d)
  {
    var e := d as real;
    assert (x - Ratio(a, d)) * e == 0.0;
  }

  lemma RatioDifference(a: int, b: int, d: nat)
    requires d > 0
    ensures Ratio(a, d) - Ratio(b, d) == Ratio(a - b, d)
  {
    var e := d as real;
    assert (Ratio(a, d) - Ratio(b, d)) * e == (a - b) as real;
    RatioUnique(Ratio(a, d) - Ratio(b, d), a - b, d);
  }

  // ---- binomial coefficients ----------------------------------------------------------------

  function Factorial(n: nat): (r: nat)
    ensures r >= 1
  {
    if n == 0 then 1 else n * Factorial(n - 1)
  }

  /** The closed form Python's `math.comb` computes. */
  lemma {:induction false} CombIsFactorial(n: nat, k: nat)
    requires k <= n
    ensures Comb(n, k) * (Factorial(k) * Factorial(n - k)) == Factorial(n)
  {
    if 0 < k < n {
      CombIsFactorial(n - 1, k - 1);
      CombIsFactorial(n - 1, k);
      PascalStep(Comb(n - 1, k - 1), Comb(n - 1, k), k, Factorial(k - 1), n - k, Factorial(n - k - 1),
                 Factorial(n - 1));
    } else if 0 < k {
      CombIsFactorial(n - 1, k - 1);
      CombBeyond(n - 1, k);
      Regroup(Comb(n - 1, k - 1), k, Factorial(k - 1), 1);
    }
  }

  lemma PascalStep(a: int, b: int, k: int, f: int, j: int, g: int, p: int)
    requires a * (f * (j * g)) == p && b * ((k * f) * g) == p
    ensures (a + b) * ((k * f) * (j * g)) == (k + j) * p
  {
    Regroup(a, k, f, j * g);
    Regroup(b, j, g, k * f);
    assert (a + b) * ((k * f) * (j * g)) == a * ((k * f) * (j * g)) + b * ((k * f) * (j * g));
    assert (k + j) * p == k * p + j * p;
  }

  lemma Regroup(a: int, k: int, f: int, g: int)
    ensures a * ((k * f) * g) == k * (a * (f * g))
    ensures a * (g * (k * f)) == k * (a * (g * f))
  {
  }

  lemma {:induction false} CombBeyond(n: nat, k: nat)
    requires k > n
    ensures Comb(n, k) == 0
  {
    if n > 0 {
      CombBeyond(n - 1, k - 1);
      CombBeyond(n - 1, k);
    }
  }

  lemma {:induction false} CombSymmetric(n: nat, k: nat)
    requires k <= n
    ensures Comb(n, k) == Comb(n, n - k)
  {
    if n > 0 {
      if k == 0 {
        CombSymmetric(n - 1, 0);
        CombBeyond(n - 1, n);
      } else if k == n {
        CombSymmetric(n - 1, n - 1);
        CombBeyond(n - 1, n);
      } else {
        CombSymmetric(n - 1, k - 1);
        CombSymmetric(n - 1, k);
      }
    }
  }

  /** Pascal's rule summed, and the whole row. */
  lemma {:induction false} SumPascal(n: nat, upTo: nat)
    requires n > 0
    ensures CombSum(n, upTo + 1) == CombSum(n - 1, upTo + 1) + CombSum(n - 1, upTo)
  {
    if upTo > 0 {
      SumPascal(n, upTo - 1);
    }
  }

  lemma {:induction false} RowSum(n: nat)
    ensures CombSum(n, n + 1) == Pow2(n)
  {
    if n == 0 {
      assert CombSum(0, 1) == CombSum(0, 0) + Comb(0, 0);
    } else {
      RowSum(n - 1);
      SumPascal(n, n);
      CombBeyond(n - 1, n);
    }
  }

  /** The upper tail of the row weighs what the lower tail weighs. */
  lemma {:induction false} TailsMatch(n: nat, m: nat)
    requires m <= n + 1
    ensures CombSum(n, m) + CombSum(n, n + 1 - m) == Pow2(n)
  {
    if m == 0 {
      RowSum(n);
    } else {
      TailsMatch(n, m - 1);
      CombSymmetric(n, m - 1);
    }
  }

  lemma {:induction false} CombPositive(n: nat, k: nat)
    requires k <= n
    ensures Comb(n, k) > 0
  {
    if k > 0 {
      CombPositive(n - 1, k - 1);
    }
  }

  lemma {:induction false} CombSumGrows(n: nat, a: nat, b: nat)
    requires a < b <= n + 1
    ensures CombSum(n, a) < CombSum(n, b)
    decreases b
  {
    CombPositive(n, b - 1);
    if a < b - 1 {
      CombSumGrows(n, a, b - 1);
    }
  }

  /** The two tails of the split `b`, `c`: they overlap in one term exactly when b = c. */
  lemma TwoTails(b: nat, c: nat)
    ensures b == c ==> 2 * CombSum(b + c, Min(b, c) + 1) == Pow2(b + c) + Comb(b + c, b)
    ensures b != c ==>
      2 * CombSum(b + c, Min(b, c) + 1)
        == Pow2(b + c) - (CombSum(b + c, b + c - Min(b, c)) - CombSum(b + c, Min(b, c) + 1))
    ensures b != c ==> CombSum(b + c, Min(b, c) + 1) <= CombSum(b + c, b + c - Min(b, c))
  {
    var n, m := b + c, Min(b, c);
    TailsMatch(n, m + 1);
    if b != c && m + 1 < n - m {
      CombSumGrows(n, m + 1, n - m);
    }
  }

  // ---- main results on the test -------------------------------------------------------------

  lemma PSymmetric(b: nat, c: nat)
    ensures McNemarP(b, c) == McNemarP(c, b)
  {
    assert b + c == c + b && Min(b, c) == Min(c, b);
  }

  /** A probability, and never zero. */
  lemma PInRange(b: nat, c: nat)
    ensures 0.0 < McNemarP(b, c) <= 1.0
  {
    CombSumGrows(b + c, 0, Min(b, c) + 1);
    RatioUnits(Pow2(b + c));
    RatioOrder(0, 2 * CombSum(b + c, Min(b, c) + 1), Pow2(b + c));
  }

  /** The clip at 1 changes the value exactly when the discordant pairs are split evenly. */
  lemma ClipExactlyWhen(b: nat, c: nat)
    requires b + c > 0
    ensures Unclipped(b, c) > 1.0 <==> b == c
    ensures McNemarP(b, c) == Unclipped(b, c) <==> b != c
  {
    TwoTails(b, c);
    CombPositive(b + c, b);
    RatioUnits(Pow2(b + c));
    RatioOrder(2 * CombSum(b + c, Min(b, c) + 1), Pow2(b + c), Pow2(b + c));
    RatioOrder(Pow2(b + c), 2 * CombSum(b + c, Min(b, c) + 1), Pow2(b + c));
  }

  lemma TailShrinks(b: nat, c: nat, b': nat, c': nat)
    requires b + c == b' + c' && Magnitude(b - c) < Magnitude(b' - c')
    ensures b' != c'
    ensures 2 * CombSum(b + c, Min(b', c') + 1) < 2 * CombSum(b + c, Min(b, c) + 1)
    ensures 2 * CombSum(b + c, Min(b', c') + 1) < Pow2(b + c)
  {
    var n, m, m' := b + c, Min(b, c), Min(b', c');
    TwoTails(b', c');
    CombSumGrows(n, m' + 1, m + 1);
    CombSumGrows(n, m' + 1, n - m');
  }

  /** For a fixed number of discordant pairs, the more uneven split has the smaller p. */
  lemma PStrictlyDecreasing(b: nat, c: nat, b': nat, c': nat)
    requires b + c == b' + c' && Magnitude(b - c) < Magnitude(b' - c')
    ensures McNemarP(b', c') < McNemarP(b, c)
  {
    TailShrinks(b, c, b', c');
    var n, lower, upper := b + c, 2 * CombSum(b + c, Min(b', c') + 1), 2 * CombSum(b + c, Min(b, c) + 1);
    RatioUnits(Pow2(n));
    RatioOrder(lower, upper, Pow2(n));
    RatioOrder(lower, Pow2(n), Pow2(n));
  }

  // ---- agreement with coin flips ------------------------------------------------------------

  ghost function Weighed(n: nat, heads: nat, event: nat -> bool, upTo: nat): nat {
    if upTo == 0 then 0
    else Weighed(n, heads, event, upTo - 1) + if event(heads + upTo - 1) then Comb(n, upTo - 1) else 0
  }

  lemma {:induction false} WeighedPascal(n: nat, heads: nat, event: nat -> bool, upTo: nat)
    requires n > 0
    ensures Weighed(n, heads, event, upTo + 1)
         == Weighed(n - 1, heads, event, upTo + 1) + Weighed(n - 1, heads + 1, event, upTo)
  {
    if upTo > 0 {
      WeighedPascal(n, heads, event, upTo - 1);
      assert heads + upTo == heads + 1 + upTo - 1;
    } else {
      assert Weighed(n, heads, event, 0) == 0 && Weighed(n - 1, heads, event, 0) == 0;
    }
  }

  lemma {:induction false} FavourableWeighs(n: nat, heads: nat, event: nat -> bool)
    ensures Favourable(n, heads, event) == Weighed(n, heads, event, n + 1)
  {
    if n == 0 {
      assert Weighed(0, heads, event, 0) == 0;
    } else {
      FavourableWeighs(n - 1, heads, event);
      FavourableWeighs(n - 1, heads + 1, event);
      WeighedPascal(n, heads, event, n);
      CombBeyond(n - 1, n);
    }
  }

  lemma {:induction false} WeighedTails(b: nat, c: nat, upTo: nat)
    requires upTo <= b + c + 1
    ensures var n, m := b + c, Min(b, c);
      Weighed(n, 0, AsUneven(b, c), upTo) ==
        if upTo <= m + 1 then CombSum(n, upTo)
        else if upTo <= n - m then CombSum(n, m + 1)
        else if b == c then CombSum(n, upTo)
        else CombSum(n, m + 1) + CombSum(n, upTo) - CombSum(n, n - m)
  {
    if upTo > 0 {
      WeighedTails(b, c, upTo - 1);
    }
  }

  lemma FavourableTails(b: nat, c: nat)
    ensures Favourable(b + c, 0, AsUneven(b, c))
         == if b == c then Pow2(b + c) else 2 * CombSum(b + c, Min(b, c) + 1)
  {
    var n, m := b + c, Min(b, c);
    FavourableWeighs(n, 0, AsUneven(b, c));
    WeighedTails(b, c, n + 1);
    RowSum(n);
    TailsMatch(n, m + 1);
  }

  /** The p-value is the probability that as many fair coin flips split as unevenly. */
  lemma PIsTwoTailedProbability(b: nat, c: nat)
    ensures McNemarP(b, c) == Ratio(Favourable(b + c, 0, AsUneven(b, c)), Pow2(b + c))
  {
    FavourableTails(b, c);
    RatioUnits(Pow2(b + c));
    if b + c > 0 {
      ClipExactlyWhen(b, c);
    }
  }

  // ---- paired rows --------------------------------------------------------------------------

  datatype Score = Score(questionId: string, group: string, judgeCorrect: Option<bool>,
                         abstained: bool, isAbstention: bool)

  predicate Correct(s: Score) {
    if s.judgeCorrect.Some? then s.judgeCorrect.value else s.abstained == s.isAbstention
  }

  type Pair = (Score, Score)

  function Count(rows: seq<Pair>, test: Pair -> bool): nat {
    if rows == [] then 0
    else Count(rows[..|rows| - 1], test) + if test(rows[|rows| - 1]) then 1 else 0
  }

  lemma CountSnoc(rows: seq<Pair>, r: Pair, test: Pair -> bool)
    ensures Count(rows + [r], test) == Count(rows, test) + if test(r) then 1 else 0
  {
    assert (rows + [r])[..|rows|] == rows;
  }

  datatype Stats = Stats(accBase: real, accLeg: real, b: nat, c: nat, p: real)

  /** `stats` of the BEAM script: b and c count the flips against and for the leg. */
  function StatsOf(rows: seq<Pair>): Stats
    requires rows != []
  {
    var b := Count(rows, (r: Pair) => Correct(r.0) && !Correct(r.1));
    var c := Count(rows, (r: Pair) => !Correct(r.0) && Correct(r.1));
    Stats(Ratio(Count(rows, (r: Pair) => Correct(r.0)), |rows|),
          Ratio(Count(rows, (r: Pair) => Correct(r.1)), |rows|), b, c, McNemarP(b, c))
  }

  /** `paired_block` of the LoCoMo script with the correctness test above: its four-way count
      gives the same numbers, and the accuracies differ by exactly the net flips. */
  method PairedBlock(rows: seq<Pair>) returns (stats: Option<Stats>)
    ensures rows == [] <==> stats.None?
    ensures stats.Some? ==> stats.value == StatsOf(rows)
    ensures stats.Some? ==>
      stats.value.accLeg - stats.value.accBase == Ratio(stats.value.c - stats.value.b, |rows|)
  {
    var both, winsLeg, winsBase, neither := 0, 0, 0, 0;
    for i := 0 to |rows|
      invariant both + winsLeg + winsBase + neither == i
      invariant both + winsBase == Count(rows[..i], (r: Pair) => Correct(r.0))
      invariant both + winsLeg == Count(rows[..i], (r: Pair) => Correct(r.1))
      invariant winsBase == Count(rows[..i], (r: Pair) => Correct(r.0) && !Correct(r.1))
      invariant winsLeg == Count(rows[..i], (r: Pair) => !Correct(r.0) && Correct(r.1))
    {
      var cb, cl := Correct(rows[i].0), Correct(rows[i].1);
      assert rows[..i + 1][..i] == rows[..i];
      if cb && cl {
        both := both + 1;
      } else if cl {
        winsLeg := winsLeg + 1;
      } else if cb {
        winsBase := winsBase + 1;
      } else {
        neither := neither + 1;
      }
    }
    assert rows[..|rows|] == rows;
    var n := both + winsLeg + winsBase + neither;
    if n == 0 {
      return None;
    }
    var accBase, accLeg := Ratio(both + winsBase, n), Ratio(both + winsLeg, n);
    RatioDifference(both + winsLeg, both + winsBase, n);
    return Some(Stats(accBase, accLeg, winsBase, winsLeg, McNemarP(winsBase, winsLeg)));
  }

  /** The row was answered rightly: as the judge says, or, unjudged, abstained from when it should be. */
  ghost predicate Right(s: Score) {
    s.judgeCorrect == Some(true) || (s.judgeCorrect == None && (s.abstained <==> s.isAbstention))
  }

  ghost function RowsWhere(rows: seq<Pair>, test: Pair -> bool): set<int> {
    set i | 0 <= i < |rows| && test(rows[i])
  }

  lemma {:induction false} CountIsSize(rows: seq<Pair>, test: Pair -> bool)
    ensures Count(rows, test) == |RowsWhere(rows, test)|
  {
    if rows != [] {
      var n := |rows| - 1;
      CountIsSize(rows[..n], test);
      assert RowsWhere(rows, test) == RowsWhere(rows[..n], test) + if test(rows[n]) then {n} else {};
    }
  }

  lemma SameRows(rows: seq<Pair>, a: Pair -> bool, b: Pair -> bool)
    requires forall r :: a(r) == b(r)
    ensures Count(rows, a) == |RowsWhere(rows, b)|
  {
    CountIsSize(rows, a);
    assert RowsWhere(rows, a) == RowsWhere(rows, b);
  }

  /** The figures in terms of the rows: accuracies of the base and of the leg, the rows lost by going
      from the base to the leg, the rows won, and p of those two. */
  lemma StatsAre(rows: seq<Pair>)
    requires rows != []
    ensures var s := StatsOf(rows);
      && s.accBase == |RowsWhere(rows, (r: Pair) => Right(r.0))| as real / |rows| as real
      && s.accLeg == |RowsWhere(rows, (r: Pair) => Right(r.1))| as real / |rows| as real
      && s.b == |RowsWhere(rows, (r: Pair) => Right(r.0) && !Right(r.1))|
      && s.c == |RowsWhere(rows, (r: Pair) => !Right(r.0) && Right(r.1))|
      && s.p == McNemarP(s.b, s.c)
  {
    SameRows(rows, (r: Pair) => Correct(r.0), (r: Pair) => Right(r.0));
    SameRows(rows, (r: Pair) => Correct(r.1), (r: Pair) => Right(r.1));
    SameRows(rows, (r: Pair) => Correct(r.0) && !Correct(r.1), (r: Pair) => Right(r.0) && !Right(r.1));
    SameRows(rows, (r: Pair) => !Correct(r.0) && Correct(r.1), (r: Pair) => !Right(r.0) && Right(r.1));
  }

  // ---- grouping by ability ------------------------------------------------------------------

  function InGroup(rows: seq<Pair>, g: string): seq<Pair> {
    if rows == [] then []
    else
      var r := rows[|rows| - 1];
      InGroup(rows[..|rows| - 1], g) + if r.0.group == g then [r] else []
  }

  lemma InGroupSnoc(rows: seq<Pair>, r: Pair, g: string)
    ensures InGroup(rows + [r], g) == InGroup(rows, g) + if r.0.group == g then [r] else []
  {
    assert (rows + [r])[..|rows|] == rows;
  }

  ghost predicate GroupsAre(groups: Dict<string, seq<Pair>>, rows: seq<Pair>) {
    groups.Valid() && forall g :: GroupIs(groups, rows, g)
  }

  ghost predicate GroupIs(groups: Dict<string, seq<Pair>>, rows: seq<Pair>, g: string) {
    if g in groups.at then InGroup(rows, g) != [] && groups.at[g] == InGroup(rows, g) else InGroup(rows, g) == []
  }

  function AddToGroup(groups: Dict<string, seq<Pair>>, r: Pair): Dict<string, seq<Pair>> {
    Put(groups, r.0.group, (if r.0.group in groups.at then groups.at[r.0.group] else []) + [r])
  }

  lemma AddKeepsGroups(groups: Dict<string, seq<Pair>>, rows: seq<Pair>, r: Pair)
    requires GroupsAre(groups, rows)
    ensures GroupsAre(AddToGroup(groups, r), rows + [r])
  {
    forall g ensures GroupIs(AddToGroup(groups, r), rows + [r], g) {
      assert GroupIs(groups, rows, g);
      InGroupSnoc(rows, r, g);
    }
  }

  /** The loop that fills `groups`: each ability gets its rows, in order. */
  method GroupByAbility(common: seq<Pair>) returns (groups: Dict<string, seq<Pair>>)
    ensures GroupsAre(groups, common)
  {
    groups := EmptyDict();
    ghost var rows: seq<Pair> := [];
    for i := 0 to |common|
      invariant rows == common[..i]
      invariant GroupsAre(groups, rows)
    {
      AddKeepsGroups(groups, rows, common[i]);
      groups := AddToGroup(groups, common[i]);
      rows := rows + [common[i]];
    }
    assert rows == common;
  }

  ghost function CountOver(order: seq<string>, rows: seq<Pair>, test: Pair -> bool): nat {
    if order == [] then 0 else Count(InGroup(rows, order[0]), test) + CountOver(order[1..], rows, test)
  }

  lemma {:induction false} CountOverStep(order: seq<string>, rows: seq<Pair>, r: Pair, test: Pair -> bool)
    requires Distinct(order)
    ensures CountOver(order, rows + [r], test)
         == CountOver(order, rows, test) + if test(r) && r.0.group in order then 1 else 0
  {
    if order != [] {
      var g, rest := order[0], order[1..];
      assert order == [g] + rest && g !in rest;
      InGroupSnoc(rows, r, g);
      CountOverStep(rest, rows, r, test);
      if r.0.group == g {
        CountSnoc(InGroup(rows, g), r, test);
      } else {
        assert r.0.group in order <==> r.0.group in rest;
        assert InGroup(rows + [r], g) == InGroup(rows, g);
      }
    }
  }

  lemma {:induction false} CountOverNothing(order: seq<string>, test: Pair -> bool)
    ensures CountOver(order, [], test) == 0
  {
    if order != [] {
      CountOverNothing(order[1..], test);
    }
  }

  lemma {:induction false} CountOverAll(order: seq<string>, rows: seq<Pair>, test: Pair -> bool)
    requires Distinct(order)
    requires forall r :: r in rows ==> r.0.group in order
    ensures CountOver(order, rows, test) == Count(rows, test)
  {
    if rows == [] {
      CountOverNothing(order, test);
    } else {
      var n := |rows| - 1;
      CountOverAll(order, rows[..n], test);
      CountOverStep(order, rows[..n], rows[n], test);
      assert rows == rows[..n] + [rows[n]];
    }
  }

  lemma {:induction false} GroupOfRowNonempty(rows: seq<Pair>, r: Pair)
    requires r in rows
    ensures InGroup(rows, r.0.group) != []
  {
    var n := |rows| - 1;
    assert rows == rows[..n] + [rows[n]];
    if r != rows[n] {
      GroupOfRowNonempty(rows[..n], r);
    }
  }

  /** No flip of any kind is lost or counted twice between the per-ability lines and the overall. */
  lemma GroupsConserveCounts(groups: Dict<string, seq<Pair>>, rows: seq<Pair>, test: Pair -> bool)
    requires GroupsAre(groups, rows)
    ensures CountOver(groups.order, rows, test) == Count(rows, test)
  {
    forall r | r in rows ensures r.0.group in groups.order {
      GroupOfRowNonempty(rows, r);
      assert GroupIs(groups, rows, r.0.group);
    }
    CountOverAll(groups.order, rows, test);
  }
}
