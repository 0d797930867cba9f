/** Ordered-field facts about real numbers that need a hint. */
module Reals {

  function Abs(x: real): real {
    if x < 0.0 then -x else x
  }

  lemma TimesPositive(a: real, b: real, n: real)
    requires n > 0.0
    ensures a < b <==> a * n < b * n
    ensures a == b <==> a * n == b * n
  {
    if a < b {
      assert (b - a) * n > 0.0;
    } else {
      assert (a - b) * n >= 0.0;
    }
    if a > b {
      assert (a - b) * n > 0.0;
    }
  }

  lemma Quotient(a: real, n: real, x: real)
    requires n > 0.0
    ensures a / n * n == a
    ensures x <= a / n <==> x * n <= a
    ensures x >= a / n <==> x * n >= a
  {
    TimesPositive(x, a / n, n);
    TimesPositive(a / n, x, n);
  }

  lemma TimesNonNegative(a: real, b: real, n: real)
    requires n >= 0.0 && a <= b
    ensures a * n <= b * n
  {
    assert (b - a) * n >= 0.0;
  }

  function Sum(xs: seq<real>): real {
    if xs == [] then 0.0 else Sum(xs[..|xs| - 1]) + xs[|xs| - 1]
  }

  /** Cauchy-Schwarz for one more term. */
  lemma OneMoreTerm(n: real, s: real, q: real, x: real)
    requires n >= 0.0 && s * s <= n * q && (n == 0.0 ==> s == 0.0 && q == 0.0)
    ensures (s + x) * (s + x) <= (n + 1.0) * (q + x * x)
  {
    if n > 0.0 {
      var d := s - n * x;
      assert d * d == s * s - 2.0 * (s * (n * x)) + (n * x) * (n * x);
      assert 2.0 * (s * (n * x)) == n * (2.0 * (s * x)) && (n * x) * (n * x) == n * (n * (x * x));
      var slack := q + n * (x * x) - 2.0 * (s * x);
      assert n * slack == n * q + n * (n * (x * x)) - n * (2.0 * (s * x));
      TimesPositive(slack, 0.0, n);
      assert slack >= 0.0;
      assert (n + 1.0) * (q + x * x) == n * q + n * (x * x) + q + x * x;
      assert (s + x) * (s + x) == s * s + 2.0 * (s * x) + x * x;
    }
  }

  lemma {:induction false} CauchySchwarz(xs: seq<real>, squares: seq<real>)
    requires |squares| == |xs| && forall i :: 0 <= i < |xs| ==> squares[i] == xs[i] * xs[i]
    ensures Sum(xs) * Sum(xs) <= |xs| as real * Sum(squares)
  {
    if xs != [] {
      var n := |xs| - 1;
      CauchySchwarz(xs[..n], squares[..n]);
      OneMoreTerm(n as real, Sum(xs[..n]), Sum(squares[..n]), xs[n]);
    }
  }
}
