/** Sum, extremes and arithmetic mean of a list of volume samples. */
module Stats {
  function Sum(vs: seq<int>): int
  {
    if vs == [] then 0 else Sum(vs[..|vs| - 1]) + vs[|vs| - 1]
  }

  function Min(vs: seq<int>): (m: int)
    requires |vs| > 0
    ensures forall i :: 0 <= i < |vs| ==> m <= vs[i]
    ensures exists i :: 0 <= i < |vs| && vs[i] == m
  {
    if |vs| == 1 then vs[0]
    else
      var rest := Min(vs[1..]);
      if vs[0] <= rest then vs[0] else rest
  }

  function Max(vs: seq<int>): (m: int)
    requires |vs| > 0
    ensures forall i :: 0 <= i < |vs| ==> vs[i] <= m
    ensures exists i :: 0 <= i < |vs| && vs[i] == m
  {
    if |vs| == 1 then vs[0]
    else
      var rest := Max(vs[1..]);
      if vs[0] >= rest then vs[0] else rest
  }

  /** Every sample lies in [lo, hi], so the sum lies in [n * lo, n * hi]. */
  lemma {:induction false} SumBetween(vs: seq<int>, lo: int, hi: int)
    requires forall i :: 0 <= i < |vs| ==> lo <= vs[i] <= hi
    ensures |vs| * lo <= Sum(vs) <= |vs| * hi
  {
    if vs != [] {
      var n := |vs| - 1;
      SumBetween(vs[..n], lo, hi);
      assert (n + 1) * lo == n * lo + lo && (n + 1) * hi == n * hi + hi;
    }
  }

  lemma MulLess(a: real, b: real, n: real)
    requires n > 0.0 && a < b
    ensures a * n < b * n
  {
  }

  /** A quotient by a positive divisor keeps the bounds the dividend has as multiples of it. */
  lemma DivBetween(s: real, n: real, lo: real, hi: real)
    requires n > 0.0 && n * lo <= s <= n * hi
    ensures lo <= s / n <= hi
  {
    var m := s / n;
    assert m * n == s;
    if m < lo {
      MulLess(m, lo, n);
    }
    if hi < m {
      MulLess(hi, m, n);
    }
  }

  lemma CastProduct(a: int, b: int)
    ensures (a * b) as real == a as real * b as real
  {
  }

  /** An integer total between `k * lo` and `k * hi` has its exact quotient by `k` in [lo, hi]. */
  lemma QuotientBetween(s: int, k: int, lo: int, hi: int)
    requires k > 0 && k * lo <= s <= k * hi
    ensures lo as real <= s as real / k as real <= hi as real
  {
    CastProduct(k, lo);
    CastProduct(k, hi);
    DivBetween(s as real, k as real, lo as real, hi as real);
  }

  /** Python's `sum(vs) / len(vs)`, computed exactly. */
  function Mean(vs: seq<int>): (m: real)
    requires |vs| > 0
    ensures Min(vs) as real <= m <= Max(vs) as real
  {
    var k, lo, hi, s := |vs|, Min(vs), Max(vs), Sum(vs);
    SumBetween(vs, lo, hi);
    QuotientBetween(s, k, lo, hi);
    s as real / k as real
  }
}
