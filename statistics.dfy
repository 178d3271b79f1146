/** Sums and the arithmetic mean of a series of measurements.
    `double` is modelled as `real`: every statement here is about exact
    arithmetic, and nothing is claimed about floating-point rounding. */
module Statistics {

  /** The sum of `s`, added from left to right starting at 0, the order in
      which `std::accumulate` adds. */
  function Sum(s: seq<real>): real
  {
    if |s| == 0 then 0.0 else Sum(s[..|s| - 1]) + s[|s| - 1]
  }

  /** An independent reference sum, the same elements nested from the
      front. */
  function SumFromFront(s: seq<real>): real
  {
    if |s| == 0 then 0.0 else s[0] + SumFromFront(s[1..])
  }

  /** Adding from the left and nesting from the front give the same sum. */
  lemma {:induction false} SumOrderIndependent(s: seq<real>)
    ensures Sum(s) == SumFromFront(s)
  {
    if |s| > 0 {
      SumPrepend(s);
      SumOrderIndependent(s[1..]);
    }
  }

  /** Extending a prefix by one element adds that element to its sum. */
  lemma SumExtend(s: seq<real>, k: nat)
    requires k < |s|
    ensures Sum(s[..k + 1]) == Sum(s[..k]) + s[k]
  {
    assert s[..k + 1][..k] == s[..k];
  }

  /** Splitting off the first element of a left-to-right sum. */
  lemma {:induction false} SumPrepend(s: seq<real>)
    requires |s| > 0
    ensures Sum(s) == s[0] + Sum(s[1..])
  {
    var n := |s|;
    if n == 1 {
      assert s[..0] == [] && s[1..] == [];
    } else {
      SumPrepend(s[..n - 1]);
      assert s[..n - 1][1..] == s[1..][..n - 2];
    }
  }

  /** The sum of a concatenation is the sum of the parts. */
  lemma {:induction false} SumConcat(a: seq<real>, b: seq<real>)
    ensures Sum(a + b) == Sum(a) + Sum(b)
    decreases |b|
  {
    if |b| == 0 {
      assert a + b == a;
    } else {
      var n := |b| - 1;
      assert (a + b)[..|a| + n] == a + b[..n];
      SumConcat(a, b[..n]);
    }
  }

  /** The sum does not depend on the order of the elements: any
      rearrangement of a series has the same sum. */
  lemma {:induction false} SumPermutation(s: seq<real>, t: seq<real>)
    requires multiset(s) == multiset(t)
    ensures Sum(s) == Sum(t)
    decreases |s|
  {
    if |s| == 0 {
      assert |t| == |multiset(t)| == 0;
    } else {
      var n := |s| - 1;
      var v := s[n];
      assert s == s[..n] + [v];
      assert v in multiset(t) by { assert v in multiset(s); }
      var j :| 0 <= j < |t| && t[j] == v;
      var rest := t[..j] + t[j + 1..];
      assert t == t[..j] + [v] + t[j + 1..];
      assert multiset(s) == multiset(s[..n]) + multiset{v};
      assert multiset(t) == multiset(rest) + multiset{v};
      MultisetCancel(multiset(s[..n]), multiset(rest), v);
      SumPermutation(s[..n], rest);
      SumConcat(t[..j], [v] + t[j + 1..]);
      SumPrepend([v] + t[j + 1..]);
      assert ([v] + t[j + 1..])[1..] == t[j + 1..];
      SumConcat(t[..j], t[j + 1..]);
      assert t[..j] + [v] + t[j + 1..] == t[..j] + ([v] + t[j + 1..]);
    }
  }

  /** Removing the same element from two equal multisets leaves equal
      multisets. */
  lemma MultisetCancel(a: multiset<real>, b: multiset<real>, v: real)
    requires a + multiset{v} == b + multiset{v}
    ensures a == b
  {
    forall x
      ensures a[x] == b[x]
    {
      assert a[x] + multiset{v}[x] == (a + multiset{v})[x];
      assert b[x] + multiset{v}[x] == (b + multiset{v})[x];
    }
  }

  /** The arithmetic mean of a non-empty series: its sum divided by its
      length. The empty series is excluded, as the source divides by the
      length without a guard. */
  function Mean(v: seq<real>): (m: real)
    requires |v| > 0
    ensures m * (|v| as real) == Sum(v)
  {
    Sum(v) / (|v| as real)
  }

  /** Every element within [lo, hi] bounds the sum by |s|*lo and |s|*hi. */
  lemma {:induction false} SumBounds(s: seq<real>, lo: real, hi: real)
    requires forall i :: 0 <= i < |s| ==> lo <= s[i] <= hi
    ensures (|s| as real) * lo <= Sum(s) <= (|s| as real) * hi
  {
    if |s| > 0 {
      var n := |s|;
      SumBounds(s[..n - 1], lo, hi);
      assert (n as real) * lo == ((n - 1) as real) * lo + lo;
      assert (n as real) * hi == ((n - 1) as real) * hi + hi;
    }
  }

  /** The mean lies between any lower and upper bound of the elements. */
  lemma MeanBounds(v: seq<real>, lo: real, hi: real)
    requires |v| > 0
    requires forall i :: 0 <= i < |v| ==> lo <= v[i] <= hi
    ensures lo <= Mean(v) <= hi
  {
    var n := |v| as real;
    var m := Mean(v);
    SumBounds(v, lo, hi);
    assert n * lo <= n * m <= n * hi;
  }

  /** The sum of an affine image `a*x[i] + b` of a series. */
  lemma {:induction false} SumAffine(x: seq<real>, y: seq<real>, a: real, b: real)
    requires |x| == |y|
    requires forall i :: 0 <= i < |x| ==> y[i] == a * x[i] + b
    ensures Sum(y) == a * Sum(x) + (|x| as real) * b
  {
    if |x| > 0 {
      var n := |x|;
      SumAffine(x[..n - 1], y[..n - 1], a, b);
      assert a * Sum(x) == a * Sum(x[..n - 1]) + a * x[n - 1];
      assert (n as real) * b == ((n - 1) as real) * b + b;
    }
  }

  /** The mean commutes with an affine map of the elements. */
  lemma MeanAffine(x: seq<real>, y: seq<real>, a: real, b: real)
    requires |x| == |y| > 0
    requires forall i :: 0 <= i < |x| ==> y[i] == a * x[i] + b
    ensures Mean(y) == a * Mean(x) + b
  {
    var n := |x| as real;
    SumAffine(x, y, a, b);
    var mx, my := Mean(x), Mean(y);
    assert my * n == a * (mx * n) + n * b;
    assert (my - (a * mx + b)) * n == 0.0;
  }

  /** d[i] == a[i] - s*b[i] + t*c[i] at every index of four series of the
      same length. */
  predicate IsCombination(a: seq<real>, b: seq<real>, c: seq<real>, d: seq<real>, s: real, t: real)
  {
    |a| == |b| == |c| == |d| &&
    forall i :: 0 <= i < |d| ==> d[i] == a[i] - s * b[i] + t * c[i]
  }

  /** The series a[i] - s*b[i] + t*c[i]. */
  function Combine(a: seq<real>, b: seq<real>, c: seq<real>, s: real, t: real): (d: seq<real>)
    requires |a| == |b| == |c|
    ensures IsCombination(a, b, c, d, s, t)
  {
    seq(|a|, i requires 0 <= i < |a| => a[i] - s * b[i] + t * c[i])
  }

  /** The sum of a pointwise combination a[i] - s*b[i] + t*c[i] is the
      same combination of the sums. */
  lemma {:induction false} SumCombination(a: seq<real>, b: seq<real>, c: seq<real>, d: seq<real>,
                                          s: real, t: real)
    requires |a| == |b| == |c| == |d|
    requires IsCombination(a, b, c, d, s, t)
    ensures Sum(d) == Sum(a) - s * Sum(b) + t * Sum(c)
  {
    if |d| > 0 {
      var n := |d| - 1;
      CombinationPrefix(a, b, c, d, s, t, n);
      SumCombination(a[..n], b[..n], c[..n], d[..n], s, t);
      CombinationStep(Sum(a[..n]), Sum(b[..n]), Sum(c[..n]), Sum(d[..n]), a[n], b[n], c[n], d[n], s, t);
    }
  }

  /** The prefixes of a combination are a combination. */
  lemma CombinationPrefix(a: seq<real>, b: seq<real>, c: seq<real>, d: seq<real>, s: real, t: real, n: nat)
    requires IsCombination(a, b, c, d, s, t) && n <= |d|
    ensures IsCombination(a[..n], b[..n], c[..n], d[..n], s, t)
  {
  }

  /** One step of SumCombination on scalars: the combination of the
      prefix sums plus the combination of the next elements. */
  lemma CombinationStep(sa: real, sb: real, sc: real, sd: real, a: real, b: real, c: real, d: real,
                        s: real, t: real)
    requires sd == sa - s * sb + t * sc
    requires d == a - s * b + t * c
    ensures sd + d == (sa + a) - s * (sb + b) + t * (sc + c)
  {
  }

  /** A sum of non-negative terms is non-negative, and it is zero exactly
      when every term is zero. */
  lemma {:induction false} SumOfNonNegatives(s: seq<real>)
    requires forall i :: 0 <= i < |s| ==> s[i] >= 0.0
    ensures Sum(s) >= 0.0
    ensures Sum(s) == 0.0 <==> forall i :: 0 <= i < |s| ==> s[i] == 0.0
  {
    if |s| > 0 {
      var n := |s| - 1;
      SumOfNonNegatives(s[..n]);
      assert forall i :: 0 <= i < n ==> s[..n][i] == s[i];
    }
  }

  /** The deviations x[i] - m of a series from a centre m. */
  function Deviations(x: seq<real>, m: real): seq<real>
  {
    seq(|x|, i requires 0 <= i < |x| => x[i] - m)
  }

  /** The deviations from the mean sum to zero. */
  lemma DeviationsSumToZero(x: seq<real>)
    requires |x| > 0
    ensures Sum(Deviations(x, Mean(x))) == 0.0
  {
    var m := Mean(x);
    var d := Deviations(x, m);
    SumAffine(x, d, 1.0, -m);
    calc {
      Sum(d);
    ==
      1.0 * Sum(x) + (|x| as real) * (-m);
    ==
      m * (|x| as real) - (|x| as real) * m;
    ==
      0.0;
    }
  }
}
