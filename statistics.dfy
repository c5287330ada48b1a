/** Order statistics over real numbers: the median of `np.median` and
    `DataFrame.median`, and the quantile of `DataFrame.quantile` with its
    default linear interpolation. A missing result (`None`) stands for the NaN
    these return on an empty input. */
module Statistics {
  import opened Results

  function Sum(s: seq<real>): real {
    if |s| == 0 then 0.0 else s[0] + Sum(s[1..])
  }

  predicate Sorted(s: seq<real>) {
    forall i, j :: 0 <= i <= j < |s| ==> s[i] <= s[j]
  }

  function Insert(x: real, s: seq<real>): (r: seq<real>)
    requires Sorted(s)
    ensures Sorted(r)
    ensures multiset(r) == multiset(s) + multiset{x}
    ensures |r| == |s| + 1
    ensures forall k :: 0 <= k < |r| ==> r[k] == x || r[k] in s
  {
    if |s| == 0 then [x]
    else if x <= s[0] then [x] + s
    else
      var rest := Insert(x, s[1..]);
      assert s == [s[0]] + s[1..];
      LeastOfTail(s);
      assert forall k :: 0 <= k < |rest| ==> s[0] <= rest[k];
      [s[0]] + rest
  }

  /** The head of a sorted sequence is below every later value. */
  lemma LeastOfTail(s: seq<real>)
    requires Sorted(s) && |s| > 0
    ensures forall y :: y in s[1..] ==> s[0] <= y
  {
    forall y | y in s[1..] ensures s[0] <= y {
      var i :| 0 <= i < |s[1..]| && s[1..][i] == y;
      assert s[i + 1] == y;
    }
  }

  /** The values of `s` in ascending order. */
  function Sort(s: seq<real>): (r: seq<real>)
    ensures Sorted(r)
    ensures multiset(r) == multiset(s)
    ensures |r| == |s|
  {
    if |s| == 0 then []
    else
      assert s == [s[0]] + s[1..];
      Insert(s[0], Sort(s[1..]))
  }

  /** `np.median`: the middle value, or the mean of the two middle values. */
  function Median(s: seq<real>): Option<real> {
    if |s| == 0 then None
    else
      var t := Sort(s);
      var n := |t|;
      if n % 2 == 1 then Some(t[n / 2]) else Some((t[n / 2 - 1] + t[n / 2]) / 2.0)
  }

  /** `m * q` for q = 0, ..., 4, written as a sum so that the index arithmetic
      of the quantiles stays linear. */
  function Times(m: nat, q: nat): nat
    requires q <= 4
  {
    if q == 0 then 0
    else if q == 1 then m
    else if q == 2 then m + m
    else if q == 3 then m + m + m
    else m + m + m + m
  }

  /** Where the quantile `q / 4` of `m + 1` sorted values falls: it lies at
      index `(m * q) / 4`, at `(m * q) % 4` quarters of the way to the next
      value, and only the top quantile reaches the last index. */
  lemma QuarterIndex(m: nat, q: nat)
    requires q <= 4
    ensures Times(m, q) / 4 <= m
    ensures Times(m, q) / 4 == m ==> Times(m, q) % 4 == 0
  {
  }

  /** `DataFrame.quantile(q / 4)` with linear interpolation: q = 1 is the first
      quartile, q = 2 the median, q = 3 the third quartile. */
  function Quantile(s: seq<real>, q: nat): Option<real>
    requires q <= 4
  {
    if |s| == 0 then None
    else
      var t := Sort(s);
      var h := Times(|t| - 1, q);
      QuarterIndex(|t| - 1, q);
      Some(Interpolate(t, h / 4, h % 4))
  }

  /** The value `r` quarters of the way from index `i` to index `i + 1` of `t`. */
  function Interpolate(t: seq<real>, i: nat, r: nat): real
    requires i < |t| && r < 4
  {
    if i + 1 < |t| then t[i] + QuarterOf(r, t[i + 1] - t[i]) else t[i]
  }

  /** `r / 4` of a gap `d`, for r = 0, 1, 2, 3. */
  function QuarterOf(r: nat, d: real): real
    requires r < 4
  {
    if r == 0 then 0.0 else if r == 1 then d / 4.0 else if r == 2 then d / 2.0 else 3.0 * d / 4.0
  }

  /** A fraction of a non-negative gap lies within the gap, and grows with `r`. */
  lemma QuarterBounds(r: nat, r': nat, d: real)
    requires r <= r' < 4 && 0.0 <= d
    ensures 0.0 <= QuarterOf(r, d) <= QuarterOf(r', d) <= d
  {
  }

  /** The median is the quantile at one half, so statistics computed either way agree. */
  lemma MedianIsQuantile(s: seq<real>)
    ensures Median(s) == Quantile(s, 2)
  {
    if |s| > 0 {
      var t := Sort(s);
      var n := |t|;
      HalfIndex(n);
      if n % 2 == 0 {
        assert Interpolate(t, n / 2 - 1, 2) == (t[n / 2 - 1] + t[n / 2]) / 2.0;
      }
    }
  }

  /** Where the quantile at one half of `n` values falls. */
  lemma HalfIndex(n: nat)
    requires n > 0
    ensures n % 2 == 1 ==> Times(n - 1, 2) / 4 == n / 2 && Times(n - 1, 2) % 4 == 0
    ensures n % 2 == 0 ==> Times(n - 1, 2) / 4 == n / 2 - 1 && Times(n - 1, 2) % 4 == 2
  {
  }

  /** Where the quantiles at `q / 4` and `(q + 1) / 4` of `m + 1` values fall,
      relative to each other. */
  lemma StepIndex(m: nat, q: nat)
    requires q < 4
    ensures Times(m, q) / 4 <= Times(m, q + 1) / 4
    ensures Times(m, q) / 4 == Times(m, q + 1) / 4 ==> Times(m, q) % 4 <= Times(m, q + 1) % 4
  {
    assert Times(m, q + 1) == Times(m, q) + m;
  }

  /** An interpolated value lies between the value at its index and the next one. */
  lemma InterpolateBounds(t: seq<real>, i: nat, r: nat)
    requires Sorted(t) && i < |t| && r < 4
    ensures t[i] <= Interpolate(t, i, r)
    ensures i + 1 < |t| ==> Interpolate(t, i, r) <= t[i + 1]
  {
    if i + 1 < |t| {
      QuarterBounds(r, 3, t[i + 1] - t[i]);
    }
  }

  /** Interpolation is monotone in its position. */
  lemma InterpolateMonotone(t: seq<real>, i: nat, ri: nat, j: nat, rj: nat)
    requires Sorted(t) && i <= j < |t| && ri < 4 && rj < 4
    requires i == j ==> ri <= rj
    ensures Interpolate(t, i, ri) <= Interpolate(t, j, rj)
  {
    if i == j {
      if i + 1 < |t| {
        QuarterBounds(ri, rj, t[i + 1] - t[i]);
      }
    } else {
      InterpolateBounds(t, i, ri);
      InterpolateBounds(t, j, rj);
      assert t[i + 1] <= t[j];
    }
  }

  /** One quarter higher never gives a lower quantile. */
  lemma QuantileStep(s: seq<real>, q: nat)
    requires |s| > 0 && q < 4
    ensures Quantile(s, q).value <= Quantile(s, q + 1).value
  {
    var t := Sort(s);
    var m := |t| - 1;
    QuarterIndex(m, q);
    QuarterIndex(m, q + 1);
    StepIndex(m, q);
    var h1, h2 := Times(m, q), Times(m, q + 1);
    assert Quantile(s, q) == Some(Interpolate(t, h1 / 4, h1 % 4));
    assert Quantile(s, q + 1) == Some(Interpolate(t, h2 / 4, h2 % 4));
    InterpolateMonotone(t, h1 / 4, h1 % 4, h2 / 4, h2 % 4);
  }

  /** The first quartile, the median and the third quartile are in order, so the
      interquartile range is never negative. */
  lemma QuartilesOrdered(s: seq<real>)
    requires |s| > 0
    ensures Quantile(s, 1).value <= Median(s).value <= Quantile(s, 3).value
    ensures Quantile(s, 3).value - Quantile(s, 1).value >= 0.0
  {
    MedianIsQuantile(s);
    QuantileStep(s, 1);
    QuantileStep(s, 2);
  }

  /** The median lies within any bounds that hold for every value. */
  lemma MedianWithinBounds(s: seq<real>, lo: real, hi: real)
    requires |s| > 0
    requires forall k :: 0 <= k < |s| ==> lo <= s[k] <= hi
    ensures lo <= Median(s).value <= hi
  {
    var t := Sort(s);
    forall k | 0 <= k < |t| ensures lo <= t[k] <= hi {
      assert t[k] in multiset(t);
      assert t[k] in multiset(s);
      var i :| 0 <= i < |s| && s[i] == t[k];
    }
  }
}
