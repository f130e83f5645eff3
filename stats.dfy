/** The window statistics of `listLastValues`: the mean, the maximum and the
    minimum of the whole price history, seeded zeros included. */
module Stats {
  import opened Wrappers

  /** Left-to-right sum, as Python's `sum`. */
  function Sum(s: seq<real>): real
  {
    if s == [] then 0.0 else Sum(s[..|s| - 1]) + s[|s| - 1]
  }

  /** Python's `max` of a non-empty list: an element that no element exceeds. */
  function Max(s: seq<real>): (m: real)
    requires s != []
    ensures m in s
    ensures forall i :: 0 <= i < |s| ==> s[i] <= m
  {
    if |s| == 1 then s[0]
    else
      var m := Max(s[..|s| - 1]);
      assert forall i :: 0 <= i < |s| - 1 ==> s[..|s| - 1][i] == s[i];
      if s[|s| - 1] > m then s[|s| - 1] else m
  }

  /** Python's `min` of a non-empty list: an element no element is below. */
  function Min(s: seq<real>): (m: real)
    requires s != []
    ensures m in s
    ensures forall i :: 0 <= i < |s| ==> m <= s[i]
  {
    if |s| == 1 then s[0]
    else
      var m := Min(s[..|s| - 1]);
      assert forall i :: 0 <= i < |s| - 1 ==> s[..|s| - 1][i] == s[i];
      if s[|s| - 1] < m then s[|s| - 1] else m
  }

  /** A sum of `|s|` values that all lie in [lo, hi] lies in [|s|·lo, |s|·hi]. */
  lemma {:induction false} SumBetween(s: seq<real>, lo: real, hi: real)
    requires forall i :: 0 <= i < |s| ==> lo <= s[i] <= hi
    ensures |s| as real * lo <= Sum(s) <= |s| as real * hi
  {
    if s != [] {
      var p := s[..|s| - 1];
      assert forall i :: 0 <= i < |p| ==> p[i] == s[i];
      SumBetween(p, lo, hi);
      assert |s| as real * lo == |p| as real * lo + lo;
      assert |s| as real * hi == |p| as real * hi + hi;
    }
  }

  /** Dividing a total that lies in [n·lo, n·hi] by `n` gives a mean in [lo, hi]. */
  lemma MeanBetween(total: real, n: real, lo: real, hi: real)
    requires n > 0.0 && n * lo <= total <= n * hi
    ensures (total / n) * n == total
    ensures lo <= total / n <= hi
  {
    var m := total / n;
    assert m * n == total;
    assert (m - lo) * n == total - n * lo;
    assert (hi - m) * n == n * hi - total;
  }

  /** `m` is the mean of `s`: `m` times the length of `s` is its sum. */
  predicate IsMean(m: real, s: seq<real>)
  {
    m * |s| as real == Sum(s)
  }

  /** The sum divided by the length is the mean. */
  lemma {:induction false} MeanTimesLength(s: seq<real>)
    requires s != []
    ensures IsMean(Sum(s) / |s| as real, s)
  {
    MeanBetween(Sum(s), |s| as real, Sum(s) / |s| as real, Sum(s) / |s| as real);
  }

  /** The mean lies between the minimum and the maximum. */
  lemma {:induction false} MeanBetweenExtremes(s: seq<real>)
    requires s != []
    ensures Min(s) <= Sum(s) / |s| as real <= Max(s)
  {
    var n, lo, hi := |s| as real, Min(s), Max(s);
    SumBetween(s, lo, hi);
    MeanBetween(Sum(s), n, lo, hi);
  }

  datatype WindowStats = WindowStats(avg: real, max: real, min: real)

  /** `listLastValues`: `None` stands for the ZeroDivisionError raised on an
      empty history. The average is the mean of the list and lies between
      the minimum and the maximum, which are elements of the list that
      bound every element. */
  function ListLastValues(s: seq<real>): (r: Option<WindowStats>)
    ensures r.None? <==> s == []
    ensures r.Some? ==> IsMean(r.value.avg, s)
    ensures r.Some? ==> r.value.min <= r.value.avg <= r.value.max
    ensures r.Some? ==> r.value.max in s && r.value.min in s
    ensures r.Some? ==> forall i :: 0 <= i < |s| ==> r.value.min <= s[i] <= r.value.max
  {
    if s == [] then None
    else
      MeanTimesLength(s);
      MeanBetweenExtremes(s);
      Some(WindowStats(Sum(s) / |s| as real, Max(s), Min(s)))
  }
}
