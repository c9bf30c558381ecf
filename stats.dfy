/**
 * Sums and means of a numeric column, and the trailing rolling mean
 * (`rolling(window, min_periods=1).mean()`) over row positions.
 */
module Stats {

  /** The sum of a column, accumulated from the first row to the last. */
  function Sum(s: seq<real>): real {
    if |s| == 0 then 0.0 else Sum(s[..|s| - 1]) + s[|s| - 1]
  }

  lemma {:induction false} SumAppend(a: seq<real>, b: seq<real>)
    ensures Sum(a + b) == Sum(a) + Sum(b)
  {
    if |b| == 0 {
      assert a + b == a;
    } else {
      assert (a + b)[..|a + b| - 1] == a + b[..|b| - 1];
      SumAppend(a, b[..|b| - 1]);
    }
  }

  /** Removing the first row of a column removes its value from the sum. */
  lemma {:induction false} SumFront(s: seq<real>)
    requires |s| > 0
    ensures Sum(s) == s[0] + Sum(s[1..])
  {
    if |s| > 1 {
      var init := s[..|s| - 1];
      SumFront(init);
      assert s[1..][..|s| - 2] == init[1..];
    }
  }

  /** The arithmetic mean of a non-empty column. */
  function Mean(s: seq<real>): real
    requires |s| > 0
  {
    Sum(s) / |s| as real
  }

  lemma {:induction false} SumBounds(s: seq<real>, lo: real, hi: real)
    requires forall k :: 0 <= k < |s| ==> lo <= s[k] <= hi
    ensures lo * |s| as real <= Sum(s) <= hi * |s| as real
  {
    if |s| > 0 {
      SumBounds(s[..|s| - 1], lo, hi);
    }
  }

  /** A mean lies between any lower and upper bound of the values averaged. */
  lemma MeanBounds(s: seq<real>, lo: real, hi: real)
    requires |s| > 0
    requires forall k :: 0 <= k < |s| ==> lo <= s[k] <= hi
    ensures lo <= Mean(s) <= hi
  {
    SumBounds(s, lo, hi);
    var n := |s| as real;
    assert Mean(s) * n == Sum(s);
  }

  /** First row of the trailing window of width `w` that ends at row `i`. */
  function WindowStart(i: nat, w: nat): (start: nat)
    requires w >= 1
    ensures start <= i
    ensures i + 1 - start == if i + 1 < w then i + 1 else w
  {
    if i + 1 >= w then i + 1 - w else 0
  }

  /** One step of the running sum: the new sum is the previous one plus the row
      entering the window minus the row leaving it. */
  lemma TrailingStep(xs: seq<real>, w: nat, prev: seq<real>)
    requires w >= 1 && |xs| > 0
    requires |prev| == |xs| - 1
    requires forall i :: 0 <= i < |prev| ==> prev[i] == Sum(xs[..|xs| - 1][WindowStart(i, w)..i + 1])
    ensures var n := |xs| - 1;
      (if n == 0 then 0.0 else prev[n - 1]) + xs[n] - (if n >= w then xs[n - w] else 0.0)
        == Sum(xs[WindowStart(n, w)..n + 1])
  {
    var n := |xs| - 1;
    var a := WindowStart(n, w);
    assert xs[a..n + 1][..n - a] == xs[a..n];
    assert Sum(xs[a..n + 1]) == Sum(xs[a..n]) + xs[n];
    if n > 0 {
      var b := WindowStart(n - 1, w);
      assert xs[..n][b..n] == xs[b..n];
      if n >= w {
        assert b == n - w && a == n - w + 1;
        SumFront(xs[b..n]);
        assert xs[b..n][1..] == xs[a..n];
      } else {
        assert a == b;
      }
    } else {
      assert xs[a..n] == [];
    }
  }

  /** Appending the stepped sum keeps every entry equal to its window's sum. */
  lemma TrailingExtend(xs: seq<real>, w: nat, prev: seq<real>, next: real)
    requires w >= 1 && |xs| > 0
    requires |prev| == |xs| - 1
    requires forall i :: 0 <= i < |prev| ==> prev[i] == Sum(xs[..|xs| - 1][WindowStart(i, w)..i + 1])
    requires var n := |xs| - 1;
      next == (if n == 0 then 0.0 else prev[n - 1]) + xs[n] - (if n >= w then xs[n - w] else 0.0)
    ensures forall i :: 0 <= i < |xs| ==> (prev + [next])[i] == Sum(xs[WindowStart(i, w)..i + 1])
  {
    var n := |xs| - 1;
    forall i | 0 <= i < |xs|
      ensures (prev + [next])[i] == Sum(xs[WindowStart(i, w)..i + 1])
    {
      if i < n {
        assert xs[..n][WindowStart(i, w)..i + 1] == xs[WindowStart(i, w)..i + 1];
      } else {
        TrailingStep(xs, w, prev);
      }
    }
  }

  /** The window sums computed the way an online rolling mean does, one row at
      a time; each equals the plain sum of its trailing window. */
  function TrailingSums(xs: seq<real>, w: nat): (r: seq<real>)
    requires w >= 1
    ensures |r| == |xs|
    ensures forall i :: 0 <= i < |xs| ==> r[i] == Sum(xs[WindowStart(i, w)..i + 1])
    decreases |xs|
  {
    if |xs| == 0 then []
    else
      var n := |xs| - 1;
      var prev := TrailingSums(xs[..n], w);
      var next := (if n == 0 then 0.0 else prev[n - 1]) + xs[n] - (if n >= w then xs[n - w] else 0.0);
      TrailingExtend(xs, w, prev, next);
      prev + [next]
  }

  /** The rolling mean with `min_periods=1`: every row has a value, the mean of
      the last `min(i + 1, w)` rows up to and including row `i`. */
  function RollingMean(xs: seq<real>, w: nat): (r: seq<real>)
    requires w >= 1
    ensures |r| == |xs|
    ensures forall i :: 0 <= i < |xs| ==> r[i] == Mean(xs[WindowStart(i, w)..i + 1])
  {
    var sums := TrailingSums(xs, w);
    seq(|xs|, i requires 0 <= i < |xs| => sums[i] / (i + 1 - WindowStart(i, w)) as real)
  }

  /** The first row's rolling mean is that row's own value. */
  lemma RollingMeanFirstRow(xs: seq<real>, w: nat)
    requires w >= 1 && |xs| > 0
    ensures RollingMean(xs, w)[0] == xs[0]
  {
    var first := xs[WindowStart(0, w)..1];
    assert first == [xs[0]];
    assert first[..0] == [];
    assert Sum(first) == xs[0];
  }

  /** A rolling mean never leaves the range of the values it averages. */
  lemma RollingMeanBounds(xs: seq<real>, w: nat, lo: real, hi: real)
    requires w >= 1
    requires forall k :: 0 <= k < |xs| ==> lo <= xs[k] <= hi
    ensures forall i :: 0 <= i < |xs| ==> lo <= RollingMean(xs, w)[i] <= hi
  {
    var r := RollingMean(xs, w);
    forall i | 0 <= i < |xs|
      ensures lo <= r[i] <= hi
    {
      MeanBounds(xs[WindowStart(i, w)..i + 1], lo, hi);
    }
  }
}
