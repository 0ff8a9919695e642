/** Arithmetic means over real-valued samples: the bucket mean behind
    `groupby(...).mean()` and the trailing window behind `rolling(window).mean()`. */
module Averages {
  import opened Wrappers

  /** Sum of the samples. */
  function Sum(xs: seq<real>): real
  {
    if |xs| == 0 then 0.0 else xs[0] + Sum(xs[1..])
  }

  /** Arithmetic mean of a non-empty list of samples. */
  function Mean(xs: seq<real>): real
    requires |xs| > 0
  {
    Sum(xs) / (|xs| as real)
  }

  /** Every sample divided by `c`. */
  function DivideAll(xs: seq<real>, c: real): (ys: seq<real>)
    requires c != 0.0
    ensures |ys| == |xs|
    ensures forall i :: 0 <= i < |xs| ==> ys[i] == xs[i] / c
  {
    seq(|xs|, i requires 0 <= i < |xs| => xs[i] / c)
  }

  /** Appending a sample adds it to the sum. */
  lemma {:induction false} SumAppend(xs: seq<real>, v: real)
    ensures Sum(xs + [v]) == Sum(xs) + v
    decreases |xs|
  {
    if |xs| == 0 {
      assert xs + [v] == [v];
    } else {
      assert (xs + [v])[1..] == xs[1..] + [v];
      SumAppend(xs[1..], v);
    }
  }

  /** The running-mean update: the mean of n samples averaging `m`, and one
      more sample `v`. */
  function RunningUpdate(m: real, n: nat, v: real): (next: real)
    ensures next * (n as real + 1.0) == m * (n as real) + v
  {
    (m * (n as real) + v) / (n as real + 1.0)
  }

  /** The mean after one more sample is the running update of the mean before it. */
  lemma RunningMean(xs: seq<real>, v: real)
    requires |xs| > 0
    ensures Mean(xs + [v]) == RunningUpdate(Mean(xs), |xs|, v)
  {
    SumAppend(xs, v);
    var n := |xs| as real;
    assert |xs + [v]| as real == n + 1.0;
    assert Mean(xs) * n == Sum(xs);
  }

  /** If every sample lies in [lo, hi], the sum lies between |xs| * lo and |xs| * hi. */
  lemma {:induction false} SumBounds(xs: seq<real>, lo: real, hi: real)
    requires forall i :: 0 <= i < |xs| ==> lo <= xs[i] <= hi
    ensures (|xs| as real) * lo <= Sum(xs) <= (|xs| as real) * hi
  {
    if |xs| > 0 {
      SumBounds(xs[1..], lo, hi);
      assert (|xs| as real) * lo == lo + (|xs[1..]| as real) * lo;
      assert (|xs| as real) * hi == hi + (|xs[1..]| as real) * hi;
    }
  }

  /** The mean never leaves the range of its samples. */
  lemma MeanBounds(xs: seq<real>, lo: real, hi: real)
    requires |xs| > 0
    requires forall i :: 0 <= i < |xs| ==> lo <= xs[i] <= hi
    ensures lo <= Mean(xs) <= hi
  {
    var n := |xs| as real;
    SumBounds(xs, lo, hi);
    assert Mean(xs) * n == Sum(xs);
  }

  /** Dividing every sample by `c` divides the sum by `c`. */
  lemma {:induction false} SumDivideAll(xs: seq<real>, c: real)
    requires c != 0.0
    ensures Sum(DivideAll(xs, c)) == Sum(xs) / c
  {
    if |xs| > 0 {
      SumDivideAll(xs[1..], c);
      assert DivideAll(xs, c)[1..] == DivideAll(xs[1..], c);
    }
  }

  /** Dividing every sample by `c` divides the mean by `c`. */
  lemma MeanDivideAll(xs: seq<real>, c: real)
    requires |xs| > 0 && c != 0.0
    ensures Mean(DivideAll(xs, c)) == Mean(xs) / c
  {
    var n := |xs| as real;
    SumDivideAll(xs, c);
    calc {
      Mean(DivideAll(xs, c));
      Sum(DivideAll(xs, c)) / n;
      (Sum(xs) / c) / n;
      (Sum(xs) / n) / c;
      Mean(xs) / c;
    }
  }

  /** pandas `Series.rolling(window=w).mean()` with the default `min_periods = w`:
      position i holds the mean of the w samples ending at i, and is undefined
      (NaN, here None) while fewer than w samples are available. */
  function RollingMean(xs: seq<real>, w: nat): (r: seq<Option<real>>)
    requires w > 0
    ensures |r| == |xs|
    ensures forall i :: 0 <= i < |xs| ==> (r[i].Some? <==> i >= w - 1)
  {
    seq(|xs|, i requires 0 <= i < |xs| =>
      if i + 1 < w then None else Some(Mean(xs[i + 1 - w .. i + 1])))
  }

  /** Each defined rolling mean lies in the range of the inputs. */
  lemma RollingMeanBounds(xs: seq<real>, w: nat, lo: real, hi: real)
    requires w > 0
    requires forall i :: 0 <= i < |xs| ==> lo <= xs[i] <= hi
    ensures forall i :: 0 <= i < |xs| && RollingMean(xs, w)[i].Some? ==>
      lo <= RollingMean(xs, w)[i].value <= hi
  {
    forall i | 0 <= i < |xs| && RollingMean(xs, w)[i].Some?
      ensures lo <= RollingMean(xs, w)[i].value <= hi
    {
      MeanBounds(xs[i + 1 - w .. i + 1], lo, hi);
    }
  }

  /** Smoothing commutes with dividing by a constant: smoothing `xs / c` gives
      the smoothed `xs` divided by `c`, with the same undefined positions. */
  lemma RollingMeanDivideAll(xs: seq<real>, w: nat, c: real)
    requires w > 0 && c != 0.0
    ensures forall i :: 0 <= i < |xs| ==>
      RollingMean(DivideAll(xs, c), w)[i] ==
        if RollingMean(xs, w)[i].Some? then Some(RollingMean(xs, w)[i].value / c) else None
  {
    forall i | 0 <= i < |xs| && i + 1 >= w
      ensures RollingMean(DivideAll(xs, c), w)[i] == Some(RollingMean(xs, w)[i].value / c)
    {
      var window := xs[i + 1 - w .. i + 1];
      assert DivideAll(xs, c)[i + 1 - w .. i + 1] == DivideAll(window, c);
      MeanDivideAll(window, c);
    }
  }
}
