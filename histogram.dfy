/** np.histogram over explicit bin edges, np.cumsum, and the counts above each edge derived from them. */
module Histograms {
  import opened Failures

  /** v falls in [lo, hi), or in [lo, hi] for the last bin, which numpy closes on the right. */
  predicate InBin(v: real, lo: real, hi: real, closed: bool)
    ensures InBin(v, lo, hi, closed) ==> lo <= v <= hi
    ensures lo <= v < hi ==> InBin(v, lo, hi, closed)
    ensures v == hi ==> (InBin(v, lo, hi, closed) <==> closed && lo <= hi)
  {
    lo <= v && (v < hi || (closed && v == hi))
  }

  /** How many of vs fall in the bin from lo to hi. */
  function CountIn(vs: seq<real>, lo: real, hi: real, closed: bool): (n: nat)
    ensures n <= |vs|
  {
    if vs == [] then 0
    else CountIn(vs[..|vs| - 1], lo, hi, closed) + (if InBin(vs[|vs| - 1], lo, hi, closed) then 1 else 0)
  }

  /** How many of vs lie below t. */
  function CountBelow(vs: seq<real>, t: real): nat {
    if vs == [] then 0
    else CountBelow(vs[..|vs| - 1], t) + (if vs[|vs| - 1] < t then 1 else 0)
  }

  /** How many of vs lie at or above t, or strictly above it when strict. */
  function CountAbove(vs: seq<real>, t: real, strict: bool): nat {
    if vs == [] then 0
    else CountAbove(vs[..|vs| - 1], t, strict) + (if t < vs[|vs| - 1] || (!strict && t == vs[|vs| - 1]) then 1 else 0)
  }

  /** No value lies below a threshold that is at most all of them. */
  lemma {:induction false} CountBelowNone(vs: seq<real>, t: real)
    requires forall i :: 0 <= i < |vs| ==> t <= vs[i]
    ensures CountBelow(vs, t) == 0
  {
    if vs != [] {
      CountBelowNone(vs[..|vs| - 1], t);
    }
  }

  /** No value lies strictly above a threshold that is at least all of them. */
  lemma {:induction false} CountAboveNone(vs: seq<real>, t: real)
    requires forall i :: 0 <= i < |vs| ==> vs[i] <= t
    ensures CountAbove(vs, t, true) == 0
  {
    if vs != [] {
      CountAboveNone(vs[..|vs| - 1], t);
    }
  }

  /** Adjacent bins split the count of their union. */
  lemma {:induction false} CountSplit(vs: seq<real>, lo: real, mid: real, hi: real, closed: bool)
    requires lo <= mid <= hi
    ensures CountIn(vs, lo, mid, false) + CountIn(vs, mid, hi, closed) == CountIn(vs, lo, hi, closed)
  {
    if vs != [] {
      CountSplit(vs[..|vs| - 1], lo, mid, hi, closed);
    }
  }

  /** Every value lies below a bin, in it, or above it, and in exactly one of the three. */
  lemma {:induction false} CountPartition(vs: seq<real>, lo: real, hi: real, closed: bool)
    requires lo <= hi
    ensures CountBelow(vs, lo) + CountIn(vs, lo, hi, closed) + CountAbove(vs, hi, closed) == |vs|
  {
    if vs != [] {
      CountPartition(vs[..|vs| - 1], lo, hi, closed);
    }
  }

  /** numpy's check on array bins: no edge is greater than the next one. */
  predicate Monotonic(bins: seq<real>) {
    forall i :: 0 <= i < |bins| - 1 ==> bins[i] <= bins[i + 1]
  }

  lemma {:induction false} MonotonicOrdered(bins: seq<real>, i: int, j: int)
    requires Monotonic(bins)
    requires 0 <= i <= j < |bins|
    ensures bins[i] <= bins[j]
  {
    if i < j {
      MonotonicOrdered(bins, i, j - 1);
    }
  }

  /** One bin between each pair of neighbouring edges. */
  function NumBins(bins: seq<real>): nat {
    if |bins| == 0 then 0 else |bins| - 1
  }

  /** Per-bin counts: bin i holds the values in [bins[i], bins[i+1]), the last bin also its right edge. */
  function Counts(vs: seq<real>, bins: seq<real>): (c: seq<nat>)
    ensures |c| == NumBins(bins)
    ensures forall i :: 0 <= i < |c| ==> c[i] <= |vs|
  {
    seq(NumBins(bins), i requires 0 <= i < NumBins(bins) => CountIn(vs, bins[i], bins[i + 1], i == NumBins(bins) - 1))
  }

  /** np.histogram(vs, bins=bins)[0]: the counts, or the ValueError numpy raises for decreasing edges. */
  function Histogram(vs: seq<real>, bins: seq<real>): (r: Result<seq<nat>>)
    ensures r.Ok? <==> Monotonic(bins)
    ensures r.Err? ==> r.error == BinsNotMonotonic
    ensures r.Ok? ==> |r.value| == NumBins(bins)
    ensures r.Ok? ==> forall i :: 0 <= i < NumBins(bins) ==> r.value[i] == CountIn(vs, bins[i], bins[i + 1], i == NumBins(bins) - 1)
  {
    if Monotonic(bins) then Ok(Counts(vs, bins)) else Err(BinsNotMonotonic)
  }

  function Sum(xs: seq<nat>): nat {
    if xs == [] then 0 else Sum(xs[..|xs| - 1]) + xs[|xs| - 1]
  }

  /** np.cumsum: entry i is the sum of xs[0..i]. */
  function CumSum(xs: seq<nat>): (c: seq<nat>)
    ensures |c| == |xs|
    ensures forall i :: 0 <= i < |xs| ==> c[i] == Sum(xs[..i + 1])
  {
    if xs == [] then []
    else
      var n := |xs|;
      var c := CumSum(xs[..n - 1]);
      var last := (if c == [] then 0 else c[|c| - 1]) + xs[n - 1];
      assert xs[..n] == xs;
      assert last == Sum(xs[..n]) by {
        if n > 1 { assert xs[..n - 1][..n - 1] == xs[..n - 1]; }
      }
      PrefixSums(xs, c);
      var r := c + [last];
      assert forall i :: 0 <= i < n - 1 ==> r[i] == c[i];
      r
  }

  lemma PrefixSums(xs: seq<nat>, c: seq<nat>)
    requires |xs| > 0 && |c| == |xs| - 1
    requires forall i :: 0 <= i < |c| ==> c[i] == Sum(xs[..|xs| - 1][..i + 1])
    ensures forall i :: 0 <= i < |c| ==> c[i] == Sum(xs[..i + 1])
  {
    forall i | 0 <= i < |c| ensures c[i] == Sum(xs[..i + 1]) {
      assert xs[..|xs| - 1][..i + 1] == xs[..i + 1];
    }
  }

  /** Each running sum adds one count to the previous one. */
  lemma CumSumStep(xs: seq<nat>, i: int)
    requires 0 < i < |xs|
    ensures CumSum(xs)[i] == CumSum(xs)[i - 1] + xs[i]
  {
    assert xs[..i + 1][..i] == xs[..i];
  }

  /** A running sum of counts never decreases. */
  lemma {:induction false} CumSumMonotone(xs: seq<nat>, i: int, j: int)
    requires 0 <= i <= j < |xs|
    ensures CumSum(xs)[i] <= CumSum(xs)[j]
  {
    if i < j {
      CumSumMonotone(xs, i, j - 1);
      CumSumStep(xs, j);
    }
  }

  /** The running sum of the histogram at bin k counts the values from bins[0] up to the right edge of bin k. */
  lemma {:induction false} CumulativeCounts(vs: seq<real>, bins: seq<real>, k: int)
    requires Monotonic(bins)
    requires 0 <= k < NumBins(bins)
    ensures CumSum(Counts(vs, bins))[k] == CountIn(vs, bins[0], bins[k + 1], k == NumBins(bins) - 1)
  {
    var cs := Counts(vs, bins);
    if k == 0 {
      assert cs[..1] == [cs[0]];
      assert Sum([cs[0]]) == cs[0] by { assert [cs[0]][..0] == []; }
    } else {
      CumulativeCounts(vs, bins, k - 1);
      MonotonicOrdered(bins, 0, k);
      MonotonicOrdered(bins, k, k + 1);
      CountSplit(vs, bins[0], bins[k], bins[k + 1], k == NumBins(bins) - 1);
      CumSumStep(cs, k);
    }
  }

  /** N - cumulative_values */
  function Complement(n: int, cs: seq<nat>): (y: seq<int>)
    ensures |y| == |cs|
    ensures forall i :: 0 <= i < |cs| ==> y[i] == n - cs[i]
  {
    seq(|cs|, i requires 0 <= i < |cs| => n - cs[i])
  }

  /** The complementary count at bin k: the values below bins[0] plus those past the right edge of bin k. */
  lemma ComplementCounts(vs: seq<real>, bins: seq<real>, k: int)
    requires Monotonic(bins)
    requires 0 <= k < NumBins(bins)
    ensures Complement(|vs|, CumSum(Counts(vs, bins)))[k]
         == CountBelow(vs, bins[0]) + CountAbove(vs, bins[k + 1], k == NumBins(bins) - 1)
  {
    CumulativeCounts(vs, bins, k);
    MonotonicOrdered(bins, 0, k + 1);
    CountPartition(vs, bins[0], bins[k + 1], k == NumBins(bins) - 1);
  }
}
