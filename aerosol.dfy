/** The per-pixel aerosol filter of remove_aerosol: the samples of one pixel
    across the exposures, their truncated mean and median, the inlier test
    and the choice between the inlier mean and the unfiltered mean.

    The floating-point tests of the source are restated over integers:
    ss = 4/44 * sqrt(44), so d < ss * sqrt(m) is 44 * d^2 < 16 * m, and
    count > 0.9 * numsum is 10 * count > 9 * numsum. */
module AerosolFilter {
  import opened Common
  import opened SampleStats

  /** Numerator and denominator of the squared noise scale (4/44 * sqrt(44))^2 = 16/44. */
  const NOISE_NUM: nat := 16
  const NOISE_DEN: nat := 44

  /** The retention fraction 0.90 as RETAIN_NUM / RETAIN_DEN. */
  const RETAIN_NUM: nat := 9
  const RETAIN_DEN: nat := 10

  /** The deviation of sample x from median m as the frames compute it: both
      are uint32, so the difference wraps modulo 2^32 and abs leaves it alone. */
  function Deviation(x: nat, m: nat): nat {
    WrapU32(x - m)
  }

  /** Sample x is kept for median m when its deviation is below the noise
      scale times sqrt(m). */
  predicate IsInlier(x: nat, m: nat) {
    var d := Deviation(x, m);
    NOISE_DEN * (d * d) < NOISE_NUM * m
  }

  /** The samples kept by the inlier test, in exposure order (np.where). */
  function Inliers(xs: seq<nat>, m: nat): (r: seq<nat>)
    ensures |r| <= |xs|
  {
    if xs == [] then []
    else
      var rest := Inliers(xs[..|xs| - 1], m);
      if IsInlier(xs[|xs| - 1], m) then rest + [xs[|xs| - 1]] else rest
  }

  /** The filtered branch is taken when more than 90% of the samples are inliers. */
  predicate KeepsFiltered(inlierCount: nat, numsum: nat) {
    RETAIN_DEN * inlierCount > RETAIN_NUM * numsum
  }

  /** The corrected value of one pixel from its samples: it lies between
      the smallest and the largest of them on either branch. */
  function PixelEstimate(xs: seq<nat>): (r: nat)
    requires |xs| > 0
    ensures Sort(xs)[0] <= r <= Sort(xs)[|xs| - 1]
  {
    var ind := Inliers(xs, Median(xs));
    SortedEnds(xs);
    InliersAreInliers(xs, Median(xs));
    if KeepsFiltered(|ind|, |xs|) then
      MeanWithin(ind, Sort(xs)[0], Sort(xs)[|xs| - 1]);
      Mean(ind)
    else
      MeanWithin(xs, Sort(xs)[0], Sort(xs)[|xs| - 1]);
      Mean(xs)
  }

  /** For a median below 2^31 the wrapped test keeps exactly the samples at or
      above the median whose excess is within the noise scale; samples below
      the median wrap to a huge deviation and are never kept. A median of 0
      keeps nothing. */
  lemma InlierIff(x: nat, m: nat)
    requires IsU32(x) && m < 0x8000_0000
    ensures IsInlier(x, m) <==> m <= x && NOISE_DEN * ((x - m) * (x - m)) < NOISE_NUM * m
    ensures m == 0 ==> !IsInlier(x, m)
  {
    if x < m {
      var d := Deviation(x, m);
      assert d == x - m + TWO32;
      assert d >= 0x8000_0000;
      SquareAtLeast(d, 0x8000_0000);
    }
  }

  lemma SquareAtLeast(d: nat, k: nat)
    requires d >= k
    ensures d * d >= k * k
  {
    MulMonotone(k, d, d);
    MulMonotone(k, d, k);
  }

  /** With a median close to 2^32, a sample far below it wraps to a small
      deviation and is kept: here 0 is an inlier of the median 2^32 - 1. */
  lemma WrappedSampleBelowMedianKept()
    ensures IsInlier(0, TWO32 - 1)
  {
    assert Deviation(0, TWO32 - 1) == 1;
  }

  lemma {:induction false} InliersAreInliers(xs: seq<nat>, m: nat)
    ensures forall i :: 0 <= i < |Inliers(xs, m)| ==> IsInlier(Inliers(xs, m)[i], m)
    ensures forall lo, hi :: Within(xs, lo, hi) ==> Within(Inliers(xs, m), lo, hi)
  {
    if xs != [] {
      var init := xs[..|xs| - 1];
      InliersAreInliers(init, m);
      forall lo, hi | Within(xs, lo, hi) ensures Within(Inliers(xs, m), lo, hi) {
        assert Within(init, lo, hi);
      }
    }
  }

  /** The positions of the samples that pass the test. */
  function InlierIndices(xs: seq<nat>, m: nat): set<nat> {
    set i: nat | i < |xs| && IsInlier(xs[i], m)
  }

  /** np.where misses no passing sample: exactly as many samples are kept
      as pass the test, all of them passing (InliersAreInliers). */
  lemma {:induction false} InliersComplete(xs: seq<nat>, m: nat)
    ensures |Inliers(xs, m)| == |InlierIndices(xs, m)|
  {
    if xs != [] {
      var n := |xs| - 1;
      var init := xs[..n];
      InliersComplete(init, m);
      var s0 := InlierIndices(init, m);
      assert n !in s0;
      if IsInlier(xs[n], m) {
        assert InlierIndices(xs, m) == s0 + {n};
      } else {
        assert InlierIndices(xs, m) == s0;
      }
    }
  }

  /** np.where keeps exactly the passing samples: each passing value is kept
      as often as it occurs, and no other value is kept. */
  lemma {:induction false} InliersMultiset(xs: seq<nat>, m: nat)
    ensures forall v :: IsInlier(v, m) ==> multiset(Inliers(xs, m))[v] == multiset(xs)[v]
    ensures forall v :: !IsInlier(v, m) ==> multiset(Inliers(xs, m))[v] == 0
  {
    if xs != [] {
      var init := xs[..|xs| - 1];
      InliersMultiset(init, m);
      assert xs == init + [xs[|xs| - 1]];
    }
  }

  lemma {:induction false} InliersAll(xs: seq<nat>, m: nat)
    requires forall i :: 0 <= i < |xs| ==> IsInlier(xs[i], m)
    ensures Inliers(xs, m) == xs
  {
    if xs != [] {
      InliersAll(xs[..|xs| - 1], m);
    }
  }

  lemma {:induction false} InliersNone(xs: seq<nat>, m: nat)
    requires forall i :: 0 <= i < |xs| ==> !IsInlier(xs[i], m)
    ensures Inliers(xs, m) == []
  {
    if xs != [] {
      InliersNone(xs[..|xs| - 1], m);
    }
  }

  /** A pixel whose samples all equal v is corrected to v, on whichever
      branch: for v > 0 every sample is an inlier, for v = 0 none is and the
      unfiltered mean is used. */
  lemma ZeroVariance(xs: seq<nat>, v: nat)
    requires |xs| > 0 && IsU32(v)
    requires forall i :: 0 <= i < |xs| ==> xs[i] == v
    ensures PixelEstimate(xs) == v
  {
    MedianConstant(xs, v);
    MeanConstant(xs, v);
    assert Deviation(v, v) == 0;
    if v > 0 {
      InliersAll(xs, v);
    } else {
      InliersNone(xs, v);
    }
  }

  /** The corrected value lies between the smallest and the largest sample,
      so in particular it fits the uint32 frame type. */
  lemma EstimateWithin(xs: seq<nat>, lo: nat, hi: nat)
    requires |xs| > 0 && Within(xs, lo, hi)
    ensures lo <= PixelEstimate(xs) <= hi
  {
    var ind := Inliers(xs, Median(xs));
    InliersAreInliers(xs, Median(xs));
    MeanWithin(xs, lo, hi);
    if KeepsFiltered(|ind|, |xs|) {
      MeanWithin(ind, lo, hi);
    }
  }

  /** When the filtered branch is taken (and the median is below 2^31), the
      corrected value is the truncated mean of samples none of which is
      below the median, so it is never below the median. */
  lemma FilteredNotBelowMedian(xs: seq<nat>)
    requires |xs| > 0 && Within(xs, 0, TWO32 - 1)
    requires Median(xs) < 0x8000_0000
    requires KeepsFiltered(|Inliers(xs, Median(xs))|, |xs|)
    ensures Median(xs) <= PixelEstimate(xs)
  {
    var m := Median(xs);
    var ind := Inliers(xs, m);
    InliersAreInliers(xs, m);
    forall i | 0 <= i < |ind| ensures m <= ind[i] <= TWO32 - 1 {
      InlierIff(ind[i], m);
    }
    MeanWithin(ind, m, TWO32 - 1);
  }

  /** Ten exposures at 100 and one at 10000: the spike is rejected, the
      filtered branch is taken and the pixel is 100, while the unfiltered
      mean would have been 1000. */
  lemma SpikeRejected()
    ensures PixelEstimate(Repeat(100, 10) + [10000]) == 100
    ensures Mean(Repeat(100, 10) + [10000]) == 1000
  {
    var base := Repeat(100, 10);
    var xs := base + [10000];
    OneSpikeMedian(base, 10000);
    assert xs[..|xs| - 1] == base;
    assert !IsInlier(10000, 100);
    InliersAll(base, 100);
    assert Inliers(xs, 100) == base;
    MeanConstant(base, 100);
    SumAppend(base, 10000);
    SumConstant(base, 100);
  }

  /** Nine exposures at 100 and one at 10000: only 9 of 10 samples are
      inliers, which is not more than 90%, so the unfiltered mean 1090 is used. */
  lemma FallbackTaken()
    ensures PixelEstimate(Repeat(100, 9) + [10000]) == 1090
  {
    var base := Repeat(100, 9);
    var xs := base + [10000];
    OneSpikeMedian(base, 10000);
    assert xs[..|xs| - 1] == base;
    assert !IsInlier(10000, 100);
    InliersAll(base, 100);
    assert Inliers(xs, 100) == base;
    SumAppend(base, 10000);
    SumConstant(base, 100);
  }

  /** n copies of v. */
  function Repeat(v: nat, n: nat): (r: seq<nat>)
    ensures |r| == n && forall i :: 0 <= i < n ==> r[i] == v
  {
    seq(n, _ => v)
  }

  /** At least two copies of 100 followed by one larger spike have median 100. */
  lemma OneSpikeMedian(base: seq<nat>, spike: nat)
    requires |base| >= 2 && spike >= 100
    requires forall i :: 0 <= i < |base| ==> base[i] == 100
    ensures Median(base + [spike]) == 100
  {
    var xs := base + [spike];
    assert Sorted(xs);
    SortOfSorted(xs);
  }
}
