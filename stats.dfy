/** Reductions over the samples of one pixel, as numpy computes them along
    the exposure axis: the sum, the truncated mean and the truncated median. */
module SampleStats {
  import opened Common

  function Sum(xs: seq<nat>): nat {
    if xs == [] then 0 else Sum(xs[..|xs| - 1]) + xs[|xs| - 1]
  }

  lemma SumAppend(xs: seq<nat>, x: nat)
    ensures Sum(xs + [x]) == Sum(xs) + x
  {
    assert (xs + [x])[..|xs|] == xs;
  }

  /** Every sample lies in [lo, hi]. */
  predicate Within(xs: seq<nat>, lo: nat, hi: nat) {
    forall i :: 0 <= i < |xs| ==> lo <= xs[i] <= hi
  }

  lemma {:induction false} SumBounds(xs: seq<nat>, lo: nat, hi: nat)
    requires Within(xs, lo, hi)
    ensures lo * |xs| <= Sum(xs) <= hi * |xs|
  {
    if xs != [] {
      var init := xs[..|xs| - 1];
      assert Within(init, lo, hi);
      SumBounds(init, lo, hi);
      assert lo * |xs| == lo * |init| + lo;
      assert hi * |xs| == hi * |init| + hi;
    }
  }

  /** The sum of n copies of v is n * v. */
  lemma {:induction false} SumConstant(xs: seq<nat>, v: nat)
    requires forall i :: 0 <= i < |xs| ==> xs[i] == v
    ensures Sum(xs) == |xs| * v
  {
    if xs != [] {
      SumConstant(xs[..|xs| - 1], v);
      assert |xs| * v == (|xs| - 1) * v + v;
    }
  }

  /** The arithmetic mean, truncated to an integer as astype does for
      non-negative values. */
  function Mean(xs: seq<nat>): (r: nat)
    requires |xs| > 0
    ensures r * |xs| <= Sum(xs) < (r + 1) * |xs|
  {
    Sum(xs) / |xs|
  }

  /** The truncated mean lies between the smallest and the largest sample. */
  lemma MeanWithin(xs: seq<nat>, lo: nat, hi: nat)
    requires |xs| > 0 && Within(xs, lo, hi)
    ensures lo <= Mean(xs) <= hi
  {
    SumBounds(xs, lo, hi);
    DivBounds(Sum(xs), |xs|, lo, hi);
  }

  /** A mean of samples all equal to v is v. */
  lemma MeanConstant(xs: seq<nat>, v: nat)
    requires |xs| > 0
    requires forall i :: 0 <= i < |xs| ==> xs[i] == v
    ensures Mean(xs) == v
  {
    SumConstant(xs, v);
    DivBounds(Sum(xs), |xs|, v, v);
  }

  lemma DivBounds(s: nat, n: nat, lo: nat, hi: nat)
    requires n > 0 && lo * n <= s <= hi * n
    ensures lo <= s / n <= hi
  {
    var q := s / n;
    assert s == q * n + s % n;
    MulMonotone(q + 1, lo, n);
    MulMonotone(hi + 1, q, n);
  }

  /** Every element is at most every later one. */
  predicate Sorted(s: seq<nat>) {
    forall i, j :: 0 <= i < j < |s| ==> s[i] <= s[j]
  }

  /** Places x in front of the first element not smaller than it. */
  function Insert(x: nat, s: seq<nat>): (r: seq<nat>)
    requires Sorted(s)
    ensures Sorted(r) && |r| == |s| + 1
    ensures r[0] == (if s == [] || x <= s[0] then x else s[0])
  {
    if s == [] then [x]
    else if x <= s[0] then [x] + s
    else
      var rest := Insert(x, s[1..]);
      assert s == [s[0]] + s[1..];
      assert forall i :: 0 <= i < |rest| ==> rest[0] <= rest[i];
      [s[0]] + rest
  }

  /** Inserting adds x to the samples and keeps all the others. */
  lemma {:induction false} InsertCount(x: nat, s: seq<nat>)
    requires Sorted(s)
    ensures multiset(Insert(x, s)) == multiset(s) + multiset{x}
  {
    if s != [] && x > s[0] {
      assert s == [s[0]] + s[1..];
      InsertCount(x, s[1..]);
      var rest := Insert(x, s[1..]);
      assert multiset(s) == multiset{s[0]} + multiset(s[1..]);
      assert multiset(Insert(x, s)) == multiset{s[0]} + multiset(rest);
    }
  }

  /** The samples in ascending order (numpy sorts before taking a median). */
  function Sort(xs: seq<nat>): (r: seq<nat>)
    ensures Sorted(r) && |r| == |xs|
    ensures multiset(r) == multiset(xs)
  {
    if xs == [] then []
    else
      assert xs == [xs[0]] + xs[1..];
      InsertCount(xs[0], Sort(xs[1..]));
      Insert(xs[0], Sort(xs[1..]))
  }

  /** Sorting samples that are already in order leaves them as they are. */
  lemma {:induction false} SortOfSorted(xs: seq<nat>)
    requires Sorted(xs)
    ensures Sort(xs) == xs
  {
    if xs != [] {
      SortOfSorted(xs[1..]);
      assert xs == [xs[0]] + xs[1..];
    }
  }

  /** The median of the samples, truncated: the middle order statistic for
      an odd count, otherwise the mean of the two middle ones. */
  function Median(xs: seq<nat>): (r: nat)
    requires |xs| > 0
    ensures Sort(xs)[(|xs| - 1) / 2] <= r <= Sort(xs)[|xs| / 2]
  {
    MiddleBetween(Sort(xs));
    Middle(Sort(xs))
  }

  /** The middle of an ordered sequence: its middle element for an odd
      length, otherwise the truncated mean of the two middle ones. */
  function Middle(s: seq<nat>): nat
    requires |s| > 0
  {
    var n := |s|;
    if n % 2 == 1 then s[n / 2] else (s[n / 2 - 1] + s[n / 2]) / 2
  }

  /** Every sample lies between the first and the last of the ordering. */
  lemma SortedEnds(xs: seq<nat>)
    requires |xs| > 0
    ensures Within(xs, Sort(xs)[0], Sort(xs)[|xs| - 1])
  {
    var s := Sort(xs);
    forall i | 0 <= i < |xs| ensures s[0] <= xs[i] <= s[|s| - 1] {
      assert xs[i] in multiset(xs);
      assert xs[i] in multiset(s);
      var j :| 0 <= j < |s| && s[j] == xs[i];
    }
  }

  lemma SortedWithin(xs: seq<nat>, lo: nat, hi: nat)
    requires Within(xs, lo, hi)
    ensures |Sort(xs)| == |xs| && Within(Sort(xs), lo, hi)
  {
    var s := Sort(xs);
    forall i | 0 <= i < |s| ensures lo <= s[i] <= hi {
      assert s[i] in multiset(s);
      assert s[i] in multiset(xs);
      var j :| 0 <= j < |xs| && xs[j] == s[i];
    }
  }

  /** The truncated median lies between the smallest and the largest sample. */
  lemma MedianWithin(xs: seq<nat>, lo: nat, hi: nat)
    requires |xs| > 0 && Within(xs, lo, hi)
    ensures lo <= Median(xs) <= hi
  {
    SortedWithin(xs, lo, hi);
  }

  /** The median of samples all equal to v is v. */
  lemma MedianConstant(xs: seq<nat>, v: nat)
    requires |xs| > 0
    requires forall i :: 0 <= i < |xs| ==> xs[i] == v
    ensures Median(xs) == v
  {
    SortedWithin(xs, v, v);
  }

  /** The median lies between the two middle order statistics, which are
      one and the same sample for an odd count: for an even count the two
      middle samples are averaged before truncation. */
  lemma MedianBetweenMiddle(xs: seq<nat>)
    requires |xs| > 0
    ensures |Sort(xs)| == |xs|
    ensures Sort(xs)[(|xs| - 1) / 2] <= Median(xs) <= Sort(xs)[|xs| / 2]
    ensures |xs| % 2 == 0 ==>
      2 * Median(xs) <= Sort(xs)[|xs| / 2 - 1] + Sort(xs)[|xs| / 2] <= 2 * Median(xs) + 1
  {
    MiddleBetween(Sort(xs));
  }

  lemma MiddleBetween(s: seq<nat>)
    requires |s| > 0 && Sorted(s)
    ensures s[(|s| - 1) / 2] <= Middle(s) <= s[|s| / 2]
    ensures |s| % 2 == 0 ==> 2 * Middle(s) <= s[|s| / 2 - 1] + s[|s| / 2] <= 2 * Middle(s) + 1
  {
    var n := |s|;
    if n % 2 == 1 {
      assert (n - 1) / 2 == n / 2;
    } else {
      assert (n - 1) / 2 == n / 2 - 1;
      Halves(s[n / 2 - 1], s[n / 2]);
    }
  }

  /** The truncated average of a <= b lies between them. */
  lemma Halves(a: nat, b: nat)
    requires a <= b
    ensures a <= (a + b) / 2 <= b && 2 * ((a + b) / 2) <= a + b <= 2 * ((a + b) / 2) + 1
  {
  }
}
