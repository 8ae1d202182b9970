/**
 * Threshold-crossing features (vf_features.py): the indices where a normalised ECG
 * segment changes side of a threshold, and the per-window crossing counts (TCSC)
 * over consecutive windows of 3 seconds.
 */
module Crossing {

  import opened Wrappers

  /** The side of the threshold a sample lies on: at or above is "high". */
  predicate High(x: real, threshold: real)
  {
    x >= threshold
  }

  /** The crossings among indices 1 .. k-1: each index whose sample changes side. */
  function CrossingsUpTo(samples: seq<real>, threshold: real, k: nat): (c: seq<nat>)
    requires k <= |samples|
    ensures |c| <= k
    ensures forall j :: 0 <= j < |c| ==> 1 <= c[j] < k
  {
    if k <= 1 then []
    else
      CrossingsUpTo(samples, threshold, k - 1)
        + (if High(samples[k - 1], threshold) != High(samples[k - 2], threshold) then [k - 1] else [])
  }

  function Crossings(samples: seq<real>, threshold: real): seq<nat>
  {
    CrossingsUpTo(samples, threshold, |samples|)
  }

  /** The crossing indices computed by one pass that tracks the side of the previous sample. */
  method ThresholdCrossing(samples: seq<real>, threshold: real) returns (crossing: seq<nat>)
    requires |samples| > 0
    ensures crossing == Crossings(samples, threshold)
  {
    crossing := [];
    var high := samples[0] >= threshold;
    for i := 0 to |samples|
      invariant high == High(samples[if i == 0 then 0 else i - 1], threshold)
      invariant crossing == CrossingsUpTo(samples, threshold, i)
    {
      var sample := samples[i];
      if high {
        if sample < threshold {
          crossing := crossing + [i];
          high := false;
        }
      } else {
        if sample >= threshold {
          crossing := crossing + [i];
          high := true;
        }
      }
    }
  }

  /** An index is reported iff its sample and the one before lie on different sides. */
  lemma {:induction false} CrossingIff(samples: seq<real>, threshold: real, k: nat, i: int)
    requires k <= |samples|
    ensures i in CrossingsUpTo(samples, threshold, k)
        <==> 1 <= i < k && High(samples[i], threshold) != High(samples[i - 1], threshold)
  {
    if k > 1 {
      CrossingIff(samples, threshold, k - 1, i);
    }
  }

  predicate Increasing(c: seq<nat>)
  {
    forall a, b :: 0 <= a < b < |c| ==> c[a] < c[b]
  }

  /** Reported indices are strictly increasing. */
  lemma {:induction false} CrossingsIncreasing(samples: seq<real>, threshold: real, k: nat)
    requires k <= |samples|
    ensures Increasing(CrossingsUpTo(samples, threshold, k))
  {
    if k > 1 {
      var prev := CrossingsUpTo(samples, threshold, k - 1);
      var c := CrossingsUpTo(samples, threshold, k);
      CrossingsIncreasing(samples, threshold, k - 1);
      forall a, b | 0 <= a < b < |c| ensures c[a] < c[b] {
        assert c[a] == prev[a];
        if b < |prev| {
          assert c[b] == prev[b];
          assert prev[a] < prev[b];
        } else {
          assert c[b] == k - 1;
          assert prev[a] < k - 1;
        }
      }
    }
  }

  /** The crossings up to k are a prefix of the crossings up to any later m. */
  lemma {:induction false} CrossingsPrefix(samples: seq<real>, threshold: real, k: nat, m: nat)
    requires k <= m <= |samples|
    ensures CrossingsUpTo(samples, threshold, k) <= CrossingsUpTo(samples, threshold, m)
  {
    if k < m {
      CrossingsPrefix(samples, threshold, k, m - 1);
    }
  }

  /**
   * The side of every sample is the side of samples[0] flipped once per crossing so
   * far; so crossing number j (from 0) moves to the side opposite samples[0] when j is
   * even and back to it when j is odd: consecutive crossings alternate direction.
   */
  lemma {:induction false} CrossingsAlternate(samples: seq<real>, threshold: real, k: nat)
    requires 1 <= k <= |samples|
    ensures var c := CrossingsUpTo(samples, threshold, k);
      && High(samples[k - 1], threshold) == (High(samples[0], threshold) == (|c| % 2 == 0))
      && forall j :: 0 <= j < |c| ==>
           High(samples[c[j]], threshold) == (High(samples[0], threshold) == (j % 2 == 1))
  {
    if k > 1 {
      CrossingsAlternate(samples, threshold, k - 1);
    }
  }

  /** With no crossing reported, every sample lies on the side of samples[0]. */
  lemma OneSideWithoutCrossing(samples: seq<real>, threshold: real, i: nat)
    requires i < |samples| && Crossings(samples, threshold) == []
    ensures High(samples[i], threshold) == High(samples[0], threshold)
  {
    CrossingsPrefix(samples, threshold, i + 1, |samples|);
    CrossingsAlternate(samples, threshold, i + 1);
  }

  /** The first reported crossing lies on the side opposite samples[0]. */
  lemma FirstCrossingLeavesStartSide(samples: seq<real>, threshold: real)
    requires |samples| > 0 && Crossings(samples, threshold) != []
    ensures var c := Crossings(samples, threshold);
      c[0] < |samples| && High(samples[c[0]], threshold) != High(samples[0], threshold)
  {
    CrossingsAlternate(samples, threshold, |samples|);
  }

  /** No crossing is reported iff all samples lie on the side of samples[0]. */
  lemma NoCrossingIffOneSide(samples: seq<real>, threshold: real)
    requires |samples| > 0
    ensures Crossings(samples, threshold) == []
        <==> forall i :: 0 <= i < |samples| ==> High(samples[i], threshold) == High(samples[0], threshold)
  {
    if Crossings(samples, threshold) == [] {
      forall i | 0 <= i < |samples| ensures High(samples[i], threshold) == High(samples[0], threshold) {
        OneSideWithoutCrossing(samples, threshold, i);
      }
    } else {
      FirstCrossingLeavesStartSide(samples, threshold);
    }
  }

  // ---------------------------------------------------------------------------
  // Threshold crossing sample count (TCSC) per window

  /**
   * The counts the TCSC loop pushes, given the crossings still to visit, the current
   * window end and the crossings counted in the current window so far.  A crossing
   * at or past the window end closes the window (pushing its count) and advances the
   * end by exactly one window; if that advanced end lies past the last sample the
   * loop stops.
   */
  function TcscFrom(cs: seq<nat>, nSamples: int, windowSize: real, windowEnd: real, n: nat): seq<nat>
  {
    if cs == [] then []
    else if cs[0] as real >= windowEnd then
      if windowEnd + windowSize > nSamples as real then []
      else [n] + TcscFrom(cs[1..], nSamples, windowSize, windowEnd + windowSize, 1)
    else TcscFrom(cs[1..], nSamples, windowSize, windowEnd, n + 1)
  }

  function Sum(xs: seq<nat>): nat
  {
    if xs == [] then 0 else xs[0] + Sum(xs[1..])
  }

  /** The TCSC loop of extract_features; tci is never appended to. */
  method WindowCounts(crossing: seq<nat>, nSamples: int, samplingRate: real) returns (tci: seq<real>, tcsc: seq<nat>)
    ensures tci == []
    ensures tcsc == TcscFrom(crossing, nSamples, 3.0 * samplingRate, 3.0 * samplingRate, 0)
  {
    var windowSize := 3.0 * samplingRate;
    var windowBegin := 0.0;
    var windowEnd := windowSize;
    tci := [];
    tcsc := [];
    var nCrossing := 0;
    ghost var spec := TcscFrom(crossing, nSamples, windowSize, windowSize, 0);
    for k := 0 to |crossing|
      invariant windowBegin == windowEnd - windowSize
      invariant tcsc + TcscFrom(crossing[k..], nSamples, windowSize, windowEnd, nCrossing) == spec
    {
      var crossingIdx := crossing[k];
      assert crossing[k..][1..] == crossing[k + 1..];
      if crossingIdx as real >= windowEnd {
        windowEnd := windowEnd + windowSize;
        if windowEnd > nSamples as real {
          assert tcsc == spec;
          break;
        }
        windowBegin := windowBegin + windowSize;
        tcsc := tcsc + [nCrossing];
        nCrossing := 0;
      }
      nCrossing := nCrossing + 1;
    }
  }

  /** The pushed counts add up to at most the crossings seen. */
  lemma {:induction false} TcscSumBound(cs: seq<nat>, nSamples: int, windowSize: real, windowEnd: real, n: nat)
    ensures Sum(TcscFrom(cs, nSamples, windowSize, windowEnd, n)) <= n + |cs|
  {
    if cs != [] {
      if cs[0] as real >= windowEnd {
        if windowEnd + windowSize <= nSamples as real {
          TcscSumBound(cs[1..], nSamples, windowSize, windowEnd + windowSize, 1);
        }
      } else {
        TcscSumBound(cs[1..], nSamples, windowSize, windowEnd, n + 1);
      }
    }
  }

  /** Only the first pushed count can be 0: every later window was opened by a crossing. */
  lemma {:induction false} TcscLaterCountsPositive(cs: seq<nat>, nSamples: int, windowSize: real, windowEnd: real, n: nat)
    ensures var r := TcscFrom(cs, nSamples, windowSize, windowEnd, n);
      && |r| <= |cs|
      && (r != [] ==> r[0] >= n)
      && forall j :: 0 < j < |r| ==> r[j] >= 1
  {
    if cs != [] {
      if cs[0] as real >= windowEnd {
        if windowEnd + windowSize <= nSamples as real {
          TcscLaterCountsPositive(cs[1..], nSamples, windowSize, windowEnd + windowSize, 1);
        }
      } else {
        TcscLaterCountsPositive(cs[1..], nSamples, windowSize, windowEnd, n + 1);
      }
    }
  }

  /**
   * Each push advances the window end by exactly one window size, and only pushes
   * whose advanced end is within the samples happen: after k pushes from end e, the
   * end e + k * windowSize is still at most nSamples.
   */
  lemma {:induction false} TcscWindowsFit(cs: seq<nat>, nSamples: int, windowSize: real, windowEnd: real, n: nat)
    ensures var r := TcscFrom(cs, nSamples, windowSize, windowEnd, n);
      r != [] ==> windowEnd + (|r| as real) * windowSize <= nSamples as real
  {
    if cs != [] {
      if cs[0] as real >= windowEnd {
        if windowEnd + windowSize <= nSamples as real {
          var rest := TcscFrom(cs[1..], nSamples, windowSize, windowEnd + windowSize, 1);
          TcscWindowsFit(cs[1..], nSamples, windowSize, windowEnd + windowSize, 1);
          assert ((1 + |rest|) as real) * windowSize == windowSize + (|rest| as real) * windowSize;
        }
      } else {
        TcscWindowsFit(cs[1..], nSamples, windowSize, windowEnd, n + 1);
      }
    }
  }

  /**
   * A crossing far past the window end still closes only the current window: with
   * 3-sample windows, crossings at 1 and 20 of 30 samples push the single count 1.
   */
  lemma FarCrossingClosesOneWindow()
    ensures TcscFrom([1, 20], 30, 3.0, 3.0, 0) == [1]
  {
    assert [1, 20][1..] == [20];
    assert TcscFrom([20], 30, 3.0, 3.0, 1) == [1] + TcscFrom([], 30, 3.0, 6.0, 1);
  }

  /** np.mean of the pushed counts, or 0.0 when there are none. */
  function MeanOrZero(xs: seq<nat>): (m: real)
    ensures xs == [] ==> m == 0.0
    ensures xs != [] ==> m * (|xs| as real) == Sum(xs) as real
  {
    if xs == [] then 0.0 else (Sum(xs) as real) / (|xs| as real)
  }

  /**
   * The two crossing features of extract_features for an already normalised segment:
   * the TCI feature, always 0.0, and the mean TCSC.
   */
  method CrossingFeatures(samples: seq<real>, samplingRate: real) returns (features: seq<real>)
    requires |samples| > 0
    ensures |features| == 2 && features[0] == 0.0
    ensures features[1] == MeanOrZero(TcscFrom(Crossings(samples, 0.2), |samples|, 3.0 * samplingRate, 3.0 * samplingRate, 0))
  {
    features := [];
    var nSamples := |samples|;
    var crossing := ThresholdCrossing(samples, 0.2);
    var tci, tcsc := WindowCounts(crossing, nSamples, samplingRate);
    // tci is empty, so its mean falls back to 0.0
    features := features + [0.0];
    features := features + [MeanOrZero(tcsc)];
  }

  // ---------------------------------------------------------------------------
  // Normalisation

  function Min(s: seq<real>): (m: real)
    requires |s| > 0
    ensures m in s && forall i :: 0 <= i < |s| ==> m <= s[i]
  {
    if |s| == 1 then s[0] else var m := Min(s[1..]); if s[0] <= m then s[0] else m
  }

  function Max(s: seq<real>): (m: real)
    requires |s| > 0
    ensures m in s && forall i :: 0 <= i < |s| ==> s[i] <= m
  {
    if |s| == 1 then s[0] else var m := Max(s[1..]); if s[0] >= m then s[0] else m
  }

  /** One sample mapped from [lo, hi] onto [0, 1]. */
  function Scale(x: real, lo: real, hi: real): real
    requires lo < hi
  {
    (x - lo) / (hi - lo)
  }

  /** (samples - min) / (max - min), defined when the segment is not flat. */
  function Normalised(s: seq<real>): (r: seq<real>)
    requires |s| > 0 && Min(s) < Max(s)
    ensures |r| == |s|
  {
    seq(|s|, i requires 0 <= i < |s| => Scale(s[i], Min(s), Max(s)))
  }

  lemma ScaleRange(x: real, lo: real, hi: real)
    requires lo <= x <= hi && lo < hi
    ensures 0.0 <= Scale(x, lo, hi) <= 1.0
    ensures x == lo ==> Scale(x, lo, hi) == 0.0
    ensures x == hi ==> Scale(x, lo, hi) == 1.0
  {
    UnitRatio(x - lo, hi - lo);
  }

  lemma UnitRatio(a: real, d: real)
    requires 0.0 <= a <= d && d > 0.0
    ensures 0.0 <= a / d <= 1.0
  {
  }

  /** Every normalised sample lies in [0, 1], the minimum at 0 and the maximum at 1. */
  lemma NormalisedRange(s: seq<real>, i: nat)
    requires |s| > 0 && Min(s) < Max(s) && i < |s|
    ensures 0.0 <= Normalised(s)[i] <= 1.0
    ensures s[i] == Min(s) ==> Normalised(s)[i] == 0.0
    ensures s[i] == Max(s) ==> Normalised(s)[i] == 1.0
  {
    var lo, hi := Min(s), Max(s);
    assert lo <= s[i] <= hi;
    ScaleRange(s[i], lo, hi);
    assert Normalised(s)[i] == Scale(s[i], lo, hi);
  }

  /** Mapping onto [0, 1] preserves the side of a threshold, moved back to the raw scale. */
  lemma ScaledSide(x: real, lo: real, hi: real, t: real)
    requires lo < hi
    ensures (Scale(x, lo, hi) >= t) == (x >= lo + t * (hi - lo))
  {
    var span := hi - lo;
    var y := (x - lo) / span;
    assert y * span == x - lo;
    if y >= t {
      assert y * span >= t * span;
    } else {
      assert y * span < t * span;
    }
  }

  /** Two signals whose samples lie on the same sides of their thresholds cross at the same indices. */
  lemma {:induction false} SameSidesSameCrossings(s1: seq<real>, t1: real, s2: seq<real>, t2: real, k: nat)
    requires k <= |s1| == |s2|
    requires forall i :: 0 <= i < |s1| ==> High(s1[i], t1) == High(s2[i], t2)
    ensures CrossingsUpTo(s1, t1, k) == CrossingsUpTo(s2, t2, k)
  {
    if k > 1 {
      SameSidesSameCrossings(s1, t1, s2, t2, k - 1);
    }
  }

  /** The raw-scale level that normalises to the crossing threshold 0.2. */
  function RawThreshold(lo: real, hi: real): real
  {
    lo + 0.2 * (hi - lo)
  }

  lemma ScaledCrossingSide(x: real, lo: real, hi: real)
    requires lo < hi
    ensures High(Scale(x, lo, hi), 0.2) == High(x, RawThreshold(lo, hi))
  {
    ScaledSide(x, lo, hi, 0.2);
  }

  /**
   * Crossing 0.2 on the normalised segment is crossing min + 0.2 * (max - min) on the
   * raw segment, the level a fifth of the way from the minimum to the maximum.
   */
  lemma NormalisedCrossings(s: seq<real>)
    requires |s| > 0 && Min(s) < Max(s)
    ensures Crossings(Normalised(s), 0.2) == Crossings(s, RawThreshold(Min(s), Max(s)))
  {
    var n := Normalised(s);
    var t := RawThreshold(Min(s), Max(s));
    forall i | 0 <= i < |s|
      ensures High(n[i], 0.2) == High(s[i], t)
    {
      ScaledCrossingSide(s[i], Min(s), Max(s));
    }
    SameSidesSameCrossings(n, 0.2, s, t, |s|);
  }

  /**
   * The feature list extract_features builds for a window of real samples (a
   * resampled window): TCI, always 0.0, and the mean TCSC of the normalised window.
   * A flat window normalises to 0/0, which numpy yields as NaN in every sample; every
   * comparison with NaN is false, so no crossing is found and TCSC is 0.0.
   */
  function FeatureList(samples: seq<real>, samplingRate: real): (f: seq<real>)
    requires |samples| > 0
    ensures |f| == 2 && f[0] == 0.0
  {
    if Min(samples) == Max(samples) then [0.0, 0.0]
    else
      [0.0, MeanOrZero(TcscFrom(Crossings(Normalised(samples), 0.2), |samples|,
                                3.0 * samplingRate, 3.0 * samplingRate, 0))]
  }

  /** extract_features on a window of real samples, returning the list it builds. */
  method ExtractFeatures(samples: seq<real>, samplingRate: real) returns (features: seq<real>)
    requires |samples| > 0
    ensures features == FeatureList(samples, samplingRate)
    ensures |features| == 2 && features[0] == 0.0
    ensures Min(samples) == Max(samples) ==> features[1] == 0.0
    ensures Min(samples) < Max(samples) ==>
      features[1] == MeanOrZero(TcscFrom(Crossings(Normalised(samples), 0.2), |samples|,
                                         3.0 * samplingRate, 3.0 * samplingRate, 0))
  {
    var lo := Min(samples);
    var hi := Max(samples);
    if lo == hi {
      features := [0.0, 0.0];
    } else {
      features := CrossingFeatures(Normalised(samples), samplingRate);
    }
  }

  // ---------------------------------------------------------------------------
  // Offset and gain

  /** The samples a * s[i] + b: the same signal with gain a and offset b. */
  function Affine(s: seq<real>, a: real, b: real): (r: seq<real>)
    ensures |r| == |s|
  {
    seq(|s|, i requires 0 <= i < |s| => a * s[i] + b)
  }

  lemma AffineMonotone(x: real, y: real, a: real, b: real)
    requires a > 0.0
    ensures (a * x + b <= a * y + b) == (x <= y)
  {
    if x <= y {
      assert a * (y - x) >= 0.0;
    } else {
      assert a * (x - y) > 0.0;
    }
  }

  /** A sample that bounds every sample from below is the minimum. */
  lemma MinUnique(s: seq<real>, v: real)
    requires |s| > 0 && v in s && forall i :: 0 <= i < |s| ==> v <= s[i]
    ensures Min(s) == v
  {
  }

  /** A sample that bounds every sample from above is the maximum. */
  lemma MaxUnique(s: seq<real>, v: real)
    requires |s| > 0 && v in s && forall i :: 0 <= i < |s| ==> s[i] <= v
    ensures Max(s) == v
  {
  }

  /** Two signals of one length whose samples compare alike, pair by pair. */
  predicate SameOrder(r: seq<real>, s: seq<real>)
  {
    |r| == |s| && forall i, j :: 0 <= i < |s| && 0 <= j < |s| ==> (r[i] <= r[j]) == (s[i] <= s[j])
  }

  /** A positive gain and an offset keep the order of the samples. */
  lemma {:induction false} AffineSameOrder(s: seq<real>, a: real, b: real)
    requires a > 0.0
    ensures SameOrder(Affine(s, a, b), s)
  {
    var r := Affine(s, a, b);
    forall i, j | 0 <= i < |s| && 0 <= j < |s|
      ensures (r[i] <= r[j]) == (s[i] <= s[j])
    {
      assert r[i] == a * s[i] + b && r[j] == a * s[j] + b;
      AffineMonotone(s[i], s[j], a, b);
    }
  }

  /** Where one signal has its minimum and maximum, a signal in the same order has its own. */
  lemma {:induction false} SameOrderExtremes(r: seq<real>, s: seq<real>, j: nat, k: nat)
    requires SameOrder(r, s) && j < |s| && k < |s| && s[j] == Min(s) && s[k] == Max(s)
    ensures Min(r) == r[j] && Max(r) == r[k]
    ensures (Min(r) < Max(r)) == (Min(s) < Max(s))
  {
    forall i | 0 <= i < |s|
      ensures r[j] <= r[i] <= r[k]
    {
      assert s[j] <= s[i] <= s[k];
    }
    MinUnique(r, r[j]);
    MaxUnique(r, r[k]);
    assert (r[k] <= r[j]) == (s[k] <= s[j]);
  }

  /** Mapping onto [0, 1] undoes a positive gain and an offset applied to a sample and its range. */
  lemma ScaleAffine(x: real, lo: real, hi: real, a: real, b: real, x': real, lo': real, hi': real)
    requires lo < hi && a > 0.0
    requires x' == a * x + b && lo' == a * lo + b && hi' == a * hi + b
    ensures lo' < hi'
    ensures Scale(x', lo', hi') == Scale(x, lo, hi)
  {
    var p, q := x - lo, hi - lo;
    assert x' - lo' == a * p;
    assert hi' - lo' == a * q;
    assert a * q > 0.0;
    assert (a * p) / (a * q) == p / q by {
      assert (p / q) * (a * q) == a * p;
    }
  }

  /** The same, at three indices of a signal and of its image under gain and offset. */
  lemma ScaleAffineAt(s: seq<real>, a: real, b: real, i: nat, j: nat, k: nat)
    requires i < |s| && j < |s| && k < |s| && s[j] < s[k] && a > 0.0
    ensures Affine(s, a, b)[j] < Affine(s, a, b)[k]
    ensures Scale(Affine(s, a, b)[i], Affine(s, a, b)[j], Affine(s, a, b)[k]) == Scale(s[i], s[j], s[k])
  {
    var r := Affine(s, a, b);
    ScaleAffine(s[i], s[j], s[k], a, b, r[i], r[j], r[k]);
  }

  /** Two non-flat signals that scale alike against their extremes normalise alike. */
  lemma {:induction false} SameScaleSameNormalised(r: seq<real>, s: seq<real>, j: nat, k: nat)
    requires |r| == |s| && j < |s| && k < |s|
    requires Min(r) == r[j] < r[k] == Max(r) && Min(s) == s[j] < s[k] == Max(s)
    requires forall i :: 0 <= i < |s| ==> Scale(r[i], r[j], r[k]) == Scale(s[i], s[j], s[k])
    ensures Normalised(r) == Normalised(s)
  {
    forall i | 0 <= i < |s|
      ensures Normalised(r)[i] == Normalised(s)[i]
    {
    }
  }

  /** Normalisation removes offset and gain: a * s + b with a > 0 normalises to what s does. */
  lemma {:induction false} NormalisedAffine(s: seq<real>, a: real, b: real)
    requires |s| > 0 && a > 0.0 && Min(s) < Max(s)
    ensures Min(Affine(s, a, b)) < Max(Affine(s, a, b))
    ensures Normalised(Affine(s, a, b)) == Normalised(s)
  {
    var r := Affine(s, a, b);
    var j :| 0 <= j < |s| && s[j] == Min(s);
    var k :| 0 <= k < |s| && s[k] == Max(s);
    AffineSameOrder(s, a, b);
    SameOrderExtremes(r, s, j, k);
    forall i | 0 <= i < |s|
      ensures Scale(r[i], r[j], r[k]) == Scale(s[i], s[j], s[k])
    {
      ScaleAffineAt(s, a, b, i, j, k);
    }
    SameScaleSameNormalised(r, s, j, k);
  }

  /** Two non-flat windows that normalise alike have the same features. */
  lemma SameNormalisedSameFeatures(s1: seq<real>, s2: seq<real>, samplingRate: real)
    requires |s1| == |s2| > 0 && Min(s1) < Max(s1) && Min(s2) < Max(s2)
    requires Normalised(s1) == Normalised(s2)
    ensures FeatureList(s1, samplingRate) == FeatureList(s2, samplingRate)
  {
  }

  /** The crossing features ignore offset and gain: a * s + b with a > 0 has the features of s. */
  lemma {:induction false} FeatureListAffine(s: seq<real>, a: real, b: real, samplingRate: real)
    requires |s| > 0 && a > 0.0
    ensures FeatureList(Affine(s, a, b), samplingRate) == FeatureList(s, samplingRate)
  {
    var r := Affine(s, a, b);
    var j :| 0 <= j < |s| && s[j] == Min(s);
    var k :| 0 <= k < |s| && s[k] == Max(s);
    AffineSameOrder(s, a, b);
    SameOrderExtremes(r, s, j, k);
    if Min(s) < Max(s) {
      NormalisedAffine(s, a, b);
      SameNormalisedSameFeatures(r, s, samplingRate);
    }
  }

  // ---------------------------------------------------------------------------
  // What a call of extract_features yields as written

  /** The value a call hands back and the list it prints, if any. */
  datatype FeaturesOutcome = FeaturesOutcome(returned: Option<seq<real>>, printed: Option<seq<real>>)

  /**
   * extract_features as written has no return statement, so every call yields None;
   * the list is only printed, and only when its TCSC feature is not 0.
   */
  function ExtractFeaturesAsWritten(samples: seq<real>, samplingRate: real): FeaturesOutcome
    requires |samples| > 0
  {
    var features := FeatureList(samples, samplingRate);
    FeaturesOutcome(None, if features[1] != 0.0 then Some(features) else None)
  }

  /** For every window the caller receives None, although a two-feature list was built. */
  lemma FeaturesDiscarded(samples: seq<real>, samplingRate: real)
    requires |samples| > 0
    ensures ExtractFeaturesAsWritten(samples, samplingRate).returned == None
    ensures |FeatureList(samples, samplingRate)| == 2
    ensures ExtractFeaturesAsWritten(samples, samplingRate).printed.Some? <==>
            FeatureList(samples, samplingRate)[1] != 0.0
  {
  }

  /** The window [0.0, 1.0] at 360 Hz: the list [0.0, 0.0] is built, nothing is returned or printed. */
  lemma FeaturesDiscardedExample()
    ensures FeatureList([0.0, 1.0], 360.0) == [0.0, 0.0]
    ensures ExtractFeaturesAsWritten([0.0, 1.0], 360.0) == FeaturesOutcome(None, None)
  {
    var s := [0.0, 1.0];
    assert Min(s) == 0.0 && Max(s) == 1.0;
    assert Normalised(s) == s;
    assert CrossingsUpTo(s, 0.2, 1) == [];
    assert Crossings(s, 0.2) == [1];
    assert TcscFrom([1], 2, 1080.0, 1080.0, 0) == [];
  }

  // ---------------------------------------------------------------------------
  // Windows of integer samples

  /**
   * A window of a 360 Hz record is not resampled, so it holds the record's integer
   * samples; `/` on two integer arrays in Python 2 is numpy's floor division, and an
   * integer division by zero yields 0.
   */
  function AsReals(s: seq<int>): (r: seq<real>)
    ensures |r| == |s| && forall i :: 0 <= i < |s| ==> r[i] == s[i] as real
  {
    seq(|s|, i requires 0 <= i < |s| => s[i] as real)
  }

  /** np.min of an integer window: the real minimum, which is one of the integer samples. */
  function IntMin(s: seq<int>): (m: int)
    requires |s| > 0
    ensures m in s && forall i :: 0 <= i < |s| ==> m <= s[i]
  {
    IntegralExtremes(s);
    Min(AsReals(s)).Floor
  }

  /** np.max of an integer window, likewise. */
  function IntMax(s: seq<int>): (m: int)
    requires |s| > 0
    ensures m in s && forall i :: 0 <= i < |s| ==> s[i] <= m
  {
    IntegralExtremes(s);
    Max(AsReals(s)).Floor
  }

  /** The real minimum and maximum of an integer window are samples of it. */
  lemma IntegralExtremes(s: seq<int>)
    requires |s| > 0
    ensures Min(AsReals(s)).Floor in s && Min(AsReals(s)) == Min(AsReals(s)).Floor as real
    ensures Max(AsReals(s)).Floor in s && Max(AsReals(s)) == Max(AsReals(s)).Floor as real
  {
    var r := AsReals(s);
    var lo :| lo in s && Min(r) == lo as real by {
      var j :| 0 <= j < |r| && r[j] == Min(r);
      assert s[j] in s;
    }
    var hi :| hi in s && Max(r) == hi as real by {
      var j :| 0 <= j < |r| && r[j] == Max(r);
      assert s[j] in s;
    }
  }

  /** (samples - min) / (max - min) on an integer array, with floor division. */
  function NormalisedInt(s: seq<int>): (r: seq<int>)
    requires |s| > 0
    ensures |r| == |s|
  {
    var lo, hi := IntMin(s), IntMax(s);
    seq(|s|, i requires 0 <= i < |s| => FloorScale(s[i], lo, hi))
  }

  /** One integer sample mapped by (x - lo) / (hi - lo), 0 when hi == lo. */
  function FloorScale(x: int, lo: int, hi: int): int
  {
    if lo == hi then 0 else (x - lo) / (hi - lo)
  }

  lemma FloorUnit(a: int, d: int)
    requires 0 <= a <= d && d > 0
    ensures a / d == (if a == d then 1 else 0)
  {
    if a < d {
      assert a / d == 0;
    }
  }

  lemma FloorScaleIndicator(x: int, lo: int, hi: int)
    requires lo <= x <= hi
    ensures FloorScale(x, lo, hi) == (if lo < hi && x == hi then 1 else 0)
  {
    if lo < hi {
      FloorUnit(x - lo, hi - lo);
    }
  }

  /** Floor division maps every sample to 0 except those at the maximum, which become 1. */
  lemma NormalisedIntIndicator(s: seq<int>, i: nat)
    requires |s| > 0 && i < |s|
    ensures NormalisedInt(s)[i] == (if IntMin(s) < IntMax(s) && s[i] == IntMax(s) then 1 else 0)
  {
    FloorScaleIndicator(s[i], IntMin(s), IntMax(s));
  }

  /**
   * On an integer window the crossings at 0.2 are the crossings of the maximum level:
   * a normalised sample is high exactly when the raw one equals the maximum.  A flat
   * window has none.
   */
  lemma IntCrossings(s: seq<int>)
    requires |s| > 0
    ensures Crossings(AsReals(NormalisedInt(s)), 0.2) ==
            (if IntMin(s) < IntMax(s) then Crossings(AsReals(s), IntMax(s) as real) else [])
  {
    var n := AsReals(NormalisedInt(s));
    var r := AsReals(s);
    var hi := IntMax(s) as real;
    forall i | 0 <= i < |s|
      ensures High(n[i], 0.2) == (IntMin(s) < IntMax(s) && High(r[i], hi))
    {
      NormalisedIntIndicator(s, i);
    }
    if IntMin(s) < IntMax(s) {
      SameSidesSameCrossings(n, 0.2, r, hi, |s|);
    } else {
      NoCrossingIffOneSide(n, 0.2);
    }
  }

  /** The integer window [0, 5, 10] normalises to [0, 0, 1] and crosses 0.2 at index 2. */
  lemma IntegerNormalisationExample()
    ensures NormalisedInt([0, 5, 10]) == [0, 0, 1]
    ensures Crossings(AsReals(NormalisedInt([0, 5, 10])), 0.2) == [2]
  {
    var s := [0, 5, 10];
    assert IntMin(s) == 0 && IntMax(s) == 10;
    var n := AsReals(NormalisedInt(s));
    assert n == [0.0, 0.0, 1.0];
    assert CrossingsUpTo(n, 0.2, 2) == [];
  }

  /** The same window in real arithmetic normalises to [0, 0.5, 1] and crosses 0.2 at index 1. */
  lemma RealNormalisationExample()
    ensures Normalised([0.0, 5.0, 10.0]) == [0.0, 0.5, 1.0]
    ensures Crossings(Normalised([0.0, 5.0, 10.0]), 0.2) == [1]
  {
    var r := [0.0, 5.0, 10.0];
    assert Min(r) == 0.0 && Max(r) == 10.0;
    var m := Normalised(r);
    assert m == [0.0, 0.5, 1.0];
    assert CrossingsUpTo(m, 0.2, 2) == [1];
  }

  /** extract_features on a window of integer samples: TCSC counts the crossings of the maximum level. */
  method ExtractFeaturesInt(samples: seq<int>, samplingRate: real) returns (features: seq<real>)
    requires |samples| > 0
    ensures |features| == 2 && features[0] == 0.0
    ensures IntMin(samples) == IntMax(samples) ==> features[1] == 0.0
    ensures IntMin(samples) < IntMax(samples) ==>
      features[1] == MeanOrZero(TcscFrom(Crossings(AsReals(samples), IntMax(samples) as real), |samples|,
                                         3.0 * samplingRate, 3.0 * samplingRate, 0))
  {
    IntCrossings(samples);
    features := CrossingFeatures(AsReals(NormalisedInt(samples)), samplingRate);
  }
}
