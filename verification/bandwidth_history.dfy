/** The bandwidth estimator of HybridABRManager.cpp: correction of one download
    measurement, the bounded history of (timestamp, bits per second) samples, its eviction
    by length and by age, and the median / outlier-rejecting mean over what survives.
    The caller's vectors, passed by reference in the source, go in and come back out as
    values; the clock reading `ABRGetCurrentTimeMS()` is the parameter `presentTime`. */
module BandwidthHistory {
  import opened CArith
  import opened HybridConfig
  import opened SeqFacts

  /** In low-latency mode the history holds at most this many samples. */
  const DEFAULT_ABR_CHUNK_CACHE_LENGTH: int := 10

  /** One entry of `mAbrBitrateData`: when it was taken and the bitrate measured. */
  datatype Sample = Sample(timestampMs: int, bitsPerSecond: int)

  // ---------------------------------------------------------------------------------
  // CheckAbrThresholdSize (HybridABRManager.cpp:116-128)

  /** The measured rate: whole bytes per millisecond, times 8000. */
  function MeasuredBps(bufferlen: int, downloadTimeMs: int): int
    requires downloadTimeMs != 0
  {
    CDiv(bufferlen, downloadTimeMs) * 8000
  }

  /** `CheckAbrThresholdSize`: a measurement below the current profile's bitrate is raised
      to that bitrate when the download finished in under half a (non-zero) fragment
      duration, unless it was aborted for low bandwidth. */
  function CheckAbrThresholdSize(bufferlen: int, downloadTimeMs: int, currentProfilebps: int,
                                 fragmentDurationMs: int, abortReason: CurlAbortReason): (r: int)
    requires downloadTimeMs != 0
    ensures r == MeasuredBps(bufferlen, downloadTimeMs) || r == currentProfilebps
    ensures r >= MeasuredBps(bufferlen, downloadTimeMs)
    ensures r > MeasuredBps(bufferlen, downloadTimeMs) <==>
              MeasuredBps(bufferlen, downloadTimeMs) < currentProfilebps && fragmentDurationMs != 0 &&
              downloadTimeMs < CDiv(fragmentDurationMs, 2) && abortReason != AbortLowBandwidthTimedOut
    ensures abortReason == AbortLowBandwidthTimedOut || fragmentDurationMs == 0 ==>
              r == MeasuredBps(bufferlen, downloadTimeMs)
  {
    var downloadbps := MeasuredBps(bufferlen, downloadTimeMs);
    if downloadbps < currentProfilebps && fragmentDurationMs != 0 &&
       downloadTimeMs < CDiv(fragmentDurationMs, 2) && abortReason != AbortLowBandwidthTimedOut
    then currentProfilebps
    else downloadbps
  }

  // ---------------------------------------------------------------------------------
  // UpdateABRBitrateDataBasedOnCacheLength (HybridABRManager.cpp:134-148)

  /** The length the history is cut back to: 10 in low-latency mode, else the configured
      cache length; the comparison with the vector's size is unsigned. */
  function CacheCap(lowLatencyMode: bool, config: AbrConfig): (cap: int)
    ensures 0 <= cap < TWO_TO_64
    ensures lowLatencyMode ==> cap == DEFAULT_ABR_CHUNK_CACHE_LENGTH
  {
    if lowLatencyMode then DEFAULT_ABR_CHUNK_CACHE_LENGTH else ToUnsigned64(config.abrCacheLength)
  }

  /** `UpdateABRBitrateDataBasedOnCacheLength`: append the new sample, then drop the oldest
      one when the history has grown past its cap. Only the oldest sample is ever dropped,
      a history within the cap stays within it, and the new sample is the last one kept
      (with a cap of 0 it is itself dropped from an empty history). */
  method UpdateABRBitrateDataBasedOnCacheLength(abrBitrateData: seq<Sample>, downloadbps: int,
                                                lowLatencyMode: bool, presentTime: int,
                                                config: AbrConfig)
    returns (data: seq<Sample>)
    ensures var grown := abrBitrateData + [Sample(presentTime, downloadbps)];
            (data == grown || data == grown[1..]) &&
            (data == grown <==> |grown| <= CacheCap(lowLatencyMode, config))
    ensures |abrBitrateData| <= CacheCap(lowLatencyMode, config) ==> |data| <= CacheCap(lowLatencyMode, config)
    ensures data != [] ==> data[|data| - 1] == Sample(presentTime, downloadbps)
    ensures data == [] <==> abrBitrateData == [] && CacheCap(lowLatencyMode, config) == 0
  {
    data := abrBitrateData + [Sample(presentTime, downloadbps)];
    if lowLatencyMode {
      if |data| > DEFAULT_ABR_CHUNK_CACHE_LENGTH {
        data := data[1..];
      }
    } else {
      if |data| > ToUnsigned64(config.abrCacheLength) {
        data := data[1..];
      }
    }
  }

  // ---------------------------------------------------------------------------------
  // UpdateABRBitrateDataBasedOnCacheLife (HybridABRManager.cpp:154-172)

  /** A sample survives the age check when its timestamp is positive and it is at most
      `cacheLife` milliseconds old. */
  predicate Fresh(s: Sample, presentTime: int, cacheLife: int)
  {
    s.timestampMs > 0 && presentTime - s.timestampMs <= cacheLife
  }

  /** The fresh samples, in their original order. */
  function KeptSamples(data: seq<Sample>, presentTime: int, cacheLife: int): (r: seq<Sample>)
    ensures |r| <= |data|
  {
    if data == [] then []
    else
      var last := data[|data| - 1];
      KeptSamples(data[..|data| - 1], presentTime, cacheLife) +
        (if Fresh(last, presentTime, cacheLife) then [last] else [])
  }

  /** The bitrates of a run of samples. */
  function Bitrates(data: seq<Sample>): (r: seq<int>)
    ensures |r| == |data| && forall i :: 0 <= i < |data| ==> r[i] == data[i].bitsPerSecond
  {
    seq(|data|, i requires 0 <= i < |data| => data[i].bitsPerSecond)
  }

  /** Appending a sample appends its bitrate. */
  lemma BitratesAppend(data: seq<Sample>, x: Sample)
    ensures Bitrates(data + [x]) == Bitrates(data) + [x.bitsPerSecond]
  {
  }

  /** One more sample of the history: the filter of the longer prefix keeps what the
      shorter one kept, plus the new sample when it is fresh. */
  lemma KeptSamplesStep(data: seq<Sample>, j: int, presentTime: int, cacheLife: int)
    requires 0 <= j < |data|
    ensures KeptSamples(data[..j + 1], presentTime, cacheLife) ==
            KeptSamples(data[..j], presentTime, cacheLife) +
              (if Fresh(data[j], presentTime, cacheLife) then [data[j]] else [])
  {
    assert data[..j + 1][..j] == data[..j];
  }

  /** How often the filter keeps a sample: as often as it occurs when it is fresh, never
      otherwise. */
  lemma {:induction false} KeptCount(data: seq<Sample>, presentTime: int, cacheLife: int, x: Sample)
    ensures multiset(KeptSamples(data, presentTime, cacheLife))[x] ==
            if Fresh(x, presentTime, cacheLife) then multiset(data)[x] else 0
  {
    if data != [] {
      KeptCount(data[..|data| - 1], presentTime, cacheLife, x);
      SnocMultiset(data);
    }
  }

  /** What the age filter keeps: every fresh sample, as often as it occurs, and nothing else. */
  lemma KeptSamplesSpec(data: seq<Sample>, presentTime: int, cacheLife: int)
    ensures var kept := KeptSamples(data, presentTime, cacheLife);
            |kept| <= |data| &&
            (forall x :: x in kept ==> Fresh(x, presentTime, cacheLife)) &&
            (forall x :: Fresh(x, presentTime, cacheLife) ==> multiset(kept)[x] == multiset(data)[x]) &&
            (forall x :: !Fresh(x, presentTime, cacheLife) ==> multiset(kept)[x] == 0)
  {
    var kept := KeptSamples(data, presentTime, cacheLife);
    forall x
      ensures multiset(kept)[x] == if Fresh(x, presentTime, cacheLife) then multiset(data)[x] else 0
    {
      KeptCount(data, presentTime, cacheLife, x);
    }
  }

  /** A run of fresh samples is kept whole. */
  lemma {:induction false} KeptSamplesAllFresh(data: seq<Sample>, presentTime: int, cacheLife: int)
    requires forall i :: 0 <= i < |data| ==> Fresh(data[i], presentTime, cacheLife)
    ensures KeptSamples(data, presentTime, cacheLife) == data
  {
    if data != [] {
      var n := |data| - 1;
      KeptSamplesAllFresh(data[..n], presentTime, cacheLife);
      assert data == data[..n] + [data[n]];
    }
  }

  /** Filtering twice keeps what filtering once keeps. */
  lemma KeptSamplesIdempotent(data: seq<Sample>, presentTime: int, cacheLife: int)
    ensures KeptSamples(KeptSamples(data, presentTime, cacheLife), presentTime, cacheLife) ==
            KeptSamples(data, presentTime, cacheLife)
  {
    var kept := KeptSamples(data, presentTime, cacheLife);
    forall i | 0 <= i < |kept|
      ensures Fresh(kept[i], presentTime, cacheLife)
    {
      KeptCount(data, presentTime, cacheLife, kept[i]);
    }
    KeptSamplesAllFresh(kept, presentTime, cacheLife);
  }

  /** `UpdateABRBitrateDataBasedOnCacheLife`: erase every stale sample in place, appending
      the bitrate of every sample kept to `tmpData`, in order. */
  method UpdateABRBitrateDataBasedOnCacheLife(abrBitrateData: seq<Sample>, tmpData: seq<int>,
                                              presentTime: int, config: AbrConfig)
    returns (data: seq<Sample>, tmp: seq<int>)
    ensures data == KeptSamples(abrBitrateData, presentTime, config.abrCacheLife)
    ensures tmp == tmpData + Bitrates(data)
  {
    data := abrBitrateData;
    tmp := tmpData;
    var i := 0;
    ghost var j := 0;
    ghost var kept: seq<Sample> := [];
    while i < |data|
      invariant 0 <= j <= |abrBitrateData|
      invariant kept == KeptSamples(abrBitrateData[..j], presentTime, config.abrCacheLife)
      invariant i == |kept| && data == kept + abrBitrateData[j..]
      invariant tmp == tmpData + Bitrates(kept)
      decreases |data| - i
    {
      EraseAt(kept, abrBitrateData, j);
      if data[i].timestampMs <= 0 || presentTime - data[i].timestampMs > config.abrCacheLife {
        data := data[..i] + data[i + 1..];
        assert KeptSamples(abrBitrateData[..j + 1], presentTime, config.abrCacheLife) == kept by {
          KeptSamplesStep(abrBitrateData, j, presentTime, config.abrCacheLife);
        }
      } else {
        tmp := tmp + [data[i].bitsPerSecond];
        assert KeptSamples(abrBitrateData[..j + 1], presentTime, config.abrCacheLife) == kept + [abrBitrateData[j]] by {
          KeptSamplesStep(abrBitrateData, j, presentTime, config.abrCacheLife);
        }
        BitratesAppend(kept, abrBitrateData[j]);
        kept := kept + [abrBitrateData[j]];
        i := i + 1;
      }
      j := j + 1;
    }
    assert abrBitrateData[..j] == abrBitrateData;
  }

  // ---------------------------------------------------------------------------------
  // UpdateABRBitrateDataBasedOnCacheOutlier (HybridABRManager.cpp:179-231)

  /** Non-decreasing order. */
  ghost predicate SortedInts(s: seq<int>)
  {
    forall i, j :: 0 <= i < j < |s| ==> s[i] <= s[j]
  }

  /** Insertion of one value into a non-decreasing sequence. */
  function InsertInt(s: seq<int>, x: int): (r: seq<int>)
    requires SortedInts(s)
    ensures SortedInts(r)
    ensures |r| == |s| + 1
    ensures forall y :: y in r ==> y in s || y == x
  {
    if s == [] then [x]
    else if x <= s[0] then [x] + s
    else
      var rest := InsertInt(s[1..], x);
      assert forall y :: y in s[1..] ==> s[0] <= y;
      assert forall i :: 0 <= i < |rest| ==> s[0] <= rest[i] by {
        forall i | 0 <= i < |rest| ensures s[0] <= rest[i] {
          assert rest[i] in rest;
        }
      }
      [s[0]] + rest
  }

  /** Insertion adds exactly the one value. */
  lemma {:induction false} InsertIntMultiset(s: seq<int>, x: int)
    requires SortedInts(s)
    ensures multiset(InsertInt(s, x)) == multiset(s) + multiset{x}
  {
    if s != [] && x > s[0] {
      InsertIntMultiset(s[1..], x);
      assert s == [s[0]] + s[1..];
    }
  }

  /** The result of `std::sort` on a vector of integers: its values in non-decreasing order. */
  function SortInts(s: seq<int>): (r: seq<int>)
    ensures |r| == |s|
    ensures SortedInts(r)
    ensures multiset(r) == multiset(s)
  {
    if s == [] then []
    else
      var n := |s| - 1;
      assert s == s[..n] + [s[n]];
      InsertIntMultiset(SortInts(s[..n]), s[n]);
      InsertInt(SortInts(s[..n]), s[n])
  }

  /** The head of a non-decreasing sequence is its least value. */
  lemma HeadIsLeast(s: seq<int>, x: int)
    requires SortedInts(s) && x in multiset(s)
    ensures s[0] <= x
  {
    var k :| 0 <= k < |s| && s[k] == x;
    if k > 0 {
      assert s[0] <= s[k];
    }
  }

  /** The tail of a non-decreasing sequence is non-decreasing. */
  lemma SortedIntsTail(s: seq<int>)
    requires SortedInts(s) && s != []
    ensures SortedInts(s[1..])
  {
  }

  /** Two non-decreasing arrangements of the same values agree on their heads and their
      remaining values. */
  lemma SortedHeads(a: seq<int>, b: seq<int>)
    requires SortedInts(a) && SortedInts(b)
    requires multiset(a) == multiset(b) && a != []
    ensures b != [] && a[0] == b[0]
    ensures multiset(a[1..]) == multiset(b[1..])
  {
    assert |a| == |multiset(a)| == |multiset(b)| == |b|;
    HeadIsLeast(b, a[0]);
    HeadIsLeast(a, b[0]);
    HeadTailMultiset(a);
    HeadTailMultiset(b);
  }

  /** A non-decreasing sequence is determined by its multiset, so any sorting algorithm
      yields `SortInts`. */
  lemma {:induction false} SortedIntsUnique(a: seq<int>, b: seq<int>)
    requires SortedInts(a) && SortedInts(b)
    requires multiset(a) == multiset(b)
    ensures a == b
  {
    if a == [] {
      assert |b| == |multiset(b)| == 0;
    } else {
      SortedHeads(a, b);
      SortedIntsTail(a);
      SortedIntsTail(b);
      SortedIntsUnique(a[1..], b[1..]);
      SameHeadSameTail(a, b);
    }
  }

  /** The median the source computes on a sorted, non-empty vector: the middle value when
      the count is odd; when it is even, `(m1 + m2) / 2` with `m1` the upper middle value
      and `m2 = m1 + 1` (both taken at the same position), truncated toward zero. */
  function Median(s: seq<int>): int
    requires |s| > 0
  {
    var n := |s|;
    if n % 2 == 1 then s[n / 2]
    else
      var m1 := s[n / 2];
      var m2 := s[n / 2] + 1;
      CDiv(m1 + m2, 2)
  }

  /** As written, an even-count median is the upper middle value (for a non-negative
      value), not the midpoint of the two middle values. */
  lemma EvenMedianIsUpperMiddle(s: seq<int>)
    requires |s| > 0 && |s| % 2 == 0 && s[|s| / 2] >= 0
    ensures Median(s) == s[|s| / 2]
  {
  }

  /** Two samples 100 and 200 have median 200 here, where their midpoint is 150. */
  lemma EvenMedianExample()
    ensures Median([100, 200]) == 200
  {
  }

  /** A value survives when its distance from the median is at most the threshold. */
  predicate InBand(x: int, median: int, outlier: int)
  {
    Abs(x - median) <= outlier
  }

  /** The values within `outlier` of the median, in order. */
  function Survivors(s: seq<int>, median: int, outlier: int): (r: seq<int>)
    ensures |r| <= |s|
  {
    if s == [] then []
    else
      var last := s[|s| - 1];
      Survivors(s[..|s| - 1], median, outlier) + (if InBand(last, median, outlier) then [last] else [])
  }

  /** The distance the erase loop computes is the absolute difference. */
  lemma DistanceFromMedian(x: int, median: int)
    ensures (if x > median then x - median else median - x) == Abs(x - median)
  {
  }

  /** Sum of a run of values. */
  function Sum(s: seq<int>): int
  {
    if s == [] then 0 else Sum(s[..|s| - 1]) + s[|s| - 1]
  }

  /** Appending a value adds it to the sum. */
  lemma SumAppend(s: seq<int>, x: int)
    ensures Sum(s + [x]) == Sum(s) + x
  {
    assert (s + [x])[..|s|] == s;
  }

  /** One more value: the survivors of the longer prefix are those of the shorter one,
      plus the new value when it is within the band. */
  lemma SurvivorsStep(s: seq<int>, j: int, median: int, outlier: int)
    requires 0 <= j < |s|
    ensures Survivors(s[..j + 1], median, outlier) ==
            Survivors(s[..j], median, outlier) + (if InBand(s[j], median, outlier) then [s[j]] else [])
  {
    assert s[..j + 1][..j] == s[..j];
  }

  /** How often a value survives: as often as it occurs when it is within the band,
      never otherwise. */
  lemma {:induction false} SurvivorCount(s: seq<int>, median: int, outlier: int, x: int)
    ensures multiset(Survivors(s, median, outlier))[x] ==
            if InBand(x, median, outlier) then multiset(s)[x] else 0
  {
    if s != [] {
      SurvivorCount(s[..|s| - 1], median, outlier, x);
      SnocMultiset(s);
    }
  }

  /** The survivors are exactly the values within the band, each as often as it occurs. */
  lemma SurvivorsSpec(s: seq<int>, median: int, outlier: int)
    ensures var t := Survivors(s, median, outlier);
            |t| <= |s| &&
            (forall x :: x in t ==> InBand(x, median, outlier)) &&
            (forall x :: InBand(x, median, outlier) ==> multiset(t)[x] == multiset(s)[x]) &&
            (forall x :: !InBand(x, median, outlier) ==> multiset(t)[x] == 0)
  {
    var t := Survivors(s, median, outlier);
    forall x
      ensures multiset(t)[x] == if InBand(x, median, outlier) then multiset(s)[x] else 0
    {
      SurvivorCount(s, median, outlier, x);
    }
  }

  /** The bandwidth estimate: the integer mean of the values that survive outlier
      rejection around the median of the sorted values, or -1 when none survives. The
      signed sum is divided by the unsigned count, as `avg / tmpData.size()` does. */
  function Estimate(tmpData: seq<int>, outlier: int): int
    requires 0 < |tmpData|
  {
    var sorted := SortInts(tmpData);
    Mean(Survivors(sorted, Median(sorted), outlier))
  }

  /** The integer mean `avg / size()` of the values, or -1 when there are none. */
  function Mean(t: seq<int>): int
  {
    if t == [] then -1 else SignedBySizeDiv(Sum(t), |t|)
  }

  /** `UpdateABRBitrateDataBasedOnCacheOutlier`: sort, take the median, erase in place
      every value farther than `abrCacheOutlier` from it while summing the others, and
      return their integer mean, or -1 when nothing is left. An empty vector is outside
      the source's domain (`at(0)` throws). */
  method UpdateABRBitrateDataBasedOnCacheOutlier(tmpData: seq<int>, config: AbrConfig)
    returns (ret: int, tmp: seq<int>)
    requires 0 < |tmpData|
    ensures var sorted := SortInts(tmpData);
            tmp == Survivors(sorted, Median(sorted), config.abrCacheOutlier)
    ensures ret == Estimate(tmpData, config.abrCacheOutlier)
  {
    var sorted := SortInts(tmpData);
    var medianbps := Median(sorted);
    var avg;
    tmp, avg := EraseOutliers(sorted, medianbps, config.abrCacheOutlier);
    SurvivorsSpec(sorted, medianbps, config.abrCacheOutlier);
    if |tmp| > 0 {
      ret := SignedBySizeDiv(avg, |tmp|);
    } else {
      ret := -1;
    }
    assert ret == Mean(tmp);
  }

  /** The erase loop of `UpdateABRBitrateDataBasedOnCacheOutlier`: every value whose
      distance from the median exceeds the threshold is erased in place; the others are
      summed. */
  method EraseOutliers(sorted: seq<int>, medianbps: int, abrOutlierDiffBytes: int)
    returns (tmp: seq<int>, avg: int)
    ensures tmp == Survivors(sorted, medianbps, abrOutlierDiffBytes)
    ensures avg == Sum(tmp)
  {
    tmp := sorted;
    avg := 0;
    var i := 0;
    ghost var j := 0;
    ghost var kept: seq<int> := [];
    while i < |tmp|
      invariant 0 <= j <= |sorted|
      invariant kept == Survivors(sorted[..j], medianbps, abrOutlierDiffBytes)
      invariant i == |kept| && tmp == kept + sorted[j..]
      invariant avg == Sum(kept)
      decreases |tmp| - i
    {
      EraseAt(kept, sorted, j);
      var diffOutlier := if tmp[i] > medianbps then tmp[i] - medianbps else medianbps - tmp[i];
      if diffOutlier > abrOutlierDiffBytes {
        tmp := tmp[..i] + tmp[i + 1..];
        assert Survivors(sorted[..j + 1], medianbps, abrOutlierDiffBytes) == kept by {
          DistanceFromMedian(sorted[j], medianbps);
          SurvivorsStep(sorted, j, medianbps, abrOutlierDiffBytes);
        }
      } else {
        avg := avg + tmp[i];
        assert Survivors(sorted[..j + 1], medianbps, abrOutlierDiffBytes) == kept + [sorted[j]] by {
          DistanceFromMedian(sorted[j], medianbps);
          SurvivorsStep(sorted, j, medianbps, abrOutlierDiffBytes);
        }
        SumAppend(kept, sorted[j]);
        kept := kept + [sorted[j]];
        i := i + 1;
      }
      j := j + 1;
    }
    assert sorted[..j] == sorted;
  }

  /** Values all within [lo, hi] sum to between |s|*lo and |s|*hi. */
  lemma {:induction false} SumBetween(s: seq<int>, lo: int, hi: int)
    requires forall i :: 0 <= i < |s| ==> lo <= s[i] <= hi
    ensures |s| * lo <= Sum(s) <= |s| * hi
  {
    if s != [] {
      var n := |s| - 1;
      SumBetween(s[..n], lo, hi);
      assert |s| * lo == n * lo + lo && |s| * hi == n * hi + hi;
    }
  }

  lemma MulLe(a: int, b: int, n: int)
    requires a <= b && n >= 0
    ensures a * n <= b * n
  {
  }

  lemma MulSucc(a: int, n: int)
    ensures (a + 1) * n == a * n + n
  {
  }

  /** Integer division of a sum between n*lo and n*hi stays between lo and hi. */
  lemma DivBetween(sum: int, n: int, lo: int, hi: int)
    requires n > 0 && n * lo <= sum <= n * hi
    ensures lo <= sum / n <= hi
  {
    var q := sum / n;
    assert q * n <= sum < q * n + n;
    MulSucc(q, n);
    if q + 1 <= lo {
      MulLe(q + 1, lo, n);
    }
    if hi + 1 <= q {
      MulLe(hi + 1, q, n);
      MulSucc(hi, n);
    }
  }

  /** The mean of values within [lo, hi] whose sum is a non-negative 64-bit value lies
      within [lo, hi]. */
  lemma MeanBetween(t: seq<int>, lo: int, hi: int)
    requires t != [] && 0 <= Sum(t) < TWO_TO_63
    requires forall i :: 0 <= i < |t| ==> lo <= t[i] <= hi
    ensures lo <= Mean(t) <= hi
  {
    SumBetween(t, lo, hi);
    DivBetween(Sum(t), |t|, lo, hi);
  }

  /** When the survivors' sum is a non-negative 64-bit value, the estimate lies within
      `outlier` of the median: rejection keeps the mean near the median. */
  lemma EstimateWithinBand(tmpData: seq<int>, outlier: int)
    requires 0 < |tmpData|
    requires var sorted := SortInts(tmpData);
             var t := Survivors(sorted, Median(sorted), outlier);
             t != [] && 0 <= Sum(t) < TWO_TO_63
    ensures var sorted := SortInts(tmpData);
            var m := Median(sorted);
            m - outlier <= Estimate(tmpData, outlier) <= m + outlier
  {
    var sorted := SortInts(tmpData);
    var m := Median(sorted);
    var t := Survivors(sorted, m, outlier);
    forall i | 0 <= i < |t|
      ensures m - outlier <= t[i] <= m + outlier
    {
      SurvivorCount(sorted, m, outlier, t[i]);
    }
    MeanBetween(t, m - outlier, m + outlier);
  }

  /** With a threshold of 0 (the value the process-wide configuration keeps, since
      `ReadPlayerConfig` never sets it) only samples equal to the median survive, so the
      estimate is the median itself whenever one survives. */
  lemma ZeroThresholdEstimateIsMedian(tmpData: seq<int>)
    requires 0 < |tmpData|
    requires var sorted := SortInts(tmpData);
             var t := Survivors(sorted, Median(sorted), 0);
             t != [] && 0 <= Sum(t) < TWO_TO_63
    ensures Estimate(tmpData, 0) == Median(SortInts(tmpData))
  {
    EstimateWithinBand(tmpData, 0);
  }

  /** Four equal samples `v` survive any non-negative threshold around `v`; a fifth
      sample `w` farther than the threshold does not. */
  lemma SteadySurvivors(v: int, w: int, outlier: int)
    requires 0 <= outlier && v + outlier < w
    ensures Survivors([v, v, v, v, w], v, outlier) == [v, v, v, v]
  {
    var s := [v, v, v, v, w];
    assert s[..0] == [];
    SurvivorsStep(s, 0, v, outlier);
    assert Survivors(s[..1], v, outlier) == [v];
    SurvivorsStep(s, 1, v, outlier);
    assert Survivors(s[..2], v, outlier) == [v, v];
    SurvivorsStep(s, 2, v, outlier);
    assert Survivors(s[..3], v, outlier) == [v, v, v];
    SurvivorsStep(s, 3, v, outlier);
    assert Survivors(s[..4], v, outlier) == [v, v, v, v];
    SurvivorsStep(s, 4, v, outlier);
    assert s[..5] == s;
  }

  /** Four equal samples sum to four times the sample. */
  lemma SumOfFour(v: int)
    ensures Sum([v, v, v, v]) == 4 * v
  {
    SumAppend([], v);
    assert [] + [v] == [v];
    SumAppend([v], v);
    assert [v] + [v] == [v, v];
    SumAppend([v, v], v);
    assert [v, v] + [v] == [v, v, v];
    SumAppend([v, v, v], v);
    assert [v, v, v] + [v] == [v, v, v, v];
  }

  /** A non-decreasing vector is its own sort. */
  lemma SortIntsFixesSorted(s: seq<int>)
    requires SortedInts(s)
    ensures SortInts(s) == s
  {
    SortedIntsUnique(SortInts(s), s);
  }

  /** The estimate of a non-decreasing vector works on the vector itself. */
  lemma EstimateOfSorted(s: seq<int>, outlier: int)
    requires 0 < |s| && SortedInts(s)
    ensures Estimate(s, outlier) == Mean(Survivors(s, Median(s), outlier))
  {
    SortIntsFixesSorted(s);
  }

  /** Four equal samples followed by a larger one are in non-decreasing order, with the
      steady value as their median. */
  lemma SteadyLadder(v: int, w: int)
    requires v <= w
    ensures SortedInts([v, v, v, v, w]) && Median([v, v, v, v, w]) == v
  {
  }

  /** A single far outlier among four steady samples is rejected and does not move the
      estimate: it stays the steady value. */
  lemma OutlierRejected(v: int, w: int, outlier: int)
    requires 0 <= outlier && 0 <= v && v + outlier < w && 4 * v < TWO_TO_63
    ensures Estimate([v, v, v, v, w], outlier) == v
  {
    SteadyLadder(v, w);
    EstimateOfSorted([v, v, v, v, w], outlier);
    SteadySurvivors(v, w, outlier);
    SumOfFour(v);
  }
}
