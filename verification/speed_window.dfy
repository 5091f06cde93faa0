/** The low-latency DASH speed window of HybridABRManager.cpp: the `SpeedCache` record
    (HybridABRManager.cpp:68-85), whose weighted accumulators track a window of at most
    ten (weight, speed) samples. The `double` accumulators are modelled as exact reals. */
module SpeedWindow {

  /** Most samples the window keeps. */
  const MAX_LOW_LATENCY_DASH_ABR_SPEEDSTORE_SIZE: int := 10

  /** One entry of `mChunkSpeedData`: the sample's weight and its speed in bits per second. */
  datatype ChunkSpeed = ChunkSpeed(weight: real, speed: int)

  /** Sum of the weights of a window. */
  function WeightSum(s: seq<ChunkSpeed>): real
  {
    if s == [] then 0.0 else s[0].weight + WeightSum(s[1..])
  }

  /** A sample's weight times its speed. */
  function Weighted(c: ChunkSpeed): real
  {
    c.weight * c.speed as real
  }

  /** Sum of weight times speed over a window. */
  function WeightedSum(s: seq<ChunkSpeed>): real
  {
    if s == [] then 0.0 else Weighted(s[0]) + WeightedSum(s[1..])
  }

  /** Appending a sample adds its terms to both sums. */
  lemma {:induction false} SumsAppend(s: seq<ChunkSpeed>, c: ChunkSpeed)
    ensures WeightSum(s + [c]) == WeightSum(s) + c.weight
    ensures WeightedSum(s + [c]) == WeightedSum(s) + Weighted(c)
  {
    if s != [] {
      assert (s + [c])[1..] == s[1..] + [c];
      SumsAppend(s[1..], c);
    }
  }

  /** The window after one sample: appended, then the oldest sample dropped when the window
      has grown past its size. */
  function SlideWindow(window: seq<ChunkSpeed>, c: ChunkSpeed): (r: seq<ChunkSpeed>)
    ensures r != [] && r[|r| - 1] == c
    ensures r == window + [c] || r == (window + [c])[1..]
    ensures |window| < MAX_LOW_LATENCY_DASH_ABR_SPEEDSTORE_SIZE ==> r == window + [c]
    ensures |window| <= MAX_LOW_LATENCY_DASH_ABR_SPEEDSTORE_SIZE ==>
              |r| <= MAX_LOW_LATENCY_DASH_ABR_SPEEDSTORE_SIZE
  {
    var grown := window + [c];
    if |grown| > MAX_LOW_LATENCY_DASH_ABR_SPEEDSTORE_SIZE then grown[1..] else grown
  }

  /** The sums over the slid window: the new sample's terms added and, when the oldest
      sample left, its terms taken away. */
  lemma SlideSums(window: seq<ChunkSpeed>, c: ChunkSpeed)
    ensures var r := SlideWindow(window, c);
            var grown := window + [c];
            (|grown| <= MAX_LOW_LATENCY_DASH_ABR_SPEEDSTORE_SIZE ==>
               WeightSum(r) == WeightSum(window) + c.weight &&
               WeightedSum(r) == WeightedSum(window) + Weighted(c)) &&
            (|grown| > MAX_LOW_LATENCY_DASH_ABR_SPEEDSTORE_SIZE ==>
               r == window[1..] + [c] &&
               WeightSum(r) == WeightSum(window) + c.weight - window[0].weight &&
               WeightSum(r) == WeightSum(window[1..]) + c.weight &&
               WeightedSum(r) == WeightedSum(window) + Weighted(c) - Weighted(window[0]))
  {
    SumsAppend(window, c);
    if |window + [c]| > MAX_LOW_LATENCY_DASH_ABR_SPEEDSTORE_SIZE {
      assert (window + [c])[1..] == window[1..] + [c];
      SumsAppend(window[1..], c);
    }
  }

  /** The window after the samples `cs`, in order, starting from an empty one. */
  function Pushed(cs: seq<ChunkSpeed>): seq<ChunkSpeed>
  {
    if cs == [] then [] else SlideWindow(Pushed(cs[..|cs| - 1]), cs[|cs| - 1])
  }

  /** A non-empty run is its prefix followed by its last sample. */
  lemma PrefixAndLast(cs: seq<ChunkSpeed>)
    requires cs != []
    ensures cs[..|cs| - 1] + [cs[|cs| - 1]] == cs
  {
  }

  /** A full window of the ten samples before the last, slid by the last one, holds the
      last ten samples. */
  lemma SlidLatest(cs: seq<ChunkSpeed>)
    requires |cs| > MAX_LOW_LATENCY_DASH_ABR_SPEEDSTORE_SIZE
    ensures var n := |cs| - 1;
            (cs[..n][n - MAX_LOW_LATENCY_DASH_ABR_SPEEDSTORE_SIZE..] + [cs[n]])[1..] ==
            cs[|cs| - MAX_LOW_LATENCY_DASH_ABR_SPEEDSTORE_SIZE..]
  {
  }

  /** The window always holds the latest samples: all of them while there are at most
      ten, the last ten afterwards. */
  lemma {:induction false} PushedKeepsLatest(cs: seq<ChunkSpeed>)
    ensures var k := if |cs| < MAX_LOW_LATENCY_DASH_ABR_SPEEDSTORE_SIZE
                     then |cs| else MAX_LOW_LATENCY_DASH_ABR_SPEEDSTORE_SIZE;
            Pushed(cs) == cs[|cs| - k..]
  {
    if cs != [] {
      var n := |cs| - 1;
      PushedKeepsLatest(cs[..n]);
      if n < MAX_LOW_LATENCY_DASH_ABR_SPEEDSTORE_SIZE {
        PrefixAndLast(cs);
      } else {
        SlidLatest(cs);
      }
    }
  }

  /** `struct SpeedCache`: the bookkeeping of one low-latency download. */
  class SpeedCache {
    var lastSampleTimeVal: int
    var prevDlnow: int
    var prevSampleTotalDownloaded: int
    var totalDownloaded: int
    var speedNow: int
    var startVal: int
    var bStart: bool
    var totalWeight: real
    var weightedBitsPerSecond: real
    var chunkSpeedData: seq<ChunkSpeed>

    /** The accumulators are the sums over the window. */
    ghost predicate Valid()
      reads this
    {
      totalWeight == WeightSum(chunkSpeedData) &&
      weightedBitsPerSecond == WeightedSum(chunkSpeedData)
    }

    /** Every member starts at zero and the window empty. */
    constructor()
      ensures Valid()
      ensures lastSampleTimeVal == 0 && prevDlnow == 0 && prevSampleTotalDownloaded == 0
      ensures totalDownloaded == 0 && speedNow == 0 && startVal == 0 && !bStart
      ensures chunkSpeedData == []
    {
      lastSampleTimeVal := 0;
      prevDlnow := 0;
      prevSampleTotalDownloaded := 0;
      totalDownloaded := 0;
      speedNow := 0;
      startVal := 0;
      bStart := false;
      totalWeight := 0.0;
      weightedBitsPerSecond := 0.0;
      chunkSpeedData := [];
    }
  }
}
