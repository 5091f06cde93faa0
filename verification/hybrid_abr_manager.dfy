/** HybridABRManager (HybridABRManager.h:31-279, HybridABRManager.cpp): the catalog and
    selection rules of an `AbrManager` (held as `base`, standing for the base class) plus
    the buffer-based gates, the steady-state ramps and the low-latency bookkeeping. The
    process-wide configuration `eAAMPAbrConfig` is the parameter `config`; the caller's
    in-out arguments go in as parameters and come back as results. The ramp lookups
    are made with the default period id "" that the source's calls leave implicit. */
module HybridAbr {
  import opened CArith
  import opened Profiles
  import opened Abr
  import opened HybridConfig
  import opened SpeedWindow

  /** Milliseconds between samples needed before a speed sample is taken. */
  const DEFAULT_ABR_ELAPSED_MILLIS_FOR_ESTIMATE: int := 100
  /** A steady-state ramp-up candidate is replaced by the next profile up when it is less
      than this far above the network bandwidth. */
  const STEADY_RAMPUP_MARGIN: int := 2000000

  /** The cycle of the `loop` exponent: 1, 2, 3, 4, then back to 1. */
  function NextLoop(loop: int): (r: int)
    requires 1 <= loop <= 4
    ensures 1 <= r <= 4
    ensures loop < 4 ==> r == loop + 1
    ensures loop == 4 ==> r == 1
  {
    var incremented := loop + 1;
    if incremented > 4 then 1 else incremented
  }

  /** `k` advances of the exponent. */
  function LoopAfter(loop: int, k: nat): (r: int)
    requires 1 <= loop <= 4
    ensures 1 <= r <= 4
  {
    if k == 0 then loop else NextLoop(LoopAfter(loop, k - 1))
  }

  /** The exponent returns to where it was every four ramp-ups, and starting from 1 it takes
      the values 2, 3, 4, 1. */
  lemma {:induction false} LoopCycles(loop: int, k: nat)
    requires 1 <= loop <= 4
    ensures LoopAfter(loop, k + 4) == LoopAfter(loop, k)
  {
    if k == 0 {
      assert LoopAfter(loop, 4) == NextLoop(NextLoop(NextLoop(NextLoop(loop))));
    } else {
      LoopCycles(loop, k - 1);
    }
  }

  /** The values the exponent takes on the first four ramp-ups. */
  lemma LoopSequence()
    ensures LoopAfter(1, 1) == 2 && LoopAfter(1, 2) == 3 && LoopAfter(1, 3) == 4 && LoopAfter(1, 4) == 1
  {
  }

  class HybridAbrManager {
    /** The `ABRManager` part of the object. */
    const base: AbrManager
    /** `mABRHighBufferCounter`, `mABRLowBufferCounter`: held for the caller. */
    var abrHighBufferCounter: int
    var abrLowBufferCounter: int
    var bLowLatencyStartABR: bool
    var bLowLatencyServiceConfigured: bool
    /** The function-static `loop` of `CheckRampupFromSteadyState`. */
    var rampupLoop: int

    /** The exponent of the ramp-up back-off stays in its cycle. */
    ghost predicate Valid()
      reads this`rampupLoop
    {
      1 <= rampupLoop <= 4
    }

    /** A manager over the given catalog; the members the source leaves uninitialised start
        at zero / false, and the static `loop` at its initialiser 1. */
    constructor (base: AbrManager)
      ensures Valid()
      ensures this.base == base && rampupLoop == 1
      ensures abrHighBufferCounter == 0 && abrLowBufferCounter == 0
      ensures !bLowLatencyStartABR && !bLowLatencyServiceConfigured
    {
      this.base := base;
      abrHighBufferCounter := 0;
      abrLowBufferCounter := 0;
      bLowLatencyStartABR := false;
      bLowLatencyServiceConfigured := false;
      rampupLoop := 1;
    }

    /** `CheckProfileChange`: during the initial buffering (a positive fetched duration
        below the skip duration) a change is checked only when a positive available
        bandwidth is below the current profile's; otherwise it always is. */
    function CheckProfileChange(totalFetchedDuration: real, currProfileIndex: int, availBW: int,
                                config: AbrConfig): (r: bool)
      reads base`profiles
      requires base.profiles == [] || 0 <= currProfileIndex
      ensures totalFetchedDuration <= 0.0 || totalFetchedDuration >= config.abrSkipDuration as real ==> r
      ensures !r <==> 0.0 < totalFetchedDuration < config.abrSkipDuration as real &&
                      !(0 < availBW < base.GetBandwidthOfProfile(currProfileIndex))
      ensures r && 0.0 < totalFetchedDuration < config.abrSkipDuration as real ==>
                0 < availBW && base.profiles != [] && availBW < base.GetBandwidthOfProfile(currProfileIndex)
    {
      var currBW := base.GetBandwidthOfProfile(currProfileIndex);
      if 0.0 < totalFetchedDuration < config.abrSkipDuration as real then
        availBW > 0 && availBW < currBW
      else true
    }

    /** `IsLowestProfile`: in trick play the lowest iframe profile, otherwise the lowest
        bandwidth of the default period. */
    function IsLowestProfile(currentProfileIndex: int, isTrickplayMode: bool): (r: bool)
      reads base`profiles, base`sortedLists, base`lowestIframeProfile
      requires isTrickplayMode || base.profiles == [] || 0 <= currentProfileIndex
      ensures isTrickplayMode ==> (r <==> currentProfileIndex == base.GetLowestIframeProfile())
    {
      if isTrickplayMode then currentProfileIndex == base.GetLowestIframeProfile()
      else base.IsProfileIndexBitrateLowest(currentProfileIndex, "")
    }

    /** Outside trick play the profile is the lowest exactly when the catalog or the
        default period is empty or its bandwidth is the least key of the default period. */
    lemma IsLowestProfileSpec(currentProfileIndex: int)
      requires base.Valid() && (base.profiles == [] || 0 <= currentProfileIndex)
      ensures IsLowestProfile(currentProfileIndex, false) <==>
              base.profiles == [] || PeriodMapOf(base.profiles, "") == map[] ||
              (var bw := base.profiles[ClampIndex(currentProfileIndex, |base.profiles|)].bandwidthBitsPerSecond;
               bw in PeriodMapOf(base.profiles, "") &&
               forall k :: k in PeriodMapOf(base.profiles, "") ==> bw <= k)
    {
      base.LowestSpec(currentProfileIndex, "");
    }

    /** `GetDesiredProfileOnBuffer`: with buffered content, a ramp-up candidate is kept only
        when the buffer has reached `abrMaxBuffer`, and a one-step ramp-down candidate is
        dropped while the buffer exceeds `minBufferNeeded`; the answer is always the
        candidate or the current profile. */
    method GetDesiredProfileOnBuffer(currProfileIndex: int, newProfileIndex: int, bufferValue: real,
                                     minBufferNeeded: real, config: AbrConfig)
      returns (r: int)
      requires base.profiles == [] || (0 <= currProfileIndex && 0 <= newProfileIndex)
      ensures r == newProfileIndex || r == currProfileIndex
      ensures bufferValue <= 0.0 ==> r == newProfileIndex
      ensures bufferValue > 0.0 &&
              base.GetBandwidthOfProfile(newProfileIndex) > base.GetBandwidthOfProfile(currProfileIndex) ==>
                (r == currProfileIndex <==> bufferValue < config.abrMaxBuffer as real || newProfileIndex == currProfileIndex)
      ensures bufferValue > 0.0 &&
              base.GetBandwidthOfProfile(newProfileIndex) <= base.GetBandwidthOfProfile(currProfileIndex) ==>
                (r == currProfileIndex <==>
                   (bufferValue > minBufferNeeded && base.RampedDownProfileIndex(currProfileIndex, "") == newProfileIndex) ||
                   newProfileIndex == currProfileIndex)
    {
      var currentBandwidth := base.GetBandwidthOfProfile(currProfileIndex);
      var newBandwidth := base.GetBandwidthOfProfile(newProfileIndex);
      r := newProfileIndex;
      if bufferValue > 0.0 {
        if newBandwidth > currentBandwidth {
          if bufferValue < config.abrMaxBuffer as real {
            r := currProfileIndex;
          }
        } else {
          if bufferValue > minBufferNeeded && base.RampedDownProfileIndex(currProfileIndex, "") == newProfileIndex {
            r := currProfileIndex;
          }
        }
      }
    }

    /** `CheckRampupFromSteadyState`: a candidate less than 2 Mbps above the network
        bandwidth becomes the next profile up; when the final candidate differs from the
        current profile the back-off exponent advances, the buffer count check becomes
        `abrCacheLength` to that power and the reason becomes "buffer full"; otherwise the
        caller's values are returned unchanged. A ramp-up from the highest key, or from
        above every key, is no change. */
    method CheckRampupFromSteadyState(currProfileIndex: int, newProfileIndex: int, nwBandwidth: int,
                                      bufferValue: real, newBandwidth: int,
                                      bitrateReason: BitrateChangeReason, maxBufferCountCheck: int,
                                      config: AbrConfig)
      returns (newIndex: int, reason: BitrateChangeReason, countCheck: int)
      requires Valid()
      requires base.profiles == [] || 0 <= currProfileIndex
      modifies this`rampupLoop
      ensures Valid()
      ensures newIndex == (if newBandwidth - nwBandwidth < STEADY_RAMPUP_MARGIN
                           then base.RampedUpProfileIndex(currProfileIndex, "") else newProfileIndex)
      ensures newIndex != currProfileIndex ==>
                rampupLoop == NextLoop(old(rampupLoop)) && reason == ByBufferFull &&
                countCheck == Pow(config.abrCacheLength, rampupLoop)
      ensures newIndex == currProfileIndex ==>
                rampupLoop == old(rampupLoop) && reason == bitrateReason && countCheck == maxBufferCountCheck
      ensures newBandwidth - nwBandwidth < STEADY_RAMPUP_MARGIN && base.Valid() &&
              0 <= currProfileIndex < |base.profiles| &&
              (forall k :: k in PeriodMapOf(base.profiles, "") ==>
                 k <= base.profiles[currProfileIndex].bandwidthBitsPerSecond) ==>
                newIndex == currProfileIndex && rampupLoop == old(rampupLoop)
    {
      if base.Valid() {
        base.RampedUpSpec(currProfileIndex, "");
      }
      var nProfileIdx := base.RampedUpProfileIndex(currProfileIndex, "");
      newIndex := newProfileIndex;
      reason := bitrateReason;
      countCheck := maxBufferCountCheck;
      if newBandwidth - nwBandwidth < STEADY_RAMPUP_MARGIN {
        newIndex := nProfileIdx;
      }
      if newIndex != currProfileIndex {
        rampupLoop := NextLoop(rampupLoop);
        countCheck := Pow(config.abrCacheLength, rampupLoop);
        reason := ByBufferFull;
      }
    }

    /** `CheckRampdownFromSteadyState`: once the low-buffer counter exceeds `abrCacheLength`
        the candidate becomes the next profile down, with reason "buffer empty" when that
        is a change; the move never raises the bandwidth. */
    method CheckRampdownFromSteadyState(currProfileIndex: int, newProfileIndex: int,
                                        bitrateReason: BitrateChangeReason, abrLowBufferCounter: int,
                                        config: AbrConfig)
      returns (newIndex: int, reason: BitrateChangeReason)
      requires base.profiles == [] || 0 <= currProfileIndex
      ensures abrLowBufferCounter <= config.abrCacheLength ==>
                newIndex == newProfileIndex && reason == bitrateReason
      ensures abrLowBufferCounter > config.abrCacheLength ==>
                newIndex == base.RampedDownProfileIndex(currProfileIndex, "") &&
                (reason == ByBufferEmpty || (newIndex == currProfileIndex && reason == bitrateReason)) &&
                (newIndex != currProfileIndex ==> reason == ByBufferEmpty)
      ensures abrLowBufferCounter > config.abrCacheLength && base.Valid() && base.profiles != [] ==>
                0 <= newIndex < |base.profiles| &&
                base.GetBandwidthOfProfile(newIndex) <= base.GetBandwidthOfProfile(currProfileIndex)
    {
      newIndex := newProfileIndex;
      reason := bitrateReason;
      if abrLowBufferCounter > config.abrCacheLength {
        newIndex := base.RampedDownProfileIndex(currProfileIndex, "");
        if newIndex != currProfileIndex {
          reason := ByBufferEmpty;
        }
        if base.Valid() && base.profiles != [] {
          base.RampedDownSpec(currProfileIndex, "");
        }
      }
    }

    /** `IsABRDataGoodToEstimate`: a speed sample is taken once at least 100 ms have passed. */
    function IsABRDataGoodToEstimate(timeDiff: int): (r: bool)
      ensures r <==> timeDiff >= DEFAULT_ABR_ELAPSED_MILLIS_FOR_ESTIMATE
    {
      timeDiff >= DEFAULT_ABR_ELAPSED_MILLIS_FOR_ESTIMATE
    }

    /** `CheckLLDashABRSpeedStoreSize`: record one speed sample in the window, keeping the
        accumulators equal to the sums over the window; once the window overflows, the
        oldest sample leaves and the estimate becomes the weighted mean speed of the window,
        truncated. `weight` is the sample's weight, the square root of the bytes downloaded.
        The accumulators are computed before they are stored, in the source's order. */
    method CheckLLDashABRSpeedStoreSize(speedcache: SpeedCache, bitsPerSecond: int, timeNow: int,
                                        totalDlDiff: int, timeDiff: int, currentTotalDownloaded: int,
                                        weight: real)
      returns (bps: int)
      requires speedcache.Valid()
      requires timeDiff != 0
      requires |speedcache.chunkSpeedData| >= MAX_LOW_LATENCY_DASH_ABR_SPEEDSTORE_SIZE ==>
                 WeightSum(speedcache.chunkSpeedData[1..]) + weight != 0.0
      modifies speedcache
      ensures speedcache.Valid()
      ensures speedcache.speedNow == CDiv(totalDlDiff, timeDiff) * 8000
      ensures speedcache.chunkSpeedData ==
                SlideWindow(old(speedcache.chunkSpeedData), ChunkSpeed(weight, speedcache.speedNow))
      ensures speedcache.lastSampleTimeVal == timeNow
      ensures speedcache.prevSampleTotalDownloaded == currentTotalDownloaded
      ensures speedcache.prevDlnow == old(speedcache.prevDlnow) && speedcache.totalDownloaded == old(speedcache.totalDownloaded)
      ensures speedcache.startVal == old(speedcache.startVal) && speedcache.bStart == old(speedcache.bStart)
      ensures |old(speedcache.chunkSpeedData)| < MAX_LOW_LATENCY_DASH_ABR_SPEEDSTORE_SIZE ==> bps == bitsPerSecond
      ensures |old(speedcache.chunkSpeedData)| >= MAX_LOW_LATENCY_DASH_ABR_SPEEDSTORE_SIZE ==>
                WeightSum(speedcache.chunkSpeedData) != 0.0
      ensures |old(speedcache.chunkSpeedData)| >= MAX_LOW_LATENCY_DASH_ABR_SPEEDSTORE_SIZE ==>
                bps == TruncReal(WeightedSum(speedcache.chunkSpeedData) / WeightSum(speedcache.chunkSpeedData))
    {
      var speedNow := CDiv(totalDlDiff, timeDiff) * 8000;
      var sample := ChunkSpeed(weight, speedNow);
      var window := speedcache.chunkSpeedData;
      SlideSums(window, sample);
      var weighted := speedcache.weightedBitsPerSecond + Weighted(sample);
      var total := speedcache.totalWeight + weight;
      var data := window + [sample];
      bps := bitsPerSecond;
      if |data| > MAX_LOW_LATENCY_DASH_ABR_SPEEDSTORE_SIZE {
        total := total - data[0].weight;
        weighted := weighted - Weighted(data[0]);
        data := data[1..];
        bps := TruncReal(weighted / total);
      }
      speedcache.lastSampleTimeVal := timeNow;
      speedcache.speedNow := speedNow;
      speedcache.weightedBitsPerSecond := weighted;
      speedcache.totalWeight := total;
      speedcache.chunkSpeedData := data;
      speedcache.prevSampleTotalDownloaded := currentTotalDownloaded;
    }

    function GetLowLatencyStartABR(): bool
      reads this`bLowLatencyStartABR
    {
      bLowLatencyStartABR
    }

    method SetLowLatencyStartABR(bStart: bool)
      modifies this`bLowLatencyStartABR
      ensures GetLowLatencyStartABR() == bStart
    {
      bLowLatencyStartABR := bStart;
    }

    function GetLowLatencyServiceConfigured(): bool
      reads this`bLowLatencyServiceConfigured
    {
      bLowLatencyServiceConfigured
    }

    method SetLowLatencyServiceConfigured(bConfig: bool)
      modifies this`bLowLatencyServiceConfigured
      ensures GetLowLatencyServiceConfigured() == bConfig
    {
      bLowLatencyServiceConfigured := bConfig;
    }
  }
}
