/** The configuration record and the two enumerations of HybridABRManager.h, and the
    copy of a caller's configuration into the process-wide one (`ReadPlayerConfig`). */
module HybridConfig {

  /** `AampAbrConfig`: eight integer thresholds and four logging switches. */
  datatype AbrConfig = AbrConfig(
    abrCacheLife: int,
    abrCacheLength: int,
    abrSkipDuration: int,
    abrNwConsistency: int,
    abrThresholdSize: int,
    abrMaxBuffer: int,
    abrMinBuffer: int,
    abrCacheOutlier: int,
    infologging: bool,
    tracelogging: bool,
    warnlogging: bool,
    debuglogging: bool)

  /** The process-wide configuration before any `ReadPlayerConfig`: every member zero. */
  const InitialConfig: AbrConfig := AbrConfig(0, 0, 0, 0, 0, 0, 0, 0, false, false, false, false)

  /** Why a download was aborted. */
  datatype CurlAbortReason = AbortNone | AbortStallTimedOut | AbortStartTimedOut | AbortLowBandwidthTimedOut

  /** The enumerator values of `CurlAbortReason`. */
  function AbortCode(a: CurlAbortReason): (c: int)
    ensures 0 <= c <= 3
    ensures c == 3 <==> a == AbortLowBandwidthTimedOut
  {
    match a
    case AbortNone => 0
    case AbortStallTimedOut => 1
    case AbortStartTimedOut => 2
    case AbortLowBandwidthTimedOut => 3
  }

  /** Why the bitrate changed. */
  datatype BitrateChangeReason =
    | ByAbr | ByRampdown | ByTune | BySeek | ByTrickplay | ByBufferFull | ByBufferEmpty
    | ByFogAbr | ByOta | ByHdmiIn | ChangeMax

  /** The enumerator values of `BitrateChangeReason`: distinct, 0 to 10 in declaration order. */
  function ReasonCode(r: BitrateChangeReason): (c: int)
    ensures 0 <= c <= 10
    ensures r == ByBufferFull <==> c == 5
    ensures r == ByBufferEmpty <==> c == 6
  {
    match r
    case ByAbr => 0
    case ByRampdown => 1
    case ByTune => 2
    case BySeek => 3
    case ByTrickplay => 4
    case ByBufferFull => 5
    case ByBufferEmpty => 6
    case ByFogAbr => 7
    case ByOta => 8
    case ByHdmiIn => 9
    case ChangeMax => 10
  }

  /** Distinct reasons have distinct codes. */
  lemma ReasonCodeInjective(a: BitrateChangeReason, b: BitrateChangeReason)
    requires ReasonCode(a) == ReasonCode(b)
    ensures a == b
  {
  }

  /** `ReadPlayerConfig`: the new process-wide configuration takes every member from the
      caller's record except `abrCacheOutlier`, which the source does not copy. */
  function ReadPlayerConfig(global: AbrConfig, supplied: AbrConfig): (r: AbrConfig)
    ensures r.abrCacheOutlier == global.abrCacheOutlier
    ensures r.abrCacheLife == supplied.abrCacheLife && r.abrCacheLength == supplied.abrCacheLength
    ensures r.abrSkipDuration == supplied.abrSkipDuration && r.abrNwConsistency == supplied.abrNwConsistency
    ensures r.abrThresholdSize == supplied.abrThresholdSize
    ensures r.abrMaxBuffer == supplied.abrMaxBuffer && r.abrMinBuffer == supplied.abrMinBuffer
    ensures r.infologging == supplied.infologging && r.tracelogging == supplied.tracelogging
    ensures r.warnlogging == supplied.warnlogging && r.debuglogging == supplied.debuglogging
    ensures r == supplied <==> supplied.abrCacheOutlier == global.abrCacheOutlier
  {
    AbrConfig(supplied.abrCacheLife, supplied.abrCacheLength, supplied.abrSkipDuration,
              supplied.abrNwConsistency, supplied.abrThresholdSize, supplied.abrMaxBuffer,
              supplied.abrMinBuffer, global.abrCacheOutlier,
              supplied.infologging, supplied.tracelogging, supplied.warnlogging, supplied.debuglogging)
  }

  /** The process-wide configuration after reading each of `supplied` in turn. */
  function ReadAll(global: AbrConfig, supplied: seq<AbrConfig>): AbrConfig
    decreases |supplied|
  {
    if supplied == [] then global
    else ReadAll(ReadPlayerConfig(global, supplied[0]), supplied[1..])
  }

  /** However many configurations are read, the outlier threshold stays what it was, so
      starting from the initial configuration it is always 0; every other member is the
      last record's. */
  lemma {:induction false} OutlierNeverRead(global: AbrConfig, supplied: seq<AbrConfig>)
    decreases |supplied|
    ensures ReadAll(global, supplied).abrCacheOutlier == global.abrCacheOutlier
    ensures supplied != [] ==>
              ReadAll(global, supplied) == supplied[|supplied| - 1].(abrCacheOutlier := global.abrCacheOutlier)
  {
    if supplied != [] {
      var next := ReadPlayerConfig(global, supplied[0]);
      OutlierNeverRead(next, supplied[1..]);
      if |supplied| == 1 {
        assert ReadAll(next, supplied[1..]) == next;
      } else {
        assert supplied[1..][|supplied[1..]| - 1] == supplied[|supplied| - 1];
      }
    }
  }
}
