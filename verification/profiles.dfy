/** The profile record and constants of ABRManager.h, and the reference definitions that
    the catalog operations of ABRManager.cpp are proved against. */
module Profiles {

  /** "No profile" sentinel. */
  const INVALID_PROFILE: int := -1
  /** Default initial bitrate until `setDefaultInitBitrate` overrides it. */
  const DEFAULT_BITRATE: int := 1000000
  /** A resolution wider or taller than 1920x1080 counts as 4K. */
  const WIDTH_4K: int := 1920
  const HEIGHT_4K: int := 1080
  /** Consecutive observations needed before a one-step ramp is committed, by default. */
  const DEFAULT_ABR_NW_CONSISTENCY_COUNT: int := 2

  /** One rendition; its position in the catalog is its profile index. */
  datatype ProfileInfo = ProfileInfo(
    isIframeTrack: bool,
    bandwidthBitsPerSecond: int,
    width: int,
    height: int,
    periodId: string,
    userData: int)

  /** An index at or beyond `count` is clamped to the last index `count - 1`. */
  function ClampIndex(index: int, count: int): (r: int)
    ensures r < count && r <= index
    ensures r == index || r == count - 1
  {
    if index >= count then count - 1 else index
  }

  /** The bandwidth -> index map that the `addProfile` calls for `profiles`, in order,
      leave for one period: each non-iframe profile of that period binds its bandwidth to
      its index, a later profile overwriting an earlier one of equal bandwidth. */
  function PeriodMapOf(profiles: seq<ProfileInfo>, periodId: string): map<int, int>
  {
    if profiles == [] then map[]
    else
      var n := |profiles| - 1;
      var m := PeriodMapOf(profiles[..n], periodId);
      var p := profiles[n];
      if !p.isIframeTrack && p.periodId == periodId then m[p.bandwidthBitsPerSecond := n] else m
  }

  /** A profile that the period's map indexes under a key. */
  predicate Indexed(profiles: seq<ProfileInfo>, periodId: string, i: int)
  {
    0 <= i < |profiles| && !profiles[i].isIframeTrack && profiles[i].periodId == periodId
  }

  /** Soundness of the period map: a binding `k -> i` names the LAST non-iframe profile of
      the period whose bandwidth is k. */
  lemma {:induction false} PeriodMapOfSound(profiles: seq<ProfileInfo>, periodId: string, k: int)
    requires k in PeriodMapOf(profiles, periodId)
    ensures Indexed(profiles, periodId, PeriodMapOf(profiles, periodId)[k])
    ensures profiles[PeriodMapOf(profiles, periodId)[k]].bandwidthBitsPerSecond == k
    ensures forall j :: PeriodMapOf(profiles, periodId)[k] < j < |profiles| && Indexed(profiles, periodId, j) ==>
              profiles[j].bandwidthBitsPerSecond != k
  {
    var n := |profiles| - 1;
    var p := profiles[n];
    var prefix := profiles[..n];
    if !p.isIframeTrack && p.periodId == periodId && p.bandwidthBitsPerSecond == k {
    } else {
      PeriodMapOfSound(prefix, periodId, k);
      var i := PeriodMapOf(profiles, periodId)[k];
      assert prefix[i] == profiles[i];
      forall j | i < j < |profiles| && Indexed(profiles, periodId, j)
        ensures profiles[j].bandwidthBitsPerSecond != k
      {
        if j < n {
          assert prefix[j] == profiles[j];
          assert Indexed(prefix, periodId, j);
        }
      }
    }
  }

  /** Completeness of the period map: every non-iframe profile of the period has its
      bandwidth as a key, bound to its own index or a later one. */
  lemma {:induction false} PeriodMapOfComplete(profiles: seq<ProfileInfo>, periodId: string, i: int)
    requires Indexed(profiles, periodId, i)
    ensures profiles[i].bandwidthBitsPerSecond in PeriodMapOf(profiles, periodId)
    ensures PeriodMapOf(profiles, periodId)[profiles[i].bandwidthBitsPerSecond] >= i
  {
    var n := |profiles| - 1;
    var prefix := profiles[..n];
    if i < n {
      assert prefix[i] == profiles[i];
      PeriodMapOfComplete(prefix, periodId, i);
    }
  }

  /** Profiles that are not iframe tracks, or belong to another period, leave the map alone. */
  lemma PeriodMapOfAppend(profiles: seq<ProfileInfo>, p: ProfileInfo, periodId: string)
    ensures PeriodMapOf(profiles + [p], periodId) ==
              if !p.isIframeTrack && p.periodId == periodId
              then PeriodMapOf(profiles, periodId)[p.bandwidthBitsPerSecond := |profiles|]
              else PeriodMapOf(profiles, periodId)
  {
    assert (profiles + [p])[..|profiles|] == profiles;
  }

  // ---------------------------------------------------------------------------------
  // getBestMatchedProfileIndexByBandWidth (ABRManager.cpp:318-348)

  /** A non-iframe profile whose bandwidth equals the requested one. */
  predicate IsExact(p: ProfileInfo, bandwidth: int)
  {
    !p.isIframeTrack && p.bandwidthBitsPerSecond == bandwidth
  }

  /** A non-iframe profile whose bandwidth is below the requested one. */
  predicate IsLower(p: ProfileInfo, bandwidth: int)
  {
    !p.isIframeTrack && p.bandwidthBitsPerSecond < bandwidth
  }

  /** The least index of an exact match, or -1. */
  function FirstExact(profiles: seq<ProfileInfo>, bandwidth: int): (r: int)
    ensures -1 <= r < |profiles|
    ensures r >= 0 ==> IsExact(profiles[r], bandwidth)
    ensures forall i :: 0 <= i < |profiles| && (r < 0 || i < r) ==> !IsExact(profiles[i], bandwidth)
  {
    if profiles == [] then -1
    else if IsExact(profiles[0], bandwidth) then 0
    else
      var r := FirstExact(profiles[1..], bandwidth);
      if r < 0 then -1 else r + 1
  }

  /** The greatest index of a lower profile, or -1. */
  function LastLower(profiles: seq<ProfileInfo>, bandwidth: int): (r: int)
    ensures -1 <= r < |profiles|
    ensures r >= 0 ==> IsLower(profiles[r], bandwidth)
    ensures forall i :: r < i < |profiles| ==> !IsLower(profiles[i], bandwidth)
  {
    if profiles == [] then -1
    else if IsLower(profiles[|profiles| - 1], bandwidth) then |profiles| - 1
    else LastLower(profiles[..|profiles| - 1], bandwidth)
  }

  /** What the scan of getBestMatchedProfileIndexByBandWidth settles on: the first exact
      match; failing that, the index just after the last lower profile (the last index
      itself when that profile is the last one); failing that, 0. */
  function BestMatch(profiles: seq<ProfileInfo>, bandwidth: int): (r: int)
    ensures profiles == [] ==> r == 0
    ensures profiles != [] ==> 0 <= r < |profiles|
  {
    var e := FirstExact(profiles, bandwidth);
    if e >= 0 then e
    else
      var l := LastLower(profiles, bandwidth);
      if l < 0 then 0 else if l == |profiles| - 1 then l else l + 1
  }

  /** A catalog of non-iframe profiles listed in strictly ascending bandwidth. */
  ghost predicate AscendingLadder(profiles: seq<ProfileInfo>)
  {
    (forall i :: 0 <= i < |profiles| ==> !profiles[i].isIframeTrack) &&
    (forall i, j :: 0 <= i < j < |profiles| ==>
       profiles[i].bandwidthBitsPerSecond < profiles[j].bandwidthBitsPerSecond)
  }

  /** On an ascending ladder the best match is the ceiling: the first profile whose
      bandwidth reaches the requested one, or the top profile when none does. */
  lemma BestMatchIsCeiling(profiles: seq<ProfileInfo>, bandwidth: int)
    requires AscendingLadder(profiles) && profiles != []
    ensures var r := BestMatch(profiles, bandwidth);
            (forall i :: 0 <= i < r ==> profiles[i].bandwidthBitsPerSecond < bandwidth) &&
            (profiles[r].bandwidthBitsPerSecond >= bandwidth || r == |profiles| - 1)
  {
    var e := FirstExact(profiles, bandwidth);
    if e < 0 {
      var l := LastLower(profiles, bandwidth);
      if l >= 0 {
        forall i | 0 <= i < l
          ensures profiles[i].bandwidthBitsPerSecond < bandwidth
        {
          assert profiles[i].bandwidthBitsPerSecond < profiles[l].bandwidthBitsPerSecond;
        }
      }
    } else {
      forall i | 0 <= i < e
        ensures profiles[i].bandwidthBitsPerSecond < bandwidth
      {
        assert profiles[i].bandwidthBitsPerSecond < profiles[e].bandwidthBitsPerSecond;
      }
    }
  }

  /** The scan never looks at iframe tracks, yet "the index after the last lower profile"
      can be an iframe track's index. */
  lemma BestMatchCanLandOnIframe()
    ensures var ladder := [ProfileInfo(false, 100, 0, 0, "", 0),
                           ProfileInfo(true, 50, 0, 0, "", 1),
                           ProfileInfo(false, 300, 0, 0, "", 2)];
            BestMatch(ladder, 200) == 1 && ladder[1].isIframeTrack
  {
    var ladder := [ProfileInfo(false, 100, 0, 0, "", 0),
                   ProfileInfo(true, 50, 0, 0, "", 1),
                   ProfileInfo(false, 300, 0, 0, "", 2)];
    assert LastLower(ladder, 200) == 0 by {
      assert !IsLower(ladder[2], 200) && !IsLower(ladder[1], 200);
      assert ladder[..2][..1] == ladder[..1];
    }
  }
}
