/** The profile catalog and selection rules of ABRManager (ABRManager.h:32-358,
    ABRManager.cpp:160-699). The catalog `mProfiles` is the sequence `profiles`; the
    per-period ordered maps `mSortedBWProfileList` are sorted entry lists keyed by period.
    A period with no entry in `sortedLists` has the empty list. */
module Abr {
  import opened BandwidthMap
  import opened Profiles
  import opened IframeSelection
  import opened RampDecision

  /** Every entry of a period's list names the last non-iframe profile of that period
      with the entry's bandwidth. */
  lemma EntryNamesProfile(profiles: seq<ProfileInfo>, periodId: string, list: seq<Entry>, i: int)
    requires StrictlySorted(list) && AsMap(list) == PeriodMapOf(profiles, periodId)
    requires 0 <= i < |list|
    ensures Indexed(profiles, periodId, list[i].index)
    ensures profiles[list[i].index].bandwidthBitsPerSecond == list[i].bandwidth
    ensures list[i].bandwidth in PeriodMapOf(profiles, periodId)
    ensures PeriodMapOf(profiles, periodId)[list[i].bandwidth] == list[i].index
  {
    AsMapAt(list, i);
    PeriodMapOfSound(profiles, periodId, list[i].bandwidth);
  }

  /** The keys of the period map are the bandwidths of the list, in sorted positions. */
  lemma KeyPosition(profiles: seq<ProfileInfo>, periodId: string, list: seq<Entry>, k: int) returns (q: int)
    requires StrictlySorted(list) && AsMap(list) == PeriodMapOf(profiles, periodId)
    requires k in PeriodMapOf(profiles, periodId)
    ensures q == Find(list, k) && 0 <= q < |list| && list[q].bandwidth == k
  {
    AsMapKeys(list, k);
    q := Find(list, k);
  }

  /** In a period's sorted list, the entry just below the key `bw` (the lowest entry
      itself when `bw` is the lowest key) names the profile bound to the next lower key. */
  lemma PredecessorEntry(profiles: seq<ProfileInfo>, periodId: string, list: seq<Entry>, bw: int)
    requires StrictlySorted(list) && AsMap(list) == PeriodMapOf(profiles, periodId)
    requires bw in PeriodMapOf(profiles, periodId)
    ensures 0 <= Find(list, bw) < |list|
    ensures var keys := PeriodMapOf(profiles, periodId);
            var p := Find(list, bw);
            var e := list[if p == 0 then 0 else p - 1];
            Indexed(profiles, periodId, e.index) &&
            profiles[e.index].bandwidthBitsPerSecond == e.bandwidth &&
            e.bandwidth in keys && keys[e.bandwidth] == e.index && e.bandwidth <= bw &&
            (e.bandwidth == bw <==> forall k :: k in keys ==> bw <= k) &&
            (forall k :: k in keys && k < bw ==> k <= e.bandwidth)
  {
    var keys := PeriodMapOf(profiles, periodId);
    AsMapKeys(list, bw);
    var p := Find(list, bw);
    var t := if p == 0 then 0 else p - 1;
    EntryNamesProfile(profiles, periodId, list, t);
    if p > 0 {
      AsMapAt(list, 0);
      assert list[0].bandwidth in keys && list[0].bandwidth < bw;
    }
    forall k | k in keys
      ensures (k < bw ==> k <= list[t].bandwidth) && (p == 0 ==> bw <= k)
    {
      var q := KeyPosition(profiles, periodId, list, k);
    }
  }

  /** In a period's sorted list, an entry follows the key `bw` exactly when a higher key
      exists, and then it names the profile bound to the next higher key. */
  lemma SuccessorEntry(profiles: seq<ProfileInfo>, periodId: string, list: seq<Entry>, bw: int)
    requires StrictlySorted(list) && AsMap(list) == PeriodMapOf(profiles, periodId)
    requires bw in PeriodMapOf(profiles, periodId)
    ensures 0 <= Find(list, bw) < |list|
    ensures Find(list, bw) + 1 == |list| <==> forall k :: k in PeriodMapOf(profiles, periodId) ==> k <= bw
    ensures var keys := PeriodMapOf(profiles, periodId);
            var p := Find(list, bw);
            p + 1 < |list| ==>
              var e := list[p + 1];
              Indexed(profiles, periodId, e.index) &&
              profiles[e.index].bandwidthBitsPerSecond == e.bandwidth &&
              e.bandwidth in keys && keys[e.bandwidth] == e.index && e.bandwidth > bw &&
              (forall k :: k in keys && k > bw ==> k >= e.bandwidth)
  {
    var keys := PeriodMapOf(profiles, periodId);
    AsMapKeys(list, bw);
    var p := Find(list, bw);
    if p + 1 < |list| {
      EntryNamesProfile(profiles, periodId, list, p + 1);
      AsMapAt(list, p + 1);
      assert list[p + 1].bandwidth in keys && list[p + 1].bandwidth > bw;
      forall k | k in keys && k > bw
        ensures k >= list[p + 1].bandwidth
      {
        var q := KeyPosition(profiles, periodId, list, k);
      }
    } else {
      forall k | k in keys
        ensures k <= bw
      {
        var q := KeyPosition(profiles, periodId, list, k);
      }
    }
  }

  /** When a key above `bw` exists, the entry after `bw`'s names a profile whose own
      bandwidth finds that entry again, and the entry before it is `bw`'s own. */
  lemma UpThenDown(profiles: seq<ProfileInfo>, periodId: string, list: seq<Entry>, bw: int)
    requires StrictlySorted(list) && AsMap(list) == PeriodMapOf(profiles, periodId)
    requires bw in PeriodMapOf(profiles, periodId)
    requires exists k :: k in PeriodMapOf(profiles, periodId) && k > bw
    ensures var p := Find(list, bw);
            0 <= p && p + 1 < |list| &&
            0 <= list[p + 1].index < |profiles| &&
            Find(list, profiles[list[p + 1].index].bandwidthBitsPerSecond) == p + 1 &&
            list[p].index == PeriodMapOf(profiles, periodId)[bw]
  {
    var p := KeyPosition(profiles, periodId, list, bw);
    var k :| k in PeriodMapOf(profiles, periodId) && k > bw;
    var q := KeyPosition(profiles, periodId, list, k);
    assert p + 1 < |list|;
    EntryNamesProfile(profiles, periodId, list, p + 1);
    EntryNamesProfile(profiles, periodId, list, p);
    assert Find(list, list[p + 1].bandwidth) == p + 1;
  }

  class AbrManager {
    /** `mProfiles`: the catalog in insertion order; a position is a profile index. */
    var profiles: seq<ProfileInfo>
    /** `mSortedBWProfileList`: per period, bandwidth -> profile index in key order. */
    var sortedLists: map<string, seq<Entry>>
    var lowestIframeProfile: int
    var desiredIframeProfile: int
    var defaultInitBitrate: int
    /** Consecutive one-step observations; never negative. */
    var abrProfileChangeUpCount: nat
    var abrProfileChangeDownCount: nat
    var defaultIframeBitrate: int
    /** Persisted network bandwidth and its update time, held per manager here. */
    var persistBandwidth: int
    var persistBandwidthUpdatedTime: int

    /** The sorted map of one period (empty when the period has none). */
    function PeriodList(periodId: string): seq<Entry>
      reads this`sortedLists
    {
      if periodId in sortedLists then sortedLists[periodId] else []
    }

    /** Each period's list is strictly sorted and denotes exactly the map that the
        non-iframe profiles of that period, added in order, leave behind. */
    ghost predicate Valid()
      reads this`profiles, this`sortedLists
    {
      forall periodId :: StrictlySorted(PeriodList(periodId)) &&
                         AsMap(PeriodList(periodId)) == PeriodMapOf(profiles, periodId)
    }

    function ProfileCount(): int
      reads this`profiles
    {
      |profiles|
    }

    /** ABRManager.cpp:165-173 and the static initialisers of ABRManager.cpp:160-161. */
    constructor ()
      ensures Valid()
      ensures profiles == [] && sortedLists == map[]
      ensures defaultInitBitrate == DEFAULT_BITRATE
      ensures desiredIframeProfile == 0 && lowestIframeProfile == INVALID_PROFILE
      ensures abrProfileChangeUpCount == 0 && abrProfileChangeDownCount == 0
      ensures defaultIframeBitrate == 0
      ensures persistBandwidth == 0 && persistBandwidthUpdatedTime == 0
    {
      profiles := [];
      sortedLists := map[];
      defaultInitBitrate := DEFAULT_BITRATE;
      desiredIframeProfile := 0;
      abrProfileChangeUpCount := 0;
      abrProfileChangeDownCount := 0;
      lowestIframeProfile := INVALID_PROFILE;
      defaultIframeBitrate := 0;
      persistBandwidth := 0;
      persistBandwidthUpdatedTime := 0;
    }

    /** `addProfile`: append; a non-iframe profile also binds its bandwidth to its new
        index in its own period's map, overwriting an equal key. */
    method AddProfile(profile: ProfileInfo)
      requires Valid()
      modifies this`profiles, this`sortedLists
      ensures Valid()
      ensures profiles == old(profiles) + [profile]
      ensures profile.isIframeTrack ==> sortedLists == old(sortedLists)
      ensures !profile.isIframeTrack ==>
                sortedLists == old(sortedLists)[profile.periodId :=
                  Insert(old(PeriodList(profile.periodId)), profile.bandwidthBitsPerSecond, |old(profiles)|)]
      ensures forall periodId :: periodId != profile.periodId ==> PeriodList(periodId) == old(PeriodList(periodId))
      ensures AsMap(PeriodList(profile.periodId)) ==
                if profile.isIframeTrack then AsMap(old(PeriodList(profile.periodId)))
                else AsMap(old(PeriodList(profile.periodId)))[profile.bandwidthBitsPerSecond := |old(profiles)|]
    {
      profiles := profiles + [profile];
      var profileCount := |profiles|;
      if !profiles[profileCount - 1].isIframeTrack {
        var periodId := profiles[profileCount - 1].periodId;
        sortedLists := sortedLists[periodId :=
          Insert(PeriodList(periodId), profiles[profileCount - 1].bandwidthBitsPerSecond, profileCount - 1)];
      }
      forall periodId
        ensures StrictlySorted(PeriodList(periodId)) && AsMap(PeriodList(periodId)) == PeriodMapOf(profiles, periodId)
      {
        PeriodMapOfAppend(old(profiles), profile, periodId);
        if !profile.isIframeTrack && periodId == profile.periodId {
          InsertAsMap(old(PeriodList(periodId)), profile.bandwidthBitsPerSecond, |old(profiles)|);
        }
      }
      if !profile.isIframeTrack {
        InsertAsMap(old(PeriodList(profile.periodId)), profile.bandwidthBitsPerSecond, |old(profiles)|);
      }
    }

    /** `clearProfiles`: the catalog and every period map are emptied. */
    method ClearProfiles()
      modifies this`profiles, this`sortedLists
      ensures Valid()
      ensures profiles == [] && sortedLists == map[]
      ensures ProfileCount() == 0 && forall periodId :: PeriodList(periodId) == []
    {
      profiles := [];
      sortedLists := map[];
    }

    /** `getInitialProfileIndex`. The source dereferences `begin()` of the period map, so a
        non-empty catalog needs a non-empty map for the period. */
    method GetInitialProfileIndex(chooseMediumProfile: bool, periodId: string) returns (r: int)
      requires Valid()
      requires profiles == [] || PeriodList(periodId) != []
      ensures profiles == [] ==> r == INVALID_PROFILE
      ensures profiles != [] && chooseMediumProfile && |profiles| > 1 ==>
                r == PeriodList(periodId)[|PeriodList(periodId)| / 2].index
      ensures profiles != [] && !(chooseMediumProfile && |profiles| > 1) ==>
                var list := PeriodList(periodId);
                var p := FloorPos(list, defaultInitBitrate);
                r == list[if p < 0 then 0 else p].index
      ensures profiles != [] ==> Indexed(profiles, periodId, r)
    {
      var profileCount := |profiles|;
      r := INVALID_PROFILE;
      if profileCount == 0 {
        return;
      }
      var list := PeriodList(periodId);
      ghost var pos := 0;
      if chooseMediumProfile && profileCount > 1 {
        r := list[|list| / 2].index;
        pos := |list| / 2;
      } else {
        r := list[0].index;
        var i := 0;
        while i < |list|
          invariant 0 <= i <= |list|
          invariant forall j :: 0 <= j < i ==> list[j].bandwidth <= defaultInitBitrate
          invariant pos == (if i == 0 then 0 else i - 1) && r == list[pos].index
        {
          if list[i].bandwidth > defaultInitBitrate {
            break;
          }
          r := list[i].index;
          pos := i;
          i := i + 1;
        }
        FloorPosAt(list, defaultInitBitrate, i - 1);
      }
      // every entry names a profile, so the INVALID_PROFILE fallback of the source never fires
      EntryNamesProfile(profiles, periodId, list, pos);
      assert r != INVALID_PROFILE;
    }

    /** `updateProfile`: collect the iframe tracks into a scratch array, bubble-sort it by
        bandwidth, then pick the lowest and desired iframe profiles. */
    method UpdateProfile()
      modifies this`lowestIframeProfile, this`desiredIframeProfile
      ensures IframePick(lowestIframeProfile, desiredIframeProfile) ==
              UpdatedIframePick(profiles, defaultIframeBitrate, old(IframePick(lowestIframeProfile, desiredIframeProfile)))
    {
      ghost var before := IframePick(lowestIframeProfile, desiredIframeProfile);
      var iframeTrackInfo, iframeTrackIdx := CollectIframeTracks(profiles);
      if iframeTrackIdx >= 0 {
        var n := iframeTrackIdx + 1;
        SortIframeTracks(iframeTrackInfo, n, profiles);
        SelectIframeProfiles(iframeTrackInfo, n, before);
      } else {
        NoIframeTracks(profiles);
      }
    }

    /** The selection that follows the sort in `updateProfile`, on the sorted tracks
        `a[..n]`, which name profiles of the catalog. */
    method SelectIframeProfiles(a: array<Track>, n: int, ghost before: IframePick)
      requires 0 < n <= a.Length
      requires TracksIn(a[..n], profiles)
      requires before == IframePick(lowestIframeProfile, desiredIframeProfile)
      modifies this`lowestIframeProfile, this`desiredIframeProfile
      ensures IframePick(lowestIframeProfile, desiredIframeProfile) ==
              ChooseIframeProfiles(a[..n], profiles, defaultIframeBitrate, before)
    {
      ghost var s := a[..n];
      var iframeTrackIdx := n - 1;
      assert s[iframeTrackIdx] == a[iframeTrackIdx];
      var highestProfileIdx := a[iframeTrackIdx].idx;
      var is4K := Is4K(profiles[highestProfileIdx]);
      if defaultIframeBitrate > 0 {
        SelectByDefaultBitrate(a, n);
      } else if is4K {
        SelectFor4K(a, n);
      } else {
        assert forall k :: 0 <= k < n ==> s[k] == a[k];
        SelectFirstAdvertised(a, n, before);
      }
    }

    method SelectByDefaultBitrate(a: array<Track>, n: int)
      requires 0 < n <= a.Length
      modifies this`lowestIframeProfile, this`desiredIframeProfile
      ensures IframePick(lowestIframeProfile, desiredIframeProfile) == PickByDefaultBitrate(a[..n], defaultIframeBitrate)
    {
      ghost var s := a[..n];
      var iframeTrackIdx := n - 1;
      lowestIframeProfile := a[0].idx;
      desiredIframeProfile := a[0].idx;
      var cnt := 0;
      while cnt <= iframeTrackIdx
        invariant 0 <= cnt <= n
        invariant forall j :: 0 <= j < cnt ==> s[j].bandwidth < defaultIframeBitrate
        invariant lowestIframeProfile == s[0].idx
        invariant desiredIframeProfile == (if cnt == 0 then s[0].idx else s[cnt - 1].idx)
      {
        if a[cnt].bandwidth >= defaultIframeBitrate {
          break;
        }
        desiredIframeProfile := a[cnt].idx;
        cnt := cnt + 1;
      }
      assert cnt == FirstAtOrAbove(s, defaultIframeBitrate);
    }

    method SelectFor4K(a: array<Track>, n: int)
      requires 0 < n <= a.Length && profiles != []
      modifies this`lowestIframeProfile, this`desiredIframeProfile
      ensures IframePick(lowestIframeProfile, desiredIframeProfile) == PickFor4K(a[..n], profiles)
    {
      ghost var s := a[..n];
      var iframeTrackIdx := n - 1;
      var desiredProfileIndexNonIframe := |profiles| / 2;
      var desiredProfileNonIframeBW := profiles[desiredProfileIndexNonIframe].bandwidthBitsPerSecond;
      desiredIframeProfile := 0;
      lowestIframeProfile := 0;
      ghost var m := -1;
      var cnt := 0;
      while cnt <= iframeTrackIdx
        invariant 0 <= cnt <= n
        invariant forall j :: 0 <= j < cnt ==> s[j].bandwidth != desiredProfileNonIframeBW
        invariant m == -1 && desiredIframeProfile == 0 && lowestIframeProfile == 0
      {
        if a[cnt].bandwidth == desiredProfileNonIframeBW {
          desiredIframeProfile := a[cnt].idx;
          lowestIframeProfile := a[cnt].idx;
          m := cnt;
          break;
        }
        cnt := cnt + 1;
      }
      assert m == FirstWithBandwidth(s, desiredProfileNonIframeBW);
      if desiredIframeProfile == 0 && iframeTrackIdx >= 1 {
        var desiredTrackIdx := iframeTrackIdx / 2 + iframeTrackIdx % 2;
        desiredIframeProfile := a[desiredTrackIdx].idx;
        lowestIframeProfile := a[desiredTrackIdx].idx;
      }
    }

    method SelectFirstAdvertised(a: array<Track>, n: int, ghost before: IframePick)
      requires 0 < n <= a.Length
      requires forall k :: 0 <= k < n ==> 0 <= a[k].idx
      requires before == IframePick(lowestIframeProfile, desiredIframeProfile)
      modifies this`lowestIframeProfile, this`desiredIframeProfile
      ensures IframePick(lowestIframeProfile, desiredIframeProfile) == PickFirstAdvertised(a[..n], before)
    {
      ghost var s := a[..n];
      var iframeTrackIdx := n - 1;
      var cnt := 0;
      while cnt <= iframeTrackIdx
        invariant 0 <= cnt <= 1 && cnt <= n
        invariant cnt == 0 ==> IframePick(lowestIframeProfile, desiredIframeProfile) == before
        invariant cnt == 1 ==> before.lowest == INVALID_PROFILE &&
                               lowestIframeProfile == s[0].idx && desiredIframeProfile == s[0].idx
      {
        if lowestIframeProfile == INVALID_PROFILE {
          lowestIframeProfile := a[cnt].idx;
          desiredIframeProfile := a[cnt].idx;
          cnt := cnt + 1;
          continue;
        }
        desiredIframeProfile := a[cnt].idx;
        break;
      }
    }

    /** `getBestMatchedProfileIndexByBandWidth`. */
    method GetBestMatchedProfileIndexByBandWidth(bandwidth: int) returns (r: int)
      ensures r == BestMatch(profiles, bandwidth)
    {
      r := 0;
      var profileCount := |profiles|;
      ghost var lastLower := -1;
      var i := 0;
      while i < profileCount
        invariant 0 <= i <= profileCount
        invariant forall j :: 0 <= j < i ==> !IsExact(profiles[j], bandwidth)
        invariant -1 <= lastLower < i && (lastLower == -1 || lastLower + 1 < profileCount)
        invariant lastLower >= 0 ==> IsLower(profiles[lastLower], bandwidth)
        invariant forall j :: lastLower < j < i ==> !IsLower(profiles[j], bandwidth)
        invariant r == if lastLower < 0 then 0 else lastLower + 1
      {
        var profile := profiles[i];
        if !profile.isIframeTrack {
          if profile.bandwidthBitsPerSecond == bandwidth {
            r := i;
            assert FirstExact(profiles, bandwidth) == i;
            return;
          } else if profile.bandwidthBitsPerSecond < bandwidth {
            if i + 1 == profileCount {
              r := i;
              assert LastLower(profiles, bandwidth) == i;
              return;
            } else {
              r := i + 1;
              lastLower := i;
            }
          }
        }
        i := i + 1;
      }
      assert LastLower(profiles, bandwidth) == lastLower;
    }

    /** `getRampedDownProfileIndex`: clamp, then step to the predecessor of the current
        bandwidth in the period map (the lowest entry stays put). A negative index into a
        non-empty catalog is outside the source's domain. */
    function RampedDownProfileIndex(currentProfileIndex: int, periodId: string): int
      reads this`profiles, this`sortedLists
      requires profiles == [] || 0 <= currentProfileIndex
    {
      var profileCount := |profiles|;
      var current := ClampIndex(currentProfileIndex, profileCount);
      if profileCount == 0 then current
      else
        var list := PeriodList(periodId);
        var p := Find(list, profiles[current].bandwidthBitsPerSecond);
        if p < 0 then current
        else if p == 0 then list[p].index
        else list[p - 1].index
    }

    /** `getRampedUpProfileIndex`: step to the successor of the current bandwidth in the
        period map. At the highest key, for a bandwidth that is not a key, for an index at or
        beyond the count and for an empty catalog the input is returned unchanged. */
    function RampedUpProfileIndex(currentProfileIndex: int, periodId: string): int
      reads this`profiles, this`sortedLists
      requires profiles == [] || 0 <= currentProfileIndex
    {
      var profileCount := |profiles|;
      if profileCount == 0 || currentProfileIndex >= profileCount then currentProfileIndex
      else
        var list := PeriodList(periodId);
        var p := Find(list, profiles[currentProfileIndex].bandwidthBitsPerSecond);
        if p < 0 then currentProfileIndex
        else if p + 1 < |list| then list[p + 1].index
        else currentProfileIndex
    }

    /** Ramping down from a profile whose bandwidth is a key of the period lands on the
        profile bound to the next lower key, or on the lowest key's profile itself;
        otherwise, and for an empty catalog, it returns the clamped input. */
    lemma RampedDownSpec(currentProfileIndex: int, periodId: string)
      requires Valid() && (profiles == [] || 0 <= currentProfileIndex)
      ensures profiles == [] ==>
              RampedDownProfileIndex(currentProfileIndex, periodId) == ClampIndex(currentProfileIndex, 0)
      ensures profiles != [] ==>
              var current := ClampIndex(currentProfileIndex, |profiles|);
              var bw := profiles[current].bandwidthBitsPerSecond;
              var keys := PeriodMapOf(profiles, periodId);
              var r := RampedDownProfileIndex(currentProfileIndex, periodId);
              (bw !in keys ==> r == current) &&
              (bw in keys ==>
                 Indexed(profiles, periodId, r) &&
                 profiles[r].bandwidthBitsPerSecond in keys &&
                 keys[profiles[r].bandwidthBitsPerSecond] == r &&
                 profiles[r].bandwidthBitsPerSecond <= bw &&
                 (profiles[r].bandwidthBitsPerSecond == bw <==> forall k :: k in keys ==> bw <= k) &&
                 (forall k :: k in keys && k < bw ==> k <= profiles[r].bandwidthBitsPerSecond))
    {
      if profiles != [] {
        var current := ClampIndex(currentProfileIndex, |profiles|);
        var bw := profiles[current].bandwidthBitsPerSecond;
        var list := PeriodList(periodId);
        assert StrictlySorted(list) && AsMap(list) == PeriodMapOf(profiles, periodId);
        AsMapKeys(list, bw);
        if bw in PeriodMapOf(profiles, periodId) {
          PredecessorEntry(profiles, periodId, list, bw);
        }
      }
    }

    /** Ramping up from a profile whose bandwidth is a key of the period, below the highest
        key, lands on the profile bound to the next higher key; in every other case the input
        is returned unchanged. */
    lemma RampedUpSpec(currentProfileIndex: int, periodId: string)
      requires Valid() && (profiles == [] || 0 <= currentProfileIndex)
      ensures var r := RampedUpProfileIndex(currentProfileIndex, periodId);
              currentProfileIndex >= |profiles| ==> r == currentProfileIndex
      ensures 0 <= currentProfileIndex < |profiles| ==>
              var bw := profiles[currentProfileIndex].bandwidthBitsPerSecond;
              var keys := PeriodMapOf(profiles, periodId);
              var r := RampedUpProfileIndex(currentProfileIndex, periodId);
              var top := forall k :: k in keys ==> k <= bw;
              (bw !in keys ==> r == currentProfileIndex) &&
              (bw in keys && top ==> r == currentProfileIndex) &&
              (bw in keys && !top ==>
                 Indexed(profiles, periodId, r) &&
                 profiles[r].bandwidthBitsPerSecond in keys &&
                 keys[profiles[r].bandwidthBitsPerSecond] == r &&
                 profiles[r].bandwidthBitsPerSecond > bw &&
                 (forall k :: k in keys && k > bw ==> k >= profiles[r].bandwidthBitsPerSecond))
    {
      if 0 <= currentProfileIndex < |profiles| {
        var bw := profiles[currentProfileIndex].bandwidthBitsPerSecond;
        var list := PeriodList(periodId);
        assert StrictlySorted(list) && AsMap(list) == PeriodMapOf(profiles, periodId);
        AsMapKeys(list, bw);
        if bw in PeriodMapOf(profiles, periodId) {
          SuccessorEntry(profiles, periodId, list, bw);
        }
      }
    }

    /** Ramping down right after ramping up returns to the profile the period map binds to
        the starting bandwidth (the start itself when it is that profile), unless the start
        was already at the top. */
    lemma RampDownAfterRampUp(currentProfileIndex: int, periodId: string)
      requires Valid() && 0 <= currentProfileIndex < |profiles|
      requires profiles[currentProfileIndex].bandwidthBitsPerSecond in PeriodMapOf(profiles, periodId)
      requires exists k :: k in PeriodMapOf(profiles, periodId) &&
                           k > profiles[currentProfileIndex].bandwidthBitsPerSecond
      ensures var up := RampedUpProfileIndex(currentProfileIndex, periodId);
              0 <= up < |profiles| &&
              RampedDownProfileIndex(up, periodId) ==
                PeriodMapOf(profiles, periodId)[profiles[currentProfileIndex].bandwidthBitsPerSecond]
      ensures PeriodMapOf(profiles, periodId)[profiles[currentProfileIndex].bandwidthBitsPerSecond] == currentProfileIndex
              ==> RampedDownProfileIndex(RampedUpProfileIndex(currentProfileIndex, periodId), periodId) == currentProfileIndex
    {
      var bw := profiles[currentProfileIndex].bandwidthBitsPerSecond;
      var list := PeriodList(periodId);
      assert StrictlySorted(list) && AsMap(list) == PeriodMapOf(profiles, periodId);
      UpThenDown(profiles, periodId, list, bw);
    }

    /** `isProfileIndexBitrateLowest`: `find` of the current bandwidth equals `begin()`,
        which also holds when the period map is empty; an empty catalog counts as lowest. */
    function IsProfileIndexBitrateLowest(currentProfileIndex: int, periodId: string): bool
      reads this`profiles, this`sortedLists
      requires profiles == [] || 0 <= currentProfileIndex
    {
      var profileCount := |profiles|;
      if profileCount == 0 then true
      else
        var current := ClampIndex(currentProfileIndex, profileCount);
        var list := PeriodList(periodId);
        var p := Find(list, profiles[current].bandwidthBitsPerSecond);
        p == 0 || (p < 0 && list == [])
    }

    /** The lowest test holds exactly when the catalog or the period map is empty, or the
        clamped profile's bandwidth is the least key of the period. */
    lemma LowestSpec(currentProfileIndex: int, periodId: string)
      requires Valid() && (profiles == [] || 0 <= currentProfileIndex)
      ensures IsProfileIndexBitrateLowest(currentProfileIndex, periodId) <==>
              profiles == [] || PeriodMapOf(profiles, periodId) == map[] ||
              (var bw := profiles[ClampIndex(currentProfileIndex, |profiles|)].bandwidthBitsPerSecond;
               bw in PeriodMapOf(profiles, periodId) &&
               forall k :: k in PeriodMapOf(profiles, periodId) ==> bw <= k)
    {
      if profiles != [] {
        var bw := profiles[ClampIndex(currentProfileIndex, |profiles|)].bandwidthBitsPerSecond;
        var keys := PeriodMapOf(profiles, periodId);
        var list := PeriodList(periodId);
        AsMapKeys(list, bw);
        if list != [] {
          AsMapAt(list, 0);
          assert list[0].bandwidth in keys;
          if bw in keys && Find(list, bw) != 0 {
            assert list[0].bandwidth < bw;
          }
          if Find(list, bw) == 0 {
            forall k | k in keys ensures bw <= k {
              var q := KeyPosition(profiles, periodId, list, k);
            }
          }
        }
      }
    }

    /** `getBandwidthOfProfile`: 0 for an empty catalog, and an index at or beyond the
        count reads the last profile. */
    function GetBandwidthOfProfile(profileIndex: int): (r: int)
      reads this`profiles
      requires profiles == [] || 0 <= profileIndex
      ensures profiles == [] ==> r == 0
      ensures 0 <= profileIndex < |profiles| ==> r == profiles[profileIndex].bandwidthBitsPerSecond
      ensures 0 < |profiles| <= profileIndex ==> r == profiles[|profiles| - 1].bandwidthBitsPerSecond
    {
      var profileCount := |profiles|;
      if profileCount == 0 then 0
      else profiles[ClampIndex(profileIndex, profileCount)].bandwidthBitsPerSecond
    }

    /** `getUserDataOfProfile`: -1 for an empty catalog or an index at or beyond the count. */
    function GetUserDataOfProfile(profileIndex: int): (r: int)
      reads this`profiles
      requires profiles == [] || profileIndex >= |profiles| || 0 <= profileIndex
      ensures profiles == [] || profileIndex >= |profiles| ==> r == -1
      ensures 0 <= profileIndex < |profiles| ==> r == profiles[profileIndex].userData
    {
      var profileCount := |profiles|;
      if profileCount == 0 || profileIndex >= profileCount then -1
      else profiles[profileIndex].userData
    }

    /** `getMaxBandwidthProfile`: the index under the largest key of the period, or 0. */
    function GetMaxBandwidthProfile(periodId: string): int
      reads this`profiles, this`sortedLists
    {
      var list := PeriodList(periodId);
      if |profiles| == 0 then 0
      else if |list| > 0 then list[|list| - 1].index
      else 0
    }

    /** The maximum is the profile the period map binds to its largest key: a non-iframe
        profile of the period with no period profile above it (the later one when several
        share the top bandwidth); 0 stands for both "empty" and "profile 0". */
    lemma MaxBandwidthProfileIsMax(periodId: string)
      requires Valid()
      ensures var r := GetMaxBandwidthProfile(periodId);
              (profiles == [] || PeriodMapOf(profiles, periodId) == map[] ==> r == 0) &&
              (profiles != [] && PeriodMapOf(profiles, periodId) != map[] ==>
                 Indexed(profiles, periodId, r) &&
                 profiles[r].bandwidthBitsPerSecond in PeriodMapOf(profiles, periodId) &&
                 PeriodMapOf(profiles, periodId)[profiles[r].bandwidthBitsPerSecond] == r &&
                 forall j :: Indexed(profiles, periodId, j) ==>
                   profiles[j].bandwidthBitsPerSecond <= profiles[r].bandwidthBitsPerSecond)
    {
      var list := PeriodList(periodId);
      if list == [] {
        assert AsMap(list) == map[];
      } else if profiles != [] {
        AsMapAt(list, 0);
        EntryNamesProfile(profiles, periodId, list, |list| - 1);
        forall j | Indexed(profiles, periodId, j)
          ensures profiles[j].bandwidthBitsPerSecond <= list[|list| - 1].bandwidth
        {
          PeriodMapOfComplete(profiles, periodId, j);
          var q := KeyPosition(profiles, periodId, list, profiles[j].bandwidthBitsPerSecond);
        }
      }
    }

    /** `getProfileIndexByBitrateRampUpOrDown`: a forward scan from the current entry
        (upward) or a reverse scan from the top (downward), then the one-step hysteresis
        on the two counters. */
    method GetProfileIndexByBitrateRampUpOrDown(currentProfileIndex: int, currentBandwidth: int,
                                                networkBandwidth: int, nwConsistencyCnt: int,
                                                periodId: string) returns (r: int)
      requires Valid()
      requires RampDefined(PeriodList(periodId), currentBandwidth, networkBandwidth)
      modifies this`abrProfileChangeUpCount, this`abrProfileChangeDownCount
      ensures var d := Decide(PeriodList(periodId), ClampIndex(currentProfileIndex, |profiles|),
                              currentBandwidth, networkBandwidth, nwConsistencyCnt,
                              old(abrProfileChangeUpCount), old(abrProfileChangeDownCount));
              r == d.profileIndex && abrProfileChangeUpCount == d.upCount &&
              abrProfileChangeDownCount == d.downCount
    {
      var profileCount := |profiles|;
      var current := currentProfileIndex;
      if current >= profileCount {
        current := profileCount - 1;
      }
      r := current;
      if networkBandwidth == -1 {
        abrProfileChangeUpCount := 0;
        abrProfileChangeDownCount := 0;
        return;
      }
      var list := PeriodList(periodId);
      if networkBandwidth > currentBandwidth {
        r, abrProfileChangeUpCount, abrProfileChangeDownCount :=
          RampUpStep(list, current, currentBandwidth, networkBandwidth, nwConsistencyCnt,
                     abrProfileChangeUpCount, abrProfileChangeDownCount);
      } else {
        r, abrProfileChangeUpCount, abrProfileChangeDownCount :=
          RampDownStep(list, current, currentBandwidth, networkBandwidth, nwConsistencyCnt,
                       abrProfileChangeUpCount, abrProfileChangeDownCount);
      }
    }

    function GetLowestIframeProfile(): int
      reads this`lowestIframeProfile
    {
      lowestIframeProfile
    }

    function GetDesiredIframeProfile(): int
      reads this`desiredIframeProfile
    {
      desiredIframeProfile
    }

    method SetDefaultInitBitrate(defaultInitBitrate: int)
      modifies this`defaultInitBitrate
      ensures this.defaultInitBitrate == defaultInitBitrate
    {
      this.defaultInitBitrate := defaultInitBitrate;
    }

    method SetDefaultIframeBitrate(defaultIframeBitrate: int)
      modifies this`defaultIframeBitrate
      ensures this.defaultIframeBitrate == defaultIframeBitrate
    {
      this.defaultIframeBitrate := defaultIframeBitrate;
    }

    method SetPersistBandwidth(bitrate: int)
      modifies this`persistBandwidth
      ensures persistBandwidth == bitrate
    {
      persistBandwidth := bitrate;
    }

    function GetPersistBandwidth(): int
      reads this`persistBandwidth
    {
      persistBandwidth
    }
  }

  /** The upward branch of `getProfileIndexByBitrateRampUpOrDown` on one period's list:
      the forward scan, then the hysteresis on the up counter; the down counter is reset. */
  method RampUpStep(list: seq<Entry>, current: int, currentBandwidth: int, networkBandwidth: int,
                    nwConsistencyCnt: int, up: nat, down: nat)
    returns (r: int, up': nat, down': nat)
    requires StrictlySorted(list)
    requires networkBandwidth != -1 && networkBandwidth > currentBandwidth
    ensures var d := Decide(list, current, currentBandwidth, networkBandwidth, nwConsistencyCnt, up, down);
            r == d.profileIndex && up' == d.upCount && down' == d.downCount
  {
    var currIter := Find(list, currentBandwidth);
    var storedIter;
    r, storedIter := ScanUp(list, currIter, networkBandwidth, current);
    if currIter >= 0 {
      FloorPosAt(list, networkBandwidth, storedIter);
    }
    up' := up;
    if storedIter != |list| && list[currIter].bandwidth < list[storedIter].bandwidth && storedIter - currIter == 1 {
      up' := up' + 1;
      if up' < nwConsistencyCnt {
        r := current;
      } else {
        up' := 0;
      }
    } else {
      up' := 0;
    }
    down' := 0;
  }

  /** The downward branch: the reverse scan, the fall-back to the lowest entry, then the
      hysteresis on the down counter; the up counter is reset. */
  method RampDownStep(list: seq<Entry>, current: int, currentBandwidth: int, networkBandwidth: int,
                      nwConsistencyCnt: int, up: nat, down: nat)
    returns (r: int, up': nat, down': nat)
    requires StrictlySorted(list)
    requires networkBandwidth != -1 && networkBandwidth <= currentBandwidth
    requires RampDefined(list, currentBandwidth, networkBandwidth)
    ensures var d := Decide(list, current, currentBandwidth, networkBandwidth, nwConsistencyCnt, up, down);
            r == d.profileIndex && up' == d.upCount && down' == d.downCount
  {
    var currIter := Find(list, currentBandwidth);
    var storedIter, reachedRend;
    r, storedIter, reachedRend := ScanDown(list, networkBandwidth, current);
    if reachedRend {
      r := list[0].index;
    }
    down' := down;
    if storedIter != |list| && list[currIter].bandwidth > list[storedIter].bandwidth && currIter - storedIter == 1 {
      down' := down' + 1;
      if down' < nwConsistencyCnt {
        r := current;
      } else {
        down' := 0;
      }
    } else {
      down' := 0;
    }
    up' := 0;
  }

  /** The forward scan of the upward branch: starting at the current entry `currIter`
      (-1 for `end()`), the candidate advances while the network bandwidth reaches the
      entry's key; `storedIter` is the last entry reached, `|list|` standing for `end()`. */
  method ScanUp(list: seq<Entry>, currIter: int, networkBandwidth: int, current: int)
    returns (desired: int, storedIter: int)
    requires -1 <= currIter < |list|
    ensures currIter < 0 || list[currIter].bandwidth > networkBandwidth ==>
              desired == current && storedIter == |list|
    ensures currIter >= 0 && list[currIter].bandwidth <= networkBandwidth ==>
              currIter <= storedIter < |list| && desired == list[storedIter].index &&
              (forall j :: currIter <= j <= storedIter ==> list[j].bandwidth <= networkBandwidth) &&
              (storedIter + 1 < |list| ==> list[storedIter + 1].bandwidth > networkBandwidth)
  {
    desired := current;
    storedIter := |list|;
    var iter := if currIter < 0 then |list| else currIter;
    while iter < |list|
      invariant currIter < 0 ==> iter == |list|
      invariant currIter >= 0 ==> currIter <= iter <= |list|
      invariant currIter >= 0 ==> forall j :: currIter <= j < iter ==> list[j].bandwidth <= networkBandwidth
      invariant storedIter == (if currIter < 0 || iter == currIter then |list| else iter - 1)
      invariant desired == (if currIter < 0 || iter == currIter then current else list[iter - 1].index)
    {
      if networkBandwidth >= list[iter].bandwidth {
        desired := list[iter].index;
        storedIter := iter;
      } else {
        break;
      }
      iter := iter + 1;
    }
  }

  /** The reverse scan of the downward branch: from the top, the first entry whose key the
      network bandwidth reaches, which is the floor position of the network bandwidth;
      `reachedRend` when there is none. */
  method ScanDown(list: seq<Entry>, networkBandwidth: int, current: int)
    returns (desired: int, storedIter: int, reachedRend: bool)
    requires StrictlySorted(list)
    ensures reachedRend <==> FloorPos(list, networkBandwidth) < 0
    ensures reachedRend ==> desired == current && storedIter == |list|
    ensures !reachedRend ==> storedIter == FloorPos(list, networkBandwidth) && desired == list[storedIter].index
  {
    desired := current;
    storedIter := |list|;
    var reviter := |list|;
    while reviter > 0
      invariant 0 <= reviter <= |list|
      invariant forall j :: reviter <= j < |list| ==> list[j].bandwidth > networkBandwidth
      invariant storedIter == |list| && desired == current
    {
      if networkBandwidth >= list[reviter - 1].bandwidth {
        desired := list[reviter - 1].index;
        storedIter := reviter - 1;
        break;
      }
      reviter := reviter - 1;
    }
    reachedRend := reviter == 0;
    FloorPosAt(list, networkBandwidth, if reachedRend then -1 else storedIter);
  }

  /** The collecting loop of `updateProfile`: a scratch array as long as the catalog
      whose first `iframeTrackIdx + 1` slots receive the iframe tracks in profile order. */
  method CollectIframeTracks(profiles: seq<ProfileInfo>) returns (a: array<Track>, iframeTrackIdx: int)
    ensures fresh(a) && a.Length == |profiles|
    ensures -1 <= iframeTrackIdx < a.Length
    ensures a[..iframeTrackIdx + 1] == IframeTracks(profiles)
  {
    var profileCount := |profiles|;
    a := new Track[profileCount](_ => Track(0, 0));
    iframeTrackIdx := -1;
    var i := 0;
    while i < profileCount
      invariant 0 <= i <= profileCount
      invariant -1 <= iframeTrackIdx < i
      invariant a[..iframeTrackIdx + 1] == IframeTracks(profiles[..i])
      modifies a
    {
      IframeTracksStep(profiles, i);
      if profiles[i].isIframeTrack {
        iframeTrackIdx := iframeTrackIdx + 1;
        a[iframeTrackIdx] := Track(profiles[i].bandwidthBitsPerSecond, i);
      }
      i := i + 1;
    }
    assert profiles[..profileCount] == profiles;
  }

  /** A catalog without iframe profiles has no sorted iframe tracks. */
  lemma NoIframeTracks(profiles: seq<ProfileInfo>)
    requires IframeTracks(profiles) == []
    ensures SortedIframeTracks(profiles) == []
  {
    assert |multiset(SortTracks(IframeTracks(profiles)))| == 0;
  }

  /** The sort step of `updateProfile`: the collected iframe tracks end in the reference
      order. */
  method SortIframeTracks(a: array<Track>, n: int, ghost profiles: seq<ProfileInfo>)
    requires 0 < n <= a.Length && a[..n] == IframeTracks(profiles)
    modifies a
    ensures a[..n] == SortedIframeTracks(profiles)
  {
    BubbleSortByBandwidth(a, n);
    SortedToReference(profiles);
  }

  /** The bubble sort of the iframe tracks yields the reference order. */
  lemma SortedToReference(profiles: seq<ProfileInfo>)
    ensures var t := IframeTracks(profiles);
            Passes(t, if t == [] then 0 else |t| - 1) == SortedIframeTracks(profiles)
  {
    var t := IframeTracks(profiles);
    assert TiesInIndexOrder(t);
    BubbleSortIsReference(t);
  }
}
