/** The hysteresis-protected ramp decision of `getProfileIndexByBitrateRampUpOrDown`
    (ABRManager.cpp:475-576), stated over one period's sorted bandwidth list. The
    "exactly one step" test of the source is a rank difference between two positions. */
module RampDecision {
  import opened BandwidthMap

  /** The chosen profile index and the two ramp counters after one decision. */
  datatype RampResult = RampResult(profileIndex: int, upCount: nat, downCount: nat)

  /** The source dereferences `begin()` of an empty map when the network bandwidth is below
      every key (ABRManager.cpp:545), and dereferences a failed `find` when a lower key
      exists but the current bandwidth is not a key (ABRManager.cpp:550). Everywhere else
      the decision is defined. */
  predicate RampDefined(list: seq<Entry>, currentBandwidth: int, networkBandwidth: int)
  {
    networkBandwidth == -1 || networkBandwidth > currentBandwidth ||
    (list != [] && (FloorPos(list, networkBandwidth) >= 0 ==> Find(list, currentBandwidth) >= 0))
  }

  /** One decision: `current` is the (already clamped) current profile index, `up` and
      `down` the counters before the call.
      - No estimate (-1): hold and reset both counters.
      - Network above the current bandwidth: the candidate is the farthest entry, scanning
        up from the current one, whose key the network bandwidth reaches.
      - Otherwise: the candidate is the greatest key the network bandwidth reaches, or the
        lowest entry when it reaches none.
      A move of exactly one rank is held until the direction's counter, incremented, reaches
      `consistencyCount`; every other outcome resets that counter. The counter of the other
      direction is always reset. */
  function Decide(list: seq<Entry>, current: int, currentBandwidth: int, networkBandwidth: int,
                  consistencyCount: int, up: nat, down: nat): (r: RampResult)
    requires RampDefined(list, currentBandwidth, networkBandwidth)
    ensures r.upCount == 0 || r.downCount == 0
    ensures networkBandwidth == -1 ==> r == RampResult(current, 0, 0)
    ensures r.upCount != 0 ==> r.upCount == up + 1 < consistencyCount && r.profileIndex == current
    ensures r.downCount != 0 ==> r.downCount == down + 1 < consistencyCount && r.profileIndex == current
    ensures networkBandwidth > currentBandwidth ==> r.downCount == 0
    ensures networkBandwidth != -1 && networkBandwidth <= currentBandwidth ==> r.upCount == 0
  {
    if networkBandwidth == -1 then RampResult(current, 0, 0)
    else if networkBandwidth > currentBandwidth then
      var c := Find(list, currentBandwidth);
      if c < 0 then RampResult(current, 0, 0)
      else
        var s := FloorPos(list, networkBandwidth);
        if s - c == 1 then
          if up + 1 < consistencyCount then RampResult(current, up + 1, 0)
          else RampResult(list[s].index, 0, 0)
        else RampResult(list[s].index, 0, 0)
    else
      var s := FloorPos(list, networkBandwidth);
      if s < 0 then RampResult(list[0].index, 0, 0)
      else
        var c := Find(list, currentBandwidth);
        if c - s == 1 then
          if down + 1 < consistencyCount then RampResult(current, 0, down + 1)
          else RampResult(list[s].index, 0, 0)
        else RampResult(list[s].index, 0, 0)
  }

  /** Upward, a committed move lands on an entry between the current bandwidth and the
      network bandwidth, and no entry above it is still within the network bandwidth. */
  lemma RampUpCandidate(list: seq<Entry>, current: int, currentBandwidth: int, networkBandwidth: int,
                        consistencyCount: int, up: nat, down: nat) returns (p: int)
    requires StrictlySorted(list)
    requires networkBandwidth != -1 && networkBandwidth > currentBandwidth
    requires Find(list, currentBandwidth) >= 0
    ensures 0 <= p < |list|
    ensures currentBandwidth <= list[p].bandwidth <= networkBandwidth
    ensures forall q :: p < q < |list| ==> list[q].bandwidth > networkBandwidth
    ensures var r := Decide(list, current, currentBandwidth, networkBandwidth, consistencyCount, up, down);
            r.profileIndex == current || r.profileIndex == list[p].index
  {
    var c := Find(list, currentBandwidth);
    p := FloorPos(list, networkBandwidth);
    assert c <= p;
  }

  /** Downward, a committed move lands on the greatest key within the network bandwidth,
      or on the lowest entry when there is none; in both cases not above the current
      bandwidth when that bandwidth is a key. */
  lemma RampDownCandidate(list: seq<Entry>, current: int, currentBandwidth: int, networkBandwidth: int,
                          consistencyCount: int, up: nat, down: nat) returns (p: int)
    requires StrictlySorted(list)
    requires networkBandwidth != -1 && networkBandwidth <= currentBandwidth
    requires RampDefined(list, currentBandwidth, networkBandwidth)
    ensures 0 <= p < |list|
    ensures list[p].bandwidth <= networkBandwidth || (p == 0 && networkBandwidth < list[0].bandwidth)
    ensures forall q :: p < q < |list| ==> list[q].bandwidth > networkBandwidth
    ensures Find(list, currentBandwidth) >= 0 ==> list[p].bandwidth <= currentBandwidth
    ensures var r := Decide(list, current, currentBandwidth, networkBandwidth, consistencyCount, up, down);
            r.profileIndex == current || r.profileIndex == list[p].index
  {
    var s := FloorPos(list, networkBandwidth);
    p := if s < 0 then 0 else s;
    var c := Find(list, currentBandwidth);
    if c >= 0 && s < 0 {
      assert list[0].bandwidth <= list[c].bandwidth;
    }
  }

  /** Any move other than a single step commits at once, whatever the counters were. */
  lemma MultiStepCommitsAtOnce(list: seq<Entry>, current: int, currentBandwidth: int, networkBandwidth: int,
                               consistencyCount: int, up: nat, down: nat)
    requires RampDefined(list, currentBandwidth, networkBandwidth)
    requires networkBandwidth != -1
    requires Find(list, currentBandwidth) >= 0 && FloorPos(list, networkBandwidth) >= 0
    requires Find(list, currentBandwidth) - FloorPos(list, networkBandwidth) != 1
    requires FloorPos(list, networkBandwidth) - Find(list, currentBandwidth) != 1
    ensures Decide(list, current, currentBandwidth, networkBandwidth, consistencyCount, up, down) ==
            RampResult(list[FloorPos(list, networkBandwidth)].index, 0, 0)
  {
  }

  /** `k` successive decisions on the same inputs, the caller keeping its current profile
      and each call seeing the counters the previous one left. */
  function Observe(list: seq<Entry>, current: int, currentBandwidth: int, networkBandwidth: int,
                   consistencyCount: int, start: RampResult, k: nat): RampResult
    requires RampDefined(list, currentBandwidth, networkBandwidth)
  {
    if k == 0 then start
    else
      var prev := Observe(list, current, currentBandwidth, networkBandwidth, consistencyCount, start, k - 1);
      Decide(list, current, currentBandwidth, networkBandwidth, consistencyCount, prev.upCount, prev.downCount)
  }

  /** A single step up is held for the first `consistencyCount - 1` observations, the up
      counter counting them, when the counter started at 0. */
  lemma {:induction false} SingleStepUpHeld(list: seq<Entry>, current: int, currentBandwidth: int,
                                            networkBandwidth: int, consistencyCount: int,
                                            start: RampResult, k: nat)
    requires networkBandwidth != -1 && networkBandwidth > currentBandwidth
    requires Find(list, currentBandwidth) >= 0
    requires FloorPos(list, networkBandwidth) - Find(list, currentBandwidth) == 1
    requires start.upCount == 0
    requires 1 <= k < consistencyCount
    ensures Observe(list, current, currentBandwidth, networkBandwidth, consistencyCount, start, k) ==
            RampResult(current, k, 0)
  {
    if k > 1 {
      SingleStepUpHeld(list, current, currentBandwidth, networkBandwidth, consistencyCount, start, k - 1);
    }
  }

  /** ... and is committed on observation number `consistencyCount` (the first one when
      the count is at most 1), which also resets the counter. */
  lemma SingleStepUpCommits(list: seq<Entry>, current: int, currentBandwidth: int,
                            networkBandwidth: int, consistencyCount: int, start: RampResult)
    requires networkBandwidth != -1 && networkBandwidth > currentBandwidth
    requires Find(list, currentBandwidth) >= 0
    requires FloorPos(list, networkBandwidth) - Find(list, currentBandwidth) == 1
    requires start.upCount == 0
    ensures var n := if consistencyCount < 1 then 1 else consistencyCount;
            Observe(list, current, currentBandwidth, networkBandwidth, consistencyCount, start, n) ==
            RampResult(list[Find(list, currentBandwidth) + 1].index, 0, 0)
  {
    if consistencyCount > 1 {
      SingleStepUpHeld(list, current, currentBandwidth, networkBandwidth, consistencyCount, start, consistencyCount - 1);
    }
  }

  /** A single step down is held for the first `consistencyCount - 1` observations. */
  lemma {:induction false} SingleStepDownHeld(list: seq<Entry>, current: int, currentBandwidth: int,
                                              networkBandwidth: int, consistencyCount: int,
                                              start: RampResult, k: nat)
    requires networkBandwidth != -1 && networkBandwidth <= currentBandwidth
    requires RampDefined(list, currentBandwidth, networkBandwidth)
    requires FloorPos(list, networkBandwidth) >= 0
    requires Find(list, currentBandwidth) - FloorPos(list, networkBandwidth) == 1
    requires start.downCount == 0
    requires 1 <= k < consistencyCount
    ensures Observe(list, current, currentBandwidth, networkBandwidth, consistencyCount, start, k) ==
            RampResult(current, 0, k)
  {
    if k > 1 {
      SingleStepDownHeld(list, current, currentBandwidth, networkBandwidth, consistencyCount, start, k - 1);
    }
  }

  /** ... and is committed on observation number `consistencyCount`. */
  lemma SingleStepDownCommits(list: seq<Entry>, current: int, currentBandwidth: int,
                              networkBandwidth: int, consistencyCount: int, start: RampResult)
    requires networkBandwidth != -1 && networkBandwidth <= currentBandwidth
    requires RampDefined(list, currentBandwidth, networkBandwidth)
    requires FloorPos(list, networkBandwidth) >= 0
    requires Find(list, currentBandwidth) - FloorPos(list, networkBandwidth) == 1
    requires start.downCount == 0
    ensures var n := if consistencyCount < 1 then 1 else consistencyCount;
            Observe(list, current, currentBandwidth, networkBandwidth, consistencyCount, start, n) ==
            RampResult(list[FloorPos(list, networkBandwidth)].index, 0, 0)
  {
    if consistencyCount > 1 {
      SingleStepDownHeld(list, current, currentBandwidth, networkBandwidth, consistencyCount, start, consistencyCount - 1);
    }
  }

  /** A three-rung ladder with the default consistency count of 2: a bandwidth that
      reaches only the next rung must be observed twice, one that reaches two rungs up
      commits on the first call. */
  lemma ThreeRungLadder()
    ensures var ladder := [Entry(1000, 0), Entry(2000, 1), Entry(3000, 2)];
            var start := RampResult(0, 0, 0);
            Observe(ladder, 0, 1000, 2500, 2, start, 1) == RampResult(0, 1, 0) &&
            Observe(ladder, 0, 1000, 2500, 2, start, 2) == RampResult(1, 0, 0) &&
            Observe(ladder, 0, 1000, 3500, 2, start, 1) == RampResult(2, 0, 0)
  {
    var ladder := [Entry(1000, 0), Entry(2000, 1), Entry(3000, 2)];
    assert Find(ladder, 1000) == 0;
    assert FloorPos(ladder, 2500) == 1 by {
      assert ladder[..2] == [Entry(1000, 0), Entry(2000, 1)];
    }
    assert FloorPos(ladder, 3500) == 2;
  }
}
