# ABR core of rdk-aampabr, modelled in Dafny

This project models the bitrate-adaptation (ABR) core of an adaptive-streaming player.
The core has two parts: `ABRManager` and the `HybridABRManager` built on it.

`ABRManager` is a profile catalog plus the selection rules that run over it:
- `mProfiles` holds the renditions in insertion order.
- `mSortedBWProfileList` is a per-period ordered map from bandwidth to profile index, holding non-iframe profiles only.
- The selection rules are:
  - the initial pick;
  - the best match for a bandwidth;
  - one-step ramps up and down;
  - the "lowest?" test;
  - the ramp decision protected by two hysteresis counters;
  - the trick-play (iframe) selection, which bubble-sorts a scratch array.

`HybridABRManager` adds the bandwidth estimator and the gates:
- correction of one download measurement against a threshold;
- a bounded history of samples, evicted by length and by age;
- a median, outlier rejection and an integer mean;
- the warm-up, buffer and steady-state gates;
- the low-latency DASH speed window.

Modules, one per concern:

| file | module | what it holds |
|---|---|---|
| `seq_facts.dfy` | `SeqFacts` | generic facts about sequences shared by the sorting and filtering proofs |
| `c_arith.dfy` | `CArith` | C integer semantics: truncating division, 64-bit conversions, `pow`, double→long |
| `bandwidth_map.dfy` | `BandwidthMap` | one period's `std::map<long,int>`, as a strictly sorted sequence of entries; a position in it plays the role of an iterator |
| `profiles.dfy` | `Profiles` | `ProfileInfo`, the constants of ABRManager.h, and the reference definitions of the per-period map and of the best-match scan |
| `iframe_selection.dfy` | `IframeSelection` | the iframe scratch array, its in-place bubble sort, and the iframe selection rules |
| `ramp_decision.dfy` | `RampDecision` | the hysteresis decision of the ramp, as a function, with lemmas about repeated observations |
| `abr_manager.dfy` | `Abr` | class `AbrManager`: the catalog, its fields, and every operation of ABRManager.cpp |
| `hybrid_config.dfy` | `HybridConfig` | `AampAbrConfig`, the two enumerations, and `ReadPlayerConfig` |
| `bandwidth_history.dfy` | `BandwidthHistory` | the threshold correction and the three history updates of the estimator |
| `speed_window.dfy` | `SpeedWindow` | `SpeedCache` and its window of at most ten samples |
| `hybrid_abr_manager.dfy` | `HybridAbr` | class `HybridAbrManager`: the gates, the steady-state ramps and the low-latency flags |

How the C++ state is represented:
- Operations that change the catalog, the counters or the iframe indices are methods of `Abr.AbrManager`, with `modifies` frames on single fields.
- `Abr.AbrManager.Valid()` ties every period list to `Profiles.PeriodMapOf`. That function is the map which the `addProfile` calls made so far leave behind.
- `HybridAbrManager` inherits from `ABRManager` in the C++ code. Here it holds its `AbrManager` in a field `base` and calls through it.
- The process-wide configuration `eAAMPAbrConfig` is an `AbrConfig` parameter.
- The function-local `static int loop` of `CheckRampupFromSteadyState` is the field `rampupLoop`.
- The clock reading `ABRGetCurrentTimeMS()` is a parameter `presentTime`.
- Vectors that the source receives by reference and edits in place are values passed in and returned, changed by the same loops.
- The fixed-size iframe scratch array is an `array<Track>`, sorted in place.

## Model

| member | source | states |
|---|---|---|
| CArith.CDiv | HybridABRManager.cpp:119 | C `/` truncates toward zero: the remainder has the sign of the dividend and is smaller than the divisor |
| CArith.ToUnsigned64 | HybridABRManager.cpp:145 | the conversion of a signed count to `size_t` for the comparison: a value in [0, 2^64) that equals the input when it is already in range |
| CArith.ToSigned64 | HybridABRManager.cpp:220 | the conversion of an unsigned 64-bit quotient back to `long`: a value in [-2^63, 2^63) that equals the input when below 2^63 |
| CArith.SignedBySizeDiv | HybridABRManager.cpp:220 | `avg / tmpData.size()` with `avg` promoted to unsigned: for a non-negative 64-bit sum it is plain division |
| CArith.TruncReal | HybridABRManager.cpp:436 | a `double` stored into a `long` is truncated toward zero |
| BandwidthMap.Find | ABRManager.cpp:497 | `find`: the position of the key, or -1 exactly when no entry has that key |
| BandwidthMap.FloorPos | ABRManager.cpp:532-541 | the last position whose key is at or below the bound; every later key exceeds it |
| BandwidthMap.Insert | ABRManager.cpp:653 | `map[key] = value` keeps the list strictly sorted and adds no entry other than the new one |
| BandwidthMap.InsertAsMap | ABRManager.cpp:653 | as a map, the insertion is exactly the update `m[key := value]`, overwriting an equal key |
| BandwidthMap.AsMapAt | ABRManager.cpp:499-503 | the entry at a position is the map's binding for its key |
| BandwidthMap.AsMapKeys | ABRManager.cpp:497 | a key is in the map exactly when `find` locates it |
| BandwidthMap.AsMapInjective | ABRManager.h:279-282 | two sorted lists that denote the same map are the same list, so the representation is canonical |
| Profiles.ClampIndex | ABRManager.cpp:478-482 | an index at or beyond the count becomes the last index; any other index is unchanged |
| Profiles.PeriodMapOfSound | ABRManager.cpp:646-656 | every binding k -> i of a period's map names the last non-iframe profile of that period with bandwidth k |
| Profiles.PeriodMapOfComplete | ABRManager.cpp:646-656 | every non-iframe profile of the period has its bandwidth as a key, bound to it or to a later profile |
| Profiles.PeriodMapOfAppend | ABRManager.cpp:646-656 | appending a profile changes only its own period's map, and only when it is not an iframe track |
| Profiles.FirstExact | ABRManager.cpp:323-331 | the first non-iframe profile whose bandwidth equals the request; none before it matches |
| Profiles.LastLower | ABRManager.cpp:332-340 | the last non-iframe profile below the request; none after it is |
| Profiles.BestMatch | ABRManager.cpp:318-348 | the scan's answer is 0 for an empty catalog and otherwise an index of the catalog |
| Profiles.BestMatchIsCeiling | ABRManager.cpp:318-348 | on an ascending non-iframe ladder the best match is the first profile reaching the bandwidth, or the top one |
| Profiles.BestMatchCanLandOnIframe | ABRManager.cpp:336 | "the index after the last lower profile" can name an iframe track |
| IframeSelection.IframeTracks | ABRManager.cpp:236-242 | the scratch entries are iframe profiles of the catalog, with their bandwidths, in ascending index order |
| IframeSelection.IframeTracksStep | ABRManager.cpp:236-242 | one more profile adds its entry at the end exactly when it is an iframe profile |
| IframeSelection.IframeTracksComplete | ABRManager.cpp:236-242 | every iframe profile has its entry in the scratch array |
| IframeSelection.SortTracks | ABRManager.cpp:247-255 | the reference sort: ordered by (bandwidth, index) and a permutation of its input |
| IframeSelection.SortedUnique | ABRManager.cpp:247-255 | two sorted permutations of the same tracks are equal |
| IframeSelection.StableSortIsSorted | ABRManager.cpp:247-255 | sorted by bandwidth with ties in index order is the reference order |
| IframeSelection.SwapPermutes | ABRManager.cpp:250-252 | exchanging two neighbours keeps the same entries |
| IframeSelection.SwapKeepsTies | ABRManager.cpp:249-253 | exchanging a strictly out-of-order pair keeps every pair of tied entries in its order |
| IframeSelection.StepSettles | ABRManager.cpp:248-254 | an iteration below the settled top keeps the top settled and carries the highest bandwidth seen so far one position up |
| IframeSelection.StepKeepsTies | ABRManager.cpp:249-253 | an iteration keeps tied entries in their order |
| IframeSelection.StepPermutes | ABRManager.cpp:249-253 | an iteration keeps the same entries |
| IframeSelection.BubbleStep | ABRManager.cpp:249-253 | one iteration on the array exchanges the neighbours exactly when the first has the higher bandwidth, keeps the entries, and touches nothing past `n` |
| IframeSelection.StepsSettle | ABRManager.cpp:248-254 | after any number of iterations of a pass the top stays settled and the highest bandwidth seen is at the last position visited |
| IframeSelection.StepsKeepTies | ABRManager.cpp:248-254 | after any number of iterations tied entries are still in their order |
| IframeSelection.StepsKeepOccurrences | ABRManager.cpp:248-254 | after any number of iterations every entry occurs as often as before |
| IframeSelection.PassDone | ABRManager.cpp:248-254 | a whole pass settles one more position and keeps tied entries in order |
| IframeSelection.BubblePass | ABRManager.cpp:248-254 | one inner pass leaves the array as `Steps` of its old contents up to the pass's top (so, by `PassDone`, one more position is settled) and touches nothing past `n` |
| IframeSelection.PassesSettle | ABRManager.cpp:247-255 | after `i` passes the last `i` positions are settled and tied entries are still in order |
| IframeSelection.PassesKeepOccurrences | ABRManager.cpp:247-255 | after any number of passes every entry occurs as often as before |
| IframeSelection.PassesPermute | ABRManager.cpp:247-255 | the passes permute the entries |
| IframeSelection.PassesSort | ABRManager.cpp:247-255 | all `n - 1` passes leave the entries ascending by bandwidth with tied entries in their order |
| IframeSelection.BubbleSortByBandwidth | ABRManager.cpp:247-255 | the nested swap loops leave the first n entries as `Passes` of their old contents, ascending by bandwidth with tied entries kept in their order, and the rest of the array alone (a permutation by `PassesPermute`) |
| IframeSelection.StableSortIsReference | ABRManager.cpp:247-255 | a permutation sorted by bandwidth with ties in index order is the reference sort |
| IframeSelection.BubbleSortIsReference | ABRManager.cpp:247-255 | the bubble sort of tracks whose ties are in index order gives exactly the reference sort |
| IframeSelection.FirstAtOrAbove | ABRManager.cpp:266-272 | where the default-bitrate scan stops: the first track at or above the default, all earlier ones below it |
| IframeSelection.FirstWithBandwidth | ABRManager.cpp:279-285 | where the 4K scan stops: the first track with exactly the reference bandwidth, or -1 |
| IframeSelection.SortedIframeTracks | ABRManager.cpp:236-255 | every sorted track names a profile of the catalog |
| RampDecision.Decide | ABRManager.cpp:484-561 | after every decision at least one counter is 0; no estimate (-1) keeps the clamped index and zeroes both; a non-zero counter is the old one plus one, below the consistency count, with the index held; each branch zeroes the other direction's counter |
| RampDecision.RampUpCandidate | ABRManager.cpp:494-520 | upward, a committed move lands on an entry between the current and the network bandwidth, and no later entry is within the network bandwidth |
| RampDecision.RampDownCandidate | ABRManager.cpp:527-560 | downward, the candidate is the greatest key within the network bandwidth, or the lowest entry when there is none, and it never lies above the current bandwidth |
| RampDecision.MultiStepCommitsAtOnce | ABRManager.cpp:510-560 | a move of any rank distance other than one commits immediately and resets the counters |
| RampDecision.SingleStepUpHeld | ABRManager.cpp:510-517 | a one-step move up is held for the first `nwConsistencyCnt - 1` observations while the up counter counts them |
| RampDecision.SingleStepUpCommits | ABRManager.cpp:510-517 | the same one-step move up is committed on observation `nwConsistencyCnt`, and the counter returns to 0 |
| RampDecision.SingleStepDownHeld | ABRManager.cpp:550-557 | a one-step move down is held for the first `nwConsistencyCnt - 1` observations |
| RampDecision.SingleStepDownCommits | ABRManager.cpp:550-557 | the same one-step move down is committed on observation `nwConsistencyCnt` |
| RampDecision.ThreeRungLadder | ABRManager.h:357 | with the default count 2, a one-rung rise must be seen twice and a two-rung rise commits at once |
| Abr.EntryNamesProfile | ABRManager.h:279-282 | every entry of a period list names a non-iframe profile of that period with that bandwidth |
| Abr.KeyPosition | ABRManager.cpp:497 | a key of the period map is found at its position in the list |
| Abr.AbrManager.constructor | ABRManager.cpp:165-173 | empty catalog and maps; default initial bitrate 1000000; lowest iframe profile -1, desired 0; counters, default iframe bitrate and persisted bandwidth 0 |
| Abr.AbrManager.AddProfile | ABRManager.cpp:646-656 | appends exactly one profile; only a non-iframe profile binds its bandwidth to the new index in its own period's map, overwriting an equal key; other periods' maps are unchanged; the map invariant is kept |
| Abr.AbrManager.ClearProfiles | ABRManager.cpp:661-667 | the count is 0 and no period map remains |
| Abr.AbrManager.GetInitialProfileIndex | ABRManager.cpp:179-214 | -1 for an empty catalog; the entry at sorted position size/2 for a medium pick with more than one profile; otherwise the entry with the largest key not above the default initial bitrate, or the smallest entry; the result is always a profile of that period |
| Abr.AbrManager.UpdateProfile | ABRManager.cpp:220-312 | the (lowest, desired) iframe pair becomes `UpdatedIframePick` of the catalog: the rule chosen by default bitrate, 4K or first-advertised, applied to the tracks sorted by bandwidth |
| Abr.AbrManager.SelectIframeProfiles | ABRManager.cpp:257-304 | on the sorted tracks, the pair the three selection rules prescribe |
| Abr.AbrManager.SelectByDefaultBitrate | ABRManager.cpp:264-272 | lowest = cheapest track; desired = the last track cheaper than the default, else the cheapest |
| Abr.AbrManager.SelectFor4K | ABRManager.cpp:274-290 | both = the first track with the middle profile's bandwidth; when that leaves desired at 0 and there are two tracks or more, both = the track at position n/2 + n%2 of the last index n |
| Abr.AbrManager.SelectFirstAdvertised | ABRManager.cpp:291-302 | on the first selection lowest = cheapest and desired = second cheapest; later, lowest is kept and desired = cheapest |
| Abr.AbrManager.GetBestMatchedProfileIndexByBandWidth | ABRManager.cpp:318-348 | the scan returns `BestMatch`: the first exact match, else the index after the last lower profile (the last index itself at the end), else 0 |
| Abr.AbrManager.RampedDownSpec | ABRManager.cpp:353-388 | for an empty catalog the clamped index (-1 for any index at or above 0); otherwise, ramping down from a profile whose bandwidth is a key lands on the profile of the next lower key, or stays on the lowest key's profile; otherwise it returns the clamped input; the bandwidth never rises |
| Abr.AbrManager.RampedUpSpec | ABRManager.cpp:393-423 | from a key below the highest one it lands on the profile bound to the next higher key, which no other higher key undercuts; at the highest key, for a bandwidth that is not a key, for an index at or beyond the count and for an empty catalog the input index is returned unchanged |
| Abr.AbrManager.RampDownAfterRampUp | ABRManager.cpp:353-423 | below the top of the map, ramping down after ramping up returns the map's entry for the start bandwidth, and the start itself when that entry is the start |
| Abr.AbrManager.LowestSpec | ABRManager.cpp:448-468 | "lowest" holds exactly when the catalog or the period map is empty, or the clamped profile's bandwidth is the least key of the period |
| Abr.AbrManager.GetBandwidthOfProfile | ABRManager.cpp:581-596 | 0 for an empty catalog; an index at or beyond the count reads the last profile |
| Abr.AbrManager.GetUserDataOfProfile | ABRManager.cpp:429-442 | -1 for an empty catalog or an index at or beyond the count; otherwise that profile's user data |
| Abr.AbrManager.MaxBandwidthProfileIsMax | ABRManager.cpp:601-611 | 0 for an empty catalog or period map; otherwise the profile the period map binds to its largest key (the later profile when several share the top bandwidth): a non-iframe profile of the period with no profile of the period above it |
| Abr.AbrManager.GetProfileIndexByBitrateRampUpOrDown | ABRManager.cpp:475-576 | the returned index and both counters are exactly `Decide` of the period list, the clamped current index and the counters before the call |
| Abr.AbrManager.SetDefaultInitBitrate | ABRManager.cpp:624-626 | the default initial bitrate is the value set |
| Abr.AbrManager.SetDefaultIframeBitrate | ABRManager.cpp:696-699 | the default iframe bitrate is the value set |
| Abr.AbrManager.SetPersistBandwidth | ABRManager.h:265 | the persisted bandwidth is the value set |
| Abr.RampUpStep | ABRManager.cpp:494-526 | the upward branch produces `Decide`'s index and counters |
| Abr.RampDownStep | ABRManager.cpp:527-567 | the downward branch produces `Decide`'s index and counters |
| Abr.ScanUp | ABRManager.cpp:496-507 | the forward iterator loop ends on the last entry within the network bandwidth, starting from the current entry; it stays at `end()` when the start is `end()` |
| Abr.ScanDown | ABRManager.cpp:529-547 | the reverse iterator loop reaches `rend()` exactly when no key is within the network bandwidth; otherwise it stops on the greatest such key |
| Abr.CollectIframeTracks | ABRManager.cpp:229-242 | the scratch array is as long as the catalog and its first `iframeTrackIdx + 1` slots hold exactly the iframe tracks in profile order |
| Abr.NoIframeTracks | ABRManager.cpp:244-245 | with no iframe profile there is nothing to sort or select |
| Abr.PredecessorEntry | ABRManager.cpp:368-381 | the entry before the found key (or the first entry) names the profile of the next lower key, which no lower key beats |
| Abr.SuccessorEntry | ABRManager.cpp:404-416 | an entry follows the found key exactly when a higher key exists (the `std::next(iter) != end()` test); that entry names the profile bound to the next higher key |
| Abr.UpThenDown | ABRManager.cpp:368-416 | below the top key, the entry after a key names a profile whose bandwidth finds that entry again, and the entry before it is the key's own |
| Abr.SortedToReference | ABRManager.cpp:236-255 | the bubble sort of the catalog's iframe tracks equals their reference sort |
| Abr.SortIframeTracks | ABRManager.cpp:247-255 | after the sort the scratch array holds the catalog's iframe tracks in the reference order |
| HybridConfig.AbortCode | HybridABRManager.h:102-108 | the abort reasons are 0 to 3, and 3 is the low-bandwidth timeout |
| HybridConfig.ReasonCode | HybridABRManager.h:117-130 | the change reasons are 0 to 10; 5 is "buffer full" and 6 is "buffer empty" |
| HybridConfig.ReasonCodeInjective | HybridABRManager.h:117-130 | distinct change reasons have distinct values |
| HybridConfig.ReadPlayerConfig | HybridABRManager.cpp:90-108 | every member is copied from the caller's record except `abrCacheOutlier`, which keeps its previous value |
| HybridConfig.OutlierNeverRead | HybridABRManager.cpp:90-108 | after any number of reads the outlier threshold is still its initial value, and every other member is the last record's |
| BandwidthHistory.CheckAbrThresholdSize | HybridABRManager.cpp:116-128 | the result is the raw rate or the current profile's rate, never below the raw rate; it exceeds the raw rate exactly when the raw rate is below the profile's, the fragment duration is non-zero, the download took less than half of it and the abort was not a low-bandwidth timeout |
| BandwidthHistory.CacheCap | HybridABRManager.cpp:138-147 | the length limit is 10 in low-latency mode and `abrCacheLength` read as `size_t` otherwise |
| BandwidthHistory.UpdateABRBitrateDataBasedOnCacheLength | HybridABRManager.cpp:134-148 | the new sample is appended last; only the first element is dropped, and only when the limit is exceeded; a history within the limit stays within it |
| BandwidthHistory.Bitrates | HybridABRManager.cpp:168 | the bitrates of the samples, position by position |
| BandwidthHistory.KeptSamplesStep | HybridABRManager.cpp:158-171 | one more sample is kept exactly when it is fresh |
| BandwidthHistory.KeptCount | HybridABRManager.cpp:158-171 | the filter keeps a fresh sample as often as it occurs and a stale one never |
| BandwidthHistory.KeptSamplesSpec | HybridABRManager.cpp:158-171 | the age filter keeps every sample with a positive timestamp no older than `abrCacheLife`, as often as it occurs, and nothing else |
| BandwidthHistory.KeptSamplesAllFresh | HybridABRManager.cpp:158-171 | a history of fresh samples is kept whole |
| BandwidthHistory.KeptSamplesIdempotent | HybridABRManager.cpp:154-172 | a second pass with the same clock removes nothing |
| BandwidthHistory.UpdateABRBitrateDataBasedOnCacheLife | HybridABRManager.cpp:154-172 | the erase loop leaves exactly the fresh samples in their order, and appends their bitrates in the same order to the caller's vector |
| BandwidthHistory.InsertInt | HybridABRManager.cpp:188 | inserting into a sorted vector keeps it sorted and adds one element |
| BandwidthHistory.InsertIntMultiset | HybridABRManager.cpp:188 | the insertion adds exactly the inserted value |
| BandwidthHistory.SortInts | HybridABRManager.cpp:188 | `std::sort`: the same values, in non-decreasing order |
| BandwidthHistory.SortedIntsUnique | HybridABRManager.cpp:188 | any two sorted permutations of a vector agree, so the choice of sorting algorithm does not matter |
| BandwidthHistory.EvenMedianIsUpperMiddle | HybridABRManager.cpp:193-198 | for an even count, `(a + (a + 1)) / 2` with `a` the upper middle value is `a` itself when `a` is non-negative |
| BandwidthHistory.EvenMedianExample | HybridABRManager.cpp:193-198 | the samples 100 and 200 have median 200 here |
| BandwidthHistory.SurvivorsStep | HybridABRManager.cpp:203-216 | one more value survives exactly when it is within the band |
| BandwidthHistory.SurvivorCount | HybridABRManager.cpp:203-216 | a value within the band survives as often as it occurs, any other never |
| BandwidthHistory.SurvivorsSpec | HybridABRManager.cpp:203-216 | the survivors are exactly the values within `abrCacheOutlier` of the median, each as often as it occurs |
| BandwidthHistory.UpdateABRBitrateDataBasedOnCacheOutlier | HybridABRManager.cpp:179-231 | the vector becomes the sorted survivors, and the result is their integer mean, or -1 when none survive |
| BandwidthHistory.EraseOutliers | HybridABRManager.cpp:200-216 | the erase loop leaves the survivors in order, and `avg` is their sum |
| BandwidthHistory.SumBetween | HybridABRManager.cpp:213 | a sum of values in [lo, hi] lies between count·lo and count·hi |
| BandwidthHistory.DivBetween | HybridABRManager.cpp:220 | dividing such a sum by the count gives a value in [lo, hi] |
| BandwidthHistory.MeanBetween | HybridABRManager.cpp:217-228 | when the values' sum lies in [0, 2^63), the mean of values in [lo, hi] lies in [lo, hi]; a negative sum is outside the claim, because the unsigned division then gives a different value |
| BandwidthHistory.EstimateWithinBand | HybridABRManager.cpp:179-231 | when some value survives and the survivors' sum lies in [0, 2^63), the estimate lies within `abrCacheOutlier` of the median |
| BandwidthHistory.ZeroThresholdEstimateIsMedian | HybridABRManager.cpp:179-231 | with a threshold of 0, the value the configuration keeps, and the survivors' sum in [0, 2^63), the estimate is the median |
| BandwidthHistory.SortIntsFixesSorted | HybridABRManager.cpp:188 | sorting a vector that is already in order leaves it unchanged |
| BandwidthHistory.SteadySurvivors | HybridABRManager.cpp:203-216 | four equal samples survive any non-negative threshold around their value; a fifth sample farther away than the threshold does not |
| BandwidthHistory.OutlierRejected | HybridABRManager.cpp:179-231 | four equal samples and one sample farther than the threshold above them: the estimate is the steady value, so the outlier does not move it |
| SpeedWindow.SumsAppend | HybridABRManager.cpp:426-428 | appending a sample adds its weight and its weighted speed to the two sums |
| SpeedWindow.SlideWindow | HybridABRManager.cpp:428-435 | the new sample is last; only the oldest sample is dropped, and only past 10 samples; a window of at most 10 stays at most 10 |
| SpeedWindow.SlideSums | HybridABRManager.cpp:426-434 | after the slide the accumulators gain the new sample's terms and lose the dropped sample's terms |
| SpeedWindow.PushedKeepsLatest | HybridABRManager.cpp:428-435 | the window always holds the latest min(n, 10) samples |
| SpeedWindow.SpeedCache.constructor | HybridABRManager.cpp:68-85 | every member starts at zero, the window empty, and the accumulators agree with it |
| HybridAbr.NextLoop | HybridABRManager.cpp:332 | the backoff exponent counts 1 to 4 and wraps from 4 back to 1 |
| HybridAbr.LoopAfter | HybridABRManager.cpp:329-333 | after any number of changes the exponent is still in 1 to 4 |
| HybridAbr.LoopCycles | HybridABRManager.cpp:329-333 | the exponent repeats every four changes |
| HybridAbr.LoopSequence | HybridABRManager.cpp:329-333 | from its initial value the exponent goes 2, 3, 4, 1 |
| HybridAbr.HybridAbrManager.constructor | HybridABRManager.h:111-134 | the buffer counters start at 0, both low-latency flags false, and the backoff exponent 1 |
| HybridAbr.HybridAbrManager.CheckProfileChange | HybridABRManager.cpp:237-259 | false exactly when the fetched duration is positive, below `abrSkipDuration`, and the available bandwidth is not both positive and below the current profile's |
| HybridAbr.HybridAbrManager.IsLowestProfile | HybridABRManager.cpp:265-282 | in trick play: true exactly when the index is the lowest iframe profile |
| HybridAbr.HybridAbrManager.IsLowestProfileSpec | HybridABRManager.cpp:265-282 | in normal play: true exactly when the catalog or the default period is empty, or the profile's bandwidth is the least key of the default period |
| HybridAbr.HybridAbrManager.GetDesiredProfileOnBuffer | HybridABRManager.cpp:289-315 | the result is the candidate or the current profile; with no buffer, the candidate; a higher candidate reverts exactly while the buffer is below `abrMaxBuffer`; any other candidate reverts exactly when the buffer exceeds `minBufferNeeded` and the candidate is the one-step ramp-down |
| HybridAbr.HybridAbrManager.CheckRampupFromSteadyState | HybridABRManager.cpp:321-336 | the candidate becomes the one-step ramp-up exactly when it is less than 2000000 above the network bandwidth; a final candidate other than the current profile advances the exponent, sets "buffer full" and the count check `abrCacheLength^loop`; otherwise nothing changes, in particular for a ramp-up from the highest key of the default period |
| HybridAbr.HybridAbrManager.CheckRampdownFromSteadyState | HybridABRManager.cpp:342-354 | nothing changes unless the low-buffer counter exceeds `abrCacheLength`; then the candidate is the one-step ramp-down, "buffer empty" is set exactly when that differs from the current profile, and the bandwidth never rises |
| HybridAbr.HybridAbrManager.IsABRDataGoodToEstimate | HybridABRManager.cpp:407-410 | true exactly when at least 100 ms have elapsed |
| HybridAbr.HybridAbrManager.CheckLLDashABRSpeedStoreSize | HybridABRManager.cpp:419-440 | the speed is `(total_dl_diff / time_diff) * 8000`; the window slides by one sample; the accumulators stay equal to the sums over the window; `bitsPerSecond` is written only on eviction, as their truncated ratio; the sample time and total downloaded are updated |
| HybridAbr.HybridAbrManager.SetLowLatencyStartABR | HybridABRManager.cpp:380-383 | reading the flag back gives the value set |
| HybridAbr.HybridAbrManager.SetLowLatencyServiceConfigured | HybridABRManager.cpp:397-400 | reading the flag back gives the value set |

Plain accessors carry no contract beyond their body and have no row. They are `Abr.AbrManager.ProfileCount` (`getProfileCount`), `GetLowestIframeProfile`, `GetDesiredIframeProfile` and `GetPersistBandwidth`, and the two low-latency flag getters. The four lookups `RampedDownProfileIndex`, `RampedUpProfileIndex`, `IsProfileIndexBitrateLowest` and `GetMaxBandwidthProfile` are functions. Their rows are the lemmas about them (`RampedDownSpec`, `RampedUpSpec`, `LowestSpec`, `MaxBandwidthProfileIsMax`).

The reference definitions below transcribe the cited source lines and have no contract of their own. The lemmas and methods in the table state their properties:
- `Profiles.PeriodMapOf` (ABRManager.cpp:646-656): the bandwidth to index map that the `addProfile` calls leave for one period. A later non-iframe profile overwrites an earlier one of equal bandwidth. Its properties are `PeriodMapOfSound`, `PeriodMapOfComplete` and `PeriodMapOfAppend`.
- `RampDecision.RampDefined` (ABRManager.cpp:545-550): the ramp decision never dereferences `begin()` of an empty map or a failed `find`.
- `IframeSelection.Is4K` (ABRManager.cpp:259-260): taller than `HEIGHT_4K` or wider than `WIDTH_4K`.
- `IframeSelection.MiddlePosition` (ABRManager.cpp:289): `iframeTrackIdx / 2 + iframeTrackIdx % 2`.
- `IframeSelection.PickByDefaultBitrate`, `PickFor4K` and `PickFirstAdvertised` (ABRManager.cpp:264-272, 273-291, 292-302): the three selection rules. `ChooseIframeProfiles` (ABRManager.cpp:257-302) chooses between them. `Abr.AbrManager.SelectByDefaultBitrate`, `SelectFor4K`, `SelectFirstAdvertised` and `SelectIframeProfiles` are proved equal to them.
- `BandwidthHistory.MeasuredBps` (HybridABRManager.cpp:119): `(bufferlen / downloadTimeMs) * 8000`, with C's truncating division. Its property is `CheckAbrThresholdSize`.
- `BandwidthHistory.Fresh` and `KeptSamples` (HybridABRManager.cpp:158-171): the samples the cache-life loop keeps. Their properties are `KeptSamplesSpec`, `KeptSamplesAllFresh` and `KeptSamplesIdempotent`.
- `BandwidthHistory.Median` (HybridABRManager.cpp:188-198): the middle value, or for an even count `(m1 + (m1 + 1)) / 2` truncated toward zero, with `m1` the upper middle value. Its properties are `EvenMedianIsUpperMiddle` and `EvenMedianExample`.
- `BandwidthHistory.InBand` and `Survivors` (HybridABRManager.cpp:203-216): the values within `abrCacheOutlier` of the median, in order. Their property is `SurvivorsSpec`.
- `BandwidthHistory.Mean` and `Estimate` (HybridABRManager.cpp:217-228): the signed-by-unsigned mean of the survivors. Their properties are `MeanBetween`, `EstimateWithinBand`, `ZeroThresholdEstimateIsMedian` and `OutlierRejected`.
- `CArith.Pow` (HybridABRManager.cpp:333): the integer power `base^e`.
- `SpeedWindow.Weighted` (HybridABRManager.cpp:426): one sample's weight times its speed.
- `SpeedWindow.WeightSum` and `WeightedSum` (HybridABRManager.cpp:425-434): the sums over the window that `totalWeight` and `weightedBitsPerSecond` track; `SpeedCache.Valid()` ties the accumulators to them. Their properties are `SumsAppend` and `SlideSums`.
- `SpeedWindow.Pushed` (HybridABRManager.cpp:428-434): the window after a run of samples, each appended and the oldest dropped past ten. Its property is `PushedKeepsLatest`.

## Left out

- Logging is not modelled: `sLogger`, `setLogger`, `disableLogger`, `setLogDirectory`, the log-file writes, the `AAMPABRLOG*` macros and the `logprintf` in `ReadPlayerConfig`. It is output only.
- `ABRGetCurrentTimeMS` (HybridABRManager.cpp:361-366) reads the wall clock. The clock value is a parameter `presentTime` of the cache-length and cache-life updates.
- HybridAbr.HybridAbrManager.CheckLLDashABRSpeedStoreSize: the weight `sqrt(total_dl_diff)` is taken as a parameter. The `double` accumulators are exact reals, so rounding of the floating-point sums is not modelled.
- HybridAbr.HybridAbrManager.CheckLLDashABRSpeedStoreSize: on eviction the remaining weights must not sum to 0. The source would divide by zero there and produce an infinity or NaN before the conversion to `long`.
- The `double` inputs `totalFetchedDuration`, `bufferValue` and `minBufferNeeded` are only compared, so they are modelled as reals.
- 32- and 64-bit overflow is not modelled, except where it decides a result:
  - the `size_t` comparisons of the cache-length update;
  - the signed/unsigned division in the mean.
  - Integer fields are unbounded otherwise.
- `pow(abrCacheLength, loop)` is modelled as an integer power. The conversion of the `double` result to `int` is not modelled.
- `mPersistBandwidth`, `mPersistBandwidthUpdatedTime` and the `static int loop` are shared by all instances in the source. Here they are fields of one manager.
- `eAAMPAbrConfig` is one global record in the source. Here it is a parameter of every operation that reads it.
- `HybridAbrManager` contains its `AbrManager` rather than inheriting from it, so the inherited operations are called through `base`.
- `mABRHighBufferCounter`, `mABRLowBufferCounter`, `bLowLatencyStartABR` and `bLowLatencyServiceConfigured` are never initialized in the source (HybridABRManager.h:111-112, 132-133). Here the counters start at 0 and the two flags at false, which is one of the values the source may start with. `CheckRampdownFromSteadyState` takes the low-buffer counter as a parameter, as the source does.
- `operator[]` on `mSortedBWProfileList` inserts an empty inner map for an unknown period. An absent period and an empty map are indistinguishable here, so this is not modelled.
- `getProfileOfBandwidth` is declared in ABRManager.h but is not part of this model, because its definition is not among the source files.
- `LL_DASH_SERVICE_PROFILE` and `mLLDashCurrentPlayRate` are never used by the modelled operations.
- Undefined behaviour of the source is excluded by preconditions, not modelled as behaviour:
  - `begin()` of an empty period map in `getInitialProfileIndex` and in the ramp-down branch;
  - the dereference of a failed `find` in the ramp-down branch (`RampDefined`);
  - a negative profile index into a non-empty catalog;
  - the division by a zero download time in the threshold correction (`MeasuredBps`, `CheckAbrThresholdSize`, HybridABRManager.cpp:119): `downloadTimeMs != 0` is required;
  - the division by a zero `time_diff` in the low-latency speed (`CheckLLDashABRSpeedStoreSize`, HybridABRManager.cpp:423): `timeDiff != 0` is required.
- BandwidthHistory.UpdateABRBitrateDataBasedOnCacheOutlier requires a non-empty vector. The source's `at` throws `std::out_of_range` on an empty one; that exception is not modelled.
- Default arguments are not modelled: the period `""` and the consistency count `DEFAULT_ABR_NW_CONSISTENCY_COUNT`. Callers pass them explicitly. `HybridAbrManager` passes `""`, as the source's calls without a period do.
- `std::sort` is modelled by the reference sort `SortInts`. `SortedIntsUnique` shows that every sorting algorithm gives the same vector.
- Vectors passed by reference are passed in and returned as values, so aliasing between the caller's vectors is not modelled.
