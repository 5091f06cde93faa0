/** Trick-play (iframe) profile selection of `updateProfile` (ABRManager.cpp:220-312):
    the scratch array of iframe tracks, its bubble sort, and the rules that pick the
    lowest and the desired iframe profile from the sorted tracks. */
module IframeSelection {
  import opened Profiles
  import opened SeqFacts

  /** One slot of the scratch array: an iframe track's bandwidth and its profile index. */
  datatype Track = Track(bandwidth: int, idx: int)

  /** Lexicographic order on (bandwidth, idx): a total order on tracks. */
  predicate Precedes(a: Track, b: Track)
  {
    a.bandwidth < b.bandwidth || (a.bandwidth == b.bandwidth && a.idx <= b.idx)
  }

  ghost predicate Sorted(s: seq<Track>)
  {
    forall i, j :: 0 <= i < j < |s| ==> Precedes(s[i], s[j])
  }

  /** Ascending by bandwidth only, as the bubble sort's comparison sees it. */
  ghost predicate SortedByBandwidth(s: seq<Track>)
  {
    forall i, j :: 0 <= i < j < |s| ==> s[i].bandwidth <= s[j].bandwidth
  }

  /** Tracks of equal bandwidth appear in increasing profile-index order. */
  ghost predicate TiesInIndexOrder(s: seq<Track>)
  {
    forall i, j :: 0 <= i < j < |s| && s[i].bandwidth == s[j].bandwidth ==> s[i].idx < s[j].idx
  }

  /** The iframe tracks of the catalog in profile-index order, as the collecting loop
      fills the scratch array. */
  function IframeTracks(profiles: seq<ProfileInfo>): (r: seq<Track>)
    ensures |r| <= |profiles|
    ensures forall k :: 0 <= k < |r| ==>
              0 <= r[k].idx < |profiles| && profiles[r[k].idx].isIframeTrack &&
              r[k].bandwidth == profiles[r[k].idx].bandwidthBitsPerSecond
    ensures forall k, l :: 0 <= k < l < |r| ==> r[k].idx < r[l].idx
  {
    if profiles == [] then []
    else
      var n := |profiles| - 1;
      var prefix := IframeTracks(profiles[..n]);
      if profiles[n].isIframeTrack then prefix + [Track(profiles[n].bandwidthBitsPerSecond, n)] else prefix
  }

  /** One more profile: the tracks of the longer prefix are those of the shorter one,
      plus the new profile's track when it is an iframe profile. */
  lemma IframeTracksStep(profiles: seq<ProfileInfo>, i: int)
    requires 0 <= i < |profiles|
    ensures IframeTracks(profiles[..i + 1]) ==
            IframeTracks(profiles[..i]) +
              (if profiles[i].isIframeTrack then [Track(profiles[i].bandwidthBitsPerSecond, i)] else [])
  {
    assert profiles[..i + 1][..i] == profiles[..i];
  }

  /** Every iframe profile has its track among the collected ones. */
  lemma {:induction false} IframeTracksComplete(profiles: seq<ProfileInfo>, i: int)
    requires 0 <= i < |profiles| && profiles[i].isIframeTrack
    ensures Track(profiles[i].bandwidthBitsPerSecond, i) in IframeTracks(profiles)
  {
    var n := |profiles| - 1;
    if i < n {
      assert profiles[..n][i] == profiles[i];
      IframeTracksComplete(profiles[..n], i);
    }
  }

  function InsertTrack(t: Track, s: seq<Track>): seq<Track>
  {
    if s == [] || Precedes(t, s[0]) then [t] + s else [s[0]] + InsertTrack(t, s[1..])
  }

  /** Insertion adds exactly the one track. */
  lemma {:induction false} InsertTrackMultiset(t: Track, s: seq<Track>)
    ensures multiset(InsertTrack(t, s)) == multiset(s) + multiset{t}
  {
    if !(s == [] || Precedes(t, s[0])) {
      InsertTrackMultiset(t, s[1..]);
      assert s == [s[0]] + s[1..];
    }
  }

  /** A track that precedes every track of a sorted sequence can lead it. */
  lemma ConsSorted(x: Track, r: seq<Track>)
    requires Sorted(r)
    requires forall i :: 0 <= i < |r| ==> Precedes(x, r[i])
    ensures Sorted([x] + r)
  {
  }

  /** A track that precedes the head of a sorted sequence precedes all of it. */
  lemma PrecedesHead(x: Track, s: seq<Track>)
    requires Sorted(s) && s != [] && Precedes(x, s[0])
    ensures forall i :: 0 <= i < |s| ==> Precedes(x, s[i])
  {
  }

  /** When the head stays in front, it precedes everything the insertion into the tail
      produces. */
  lemma HeadLeadsInsertion(t: Track, s: seq<Track>)
    requires Sorted(s) && s != [] && !Precedes(t, s[0])
    ensures forall i :: 0 <= i < |InsertTrack(t, s[1..])| ==> Precedes(s[0], InsertTrack(t, s[1..])[i])
  {
    var rest := InsertTrack(t, s[1..]);
    InsertTrackMultiset(t, s[1..]);
    forall i | 0 <= i < |rest|
      ensures Precedes(s[0], rest[i])
    {
      assert rest[i] in multiset(rest);
      if rest[i] != t {
        assert rest[i] in multiset(s[1..]);
        var k :| 0 <= k < |s[1..]| && s[1..][k] == rest[i];
        assert Precedes(s[0], s[k + 1]);
      }
    }
  }

  /** Insertion keeps a sorted sequence sorted. */
  lemma {:induction false} InsertTrackSorted(t: Track, s: seq<Track>)
    requires Sorted(s)
    ensures Sorted(InsertTrack(t, s))
  {
    if s == [] {
    } else if Precedes(t, s[0]) {
      PrecedesHead(t, s);
      ConsSorted(t, s);
    } else {
      SortedTail(s);
      InsertTrackSorted(t, s[1..]);
      HeadLeadsInsertion(t, s);
      ConsSorted(s[0], InsertTrack(t, s[1..]));
    }
  }

  /** The reference sort: insertion sort in (bandwidth, idx) order. */
  function SortTracks(s: seq<Track>): (r: seq<Track>)
    ensures Sorted(r)
    ensures multiset(r) == multiset(s)
  {
    if s == [] then []
    else
      var rest := SortTracks(s[1..]);
      InsertTrackSorted(s[0], rest);
      InsertTrackMultiset(s[0], rest);
      assert s == [s[0]] + s[1..];
      InsertTrack(s[0], rest)
  }

  /** The head of a sorted sequence precedes every track in it. */
  lemma HeadPrecedes(s: seq<Track>, x: Track)
    requires Sorted(s) && x in multiset(s)
    ensures Precedes(s[0], x)
  {
    var k :| 0 <= k < |s| && s[k] == x;
    if k > 0 {
      assert Precedes(s[0], s[k]);
    }
  }

  /** Two sorted arrangements of the same tracks agree on their heads and their
      remaining tracks. */
  lemma SortedHeads(a: seq<Track>, b: seq<Track>)
    requires Sorted(a) && Sorted(b)
    requires multiset(a) == multiset(b) && a != []
    ensures b != [] && a[0] == b[0]
    ensures multiset(a[1..]) == multiset(b[1..])
  {
    assert |a| == |multiset(a)| == |multiset(b)| == |b|;
    HeadPrecedes(b, a[0]);
    HeadPrecedes(a, b[0]);
    HeadTailMultiset(a);
    HeadTailMultiset(b);
  }

  /** The tail of a sorted sequence is sorted. */
  lemma SortedTail(s: seq<Track>)
    requires Sorted(s) && s != []
    ensures Sorted(s[1..])
  {
  }

  /** A sorted arrangement of a multiset of tracks is unique. */
  lemma {:induction false} SortedUnique(a: seq<Track>, b: seq<Track>)
    requires Sorted(a) && Sorted(b)
    requires multiset(a) == multiset(b)
    ensures a == b
  {
    if a == [] {
      assert |b| == |multiset(b)| == 0;
    } else {
      SortedHeads(a, b);
      SortedTail(a);
      SortedTail(b);
      SortedUnique(a[1..], b[1..]);
      SameHeadSameTail(a, b);
    }
  }

  /** Sorted by bandwidth, with ties in index order, is sorted in (bandwidth, idx) order. */
  lemma StableSortIsSorted(s: seq<Track>)
    requires SortedByBandwidth(s) && TiesInIndexOrder(s)
    ensures Sorted(s)
  {
  }

  /** Positions from `k` on hold their final values: they ascend by bandwidth and no
      earlier track has a higher bandwidth. */
  ghost predicate Settled(s: seq<Track>, k: int)
  {
    (forall p, q :: 0 <= p && k <= p < q < |s| ==> s[p].bandwidth <= s[q].bandwidth) &&
    (forall p, q :: 0 <= p < k <= q < |s| ==> s[p].bandwidth <= s[q].bandwidth)
  }

  /** No track up to position `j` has a higher bandwidth than the one at `j`. */
  ghost predicate HighestAt(s: seq<Track>, j: int)
  {
    0 <= j < |s| && forall p :: 0 <= p <= j ==> s[p].bandwidth <= s[j].bandwidth
  }

  /** `s` with the neighbours at `j` and `j + 1` exchanged. */
  function Swapped(s: seq<Track>, j: int): (r: seq<Track>)
    requires 0 <= j && j + 1 < |s|
    ensures |r| == |s|
  {
    s[j := s[j + 1]][j + 1 := s[j]]
  }

  /** One iteration of the inner loop on the sequence: the neighbours at `j` and `j + 1`
      are exchanged when strictly out of order. */
  function Step(s: seq<Track>, j: int): (r: seq<Track>)
    requires 0 <= j && j + 1 < |s|
    ensures |r| == |s|
  {
    if s[j].bandwidth > s[j + 1].bandwidth then Swapped(s, j) else s
  }

  /** Exchanging two neighbours keeps the tracks. */
  lemma SwapPermutes(s: seq<Track>, j: int)
    requires 0 <= j && j + 1 < |s|
    ensures multiset(Swapped(s, j)) == multiset(s)
  {
    var u := s[j := s[j + 1]];
    assert multiset(u) == multiset(s) - multiset{s[j]} + multiset{s[j + 1]};
    assert multiset(u[j + 1 := s[j]]) == multiset(u) - multiset{s[j + 1]} + multiset{s[j]};
  }

  /** Exchanging an out-of-order pair keeps tied tracks in their order: every other pair
      of positions keeps its relative order. */
  lemma SwapKeepsTies(s: seq<Track>, j: int)
    requires 0 <= j && j + 1 < |s|
    requires s[j].bandwidth > s[j + 1].bandwidth
    requires TiesInIndexOrder(s)
    ensures TiesInIndexOrder(Swapped(s, j))
  {
    var t := Swapped(s, j);
    forall i, k | 0 <= i < k < |t| && t[i].bandwidth == t[k].bandwidth
      ensures t[i].idx < t[k].idx
    {
      var i' := if i == j then j + 1 else if i == j + 1 then j else i;
      var k' := if k == j then j + 1 else if k == j + 1 then j else k;
      assert t[i] == s[i'] && t[k] == s[k'];
      assert i' < k';
    }
  }

  /** One iteration below the settled part keeps that part settled and carries the
      highest bandwidth seen so far one position up. */
  lemma StepSettles(s: seq<Track>, j: int, top: int)
    requires 0 <= j < top < |s|
    requires Settled(s, top + 1) && HighestAt(s, j)
    ensures Settled(Step(s, j), top + 1) && HighestAt(Step(s, j), j + 1)
  {
  }

  /** One iteration keeps tied tracks in order. */
  lemma StepKeepsTies(s: seq<Track>, j: int)
    requires 0 <= j && j + 1 < |s|
    requires TiesInIndexOrder(s)
    ensures TiesInIndexOrder(Step(s, j))
  {
    if s[j].bandwidth > s[j + 1].bandwidth {
      SwapKeepsTies(s, j);
    }
  }

  /** One iteration of the inner loop on the scratch array. */
  method BubbleStep(a: array<Track>, j: int, n: int)
    requires 0 <= j && j + 1 < n <= a.Length
    modifies a
    ensures a[..n] == Step(old(a[..n]), j)
    ensures multiset(a[..n]) == multiset(old(a[..n]))
    ensures a[n..] == old(a[n..])
  {
    if a[j].bandwidth > a[j + 1].bandwidth {
      ghost var s := a[..n];
      a[j], a[j + 1] := a[j + 1], a[j];
      assert a[..n] == Swapped(s, j);
      SwapPermutes(s, j);
    }
  }

  /** The first `j` iterations of a pass, applied to `s`. */
  function Steps(s: seq<Track>, j: int): (r: seq<Track>)
    requires 0 <= j < |s|
    ensures |r| == |s|
  {
    if j == 0 then s else Step(Steps(s, j - 1), j - 1)
  }

  /** Iterations below the settled part keep it settled and carry the highest bandwidth
      seen so far to the last position visited. */
  lemma {:induction false} StepsSettle(s: seq<Track>, top: int, j: int)
    requires 0 <= j <= top < |s| && Settled(s, top + 1)
    ensures Settled(Steps(s, j), top + 1) && HighestAt(Steps(s, j), j)
  {
    if j > 0 {
      var prev := Steps(s, j - 1);
      assert Steps(s, j) == Step(prev, j - 1);
      assert Settled(Step(prev, j - 1), top + 1) && HighestAt(Step(prev, j - 1), j) by {
        StepsSettle(s, top, j - 1);
        StepSettles(prev, j - 1, top);
      }
    }
  }

  /** How many times `t` occurs in `s`. */
  function Occurrences(s: seq<Track>, t: Track): nat
  {
    if s == [] then 0 else (if s[0] == t then 1 else 0) + Occurrences(s[1..], t)
  }

  /** The occurrences of `t` are its multiplicity in the multiset of `s`. */
  lemma {:induction false} OccurrencesMultiset(s: seq<Track>, t: Track)
    ensures Occurrences(s, t) == multiset(s)[t]
  {
    if s != [] {
      assert s == [s[0]] + s[1..];
      OccurrencesMultiset(s[1..], t);
    }
  }

  /** Sequences in which every track occurs equally often hold the same tracks. */
  lemma SameOccurrences(s: seq<Track>, r: seq<Track>)
    requires forall t :: Occurrences(r, t) == Occurrences(s, t)
    ensures multiset(r) == multiset(s)
  {
    forall t
      ensures multiset(r)[t] == multiset(s)[t]
    {
      OccurrencesMultiset(r, t);
      OccurrencesMultiset(s, t);
    }
  }

  /** One iteration permutes the tracks. */
  lemma StepPermutes(s: seq<Track>, j: int)
    requires 0 <= j && j + 1 < |s|
    ensures multiset(Step(s, j)) == multiset(s)
  {
    if s[j].bandwidth > s[j + 1].bandwidth {
      SwapPermutes(s, j);
    }
  }

  /** Iterations keep every track's number of occurrences. */
  lemma {:induction false} StepsKeepOccurrences(s: seq<Track>, j: int, t: Track)
    requires 0 <= j < |s|
    ensures Occurrences(Steps(s, j), t) == Occurrences(s, t)
  {
    if j > 0 {
      var prev := Steps(s, j - 1);
      assert Occurrences(prev, t) == Occurrences(s, t) by {
        StepsKeepOccurrences(s, j - 1, t);
      }
      assert Occurrences(Step(prev, j - 1), t) == Occurrences(prev, t) by {
        StepPermutes(prev, j - 1);
        OccurrencesMultiset(Step(prev, j - 1), t);
        OccurrencesMultiset(prev, t);
      }
      assert Steps(s, j) == Step(prev, j - 1);
    }
  }

  /** Iterations keep tied tracks in order. */
  lemma {:induction false} StepsKeepTies(s: seq<Track>, j: int)
    requires 0 <= j < |s| && TiesInIndexOrder(s)
    ensures TiesInIndexOrder(Steps(s, j))
  {
    if j > 0 {
      var prev := Steps(s, j - 1);
      assert Steps(s, j) == Step(prev, j - 1);
      assert TiesInIndexOrder(Step(prev, j - 1)) by {
        StepsKeepTies(s, j - 1);
        StepKeepsTies(prev, j - 1);
      }
    }
  }

  /** One pass of the inner loop: carries the highest bandwidth of `a[..top+1]` up to `top`. */
  method BubblePass(a: array<Track>, n: int, top: int)
    requires 0 < top < n <= a.Length
    modifies a
    ensures a[..n] == Steps(old(a[..n]), top)
    ensures a[n..] == old(a[n..])
  {
    ghost var s0 := a[..n];
    var j := 0;
    while j < top
      invariant 0 <= j <= top
      invariant a[..n] == Steps(s0, j)
      invariant a[n..] == old(a[n..])
    {
      BubbleStep(a, j, n);
      j := j + 1;
    }
  }

  /** A whole pass settles one more position and keeps tied tracks in order. */
  lemma PassDone(s: seq<Track>, top: int)
    requires 0 < top < |s| && Settled(s, top + 1)
    ensures Settled(Steps(s, top), top)
    ensures TiesInIndexOrder(s) ==> TiesInIndexOrder(Steps(s, top))
  {
    StepsSettle(s, top, top);
    SettledStep(Steps(s, top), top);
    if TiesInIndexOrder(s) {
      StepsKeepTies(s, top);
    }
  }

  /** A settled suffix grows by one when its predecessor is the highest of the rest. */
  lemma SettledStep(s: seq<Track>, top: int)
    requires 0 <= top < |s|
    requires Settled(s, top + 1)
    requires HighestAt(s, top)
    ensures Settled(s, top)
  {
  }

  /** The first `i` passes of the outer loop, applied to `s`: pass `k` runs the inner
      loop up to `|s| - 1 - k`. */
  function Passes(s: seq<Track>, i: int): (r: seq<Track>)
    requires 0 <= i <= |s|
    ensures |r| == |s|
  {
    if i == 0 then s else Steps(Passes(s, i - 1), |s| - i)
  }

  /** After `i` passes the last `i` positions are settled, and tied tracks kept their
      order if they had it. */
  lemma {:induction false} PassesSettle(s: seq<Track>, i: int)
    requires 0 <= i && (i == 0 || i < |s|)
    ensures Settled(Passes(s, i), |s| - i)
    ensures TiesInIndexOrder(s) ==> TiesInIndexOrder(Passes(s, i))
  {
    if i > 0 {
      var prev := Passes(s, i - 1);
      var next := Steps(prev, |s| - i);
      assert Passes(s, i) == next;
      assert Settled(next, |s| - i) && (TiesInIndexOrder(s) ==> TiesInIndexOrder(next)) by {
        PassesSettle(s, i - 1);
        PassDone(prev, |s| - i);
      }
    }
  }

  /** Passes keep every track's number of occurrences. */
  lemma {:induction false} PassesKeepOccurrences(s: seq<Track>, i: int, t: Track)
    requires 0 <= i && (i == 0 || i < |s|)
    ensures Occurrences(Passes(s, i), t) == Occurrences(s, t)
  {
    if i > 0 {
      var prev := Passes(s, i - 1);
      assert Occurrences(prev, t) == Occurrences(s, t) by {
        PassesKeepOccurrences(s, i - 1, t);
      }
      StepsKeepOccurrences(prev, |s| - i, t);
      assert Passes(s, i) == Steps(prev, |s| - i);
    }
  }

  /** Passes permute the tracks. */
  lemma PassesPermute(s: seq<Track>, i: int)
    requires 0 <= i && (i == 0 || i < |s|)
    ensures multiset(Passes(s, i)) == multiset(s)
  {
    forall t
      ensures Occurrences(Passes(s, i), t) == Occurrences(s, t)
    {
      PassesKeepOccurrences(s, i, t);
    }
    SameOccurrences(s, Passes(s, i));
  }

  /** Once all but the first position are settled the tracks ascend by bandwidth. */
  lemma SettledSorted(s: seq<Track>, k: int)
    requires k <= 1 && Settled(s, k)
    ensures SortedByBandwidth(s)
  {
  }

  /** All the passes of the outer loop sort by bandwidth and keep tied tracks in order. */
  lemma PassesSort(s: seq<Track>)
    ensures var r := Passes(s, if s == [] then 0 else |s| - 1);
            SortedByBandwidth(r) && (TiesInIndexOrder(s) ==> TiesInIndexOrder(r))
  {
    var i := if s == [] then 0 else |s| - 1;
    PassesSettle(s, i);
    SettledSorted(Passes(s, i), |s| - i);
  }

  /** Sorting by bandwidth alone while keeping ties in index order gives the reference
      order. */
  lemma StableSortIsReference(t: seq<Track>, r: seq<Track>)
    requires SortedByBandwidth(r) && TiesInIndexOrder(r)
    requires multiset(r) == multiset(t)
    ensures r == SortTracks(t)
  {
    StableSortIsSorted(r);
    SortedUnique(r, SortTracks(t));
  }

  /** All the passes, applied to tracks whose ties are in index order, give the reference
      order. */
  lemma BubbleSortIsReference(t: seq<Track>)
    requires TiesInIndexOrder(t)
    ensures Passes(t, if t == [] then 0 else |t| - 1) == SortTracks(t)
  {
    var i := if t == [] then 0 else |t| - 1;
    var r := Passes(t, i);
    assert SortedByBandwidth(r) && TiesInIndexOrder(r) by {
      PassesSort(t);
    }
    assert multiset(r) == multiset(t) by {
      PassesPermute(t, i);
    }
    StableSortIsReference(t, r);
  }

  /** The scratch-array sort of `updateProfile` (ABRManager.cpp:247-255): a bubble sort of
      `a[..n]` ascending by bandwidth that swaps only strictly out-of-order neighbours,
      hence stable. */
  method BubbleSortByBandwidth(a: array<Track>, n: int)
    requires 0 <= n <= a.Length
    modifies a
    ensures a[..n] == Passes(old(a[..n]), if n == 0 then 0 else n - 1)
    ensures SortedByBandwidth(a[..n])
    ensures a[n..] == old(a[n..])
    ensures TiesInIndexOrder(old(a[..n])) ==> TiesInIndexOrder(a[..n])
  {
    ghost var s0 := a[..n];
    var last := n - 1;
    var i := 0;
    while i < last
      invariant 0 <= i && (i == 0 || i <= last)
      invariant a[..n] == Passes(s0, i)
      invariant a[n..] == old(a[n..])
    {
      BubblePass(a, n, last - i);
      i := i + 1;
    }
    PassesSort(s0);
  }

  // ---------------------------------------------------------------------------------
  // The selection rules that follow the sort (ABRManager.cpp:257-304)

  /** The pair of iframe profile indices that `updateProfile` maintains. */
  datatype IframePick = IframePick(lowest: int, desired: int)

  /** Position of the first track whose bandwidth reaches `bound`, or |s| if none does. */
  function FirstAtOrAbove(s: seq<Track>, bound: int): (k: nat)
    ensures k <= |s|
    ensures forall i :: 0 <= i < k ==> s[i].bandwidth < bound
    ensures k < |s| ==> s[k].bandwidth >= bound
  {
    if s == [] || s[0].bandwidth >= bound then 0 else 1 + FirstAtOrAbove(s[1..], bound)
  }

  /** Position of the first track of exactly `bandwidth`, or -1. */
  function FirstWithBandwidth(s: seq<Track>, bandwidth: int): (k: int)
    ensures -1 <= k < |s|
    ensures k >= 0 ==> s[k].bandwidth == bandwidth
    ensures forall i :: 0 <= i < |s| && (k < 0 || i < k) ==> s[i].bandwidth != bandwidth
  {
    if s == [] then -1
    else if s[0].bandwidth == bandwidth then 0
    else
      var k := FirstWithBandwidth(s[1..], bandwidth);
      if k < 0 then -1 else k + 1
  }

  /** Strictly wider than 1920 or strictly taller than 1080. */
  predicate Is4K(p: ProfileInfo)
  {
    p.height > HEIGHT_4K || p.width > WIDTH_4K
  }

  /** Tracks that name profiles of the catalog. */
  ghost predicate TracksIn(s: seq<Track>, profiles: seq<ProfileInfo>)
  {
    forall k :: 0 <= k < |s| ==> 0 <= s[k].idx < |profiles|
  }

  /** The middle position `last/2 + last%2` taken when a 4K ladder has no exact match. */
  function MiddlePosition(count: int): int
  {
    (count - 1) / 2 + (count - 1) % 2
  }

  /** With a default iframe bitrate: lowest is the cheapest track, desired the last track
      cheaper than the default (the cheapest when none is). */
  function PickByDefaultBitrate(s: seq<Track>, defaultIframeBitrate: int): IframePick
    requires s != []
  {
    var k := FirstAtOrAbove(s, defaultIframeBitrate);
    IframePick(s[0].idx, if k == 0 then s[0].idx else s[k - 1].idx)
  }

  /** 4K: both become the first track whose bandwidth equals that of the catalog's middle
      profile; when that leaves desired at 0 and there are two tracks or more, both become
      the track at the middle position. */
  function PickFor4K(s: seq<Track>, profiles: seq<ProfileInfo>): IframePick
    requires s != [] && profiles != []
  {
    var reference := profiles[|profiles| / 2].bandwidthBitsPerSecond;
    var m := FirstWithBandwidth(s, reference);
    var matched := if m >= 0 then s[m].idx else 0;
    if matched == 0 && |s| >= 2 then
      IframePick(s[MiddlePosition(|s|)].idx, s[MiddlePosition(|s|)].idx)
    else
      IframePick(matched, matched)
  }

  /** Otherwise: the first call picks the cheapest track as lowest and the second cheapest
      (the cheapest when alone) as desired; later calls keep lowest and set desired to the
      cheapest track. */
  function PickFirstAdvertised(s: seq<Track>, before: IframePick): IframePick
    requires s != []
  {
    if before.lowest == INVALID_PROFILE then IframePick(s[0].idx, if |s| >= 2 then s[1].idx else s[0].idx)
    else IframePick(before.lowest, s[0].idx)
  }

  /** The (lowest, desired) pair that `updateProfile` leaves, given the sorted iframe
      tracks `s`, the catalog, the default iframe bitrate and the pair before the call. */
  function ChooseIframeProfiles(s: seq<Track>, profiles: seq<ProfileInfo>, defaultIframeBitrate: int,
                                before: IframePick): IframePick
    requires TracksIn(s, profiles)
  {
    if s == [] then before
    else if defaultIframeBitrate > 0 then PickByDefaultBitrate(s, defaultIframeBitrate)
    else if Is4K(profiles[s[|s| - 1].idx]) then PickFor4K(s, profiles)
    else PickFirstAdvertised(s, before)
  }

  /** The iframe tracks of the catalog, sorted as the scratch array ends up. */
  function SortedIframeTracks(profiles: seq<ProfileInfo>): (r: seq<Track>)
    ensures TracksIn(r, profiles)
  {
    var r := SortTracks(IframeTracks(profiles));
    assert forall k :: 0 <= k < |r| ==> r[k] in multiset(IframeTracks(profiles));
    r
  }

  /** The result of `updateProfile` on a catalog. */
  function UpdatedIframePick(profiles: seq<ProfileInfo>, defaultIframeBitrate: int, before: IframePick): IframePick
  {
    ChooseIframeProfiles(SortedIframeTracks(profiles), profiles, defaultIframeBitrate, before)
  }
}
