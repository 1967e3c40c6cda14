/** The per-frame association of ObjectTracker.update: the index lists it builds between
    its three passes, gathered into one assignment table, and the facts that make that
    table one-to-one. */
module Association {
  import opened Geometry
  import opened Matching

  /** One detection as the tracker reads it: a box and a confidence. */
  datatype Detection = Detection(box: Box, score: real)

  /** How a track was matched in a frame, with the index of its detection. */
  datatype Match = Missed | ByScore(det: nat) | ByOverlap(det: nat) | Recovered(det: nat)

  predicate Increasing(s: seq<nat>) {
    forall k, l :: 0 <= k < l < |s| ==> s[k] < s[l]
  }

  predicate Distinct(s: seq<nat>) {
    forall k, l :: 0 <= k < l < |s| ==> s[k] != s[l]
  }

  predicate Below(s: seq<nat>, n: nat) {
    forall k :: 0 <= k < |s| ==> s[k] < n
  }

  /** The positions of the detections whose score is at least `thresh` (high = true) or
      below it (high = false), in detection order. */
  function {:induction false} ScoreIndices(dets: seq<Detection>, thresh: real, high: bool): (r: seq<nat>)
    ensures Increasing(r) && Below(r, |dets|)
    ensures forall i: nat :: i in r <==> i < |dets| && (dets[i].score >= thresh) == high
  {
    if dets == [] then []
    else
      var n := |dets| - 1;
      var init := ScoreIndices(dets[..n], thresh, high);
      assert forall k :: 0 <= k < |init| ==> init[k] < n && dets[init[k]] == dets[..n][init[k]];
      assert forall i: nat :: i < n ==> dets[i] == dets[..n][i];
      if (dets[n].score >= thresh) == high then init + [n] else init
  }

  /** The indices below n that do not occur in `taken`, in increasing order. */
  function {:induction false} Complement(n: nat, taken: seq<nat>): (r: seq<nat>)
    ensures Increasing(r) && Below(r, n)
    ensures forall i: nat :: i in r <==> i < n && i !in taken
  {
    if n == 0 then []
    else
      var init := Complement(n - 1, taken);
      if n - 1 !in taken then init + [n - 1] else init
  }

  /** [s[i] for i in idx]. */
  function Pick<T>(s: seq<T>, idx: seq<nat>): (r: seq<T>)
    requires Below(idx, |s|)
    ensures |r| == |idx|
    ensures forall k :: 0 <= k < |idx| ==> r[k] == s[idx[k]]
  {
    seq(|idx|, k requires 0 <= k < |idx| => s[idx[k]])
  }

  /** Python's list.index: the first position of x. */
  function IndexOf<T(==)>(s: seq<T>, x: T): (k: nat)
    requires x in s
    ensures k < |s| && s[k] == x
    ensures forall l :: 0 <= l < k ==> s[l] != x
  {
    if s[0] == x then 0 else 1 + IndexOf(s[1..], x)
  }

  /** In a list without repeats, looking an element up gives back its position. */
  lemma IndexOfDistinct<T>(s: seq<T>, i: nat)
    requires forall k, l :: 0 <= k < l < |s| ==> s[k] != s[l]
    requires i < |s|
    ensures IndexOf(s, s[i]) == i
  {
  }

  function Boxes(dets: seq<Detection>): (r: seq<Box>)
    ensures |r| == |dets|
    ensures forall i :: 0 <= i < |dets| ==> r[i] == dets[i].box
  {
    seq(|dets|, i requires 0 <= i < |dets| => dets[i].box)
  }

  function Zeros(n: nat): (r: seq<nat>)
    ensures |r| == n
  {
    seq(n, _ => 0)
  }

  /** The per-frame assignment table: every list ObjectTracker.update computes between its
      passes. `high` pairs track indices with positions in `highIdx`; `low` pairs positions
      in `unmatchedTrackers` with positions in `lowIdx`; `recovery` pairs positions in
      `unmatchedTracks` with positions in `unmatchedDets`. */
  datatype Table = Table(
    highIdx: seq<nat>, lowIdx: seq<nat>,
    high: seq<(nat, nat)>,
    unmatchedTrackers: seq<nat>,
    low: seq<(nat, nat)>,
    lowTracked: seq<nat>,
    unmatchedTracks: seq<nat>,
    matchedDetIdx: seq<nat>,
    unmatchedDets: seq<nat>,
    recovery: seq<(nat, nat)>)

  /** The index facts the passes guarantee, for n tracks and m detections. */
  predicate WellFormed(t: Table, n: nat, m: nat) {
    Increasing(t.highIdx) && Below(t.highIdx, m) &&
    Increasing(t.lowIdx) && Below(t.lowIdx, m) &&
    ValidAssignment(t.high, n, |t.highIdx|) &&
    Increasing(t.unmatchedTrackers) && Below(t.unmatchedTrackers, n) &&
    ValidAssignment(t.low, |t.unmatchedTrackers|, |t.lowIdx|) &&
    t.lowTracked == Pick(t.unmatchedTrackers, Rows(t.low)) &&
    Increasing(t.unmatchedTracks) && Below(t.unmatchedTracks, n) &&
    Increasing(t.unmatchedDets) && Below(t.unmatchedDets, m) &&
    ValidAssignment(t.recovery, |t.unmatchedTracks|, |t.unmatchedDets|)
  }

  /** The relations between the lists that update establishes by construction. */
  predicate Consistent(t: Table, dets: seq<Detection>, thresh: real, n: nat)
    requires WellFormed(t, n, |dets|)
  {
    RowsColsBelow(t.high, n, |t.highIdx|);
    RowsColsBelow(t.low, |t.unmatchedTrackers|, |t.lowIdx|);
    t.highIdx == ScoreIndices(dets, thresh, true) &&
    t.lowIdx == ScoreIndices(dets, thresh, false) &&
    t.unmatchedTrackers == Complement(n, Rows(t.high)) &&
    t.unmatchedTracks == Complement(n, Rows(t.high) + t.lowTracked) &&
    t.matchedDetIdx == Pick(t.highIdx, Cols(t.high)) + Pick(t.lowIdx, Cols(t.low)) &&
    t.unmatchedDets == Complement(|dets|, t.matchedDetIdx)
  }

  /** The tracks recovered in the occlusion pass, as track indices. */
  function RecoveredTracks(t: Table): seq<nat>
    requires Below(Rows(t.recovery), |t.unmatchedTracks|)
  {
    Pick(t.unmatchedTracks, Rows(t.recovery))
  }

  /** The detections claimed in the occlusion pass, as detection indices. */
  function RecoveredDets(t: Table): seq<nat>
    requires Below(Cols(t.recovery), |t.unmatchedDets|)
  {
    Pick(t.unmatchedDets, Cols(t.recovery))
  }

  lemma RowsColsBelow(pairs: seq<(nat, nat)>, n: nat, m: nat)
    requires ValidAssignment(pairs, n, m)
    ensures Below(Rows(pairs), n) && Below(Cols(pairs), m)
    ensures Distinct(Rows(pairs)) && Distinct(Cols(pairs))
  {
    forall i | i in Rows(pairs) ensures i < n {
      var k :| 0 <= k < |pairs| && Rows(pairs)[k] == i;
      assert pairs[k] in pairs;
    }
    forall j | j in Cols(pairs) ensures j < m {
      var k :| 0 <= k < |pairs| && Cols(pairs)[k] == j;
      assert pairs[k] in pairs;
    }
  }

  /** The table ObjectTracker.update builds for a frame: predicted boxes, last detections
      and miss counters of the n tracks (before this frame's misses are counted), the
      detections, the frame, the score threshold and the solver. */
  function Associate(preds: seq<Box>, lastDets: seq<Box>, losts: seq<nat>, dets: seq<Detection>,
                     f: Frame, thresh: real, solve: Solver): (t: Table)
    requires |lastDets| == |preds| && |losts| == |preds|
    requires FrameOk(f) && IsAssignmentSolver(solve)
    ensures WellFormed(t, |preds|, |dets|)
    ensures Consistent(t, dets, thresh, |preds|)
  {
    var n := |preds|;
    var boxes := Boxes(dets);
    var highIdx := ScoreIndices(dets, thresh, true);
    var lowIdx := ScoreIndices(dets, thresh, false);
    var high := PassResult(HighScore, preds, Zeros(n), Pick(boxes, highIdx), f, solve);
    RowsColsBelow(high, n, |highIdx|);
    var unmatchedTrackers := Complement(n, Rows(high));
    var low := PassResult(LowScore, Pick(preds, unmatchedTrackers), Zeros(|unmatchedTrackers|),
                          Pick(boxes, lowIdx), f, solve);
    RowsColsBelow(low, |unmatchedTrackers|, |lowIdx|);
    var lowTracked := Pick(unmatchedTrackers, Rows(low));
    var unmatchedTracks := Complement(n, Rows(high) + lowTracked);
    var matchedDetIdx := Pick(highIdx, Cols(high)) + Pick(lowIdx, Cols(low));
    var unmatchedDets := Complement(|dets|, matchedDetIdx);
    var recovery :=
      if |unmatchedTracks| > 0 && |unmatchedDets| > 0 then
        PassResult(Recovery, Pick(lastDets, unmatchedTracks), Pick(losts, unmatchedTracks),
                   Pick(boxes, unmatchedDets), f, solve)
      else [];
    Table(highIdx, lowIdx, high, unmatchedTrackers, low, lowTracked,
          unmatchedTracks, matchedDetIdx, unmatchedDets, recovery)
  }

  /** How track i ends the frame, looked up as the closing loop of update does: the
      high-score pass first, then the low-score pass, then recovery. */
  function MatchOf(t: Table, n: nat, m: nat, i: nat): (r: Match)
    requires WellFormed(t, n, m)
    ensures !r.Missed? ==> r.det < m
    ensures r.ByScore? <==> i in Rows(t.high)
    ensures r.ByOverlap? <==> i !in Rows(t.high) && i in t.lowTracked
  {
    RowsColsBelow(t.high, n, |t.highIdx|);
    RowsColsBelow(t.low, |t.unmatchedTrackers|, |t.lowIdx|);
    RowsColsBelow(t.recovery, |t.unmatchedTracks|, |t.unmatchedDets|);
    if i in Rows(t.high) then
      ByScore(t.highIdx[Cols(t.high)[IndexOf(Rows(t.high), i)]])
    else if i in t.lowTracked then
      ByOverlap(t.lowIdx[Cols(t.low)[IndexOf(t.lowTracked, i)]])
    else if i in RecoveredTracks(t) then
      Recovered(t.unmatchedDets[Cols(t.recovery)[IndexOf(RecoveredTracks(t), i)]])
    else
      Missed
  }

  function Matches(t: Table, n: nat, m: nat): (r: seq<Match>)
    requires WellFormed(t, n, m)
    ensures |r| == n
  {
    seq(n, i requires 0 <= i < n => MatchOf(t, n, m, i))
  }

  /** The detections some track consumed: the assigned_det flags that end up True. */
  function Assigned(t: Table): seq<nat>
    requires Below(Cols(t.recovery), |t.unmatchedDets|)
  {
    t.matchedDetIdx + RecoveredDets(t)
  }

  /** The detections that spawn new tracks, in detection order. */
  function Unassigned(t: Table, m: nat): (r: seq<nat>)
    requires Below(Cols(t.recovery), |t.unmatchedDets|)
    ensures Increasing(r) && Below(r, m)
  {
    Complement(m, Assigned(t))
  }

  // ---------------------------------------------------------------------------
  // One-to-one assignment

  lemma PickDistinct(s: seq<nat>, idx: seq<nat>)
    requires Increasing(s) && Below(idx, |s|) && Distinct(idx)
    ensures Distinct(Pick(s, idx))
  {
    forall k, l | 0 <= k < l < |idx| ensures Pick(s, idx)[k] != Pick(s, idx)[l] {
      assert idx[k] != idx[l];
      if idx[k] < idx[l] { assert s[idx[k]] < s[idx[l]]; } else { assert s[idx[l]] < s[idx[k]]; }
    }
  }

  /** The three sets of tracks the passes claim are pairwise disjoint and each without
      repetition, so the closing loop updates every track at most once. */
  lemma TrackSetsDisjoint(t: Table, dets: seq<Detection>, thresh: real, n: nat)
    requires WellFormed(t, n, |dets|) && Consistent(t, dets, thresh, n)
    ensures Distinct(Rows(t.high)) && Distinct(t.lowTracked) && Distinct(RecoveredTracks(t))
    ensures forall i :: i in t.lowTracked ==> i !in Rows(t.high)
    ensures forall i :: i in RecoveredTracks(t) ==> i !in Rows(t.high) && i !in t.lowTracked
  {
    RowsColsBelow(t.high, n, |t.highIdx|);
    RowsColsBelow(t.low, |t.unmatchedTrackers|, |t.lowIdx|);
    RowsColsBelow(t.recovery, |t.unmatchedTracks|, |t.unmatchedDets|);
    PickDistinct(t.unmatchedTrackers, Rows(t.low));
    PickDistinct(t.unmatchedTracks, Rows(t.recovery));
    forall i | i in t.lowTracked ensures i !in Rows(t.high) {
      var k :| 0 <= k < |t.lowTracked| && t.lowTracked[k] == i;
      assert t.unmatchedTrackers[Rows(t.low)[k]] in t.unmatchedTrackers;
    }
    forall i | i in RecoveredTracks(t) ensures i !in Rows(t.high) && i !in t.lowTracked {
      var k :| 0 <= k < |RecoveredTracks(t)| && RecoveredTracks(t)[k] == i;
      assert t.unmatchedTracks[Rows(t.recovery)[k]] in t.unmatchedTracks;
    }
  }

  /** The detections the three passes claim are pairwise disjoint and each without
      repetition. In particular the recovery loop's `assigned_det` guard never rejects a
      pair: every detection recovery returns is still unassigned. */
  lemma DetectionSetsDisjoint(t: Table, dets: seq<Detection>, thresh: real, n: nat)
    requires WellFormed(t, n, |dets|) && Consistent(t, dets, thresh, n)
    ensures Distinct(Pick(t.highIdx, Cols(t.high))) && Distinct(Pick(t.lowIdx, Cols(t.low)))
    ensures Distinct(RecoveredDets(t)) && Distinct(t.matchedDetIdx) && Distinct(Assigned(t))
    ensures forall d :: d in Pick(t.highIdx, Cols(t.high)) ==> d !in Pick(t.lowIdx, Cols(t.low))
    ensures forall d :: d in RecoveredDets(t) ==> d !in t.matchedDetIdx
    ensures Below(Assigned(t), |dets|)
  {
    RowsColsBelow(t.high, n, |t.highIdx|);
    RowsColsBelow(t.low, |t.unmatchedTrackers|, |t.lowIdx|);
    RowsColsBelow(t.recovery, |t.unmatchedTracks|, |t.unmatchedDets|);
    var hd, ld, rd := Pick(t.highIdx, Cols(t.high)), Pick(t.lowIdx, Cols(t.low)), RecoveredDets(t);
    PickDistinct(t.highIdx, Cols(t.high));
    PickDistinct(t.lowIdx, Cols(t.low));
    PickDistinct(t.unmatchedDets, Cols(t.recovery));
    forall d | d in hd ensures d !in ld && d < |dets| && dets[d].score >= thresh {
      var k :| 0 <= k < |hd| && hd[k] == d;
      assert t.highIdx[Cols(t.high)[k]] in t.highIdx;
    }
    forall d | d in ld ensures d < |dets| && dets[d].score < thresh {
      var k :| 0 <= k < |ld| && ld[k] == d;
      assert t.lowIdx[Cols(t.low)[k]] in t.lowIdx;
    }
    forall d | d in rd ensures d !in t.matchedDetIdx && d < |dets| {
      var k :| 0 <= k < |rd| && rd[k] == d;
      assert t.unmatchedDets[Cols(t.recovery)[k]] in t.unmatchedDets;
    }
    DistinctConcat(hd, ld);
    DistinctConcat(t.matchedDetIdx, rd);
    forall k | 0 <= k < |Assigned(t)| ensures Assigned(t)[k] < |dets| {
      assert Assigned(t)[k] in hd || Assigned(t)[k] in ld || Assigned(t)[k] in rd;
    }
  }

  lemma DistinctConcat(a: seq<nat>, b: seq<nat>)
    requires Distinct(a) && Distinct(b)
    requires forall d :: d in a ==> d !in b
    ensures Distinct(a + b)
  {
    forall k, l | 0 <= k < l < |a + b| ensures (a + b)[k] != (a + b)[l] {
      if l >= |a| && k < |a| {
        assert (a + b)[k] in a && (a + b)[l] in b;
      }
    }
  }

  /** Where the detection of a matched track comes from: the position of the track in its
      pass and the entry of the matching detection list. */
  lemma MatchSource(t: Table, dets: seq<Detection>, thresh: real, n: nat, i: nat)
    requires WellFormed(t, n, |dets|) && Consistent(t, dets, thresh, n)
    ensures MatchOf(t, n, |dets|, i).ByScore? ==>
      exists k :: 0 <= k < |t.high| && t.high[k].0 == i &&
        MatchOf(t, n, |dets|, i).det == Pick(t.highIdx, Cols(t.high))[k]
    ensures MatchOf(t, n, |dets|, i).ByOverlap? ==>
      exists k :: 0 <= k < |t.low| && t.lowTracked[k] == i &&
        MatchOf(t, n, |dets|, i).det == Pick(t.lowIdx, Cols(t.low))[k]
    ensures MatchOf(t, n, |dets|, i).Recovered? ==>
      exists k :: 0 <= k < |t.recovery| && RecoveredTracks(t)[k] == i &&
        MatchOf(t, n, |dets|, i).det == RecoveredDets(t)[k]
  {
    RowsColsBelow(t.high, n, |t.highIdx|);
    RowsColsBelow(t.low, |t.unmatchedTrackers|, |t.lowIdx|);
    RowsColsBelow(t.recovery, |t.unmatchedTracks|, |t.unmatchedDets|);
    var r := MatchOf(t, n, |dets|, i);
    if r.ByScore? {
      var k := IndexOf(Rows(t.high), i);
      assert t.high[k].0 == i;
    } else if r.ByOverlap? {
      var k := IndexOf(t.lowTracked, i);
      assert t.lowTracked[k] == i;
    } else if r.Recovered? {
      var k := IndexOf(RecoveredTracks(t), i);
      assert RecoveredTracks(t)[k] == i;
    }
  }

  /** Each detection is consumed by at most one track: two different tracks never end a
      frame matched to the same detection, and every matched detection exists. */
  lemma {:induction false} MatchesOneToOne(t: Table, dets: seq<Detection>, thresh: real, n: nat)
    requires WellFormed(t, n, |dets|) && Consistent(t, dets, thresh, n)
    ensures forall i :: 0 <= i < n && !MatchOf(t, n, |dets|, i).Missed? ==>
      MatchOf(t, n, |dets|, i).det < |dets|
    ensures forall i, j :: 0 <= i < j < n && !MatchOf(t, n, |dets|, i).Missed? && !MatchOf(t, n, |dets|, j).Missed? ==>
      MatchOf(t, n, |dets|, i).det != MatchOf(t, n, |dets|, j).det
  {
    DetectionSetsDisjoint(t, dets, thresh, n);
    TrackSetsDisjoint(t, dets, thresh, n);
    RowsColsBelow(t.high, n, |t.highIdx|);
    var m := |dets|;
    var hd, ld, rd := Pick(t.highIdx, Cols(t.high)), Pick(t.lowIdx, Cols(t.low)), RecoveredDets(t);
    assert Assigned(t) == hd + ld + rd;
    forall i | 0 <= i < n && !MatchOf(t, n, m, i).Missed? ensures MatchOf(t, n, m, i).det < m {
      MatchSource(t, dets, thresh, n, i);
      assert MatchOf(t, n, m, i).det in Assigned(t);
    }
    forall i, j | 0 <= i < j < n && !MatchOf(t, n, m, i).Missed? && !MatchOf(t, n, m, j).Missed?
      ensures MatchOf(t, n, m, i).det != MatchOf(t, n, m, j).det
    {
      DistinctTracksDistinctDets(t, dets, thresh, n, i, j);
    }
  }

  lemma DistinctTracksDistinctDets(t: Table, dets: seq<Detection>, thresh: real, n: nat, i: nat, j: nat)
    requires WellFormed(t, n, |dets|) && Consistent(t, dets, thresh, n)
    requires i < j < n && !MatchOf(t, n, |dets|, i).Missed? && !MatchOf(t, n, |dets|, j).Missed?
    ensures MatchOf(t, n, |dets|, i).det != MatchOf(t, n, |dets|, j).det
  {
    var a, b := MatchOf(t, n, |dets|, i), MatchOf(t, n, |dets|, j);
    if (a.ByScore? && b.ByScore?) || (a.ByOverlap? && b.ByOverlap?) || (a.Recovered? && b.Recovered?) {
      SameTierDistinct(t, dets, thresh, n, i, j);
    } else {
      MatchTier(t, dets, thresh, n, i);
      MatchTier(t, dets, thresh, n, j);
      DetectionSetsDisjoint(t, dets, thresh, n);
    }
  }

  /** The detection of a matched track lies in the detection list of its pass. */
  lemma MatchTier(t: Table, dets: seq<Detection>, thresh: real, n: nat, i: nat)
    requires WellFormed(t, n, |dets|) && Consistent(t, dets, thresh, n)
    ensures Below(Cols(t.recovery), |t.unmatchedDets|)
    ensures MatchOf(t, n, |dets|, i).ByScore? ==> MatchOf(t, n, |dets|, i).det in Pick(t.highIdx, Cols(t.high))
    ensures MatchOf(t, n, |dets|, i).ByOverlap? ==> MatchOf(t, n, |dets|, i).det in Pick(t.lowIdx, Cols(t.low))
    ensures MatchOf(t, n, |dets|, i).Recovered? ==> MatchOf(t, n, |dets|, i).det in RecoveredDets(t)
  {
    RowsColsBelow(t.recovery, |t.unmatchedTracks|, |t.unmatchedDets|);
    MatchSource(t, dets, thresh, n, i);
  }

  /** Two tracks matched in the same pass have different detections: the pass's pairs
      name each detection once. */
  lemma SameTierDistinct(t: Table, dets: seq<Detection>, thresh: real, n: nat, i: nat, j: nat)
    requires WellFormed(t, n, |dets|) && Consistent(t, dets, thresh, n)
    requires i < j < n
    requires var a, b := MatchOf(t, n, |dets|, i), MatchOf(t, n, |dets|, j);
      (a.ByScore? && b.ByScore?) || (a.ByOverlap? && b.ByOverlap?) || (a.Recovered? && b.Recovered?)
    ensures MatchOf(t, n, |dets|, i).det != MatchOf(t, n, |dets|, j).det
  {
    var a := MatchOf(t, n, |dets|, i);
    if a.ByScore? {
      HighPairsDistinct(t, dets, thresh, n, i, j);
    } else if a.ByOverlap? {
      LowPairsDistinct(t, dets, thresh, n, i, j);
    } else {
      RecoveryPairsDistinct(t, dets, thresh, n, i, j);
    }
  }

  lemma HighPairsDistinct(t: Table, dets: seq<Detection>, thresh: real, n: nat, i: nat, j: nat)
    requires WellFormed(t, n, |dets|) && Consistent(t, dets, thresh, n)
    requires i < j < n && MatchOf(t, n, |dets|, i).ByScore? && MatchOf(t, n, |dets|, j).ByScore?
    ensures MatchOf(t, n, |dets|, i).det != MatchOf(t, n, |dets|, j).det
  {
    RowsColsBelow(t.high, n, |t.highIdx|);
    PickDistinct(t.highIdx, Cols(t.high));
    var k, l := IndexOf(Rows(t.high), i), IndexOf(Rows(t.high), j);
    assert Pick(t.highIdx, Cols(t.high))[k] != Pick(t.highIdx, Cols(t.high))[l];
  }

  lemma LowPairsDistinct(t: Table, dets: seq<Detection>, thresh: real, n: nat, i: nat, j: nat)
    requires WellFormed(t, n, |dets|) && Consistent(t, dets, thresh, n)
    requires i < j < n && MatchOf(t, n, |dets|, i).ByOverlap? && MatchOf(t, n, |dets|, j).ByOverlap?
    ensures MatchOf(t, n, |dets|, i).det != MatchOf(t, n, |dets|, j).det
  {
    RowsColsBelow(t.high, n, |t.highIdx|);
    RowsColsBelow(t.low, |t.unmatchedTrackers|, |t.lowIdx|);
    PickDistinct(t.lowIdx, Cols(t.low));
    var k, l := IndexOf(t.lowTracked, i), IndexOf(t.lowTracked, j);
    assert Pick(t.lowIdx, Cols(t.low))[k] != Pick(t.lowIdx, Cols(t.low))[l];
  }

  lemma RecoveryPairsDistinct(t: Table, dets: seq<Detection>, thresh: real, n: nat, i: nat, j: nat)
    requires WellFormed(t, n, |dets|) && Consistent(t, dets, thresh, n)
    requires i < j < n && MatchOf(t, n, |dets|, i).Recovered? && MatchOf(t, n, |dets|, j).Recovered?
    ensures MatchOf(t, n, |dets|, i).det != MatchOf(t, n, |dets|, j).det
  {
    RowsColsBelow(t.high, n, |t.highIdx|);
    RowsColsBelow(t.low, |t.unmatchedTrackers|, |t.lowIdx|);
    RowsColsBelow(t.recovery, |t.unmatchedTracks|, |t.unmatchedDets|);
    PickDistinct(t.unmatchedDets, Cols(t.recovery));
    var k, l := IndexOf(RecoveredTracks(t), i), IndexOf(RecoveredTracks(t), j);
    assert RecoveredDets(t)[k] != RecoveredDets(t)[l];
  }

  /** Every detection ends the frame in exactly one place: it is consumed by a track (and
      then by exactly one, see MatchesOneToOne) exactly when it is not among the detections
      that spawn new tracks. */
  lemma {:induction false} DetectionsPartitioned(t: Table, dets: seq<Detection>, thresh: real, n: nat)
    requires WellFormed(t, n, |dets|) && Consistent(t, dets, thresh, n)
    ensures forall d: nat :: d < |dets| ==>
      (d in Unassigned(t, |dets|) <==>
       !(exists i :: 0 <= i < n && !MatchOf(t, n, |dets|, i).Missed? && MatchOf(t, n, |dets|, i).det == d))
  {
    DetectionSetsDisjoint(t, dets, thresh, n);
    TrackSetsDisjoint(t, dets, thresh, n);
    RowsColsBelow(t.high, n, |t.highIdx|);
    RowsColsBelow(t.low, |t.unmatchedTrackers|, |t.lowIdx|);
    RowsColsBelow(t.recovery, |t.unmatchedTracks|, |t.unmatchedDets|);
    var m := |dets|;
    var hd, ld, rd := Pick(t.highIdx, Cols(t.high)), Pick(t.lowIdx, Cols(t.low)), RecoveredDets(t);
    assert Assigned(t) == hd + ld + rd;
    forall d: nat | d < m
      ensures d in Unassigned(t, m) <==>
        !(exists i :: 0 <= i < n && !MatchOf(t, n, m, i).Missed? && MatchOf(t, n, m, i).det == d)
    {
      DetectionPlaced(t, dets, thresh, n, d);
    }
  }

  lemma DetectionPlaced(t: Table, dets: seq<Detection>, thresh: real, n: nat, d: nat)
    requires WellFormed(t, n, |dets|) && Consistent(t, dets, thresh, n) && d < |dets|
    ensures d in Unassigned(t, |dets|) <==>
      !(exists i :: 0 <= i < n && !MatchOf(t, n, |dets|, i).Missed? && MatchOf(t, n, |dets|, i).det == d)
  {
    RowsColsBelow(t.high, n, |t.highIdx|);
    RowsColsBelow(t.low, |t.unmatchedTrackers|, |t.lowIdx|);
    RowsColsBelow(t.recovery, |t.unmatchedTracks|, |t.unmatchedDets|);
    var m := |dets|;
    var hd, ld, rd := Pick(t.highIdx, Cols(t.high)), Pick(t.lowIdx, Cols(t.low)), RecoveredDets(t);
    assert Assigned(t) == hd + ld + rd;
    if d in hd {
      var k :| 0 <= k < |hd| && hd[k] == d;
      HighPlaced(t, dets, thresh, n, k);
    } else if d in ld {
      var k :| 0 <= k < |ld| && ld[k] == d;
      LowPlaced(t, dets, thresh, n, k);
    } else if d in rd {
      var k :| 0 <= k < |rd| && rd[k] == d;
      RecoveryPlaced(t, dets, thresh, n, k);
    } else {
      forall i | 0 <= i < n && !MatchOf(t, n, m, i).Missed? ensures MatchOf(t, n, m, i).det != d {
        MatchSource(t, dets, thresh, n, i);
      }
    }
  }

  /** The k-th pair of the high-score pass is how its track ends the frame. */
  lemma HighPlaced(t: Table, dets: seq<Detection>, thresh: real, n: nat, k: nat)
    requires WellFormed(t, n, |dets|) && Consistent(t, dets, thresh, n) && k < |t.high|
    ensures t.high[k].0 < n
    ensures MatchOf(t, n, |dets|, t.high[k].0) == ByScore(Pick(t.highIdx, Cols(t.high))[k])
  {
    RowsColsBelow(t.high, n, |t.highIdx|);
    assert Rows(t.high)[k] == t.high[k].0;
    IndexOfDistinct(Rows(t.high), k);
  }

  /** The k-th pair of the low-score pass is how its track ends the frame. */
  lemma LowPlaced(t: Table, dets: seq<Detection>, thresh: real, n: nat, k: nat)
    requires WellFormed(t, n, |dets|) && Consistent(t, dets, thresh, n) && k < |t.low|
    ensures k < |t.lowTracked| && t.lowTracked[k] < n
    ensures MatchOf(t, n, |dets|, t.lowTracked[k]) == ByOverlap(Pick(t.lowIdx, Cols(t.low))[k])
  {
    TrackSetsDisjoint(t, dets, thresh, n);
    RowsColsBelow(t.low, |t.unmatchedTrackers|, |t.lowIdx|);
    assert t.lowTracked[k] in t.lowTracked;
    IndexOfDistinct(t.lowTracked, k);
  }

  /** The k-th recovery pair is how its track ends the frame. */
  lemma RecoveryPlaced(t: Table, dets: seq<Detection>, thresh: real, n: nat, k: nat)
    requires WellFormed(t, n, |dets|) && Consistent(t, dets, thresh, n) && k < |t.recovery|
    requires Below(Rows(t.recovery), |t.unmatchedTracks|) && Below(Cols(t.recovery), |t.unmatchedDets|)
    ensures k < |RecoveredTracks(t)| && RecoveredTracks(t)[k] < n
    ensures MatchOf(t, n, |dets|, RecoveredTracks(t)[k]) == Recovered(RecoveredDets(t)[k])
  {
    TrackSetsDisjoint(t, dets, thresh, n);
    assert RecoveredTracks(t)[k] in RecoveredTracks(t);
    IndexOfDistinct(RecoveredTracks(t), k);
  }

  // ---------------------------------------------------------------------------
  // Gating and acceptance, per match

  /** What a track's match guarantees about its detection, in every tier: the detection's
      confidence tier, the distance gate against the reference box the pass used (the
      prediction for the first two passes, the last matched box for recovery), the cost
      threshold, and the pass-specific bounds (IoU above 0.4 for the low-score pass, at
      least 12 frames lost for recovery). */
  lemma MatchGuarantees(preds: seq<Box>, lastDets: seq<Box>, losts: seq<nat>, dets: seq<Detection>,
                        f: Frame, thresh: real, solve: Solver, i: nat)
    requires |lastDets| == |preds| && |losts| == |preds| && i < |preds|
    requires FrameOk(f) && IsAssignmentSolver(solve)
    ensures var t := Associate(preds, lastDets, losts, dets, f, thresh, solve);
      var r := MatchOf(t, |preds|, |dets|, i);
      (r.ByScore? ==>
         (r.det < |dets| && dets[r.det].score >= thresh &&
          !Gated(preds[i], dets[r.det].box, f) &&
          PairCost(HighScore, preds[i], dets[r.det].box, 0, f) < MatchThreshold)) &&
      (r.ByOverlap? ==>
         (r.det < |dets| && dets[r.det].score < thresh &&
          !Gated(preds[i], dets[r.det].box, f) &&
          PairCost(LowScore, preds[i], dets[r.det].box, 0, f) < MatchThreshold &&
          ComputeIou(preds[i], dets[r.det].box) > 0.4)) &&
      (r.Recovered? ==>
         (r.det < |dets| &&
          !Gated(lastDets[i], dets[r.det].box, f) &&
          PairCost(Recovery, lastDets[i], dets[r.det].box, losts[i], f) < MatchThreshold &&
          losts[i] >= 12))
  {
    var r := MatchOf(Associate(preds, lastDets, losts, dets, f, thresh, solve), |preds|, |dets|, i);
    if r.ByScore? {
      HighMatchGuarantee(preds, lastDets, losts, dets, f, thresh, solve, i);
    } else if r.ByOverlap? {
      LowMatchGuarantee(preds, lastDets, losts, dets, f, thresh, solve, i);
    } else if r.Recovered? {
      RecoveryMatchGuarantee(preds, lastDets, losts, dets, f, thresh, solve, i);
    }
  }

  lemma HighMatchGuarantee(preds: seq<Box>, lastDets: seq<Box>, losts: seq<nat>, dets: seq<Detection>,
                           f: Frame, thresh: real, solve: Solver, i: nat)
    requires |lastDets| == |preds| && |losts| == |preds| && i < |preds|
    requires FrameOk(f) && IsAssignmentSolver(solve)
    requires MatchOf(Associate(preds, lastDets, losts, dets, f, thresh, solve), |preds|, |dets|, i).ByScore?
    ensures var r := MatchOf(Associate(preds, lastDets, losts, dets, f, thresh, solve), |preds|, |dets|, i);
      r.det < |dets| && dets[r.det].score >= thresh &&
      !Gated(preds[i], dets[r.det].box, f) &&
      PairCost(HighScore, preds[i], dets[r.det].box, 0, f) < MatchThreshold
  {
    var t := Associate(preds, lastDets, losts, dets, f, thresh, solve);
    var n, m := |preds|, |dets|;
    var boxes := Boxes(dets);
    var r := MatchOf(t, n, m, i);
    RowsColsBelow(t.high, n, |t.highIdx|);
    MatchSource(t, dets, thresh, n, i);
    var k :| 0 <= k < |t.high| && t.high[k].0 == i && r.det == Pick(t.highIdx, Cols(t.high))[k];
    var hdets := Pick(boxes, t.highIdx);
    PassResultSound(HighScore, preds, Zeros(n), hdets, f, solve);
    assert t.high[k] in t.high;
    var c := t.high[k].1;
    assert r.det == t.highIdx[c] && hdets[c] == dets[r.det].box;
    assert t.highIdx[c] in t.highIdx;
  }

  lemma LowMatchGuarantee(preds: seq<Box>, lastDets: seq<Box>, losts: seq<nat>, dets: seq<Detection>,
                          f: Frame, thresh: real, solve: Solver, i: nat)
    requires |lastDets| == |preds| && |losts| == |preds| && i < |preds|
    requires FrameOk(f) && IsAssignmentSolver(solve)
    requires MatchOf(Associate(preds, lastDets, losts, dets, f, thresh, solve), |preds|, |dets|, i).ByOverlap?
    ensures var r := MatchOf(Associate(preds, lastDets, losts, dets, f, thresh, solve), |preds|, |dets|, i);
      r.det < |dets| && dets[r.det].score < thresh &&
      !Gated(preds[i], dets[r.det].box, f) &&
      PairCost(LowScore, preds[i], dets[r.det].box, 0, f) < MatchThreshold &&
      ComputeIou(preds[i], dets[r.det].box) > 0.4
  {
    var t := Associate(preds, lastDets, losts, dets, f, thresh, solve);
    var n, m := |preds|, |dets|;
    var boxes := Boxes(dets);
    var r := MatchOf(t, n, m, i);
    RowsColsBelow(t.low, |t.unmatchedTrackers|, |t.lowIdx|);
    MatchSource(t, dets, thresh, n, i);
    var k :| 0 <= k < |t.low| && t.lowTracked[k] == i && r.det == Pick(t.lowIdx, Cols(t.low))[k];
    var refs := Pick(preds, t.unmatchedTrackers);
    var ldets := Pick(boxes, t.lowIdx);
    PassResultSound(LowScore, refs, Zeros(|t.unmatchedTrackers|), ldets, f, solve);
    LowScoreNeedsOverlap(refs, Zeros(|t.unmatchedTrackers|), ldets, f, solve);
    assert t.low[k] in t.low;
    var (row, c) := t.low[k];
    assert refs[row] == preds[i];
    assert r.det == t.lowIdx[c] && ldets[c] == dets[r.det].box;
    assert t.lowIdx[c] in t.lowIdx;
  }

  lemma RecoveryMatchGuarantee(preds: seq<Box>, lastDets: seq<Box>, losts: seq<nat>, dets: seq<Detection>,
                               f: Frame, thresh: real, solve: Solver, i: nat)
    requires |lastDets| == |preds| && |losts| == |preds| && i < |preds|
    requires FrameOk(f) && IsAssignmentSolver(solve)
    requires MatchOf(Associate(preds, lastDets, losts, dets, f, thresh, solve), |preds|, |dets|, i).Recovered?
    ensures var r := MatchOf(Associate(preds, lastDets, losts, dets, f, thresh, solve), |preds|, |dets|, i);
      r.det < |dets| &&
      !Gated(lastDets[i], dets[r.det].box, f) &&
      PairCost(Recovery, lastDets[i], dets[r.det].box, losts[i], f) < MatchThreshold &&
      losts[i] >= 12
  {
    var t := Associate(preds, lastDets, losts, dets, f, thresh, solve);
    var n, m := |preds|, |dets|;
    var boxes := Boxes(dets);
    var r := MatchOf(t, n, m, i);
    RowsColsBelow(t.recovery, |t.unmatchedTracks|, |t.unmatchedDets|);
    MatchSource(t, dets, thresh, n, i);
    var k :| 0 <= k < |t.recovery| && RecoveredTracks(t)[k] == i && r.det == RecoveredDets(t)[k];
    var refs := Pick(lastDets, t.unmatchedTracks);
    var ls := Pick(losts, t.unmatchedTracks);
    var rdets := Pick(boxes, t.unmatchedDets);
    assert t.recovery == PassResult(Recovery, refs, ls, rdets, f, solve);
    PassResultSound(Recovery, refs, ls, rdets, f, solve);
    RecoveryNeedsLongAbsence(refs, ls, rdets, f, solve);
    assert t.recovery[k] in t.recovery;
    var (row, c) := t.recovery[k];
    assert refs[row] == lastDets[i] && ls[row] == losts[i];
    assert r.det == t.unmatchedDets[c] && rdets[c] == dets[r.det].box;
  }
}
