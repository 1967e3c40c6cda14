/** The multi-object tracker: owns the live tracks and the identity counter, and runs the
    per-frame pipeline predict -> high-score pass -> low-score pass -> occlusion recovery
    -> update / miss / spawn -> prune. */
module ObjectTracking {
  import opened Geometry
  import opened Optional
  import opened Matching
  import opened KalmanTracking
  import opened Association

  /** One entry of the tracker's output: id, reported box and trajectory. */
  datatype TrackResult = TrackResult(id: int, bbox: Box, trace: seq<Point>)

  /** The frame size used for gating: frame_shape is (height, width, ...); without a
      shape the tracker assumes 640 x 480. */
  function FrameOf(shape: Option<(int, int)>): (f: Frame)
    ensures shape.None? ==> FrameOk(f)
    ensures shape.Some? ==> f.height == shape.value.0 && f.width == shape.value.1
    ensures shape.Some? ==> (FrameOk(f) <==> shape.value != (0, 0))
  {
    match shape
    case None => Frame(640, 480)
    case Some((h, w)) => Frame(w, h)
  }

  // ---------------------------------------------------------------------------
  // The track set as values

  predicate IdsIncreasing(vs: seq<TrackView>) {
    forall i, j :: 0 <= i < j < |vs| ==> vs[i].id < vs[j].id
  }

  /** The invariant of the track set: ids strictly increasing in list order (hence
      unique), all issued (between 1 and nextId - 1), and every history non-empty and
      within the default capacity. */
  predicate TracksValid(vs: seq<TrackView>, nextId: int) {
    1 <= nextId && IdsIncreasing(vs) &&
    (forall i :: 0 <= i < |vs| ==> 1 <= vs[i].id < nextId) &&
    (forall i :: 0 <= i < |vs| ==> ViewValid(vs[i]) && vs[i].maxHistory == DefaultMaxHistory)
  }

  function PredictAllViews(vs: seq<TrackView>, filter: Filter): (r: seq<TrackView>)
    ensures |r| == |vs|
  {
    seq(|vs|, i requires 0 <= i < |vs| => PredictedView(vs[i], filter))
  }

  /** The empty-detection frame: every track predicts and counts a miss. */
  function MissAllViews(vs: seq<TrackView>, filter: Filter): (r: seq<TrackView>)
    ensures |r| == |vs|
  {
    seq(|vs|, i requires 0 <= i < |vs| => MissedView(PredictedView(vs[i], filter)))
  }

  function PredBoxes(vs: seq<TrackView>): (r: seq<Box>)
    ensures |r| == |vs|
  {
    seq(|vs|, i requires 0 <= i < |vs| => PredictedBox(vs[i]))
  }

  function LastDets(vs: seq<TrackView>): (r: seq<Box>)
    ensures |r| == |vs|
  {
    seq(|vs|, i requires 0 <= i < |vs| => vs[i].lastDetection)
  }

  function Losts(vs: seq<TrackView>): (r: seq<nat>)
    ensures |r| == |vs|
  {
    seq(|vs|, i requires 0 <= i < |vs| => vs[i].lost)
  }

  predicate MatchesIn(ms: seq<Match>, m: nat) {
    forall i :: 0 <= i < |ms| && !ms[i].Missed? ==> ms[i].det < m
  }

  /** The closing loop: a matched track is corrected with its detection, any other track
      counts a miss. */
  function Closeout(vs: seq<TrackView>, ms: seq<Match>, dets: seq<Detection>, filter: Filter): (r: seq<TrackView>)
    requires |ms| == |vs| && MatchesIn(ms, |dets|)
    requires forall i :: 0 <= i < |vs| ==> ViewValid(vs[i])
    ensures |r| == |vs|
  {
    seq(|vs|, i requires 0 <= i < |vs| =>
      if ms[i].Missed? then MissedView(vs[i]) else CorrectedView(vs[i], dets[ms[i].det].box, filter))
  }

  /** The tracks spawned for the unassigned detections, numbered from firstId in
      detection order. */
  function Spawned(dets: seq<Detection>, unassigned: seq<nat>, firstId: int): (r: seq<TrackView>)
    requires Below(unassigned, |dets|)
    ensures |r| == |unassigned|
  {
    seq(|unassigned|, k requires 0 <= k < |unassigned| =>
      NewTrackView(dets[unassigned[k]].box, firstId + k, DefaultMaxHistory))
  }

  /** The tracks kept by pruning, in order. */
  function Survivors(vs: seq<TrackView>, maxLost: int): (r: seq<TrackView>)
  {
    if vs == [] then []
    else (if vs[0].lost < maxLost then [vs[0]] else []) + Survivors(vs[1..], maxLost)
  }

  function ResultOf(v: TrackView): TrackResult {
    TrackResult(v.id, StateBox(v), v.history)
  }

  /** The tracker's output for a track list, in track order. */
  function Results(vs: seq<TrackView>): (r: seq<TrackResult>)
    ensures |r| == |vs|
  {
    seq(|vs|, i requires 0 <= i < |vs| => ResultOf(vs[i]))
  }

  predicate AllViewValid(vs: seq<TrackView>) {
    forall i :: 0 <= i < |vs| ==> ViewValid(vs[i])
  }

  /** The assignment table of a frame, built from the predicted tracks: their predicted
      boxes for the first two passes, their last matched boxes and miss counters for
      recovery. */
  function FrameTable(preds: seq<TrackView>, dets: seq<Detection>, f: Frame, thresh: real, solve: Solver): (t: Table)
    requires FrameOk(f) && IsAssignmentSolver(solve)
    ensures WellFormed(t, |preds|, |dets|) && Consistent(t, dets, thresh, |preds|)
  {
    Associate(PredBoxes(preds), LastDets(preds), Losts(preds), dets, f, thresh, solve)
  }

  /** The existing tracks at the end of a frame, before pruning: each one corrected with
      the detection the table gives it, or missed. */
  function Outcome(preds: seq<TrackView>, t: Table, dets: seq<Detection>, thresh: real, filter: Filter): (r: seq<TrackView>)
    requires WellFormed(t, |preds|, |dets|) && Consistent(t, dets, thresh, |preds|)
    requires AllViewValid(preds)
    ensures |r| == |preds|
  {
    MatchesOneToOne(t, dets, thresh, |preds|);
    Closeout(preds, Matches(t, |preds|, |dets|), dets, filter)
  }

  /** The state a call to update leaves behind. */
  datatype Step = Step(tracks: seq<TrackView>, nextId: int)

  /** The non-empty frame, once the table is known: matched tracks are corrected and the
      others count a miss, every detection nobody consumed spawns a track numbered from
      nextId, and the tracks lost for maxLost frames or more are dropped. */
  function Settle(preds: seq<TrackView>, nextId: int, dets: seq<Detection>, t: Table,
                  maxLost: int, thresh: real, filter: Filter): (s: Step)
    requires WellFormed(t, |preds|, |dets|) && Consistent(t, dets, thresh, |preds|)
    requires AllViewValid(preds)
  {
    var u := Unassigned(t, |dets|);
    Step(Survivors(Outcome(preds, t, dets, thresh, filter) + Spawned(dets, u, nextId), maxLost), nextId + |u|)
  }

  /** One call to update, on values. Without detections every track predicts and counts a
      miss, and nothing is pruned. Otherwise the tracks predict, the table assigns
      detections and the frame settles. */
  function TrackerStep(vs: seq<TrackView>, nextId: int, dets: seq<Detection>, shape: Option<(int, int)>,
                       maxLost: int, thresh: real, filter: Filter, solve: Solver): (s: Step)
    requires AllViewValid(vs) && IsAssignmentSolver(solve)
    requires dets != [] ==> FrameOk(FrameOf(shape))
    ensures nextId <= s.nextId
    ensures dets == [] ==> s.nextId == nextId && |s.tracks| == |vs|
  {
    if dets == [] then Step(MissAllViews(vs, filter), nextId)
    else
      var preds := PredictAllViews(vs, filter);
      Settle(preds, nextId, dets, FrameTable(preds, dets, FrameOf(shape), thresh, solve), maxLost, thresh, filter)
  }

  // ---------------------------------------------------------------------------
  // Properties of a frame

  /** Pruning keeps exactly the tracks whose miss counter is below maxLost. */
  lemma {:induction false} SurvivorsExact(vs: seq<TrackView>, maxLost: int)
    ensures forall v :: v in Survivors(vs, maxLost) <==> v in vs && v.lost < maxLost
  {
    if vs != [] {
      SurvivorsExact(vs[1..], maxLost);
      assert forall v :: v in vs <==> v == vs[0] || v in vs[1..];
    }
  }

  /** Pruning keeps the track-set invariant. */
  lemma {:induction false} SurvivorsKeepTracksValid(vs: seq<TrackView>, maxLost: int, nextId: int)
    requires TracksValid(vs, nextId)
    ensures TracksValid(Survivors(vs, maxLost), nextId)
  {
    if vs != [] {
      TailKeepsTracksValid(vs, nextId);
      SurvivorsKeepTracksValid(vs[1..], maxLost, nextId);
      if vs[0].lost < maxLost {
        SurvivorsAbove(vs[1..], maxLost, vs[0].id);
        ConsKeepsTracksValid(vs[0], Survivors(vs[1..], maxLost), nextId);
        assert Survivors(vs, maxLost) == [vs[0]] + Survivors(vs[1..], maxLost);
      } else {
        assert Survivors(vs, maxLost) == Survivors(vs[1..], maxLost);
      }
    }
  }

  lemma TailKeepsTracksValid(vs: seq<TrackView>, nextId: int)
    requires TracksValid(vs, nextId) && vs != []
    ensures TracksValid(vs[1..], nextId)
    ensures forall k :: 0 <= k < |vs[1..]| ==> vs[0].id < vs[1..][k].id
  {
    forall k | 0 <= k < |vs[1..]| ensures vs[0].id < vs[1..][k].id {
      assert vs[1..][k] == vs[k + 1];
    }
  }

  /** Pruning keeps only tracks of the list, so a lower bound on its ids still holds. */
  lemma SurvivorsAbove(ws: seq<TrackView>, maxLost: int, bound: int)
    requires forall k :: 0 <= k < |ws| ==> bound < ws[k].id
    ensures forall j :: 0 <= j < |Survivors(ws, maxLost)| ==> bound < Survivors(ws, maxLost)[j].id
  {
    SurvivorsExact(ws, maxLost);
    forall j | 0 <= j < |Survivors(ws, maxLost)| ensures bound < Survivors(ws, maxLost)[j].id {
      assert Survivors(ws, maxLost)[j] in ws;
    }
  }

  /** A valid track with an issued id below every id of a valid track list can lead it. */
  lemma ConsKeepsTracksValid(v: TrackView, rest: seq<TrackView>, nextId: int)
    requires TracksValid(rest, nextId) && 1 <= v.id < nextId
    requires ViewValid(v) && v.maxHistory == DefaultMaxHistory
    requires forall j :: 0 <= j < |rest| ==> v.id < rest[j].id
    ensures TracksValid([v] + rest, nextId)
  {
    var all := [v] + rest;
    forall i, j | 0 <= i < j < |all| ensures all[i].id < all[j].id {
      if i > 0 { assert all[i] == rest[i - 1]; }
    }
  }

  /** update keeps the track-set invariant: ids stay unique, increasing in list order and
      below the counter, which never goes down; histories stay within their bound. */
  lemma StepKeepsTracksValid(vs: seq<TrackView>, nextId: int, dets: seq<Detection>, shape: Option<(int, int)>,
                             maxLost: int, thresh: real, filter: Filter, solve: Solver)
    requires TracksValid(vs, nextId) && IsAssignmentSolver(solve)
    requires dets != [] ==> FrameOk(FrameOf(shape))
    ensures var s := TrackerStep(vs, nextId, dets, shape, maxLost, thresh, filter, solve);
      TracksValid(s.tracks, s.nextId) && nextId <= s.nextId
  {
    if dets != [] {
      var preds := PredictAllViews(vs, filter);
      PredictKeepsTracksValid(vs, nextId, filter);
      var t := FrameTable(preds, dets, FrameOf(shape), thresh, solve);
      SettleKeepsTracksValid(preds, nextId, dets, t, maxLost, thresh, filter);
      assert TrackerStep(vs, nextId, dets, shape, maxLost, thresh, filter, solve)
          == Settle(preds, nextId, dets, t, maxLost, thresh, filter);
    }
  }

  /** Prediction changes no id and no history. */
  lemma PredictKeepsTracksValid(vs: seq<TrackView>, nextId: int, filter: Filter)
    requires TracksValid(vs, nextId)
    ensures TracksValid(PredictAllViews(vs, filter), nextId)
    ensures TracksValid(MissAllViews(vs, filter), nextId)
  {
    var preds := PredictAllViews(vs, filter);
    assert forall i :: 0 <= i < |preds| ==> preds[i].id == vs[i].id && preds[i].history == vs[i].history;
    var missed := MissAllViews(vs, filter);
    assert forall i :: 0 <= i < |missed| ==> missed[i].id == vs[i].id && missed[i].history == vs[i].history;
  }

  lemma SettleKeepsTracksValid(preds: seq<TrackView>, nextId: int, dets: seq<Detection>, t: Table,
                               maxLost: int, thresh: real, filter: Filter)
    requires WellFormed(t, |preds|, |dets|) && Consistent(t, dets, thresh, |preds|)
    requires TracksValid(preds, nextId)
    ensures var s := Settle(preds, nextId, dets, t, maxLost, thresh, filter);
      TracksValid(s.tracks, s.nextId) && nextId <= s.nextId
  {
    var u := Unassigned(t, |dets|);
    var out := Outcome(preds, t, dets, thresh, filter);
    var spawned := Spawned(dets, u, nextId);
    forall i | 0 <= i < |out| {
      OutcomeFacts(preds, t, dets, thresh, filter, i);
    }
    AppendKeepsTracksValid(preds, out, spawned, nextId);
    SurvivorsKeepTracksValid(out + spawned, maxLost, nextId + |u|);
  }

  /** How one existing track ends the frame, read off the table. */
  lemma OutcomeFacts(preds: seq<TrackView>, t: Table, dets: seq<Detection>, thresh: real, filter: Filter, i: nat)
    requires WellFormed(t, |preds|, |dets|) && Consistent(t, dets, thresh, |preds|)
    requires AllViewValid(preds) && i < |preds|
    ensures var out := Outcome(preds, t, dets, thresh, filter);
      var r := MatchOf(t, |preds|, |dets|, i);
      out[i].id == preds[i].id && out[i].maxHistory == preds[i].maxHistory && ViewValid(out[i]) &&
      (r.Missed? ==> out[i] == MissedView(preds[i]) && out[i].lost == preds[i].lost + 1) &&
      (!r.Missed? ==> r.det < |dets| && out[i] == CorrectedView(preds[i], dets[r.det].box, filter) &&
                      out[i].lost == 0 && out[i].lastDetection == dets[r.det].box)
  {
    MatchesOneToOne(t, dets, thresh, |preds|);
    assert Matches(t, |preds|, |dets|)[i] == MatchOf(t, |preds|, |dets|, i);
  }

  /** Appending tracks numbered from nextId to a valid track set gives a valid track set. */
  lemma AppendKeepsTracksValid(vs: seq<TrackView>, out: seq<TrackView>, spawned: seq<TrackView>, nextId: int)
    requires TracksValid(vs, nextId) && |out| == |vs|
    requires forall i :: 0 <= i < |out| ==>
      out[i].id == vs[i].id && ViewValid(out[i]) && out[i].maxHistory == DefaultMaxHistory
    requires forall k :: 0 <= k < |spawned| ==>
      spawned[k].id == nextId + k && ViewValid(spawned[k]) && spawned[k].maxHistory == DefaultMaxHistory
    ensures TracksValid(out + spawned, nextId + |spawned|)
  {
    var all := out + spawned;
    forall i, j | 0 <= i < j < |all| ensures all[i].id < all[j].id {
      if j < |out| {
      } else if i < |out| {
        assert all[i].id < nextId;
      }
    }
  }

  /** Without detections nothing is pruned: every track survives one frame older and with
      one more miss, even past maxLost, its history and last detection untouched, and no
      identity is spent. */
  lemma EmptyFrameKeepsEveryTrack(vs: seq<TrackView>, nextId: int, shape: Option<(int, int)>,
                                  maxLost: int, thresh: real, filter: Filter, solve: Solver)
    requires AllViewValid(vs) && IsAssignmentSolver(solve)
    ensures var s := TrackerStep(vs, nextId, [], shape, maxLost, thresh, filter, solve);
      s.nextId == nextId && |s.tracks| == |vs| &&
      forall i :: 0 <= i < |vs| ==>
        s.tracks[i].id == vs[i].id && s.tracks[i].lost == vs[i].lost + 1 && s.tracks[i].age == vs[i].age + 1 &&
        s.tracks[i].history == vs[i].history && s.tracks[i].lastDetection == vs[i].lastDetection
  {
  }

  /** With detections, every surviving track is under the miss limit; a surviving track
      that existed before was corrected with the detection the table gave it (miss counter
      back to 0) or counted a miss; every other surviving track is new, seeded from a
      detection that no existing track consumed, and reports that detection's box. */
  lemma StepOutcome(vs: seq<TrackView>, nextId: int, dets: seq<Detection>, shape: Option<(int, int)>,
                    maxLost: int, thresh: real, filter: Filter, solve: Solver)
    requires AllViewValid(vs) && IsAssignmentSolver(solve)
    requires dets != [] && FrameOk(FrameOf(shape))
    ensures var s := TrackerStep(vs, nextId, dets, shape, maxLost, thresh, filter, solve);
      var t := FrameTable(PredictAllViews(vs, filter), dets, FrameOf(shape), thresh, solve);
      forall v :: v in s.tracks ==> v.lost < maxLost && TrackFate(v, vs, nextId, s.nextId, dets, t)
  {
    var preds := PredictAllViews(vs, filter);
    var t := FrameTable(preds, dets, FrameOf(shape), thresh, solve);
    var s := Settle(preds, nextId, dets, t, maxLost, thresh, filter);
    assert TrackerStep(vs, nextId, dets, shape, maxLost, thresh, filter, solve) == s;
    SettleOutcome(preds, nextId, dets, t, maxLost, thresh, filter);
    forall v | v in s.tracks ensures TrackFate(v, vs, nextId, s.nextId, dets, t) {
      FateOfPredicted(v, vs, preds, nextId, s.nextId, dets, t);
    }
  }

  /** Prediction keeps ids and miss counters, so a fate relative to the predicted tracks is
      one relative to the tracks before prediction. */
  lemma FateOfPredicted(v: TrackView, vs: seq<TrackView>, preds: seq<TrackView>, nextId: int, next: int,
                        dets: seq<Detection>, t: Table)
    requires |preds| == |vs| && WellFormed(t, |vs|, |dets|)
    requires forall i :: 0 <= i < |vs| ==> preds[i].id == vs[i].id && preds[i].lost == vs[i].lost
    requires TrackFate(v, preds, nextId, next, dets, t)
    ensures TrackFate(v, vs, nextId, next, dets, t)
  {
    if exists i :: 0 <= i < |preds| && v.id == preds[i].id &&
         (if MatchOf(t, |preds|, |dets|, i).Missed? then v.lost == preds[i].lost + 1
          else v.lost == 0 && MatchOf(t, |preds|, |dets|, i).det < |dets| &&
               v.lastDetection == dets[MatchOf(t, |preds|, |dets|, i).det].box) {
      var i :| 0 <= i < |preds| && v.id == preds[i].id &&
         (if MatchOf(t, |preds|, |dets|, i).Missed? then v.lost == preds[i].lost + 1
          else v.lost == 0 && MatchOf(t, |preds|, |dets|, i).det < |dets| &&
               v.lastDetection == dets[MatchOf(t, |preds|, |dets|, i).det].box);
      assert v.id == vs[i].id;
    }
  }

  /** Where a track alive after a frame comes from: an existing track (same id) that was
      either corrected with its table detection or missed, or a new track numbered in
      [nextId, next) seeded from an unconsumed detection and reporting its box. */
  ghost predicate TrackFate(v: TrackView, vs: seq<TrackView>, nextId: int, next: int,
                            dets: seq<Detection>, t: Table)
    requires WellFormed(t, |vs|, |dets|)
  {
    (exists i :: 0 <= i < |vs| && v.id == vs[i].id &&
       (if MatchOf(t, |vs|, |dets|, i).Missed? then v.lost == vs[i].lost + 1
        else v.lost == 0 && MatchOf(t, |vs|, |dets|, i).det < |dets| &&
             v.lastDetection == dets[MatchOf(t, |vs|, |dets|, i).det].box)) ||
    (nextId <= v.id < next &&
     exists d :: d in Unassigned(t, |dets|) && StateBox(v) == dets[d].box && v.lost == 0)
  }

  lemma SettleOutcome(preds: seq<TrackView>, nextId: int, dets: seq<Detection>, t: Table,
                      maxLost: int, thresh: real, filter: Filter)
    requires WellFormed(t, |preds|, |dets|) && Consistent(t, dets, thresh, |preds|)
    requires AllViewValid(preds)
    ensures var s := Settle(preds, nextId, dets, t, maxLost, thresh, filter);
      forall v :: v in s.tracks ==> v.lost < maxLost && TrackFate(v, preds, nextId, s.nextId, dets, t)
  {
    var u := Unassigned(t, |dets|);
    var all := Outcome(preds, t, dets, thresh, filter) + Spawned(dets, u, nextId);
    SurvivorsExact(all, maxLost);
    forall v | v in all ensures TrackFate(v, preds, nextId, nextId + |u|, dets, t) {
      var j :| 0 <= j < |all| && all[j] == v;
      SettledFate(preds, nextId, dets, t, thresh, filter, j);
    }
  }

  lemma SettledFate(preds: seq<TrackView>, nextId: int, dets: seq<Detection>, t: Table,
                    thresh: real, filter: Filter, j: nat)
    requires WellFormed(t, |preds|, |dets|) && Consistent(t, dets, thresh, |preds|)
    requires AllViewValid(preds)
    requires j < |preds| + |Unassigned(t, |dets|)|
    ensures var u := Unassigned(t, |dets|);
      var all := Outcome(preds, t, dets, thresh, filter) + Spawned(dets, u, nextId);
      TrackFate(all[j], preds, nextId, nextId + |u|, dets, t)
  {
    var u := Unassigned(t, |dets|);
    var out := Outcome(preds, t, dets, thresh, filter);
    var spawned := Spawned(dets, u, nextId);
    var v := (out + spawned)[j];
    if j < |out| {
      assert v == out[j];
      OutcomeFacts(preds, t, dets, thresh, filter, j);
      assert v.id == preds[j].id;
    } else {
      var k := j - |out|;
      assert v == spawned[k];
      NewTrackReportsItsBox(dets[u[k]].box, nextId + k, DefaultMaxHistory);
      assert u[k] in u && StateBox(v) == dets[u[k]].box;
    }
  }

  /** With a miss limit of at most 12, recovery never fires on tracks that went through a
      pruning frame: a recovered track has been lost for at least 12 frames, so only a run of
      detection-free frames (which skip pruning) can bring one back. */
  lemma RecoveryNeedsUnprunedTracks(vs: seq<TrackView>, dets: seq<Detection>, f: Frame,
                                    maxLost: int, thresh: real, filter: Filter, solve: Solver)
    requires FrameOk(f) && IsAssignmentSolver(solve) && maxLost <= 12
    requires forall i :: 0 <= i < |vs| ==> vs[i].lost < maxLost
    ensures var t := FrameTable(PredictAllViews(vs, filter), dets, f, thresh, solve);
      forall i :: 0 <= i < |vs| ==> !MatchOf(t, |vs|, |dets|, i).Recovered?
  {
    var preds := PredictAllViews(vs, filter);
    forall i | 0 <= i < |vs|
      ensures !MatchOf(FrameTable(preds, dets, f, thresh, solve), |vs|, |dets|, i).Recovered?
    {
      MatchGuarantees(PredBoxes(preds), LastDets(preds), Losts(preds), dets, f, thresh, solve, i);
      assert Losts(preds)[i] == vs[i].lost;
    }
  }

  // ---------------------------------------------------------------------------
  // The track set as objects

  function ViewsOf(ts: seq<KalmanTracker>): (vs: seq<TrackView>)
    reads ts
    ensures |vs| == |ts|
    ensures forall i :: 0 <= i < |ts| ==> vs[i] == ts[i].View()
  {
    seq(|ts|, i requires 0 <= i < |ts| reads ts => ts[i].View())
  }

  /** The trackers whose miss counter is below maxLost, in order. */
  function Alive(ts: seq<KalmanTracker>, maxLost: int): (r: seq<KalmanTracker>)
    reads ts
    ensures ViewsOf(r) == Survivors(ViewsOf(ts), maxLost)
    ensures forall t :: t in r ==> t in ts
  {
    if ts == [] then []
    else
      var head := if ts[0].lost < maxLost then [ts[0]] else [];
      var rest := Alive(ts[1..], maxLost);
      ViewsOfSplit(ts, head, rest);
      head + rest
  }

  lemma ViewsOfSplit(ts: seq<KalmanTracker>, head: seq<KalmanTracker>, rest: seq<KalmanTracker>)
    requires ts != []
    ensures ViewsOf(ts[1..]) == ViewsOf(ts)[1..]
    ensures ViewsOf(head + rest) == ViewsOf(head) + ViewsOf(rest)
  {
    assert ViewsOf(ts[1..]) == ViewsOf(ts)[1..];
    assert ViewsOf(head + rest) == ViewsOf(head) + ViewsOf(rest);
  }

  /** The working condition of the trackers during a frame: distinct objects sharing the
      tracker's estimator and the default history bound. */
  ghost predicate Ready(ts: seq<KalmanTracker>, filter: Filter) {
    (forall i, j :: 0 <= i < j < |ts| ==> ts[i] != ts[j]) &&
    (forall i :: 0 <= i < |ts| ==> ts[i].filter == filter && ts[i].maxHistory == DefaultMaxHistory)
  }

  /** The k-th recovery pair, in track and detection indices: a track no earlier pair
      named, matched to a detection that neither the first two passes nor an earlier pair
      consumed, so the assigned_det guard lets every pair through. */
  lemma RecoveredPair(t: Table, dets: seq<Detection>, thresh: real, n: nat, k: nat)
    requires WellFormed(t, n, |dets|) && Consistent(t, dets, thresh, n) && k < |t.recovery|
    ensures t.recovery[k].0 < |t.unmatchedTracks| && t.recovery[k].1 < |t.unmatchedDets|
    ensures RecoveredTracks(t)[k] == t.unmatchedTracks[t.recovery[k].0] < n
    ensures RecoveredDets(t)[k] == t.unmatchedDets[t.recovery[k].1] < |dets|
    ensures RecoveredDets(t)[k] !in t.matchedDetIdx && RecoveredDets(t)[k] !in RecoveredDets(t)[..k]
    ensures RecoveredTracks(t)[k] !in RecoveredTracks(t)[..k]
    ensures MatchOf(t, n, |dets|, RecoveredTracks(t)[k]) == Recovered(RecoveredDets(t)[k])
  {
    RowsColsBelow(t.recovery, |t.unmatchedTracks|, |t.unmatchedDets|);
    TrackSetsDisjoint(t, dets, thresh, n);
    DetectionSetsDisjoint(t, dets, thresh, n);
    assert t.recovery[k] in t.recovery;
    assert Rows(t.recovery)[k] == t.recovery[k].0 && Cols(t.recovery)[k] == t.recovery[k].1;
    var i := RecoveredTracks(t)[k];
    assert IndexOf(RecoveredTracks(t), i) == k;
  }

  lemma PredictedViews(ts: seq<KalmanTracker>, before: seq<TrackView>, preds: seq<Box>, filter: Filter)
    requires |ts| == |before| == |preds|
    requires forall k :: 0 <= k < |ts| ==> ts[k].View() == PredictedView(before[k], filter)
    requires forall k :: 0 <= k < |ts| ==> preds[k] == PredictedBox(ts[k].View())
    ensures ViewsOf(ts) == PredictAllViews(before, filter)
    ensures preds == PredBoxes(ViewsOf(ts))
  {
    assert ViewsOf(ts) == PredictAllViews(before, filter);
    assert preds == PredBoxes(ViewsOf(ts));
  }

  /** list.index on a list without repeats: the position of the element. */
  method PositionOf<T(==)>(s: seq<T>, x: T, ghost i: nat) returns (k: nat)
    requires forall k, l :: 0 <= k < l < |s| ==> s[k] != s[l]
    requires i < |s| && s[i] == x
    ensures k == i
  {
    k := IndexOf(s, x);
    IndexOfDistinct(s, i);
  }

  /** What the recovery loop needs to know about the recovery pairs: the track and the
      detection index each pair names, that no track and no detection is named twice, and
      that no named detection was consumed by the first two passes (`taken`). */
  datatype RecoveryPlan = RecoveryPlan(tracks: seq<nat>, dets: seq<nat>, taken: seq<nat>)

  predicate RecoveryPlanOk(plan: RecoveryPlan, recovery: seq<(nat, nat)>, unmatchedTracks: seq<nat>,
                           unmatchedDets: seq<nat>, n: nat, m: nat)
  {
    |plan.tracks| == |recovery| && |plan.dets| == |recovery| &&
    (forall k :: 0 <= k < |recovery| ==>
       recovery[k].0 < |unmatchedTracks| && recovery[k].1 < |unmatchedDets| &&
       unmatchedTracks[recovery[k].0] == plan.tracks[k] && plan.tracks[k] < n &&
       unmatchedDets[recovery[k].1] == plan.dets[k] && plan.dets[k] < m) &&
    Distinct(plan.tracks) && Distinct(plan.dets) &&
    (forall k :: 0 <= k < |plan.dets| ==> plan.dets[k] !in plan.taken)
  }

  /** What the closing loop needs to know about each track i: where its detection is when
      it was matched in the first two passes, and the view it must end with in each of the
      four cases. */
  predicate CloseoutPlanOk(highTracked: seq<nat>, highCols: seq<nat>, highIdx: seq<nat>,
                           lowTracked: seq<nat>, lowCols: seq<nat>, lowIdx: seq<nat>,
                           recovered: seq<nat>, boxes: seq<Box>,
                           predicted: seq<TrackView>, goal: seq<TrackView>, filter: Filter)
  {
    |goal| == |predicted| && |highCols| == |highTracked| && |lowCols| == |lowTracked| &&
    Below(highCols, |highIdx|) && Below(highIdx, |boxes|) &&
    Below(lowCols, |lowIdx|) && Below(lowIdx, |boxes|) &&
    AllViewValid(predicted) &&
    (forall i :: 0 <= i < |goal| && i in highTracked ==>
       i !in recovered &&
       goal[i] == CorrectedView(predicted[i], boxes[highIdx[highCols[IndexOf(highTracked, i)]]], filter)) &&
    (forall i :: 0 <= i < |goal| && i !in highTracked && i in lowTracked ==>
       i !in recovered &&
       goal[i] == CorrectedView(predicted[i], boxes[lowIdx[lowCols[IndexOf(lowTracked, i)]]], filter)) &&
    (forall i :: 0 <= i < |goal| && i !in highTracked && i !in lowTracked && i !in recovered ==>
       goal[i] == MissedView(predicted[i]))
  }

  /** The recovery pairs of a table satisfy what the recovery loop needs. */
  lemma RecoveryPlanFor(t: Table, dets: seq<Detection>, thresh: real, n: nat)
    requires WellFormed(t, n, |dets|) && Consistent(t, dets, thresh, n)
    ensures RecoveryPlanOk(RecoveryPlan(RecoveredTracks(t), RecoveredDets(t), t.matchedDetIdx),
                           t.recovery, t.unmatchedTracks, t.unmatchedDets, n, |dets|)
  {
    TrackSetsDisjoint(t, dets, thresh, n);
    DetectionSetsDisjoint(t, dets, thresh, n);
    forall k | 0 <= k < |t.recovery|
      ensures t.recovery[k].0 < |t.unmatchedTracks| && t.recovery[k].1 < |t.unmatchedDets|
      ensures t.unmatchedTracks[t.recovery[k].0] == RecoveredTracks(t)[k] < n
      ensures t.unmatchedDets[t.recovery[k].1] == RecoveredDets(t)[k] < |dets|
    {
      RecoveredPair(t, dets, thresh, n, k);
    }
  }

  /** A recovered track ends the frame corrected with its recovery detection. */
  lemma RecoveryGoal(preds: seq<TrackView>, t: Table, dets: seq<Detection>, thresh: real, filter: Filter)
    requires WellFormed(t, |preds|, |dets|) && Consistent(t, dets, thresh, |preds|)
    requires AllViewValid(preds)
    ensures forall k :: 0 <= k < |t.recovery| ==>
      RecoveredTracks(t)[k] < |preds| && RecoveredDets(t)[k] < |dets| &&
      Outcome(preds, t, dets, thresh, filter)[RecoveredTracks(t)[k]] ==
        CorrectedView(preds[RecoveredTracks(t)[k]], Boxes(dets)[RecoveredDets(t)[k]], filter)
  {
    forall k | 0 <= k < |t.recovery|
      ensures RecoveredTracks(t)[k] < |preds| && RecoveredDets(t)[k] < |dets|
      ensures Outcome(preds, t, dets, thresh, filter)[RecoveredTracks(t)[k]] ==
        CorrectedView(preds[RecoveredTracks(t)[k]], Boxes(dets)[RecoveredDets(t)[k]], filter)
    {
      RecoveredPair(t, dets, thresh, |preds|, k);
      OutcomeFacts(preds, t, dets, thresh, filter, RecoveredTracks(t)[k]);
    }
  }

  /** The table's lists satisfy what the closing loop needs, with the frame's outcome as
      goal. */
  lemma CloseoutPlanFor(preds: seq<TrackView>, t: Table, dets: seq<Detection>, thresh: real, filter: Filter)
    requires WellFormed(t, |preds|, |dets|) && Consistent(t, dets, thresh, |preds|)
    requires AllViewValid(preds)
    ensures RowsColsBelowHold(t, |preds|)
    ensures CloseoutPlanOk(Rows(t.high), Cols(t.high), t.highIdx, t.lowTracked, Cols(t.low), t.lowIdx,
                           RecoveredTracks(t), Boxes(dets), preds, Outcome(preds, t, dets, thresh, filter), filter)
  {
    RowsColsFacts(t, |preds|, |dets|);
    CloseoutHigh(preds, t, dets, thresh, filter);
    CloseoutLow(preds, t, dets, thresh, filter);
    CloseoutMissed(preds, t, dets, thresh, filter);
  }

  predicate RowsColsBelowHold(t: Table, n: nat) {
    Below(Rows(t.high), n) && Below(Cols(t.high), |t.highIdx|) &&
    Below(Cols(t.low), |t.lowIdx|) && Below(Rows(t.recovery), |t.unmatchedTracks|) &&
    Below(Cols(t.recovery), |t.unmatchedDets|)
  }

  lemma RowsColsFacts(t: Table, n: nat, m: nat)
    requires WellFormed(t, n, m)
    ensures RowsColsBelowHold(t, n)
  {
    RowsColsBelow(t.high, n, |t.highIdx|);
    RowsColsBelow(t.low, |t.unmatchedTrackers|, |t.lowIdx|);
    RowsColsBelow(t.recovery, |t.unmatchedTracks|, |t.unmatchedDets|);
  }

  /** A track the high-score pass matched ends corrected with its high-score detection. */
  lemma CloseoutHigh(preds: seq<TrackView>, t: Table, dets: seq<Detection>, thresh: real, filter: Filter)
    requires WellFormed(t, |preds|, |dets|) && Consistent(t, dets, thresh, |preds|)
    requires AllViewValid(preds) && RowsColsBelowHold(t, |preds|)
    ensures forall i :: 0 <= i < |preds| && i in Rows(t.high) ==>
      i !in RecoveredTracks(t) &&
      Outcome(preds, t, dets, thresh, filter)[i] ==
        CorrectedView(preds[i], Boxes(dets)[t.highIdx[Cols(t.high)[IndexOf(Rows(t.high), i)]]], filter)
  {
    forall i | 0 <= i < |preds| && i in Rows(t.high) {
      CloseoutHighAt(preds, t, dets, thresh, filter, i);
    }
  }

  lemma CloseoutHighAt(preds: seq<TrackView>, t: Table, dets: seq<Detection>, thresh: real, filter: Filter, i: nat)
    requires WellFormed(t, |preds|, |dets|) && Consistent(t, dets, thresh, |preds|)
    requires AllViewValid(preds) && RowsColsBelowHold(t, |preds|)
    requires i < |preds| && i in Rows(t.high)
    ensures i !in RecoveredTracks(t)
    ensures Outcome(preds, t, dets, thresh, filter)[i] ==
      CorrectedView(preds[i], Boxes(dets)[t.highIdx[Cols(t.high)[IndexOf(Rows(t.high), i)]]], filter)
  {
    TrackSetsDisjoint(t, dets, thresh, |preds|);
    OutcomeFacts(preds, t, dets, thresh, filter, i);
  }

  /** A track only the low-score pass matched ends corrected with its low-score detection. */
  lemma CloseoutLow(preds: seq<TrackView>, t: Table, dets: seq<Detection>, thresh: real, filter: Filter)
    requires WellFormed(t, |preds|, |dets|) && Consistent(t, dets, thresh, |preds|)
    requires AllViewValid(preds) && RowsColsBelowHold(t, |preds|)
    ensures forall i :: 0 <= i < |preds| && i !in Rows(t.high) && i in t.lowTracked ==>
      i !in RecoveredTracks(t) &&
      Outcome(preds, t, dets, thresh, filter)[i] ==
        CorrectedView(preds[i], Boxes(dets)[t.lowIdx[Cols(t.low)[IndexOf(t.lowTracked, i)]]], filter)
  {
    forall i | 0 <= i < |preds| && i !in Rows(t.high) && i in t.lowTracked {
      CloseoutLowAt(preds, t, dets, thresh, filter, i);
    }
  }

  lemma CloseoutLowAt(preds: seq<TrackView>, t: Table, dets: seq<Detection>, thresh: real, filter: Filter, i: nat)
    requires WellFormed(t, |preds|, |dets|) && Consistent(t, dets, thresh, |preds|)
    requires AllViewValid(preds) && RowsColsBelowHold(t, |preds|)
    requires i < |preds| && i !in Rows(t.high) && i in t.lowTracked
    ensures i !in RecoveredTracks(t)
    ensures Outcome(preds, t, dets, thresh, filter)[i] ==
      CorrectedView(preds[i], Boxes(dets)[t.lowIdx[Cols(t.low)[IndexOf(t.lowTracked, i)]]], filter)
  {
    TrackSetsDisjoint(t, dets, thresh, |preds|);
    OutcomeFacts(preds, t, dets, thresh, filter, i);
  }

  /** A track no pass matched ends with one more miss. */
  lemma CloseoutMissed(preds: seq<TrackView>, t: Table, dets: seq<Detection>, thresh: real, filter: Filter)
    requires WellFormed(t, |preds|, |dets|) && Consistent(t, dets, thresh, |preds|)
    requires AllViewValid(preds)
    ensures forall i :: 0 <= i < |preds| && i !in Rows(t.high) && i !in t.lowTracked && i !in RecoveredTracks(t) ==>
      Outcome(preds, t, dets, thresh, filter)[i] == MissedView(preds[i])
  {
    forall i | 0 <= i < |preds| && i !in Rows(t.high) && i !in t.lowTracked && i !in RecoveredTracks(t)
      ensures Outcome(preds, t, dets, thresh, filter)[i] == MissedView(preds[i])
    {
      OutcomeFacts(preds, t, dets, thresh, filter, i);
    }
  }

  /** assigned_det after the first two passes: true exactly at the detections they
      consumed. */
  method MarkAssigned(m: nat, highDets: seq<nat>, lowDets: seq<nat>) returns (assignedDet: array<bool>)
    requires Below(highDets, m) && Below(lowDets, m)
    ensures fresh(assignedDet) && assignedDet.Length == m
    ensures forall d :: 0 <= d < m ==> assignedDet[d] == (d in highDets + lowDets)
  {
    assignedDet := new bool[m](_ => false);
    var k := 0;
    while k < |highDets|
      invariant 0 <= k <= |highDets|
      invariant forall d :: 0 <= d < m ==> assignedDet[d] == (d in highDets[..k])
    {
      assignedDet[highDets[k]] := true;
      k := k + 1;
    }
    assert highDets[..k] == highDets;
    k := 0;
    while k < |lowDets|
      invariant 0 <= k <= |lowDets|
      invariant forall d :: 0 <= d < m ==> assignedDet[d] == (d in highDets + lowDets[..k])
    {
      assignedDet[lowDets[k]] := true;
      k := k + 1;
    }
    assert lowDets[..k] == lowDets;
  }

  class ObjectTracker {
    /** Frames a track may go unmatched before it is dropped. */
    const maxLost: int
    /** Confidence separating the high-score and low-score passes. */
    const scoreThresh: real
    /** The motion estimator every track uses. */
    const filter: Filter
    /** The optimal-assignment solver. */
    const solve: Solver
    var trackers: seq<KalmanTracker>
    var nextId: int

    function Views(): seq<TrackView>
      reads this, trackers
    {
      ViewsOf(trackers)
    }

    ghost predicate Valid()
      reads this, trackers
    {
      IsAssignmentSolver(solve) &&
      (forall i :: 0 <= i < |trackers| ==> trackers[i].filter == filter) &&
      TracksValid(Views(), nextId)
    }

    constructor (maxLost: int, scoreThresh: real, filter: Filter, solve: Solver)
      requires IsAssignmentSolver(solve)
      ensures Valid()
      ensures this.maxLost == maxLost && this.scoreThresh == scoreThresh
      ensures this.filter == filter && this.solve == solve
      ensures trackers == [] && nextId == 1
    {
      this.maxLost := maxLost;
      this.scoreThresh := scoreThresh;
      this.filter := filter;
      this.solve := solve;
      trackers := [];
      nextId := 1;
    }

    /** Drops every track and restarts identities at 1. */
    method Reset()
      requires Valid()
      modifies this
      ensures Valid()
      ensures trackers == [] && nextId == 1
    {
      trackers := [];
      nextId := 1;
    }

    /** The output list: one entry per live track, in track order, so the ids come out
        strictly increasing. */
    method GetTrackingResults() returns (results: seq<TrackResult>)
      requires Valid()
      ensures |results| == |trackers|
      ensures forall i :: 0 <= i < |trackers| ==> results[i] == ResultOf(trackers[i].View())
      ensures forall i, j :: 0 <= i < j < |results| ==> results[i].id < results[j].id
    {
      results := [];
      var i := 0;
      while i < |trackers|
        invariant 0 <= i <= |trackers|
        invariant |results| == i
        invariant forall k :: 0 <= k < i ==> results[k] == ResultOf(trackers[k].View())
      {
        var trk := trackers[i];
        var bbox := trk.GetState();
        results := results + [TrackResult(trk.id, bbox, trk.history)];
        i := i + 1;
      }
      assert forall k :: 0 <= k < |trackers| ==> trackers[k].View() == Views()[k];
    }

    /** Distinct ids make distinct objects. */
    lemma DistinctTrackers()
      requires Valid()
      ensures Ready(trackers, filter) && AllViewValid(Views())
      ensures IsAssignmentSolver(solve) && TracksValid(Views(), nextId)
    {
      forall i, j | 0 <= i < j < |trackers| ensures trackers[i] != trackers[j] {
        assert Views()[i].id < Views()[j].id;
      }
      forall i | 0 <= i < |trackers| ensures trackers[i].maxHistory == DefaultMaxHistory {
        assert Views()[i].maxHistory == DefaultMaxHistory;
      }
    }

    /** Step 1 of update: every track predicts; the predicted boxes come back in track
        order. */
    method PredictAll() returns (preds: seq<Box>)
      requires Ready(trackers, filter) && AllViewValid(Views())
      modifies trackers
      ensures Views() == PredictAllViews(old(Views()), filter)
      ensures preds == PredBoxes(Views())
    {
      ghost var before := Views();
      preds := [];
      var i := 0;
      while i < |trackers|
        invariant 0 <= i <= |trackers| && |preds| == i
        invariant forall k :: 0 <= k < i ==> trackers[k].View() == PredictedView(before[k], filter)
        invariant forall k :: 0 <= k < i ==> preds[k] == PredictedBox(trackers[k].View())
        invariant forall k :: i <= k < |trackers| ==> trackers[k].View() == before[k]
      {
        var box := PredictTrack(i);
        preds := preds + [box];
        i := i + 1;
      }
      PredictedViews(trackers, before, preds, filter);
    }

    /** Recovery updates: for each recovery pair the track is corrected with its detection
        at once and the detection is flagged, unless it was already flagged (which the plan
        rules out). */
    method ApplyRecovery(recovery: seq<(nat, nat)>, unmatchedTracks: seq<nat>, unmatchedDets: seq<nat>,
                         boxes: seq<Box>, assignedDet: array<bool>, ghost plan: RecoveryPlan,
                         ghost predicted: seq<TrackView>, ghost goal: seq<TrackView>)
      returns (recovered: seq<nat>)
      requires Ready(trackers, filter) && |predicted| == |trackers| == |goal| && AllViewValid(predicted)
      requires forall j :: 0 <= j < |trackers| ==> trackers[j].View() == predicted[j]
      requires RecoveryPlanOk(plan, recovery, unmatchedTracks, unmatchedDets, |trackers|, |boxes|)
      requires forall k :: 0 <= k < |plan.tracks| ==>
        goal[plan.tracks[k]] == CorrectedView(predicted[plan.tracks[k]], boxes[plan.dets[k]], filter)
      requires assignedDet.Length == |boxes|
      requires forall d :: 0 <= d < |boxes| ==> assignedDet[d] == (d in plan.taken)
      modifies trackers, assignedDet
      ensures recovered == plan.tracks
      ensures forall d :: 0 <= d < |boxes| ==> assignedDet[d] == (d in plan.taken + plan.dets)
      ensures forall j :: 0 <= j < |trackers| ==>
        trackers[j].View() == if j in recovered then goal[j] else predicted[j]
    {
      recovered := [];
      var k := 0;
      while k < |recovery|
        invariant 0 <= k <= |recovery|
        invariant recovered == plan.tracks[..k]
        invariant forall d :: 0 <= d < |boxes| ==> assignedDet[d] == (d in plan.taken || d in plan.dets[..k])
        invariant forall j :: 0 <= j < |trackers| ==>
          trackers[j].View() == if j in recovered then goal[j] else predicted[j]
      {
        var trk := trackers[unmatchedTracks[recovery[k].0]];
        var trkIdx := PositionOf(trackers, trk, unmatchedTracks[recovery[k].0]);
        var actualDetIdx := unmatchedDets[recovery[k].1];
        assert trkIdx == plan.tracks[k] && actualDetIdx == plan.dets[k];
        assert trkIdx !in recovered && actualDetIdx !in plan.dets[..k];
        assert !assignedDet[actualDetIdx];
        if !assignedDet[actualDetIdx] {
          CorrectTrack(trkIdx, boxes[actualDetIdx]);
          assignedDet[actualDetIdx] := true;
          recovered := recovered + [trkIdx];
        }
        assert plan.tracks[..k + 1] == plan.tracks[..k] + [trkIdx];
        assert plan.dets[..k + 1] == plan.dets[..k] + [actualDetIdx];
        k := k + 1;
      }
      assert plan.tracks[..k] == plan.tracks;
      assert plan.dets[..k] == plan.dets;
    }

    /** Corrects track i with box b and leaves every other track as it was. */
    method CorrectTrack(i: nat, b: Box)
      requires Ready(trackers, filter) && i < |trackers| && ViewValid(trackers[i].View())
      modifies trackers[i]
      ensures trackers[i].View() == CorrectedView(old(trackers[i].View()), b, filter)
      ensures forall j :: 0 <= j < |trackers| && j != i ==> trackers[j].View() == old(trackers[j].View())
    {
      trackers[i].Update(b);
    }

    /** Advances track i's estimator one step and leaves every other track as it was. */
    method PredictTrack(i: nat) returns (box: Box)
      requires Ready(trackers, filter) && i < |trackers| && ViewValid(trackers[i].View())
      modifies trackers[i]
      ensures trackers[i].View() == PredictedView(old(trackers[i].View()), filter)
      ensures box == PredictedBox(trackers[i].View())
      ensures forall j :: 0 <= j < |trackers| && j != i ==> trackers[j].View() == old(trackers[j].View())
    {
      box := trackers[i].Predict();
    }

    /** Counts a miss on track i and leaves every other track as it was. */
    method MissTrack(i: nat)
      requires Ready(trackers, filter) && i < |trackers|
      modifies trackers[i]
      ensures trackers[i].View() == MissedView(old(trackers[i].View()))
      ensures forall j :: 0 <= j < |trackers| && j != i ==> trackers[j].View() == old(trackers[j].View())
    {
      trackers[i].lost := trackers[i].lost + 1;
    }

    /** The closing loop of update: tracks matched in the first two passes are corrected
        with their detection, recovered tracks are left as they are, the rest count a miss. */
    method CloseOut(highTracked: seq<nat>, highCols: seq<nat>, highIdx: seq<nat>,
                    lowTracked: seq<nat>, lowCols: seq<nat>, lowIdx: seq<nat>,
                    recovered: seq<nat>, boxes: seq<Box>,
                    ghost predicted: seq<TrackView>, ghost goal: seq<TrackView>)
      requires Ready(trackers, filter) && |predicted| == |trackers| == |goal|
      requires CloseoutPlanOk(highTracked, highCols, highIdx, lowTracked, lowCols, lowIdx, recovered,
                              boxes, predicted, goal, filter)
      requires forall j :: 0 <= j < |trackers| ==>
        trackers[j].View() == if j in recovered then goal[j] else predicted[j]
      modifies trackers
      ensures forall j :: 0 <= j < |trackers| ==> trackers[j].View() == goal[j]
    {
      var i := 0;
      while i < |trackers|
        invariant 0 <= i <= |trackers|
        invariant forall j :: 0 <= j < i ==> trackers[j].View() == goal[j]
        invariant forall j :: i <= j < |trackers| ==>
          trackers[j].View() == if j in recovered then goal[j] else predicted[j]
      {
        if i in highTracked {
          var highPos := IndexOf(highTracked, i);
          var detIdx := highIdx[highCols[highPos]];
          CorrectTrack(i, boxes[detIdx]);
        } else if i in lowTracked {
          var lowPos := IndexOf(lowTracked, i);
          var detIdx := lowIdx[lowCols[lowPos]];
          CorrectTrack(i, boxes[detIdx]);
        } else if i in recovered {
        } else {
          MissTrack(i);
        }
        i := i + 1;
      }
    }

    /** The spawning loop of update: one new track per unflagged detection, in detection
        order, numbered from the counter. */
    method SpawnTracks(boxes: seq<Box>, assignedDet: array<bool>, ghost taken: seq<nat>)
      returns (ghost added: seq<KalmanTracker>)
      requires assignedDet.Length == |boxes|
      requires forall d :: 0 <= d < |boxes| ==> assignedDet[d] == (d in taken)
      modifies this
      ensures trackers == old(trackers) + added && |added| == |Complement(|boxes|, taken)|
      ensures nextId == old(nextId) + |added|
      ensures forall j :: 0 <= j < |added| ==>
        added[j].filter == filter &&
        added[j].View() == NewTrackView(boxes[Complement(|boxes|, taken)[j]], old(nextId) + j, DefaultMaxHistory)
    {
      ghost var spawnedFrom: seq<nat> := [];
      added := [];
      var i := 0;
      while i < assignedDet.Length
        invariant 0 <= i <= assignedDet.Length && spawnedFrom == Complement(i, taken)
        invariant trackers == old(trackers) + added && |added| == |spawnedFrom|
        invariant nextId == old(nextId) + |added|
        invariant forall j :: 0 <= j < |added| ==>
          added[j].filter == filter &&
          added[j].View() == NewTrackView(boxes[spawnedFrom[j]], old(nextId) + j, DefaultMaxHistory)
      {
        if !assignedDet[i] {
          var trk := SpawnOne(boxes[i]);
          added := added + [trk];
          spawnedFrom := spawnedFrom + [i];
        }
        i := i + 1;
      }
    }

    /** Appends a new track seeded from b, numbered with the counter, and advances the
        counter. */
    method SpawnOne(b: Box) returns (trk: KalmanTracker)
      modifies this
      ensures trackers == old(trackers) + [trk] && nextId == old(nextId) + 1
      ensures fresh(trk) && trk.Valid() && trk.filter == filter
      ensures trk.View() == NewTrackView(b, old(nextId), DefaultMaxHistory)
    {
      trk := new KalmanTracker(b, nextId, DefaultMaxHistory, filter);
      nextId := nextId + 1;
      trackers := trackers + [trk];
    }

    /** One frame. Without detections every track predicts and counts a miss. Otherwise:
        predict, the two score passes, recovery, the closing loop, spawning and pruning. */
    method Update(dets: seq<Detection>, frameShape: Option<(int, int)>) returns (results: seq<TrackResult>)
      requires Valid()
      requires dets != [] ==> FrameOk(FrameOf(frameShape))
      modifies this, trackers
      ensures Valid()
      ensures Step(Views(), nextId) ==
        TrackerStep(old(Views()), old(nextId), dets, frameShape, maxLost, scoreThresh, filter, solve)
      ensures |results| == |trackers|
      ensures forall i :: 0 <= i < |trackers| ==> results[i] == ResultOf(trackers[i].View())
    {
      DistinctTrackers();
      RunFrame(dets, frameShape);
      results := GetTrackingResults();
    }

    /** The body of update, before the results are read out. */
    method RunFrame(dets: seq<Detection>, frameShape: Option<(int, int)>)
      requires Ready(trackers, filter) && IsAssignmentSolver(solve) && TracksValid(Views(), nextId)
      requires dets != [] ==> FrameOk(FrameOf(frameShape))
      modifies this, trackers
      ensures Valid()
      ensures Step(Views(), nextId) ==
        TrackerStep(old(Views()), old(nextId), dets, frameShape, maxLost, scoreThresh, filter, solve)
    {
      if |dets| == 0 {
        MissFrame();
      } else {
        AdvanceFrame(dets, frameShape);
      }
    }

    /** A frame without detections: every track predicts and counts a miss. */
    method MissFrame()
      requires Ready(trackers, filter) && IsAssignmentSolver(solve) && TracksValid(Views(), nextId)
      modifies trackers
      ensures Valid()
      ensures Views() == MissAllViews(old(Views()), filter)
    {
      ghost var before := Views();
      MissAll();
      PredictKeepsTracksValid(before, nextId, filter);
    }

    /** A frame with detections: every track predicts, the three passes build the table,
        and the frame settles. */
    method AdvanceFrame(dets: seq<Detection>, frameShape: Option<(int, int)>)
      requires Ready(trackers, filter) && IsAssignmentSolver(solve)
      requires TracksValid(Views(), nextId) && dets != [] && FrameOk(FrameOf(frameShape))
      modifies this, trackers
      ensures Valid()
      ensures Step(Views(), nextId) ==
        TrackerStep(old(Views()), old(nextId), dets, frameShape, maxLost, scoreThresh, filter, solve)
    {
      var preds := PredictFrame();
      var t := BuildTable(preds, LastDets(Views()), Losts(Views()), dets, FrameOf(frameShape));
      SettleFrame(t, dets, Views(), FrameOf(frameShape));
    }

    /** Step 1 of update on a valid track set: the tracks stay valid. */
    method PredictFrame() returns (preds: seq<Box>)
      requires Ready(trackers, filter) && TracksValid(Views(), nextId)
      modifies trackers
      ensures Views() == PredictAllViews(old(Views()), filter)
      ensures TracksValid(Views(), nextId)
      ensures preds == PredBoxes(Views())
    {
      PredictKeepsTracksValid(Views(), nextId, filter);
      preds := PredictAll();
    }

    /** Everything update does after the passes, on the table the passes built. */
    method SettleFrame(t: Table, dets: seq<Detection>, ghost predicted: seq<TrackView>, ghost frame: Frame)
      requires Ready(trackers, filter) && IsAssignmentSolver(solve) && FrameOk(frame)
      requires Views() == predicted && TracksValid(predicted, nextId)
      requires t == FrameTable(predicted, dets, frame, scoreThresh, solve)
      modifies this, trackers
      ensures Valid()
      ensures Step(Views(), nextId) == Settle(predicted, old(nextId), dets, t, maxLost, scoreThresh, filter)
    {
      SettleTable(t, dets, predicted);
    }

    /** Recovery updates, the closing loop, spawning and pruning, for any table that is
        well formed and consistent with the detections. */
    method SettleTable(t: Table, dets: seq<Detection>, ghost predicted: seq<TrackView>)
      requires Ready(trackers, filter) && IsAssignmentSolver(solve)
      requires Views() == predicted && TracksValid(predicted, nextId)
      requires WellFormed(t, |predicted|, |dets|) && Consistent(t, dets, scoreThresh, |predicted|)
      modifies this, trackers
      ensures Valid()
      ensures Step(Views(), nextId) == Settle(predicted, old(nextId), dets, t, maxLost, scoreThresh, filter)
    {
      var boxes := Boxes(dets);
      ghost var goal := Outcome(predicted, t, dets, scoreThresh, filter);
      var assignedDet := CorrectExisting(t, dets, boxes, predicted);
      ghost var nextId0 := nextId;
      SpawnAndPrune(dets, boxes, assignedDet, Assigned(t), goal);
      SettleKeepsTracksValid(predicted, nextId0, dets, t, maxLost, scoreThresh, filter);
    }

    /** Spawning and pruning: a new track per unflagged detection after the existing ones,
        then only the tracks under the miss limit stay. */
    method SpawnAndPrune(dets: seq<Detection>, boxes: seq<Box>, assignedDet: array<bool>,
                         ghost taken: seq<nat>, ghost goal: seq<TrackView>)
      requires boxes == Boxes(dets) && assignedDet.Length == |dets|
      requires forall d :: 0 <= d < |dets| ==> assignedDet[d] == (d in taken)
      requires Ready(trackers, filter) && |trackers| == |goal|
      requires forall j :: 0 <= j < |trackers| ==> trackers[j].View() == goal[j]
      modifies this
      ensures Views() == Survivors(goal + Spawned(dets, Complement(|dets|, taken), old(nextId)), maxLost)
      ensures nextId == old(nextId) + |Complement(|dets|, taken)|
      ensures forall k :: 0 <= k < |trackers| ==> trackers[k].filter == filter
    {
      ghost var n0, nextId0 := |trackers|, nextId;
      ghost var u := Complement(|dets|, taken);
      ghost var added := SpawnTracks(boxes, assignedDet, taken);
      ghost var spawned := Spawned(dets, u, nextId0);
      forall j | 0 <= j < |trackers| ensures trackers[j].View() == (goal + spawned)[j] {
        if j >= n0 {
          assert trackers[j] == added[j - n0];
          assert boxes[u[j - n0]] == dets[u[j - n0]].box;
        } else {
          assert trackers[j] == old(trackers)[j];
        }
      }
      ghost var all := trackers;
      assert forall k :: 0 <= k < |all| ==> all[k].filter == filter by {
        forall k | 0 <= k < |all| ensures all[k].filter == filter {
          if k < n0 { assert all[k] == old(trackers)[k]; } else { assert all[k] == added[k - n0]; }
        }
      }
      Prune(goal, spawned);
      forall k | 0 <= k < |trackers| ensures trackers[k].filter == filter {
        assert trackers[k] in all;
      }
    }

    /** The recovery updates and the closing loop: every existing track ends as the
        table decides, and the flags mark exactly the consumed detections. */
    method CorrectExisting(t: Table, dets: seq<Detection>, boxes: seq<Box>, ghost predicted: seq<TrackView>)
      returns (assignedDet: array<bool>)
      requires Ready(trackers, filter) && boxes == Boxes(dets)
      requires Views() == predicted && AllViewValid(predicted)
      requires WellFormed(t, |predicted|, |dets|) && Consistent(t, dets, scoreThresh, |predicted|)
      modifies trackers
      ensures fresh(assignedDet) && assignedDet.Length == |dets|
      ensures forall d :: 0 <= d < |dets| ==> assignedDet[d] == (d in Assigned(t))
      ensures forall j :: 0 <= j < |trackers| ==>
        trackers[j].View() == Outcome(predicted, t, dets, scoreThresh, filter)[j]
    {
      ghost var n := |trackers|;
      ghost var goal := Outcome(predicted, t, dets, scoreThresh, filter);
      RowsColsBelow(t.high, n, |t.highIdx|);
      RowsColsBelow(t.low, |t.unmatchedTrackers|, |t.lowIdx|);
      assignedDet := MarkAssigned(|dets|, Pick(t.highIdx, Cols(t.high)), Pick(t.lowIdx, Cols(t.low)));
      RecoveryPlanFor(t, dets, scoreThresh, n);
      RecoveryGoal(predicted, t, dets, scoreThresh, filter);
      var recovered := ApplyRecovery(t.recovery, t.unmatchedTracks, t.unmatchedDets, boxes, assignedDet,
                                     RecoveryPlan(RecoveredTracks(t), RecoveredDets(t), t.matchedDetIdx),
                                     predicted, goal);
      CloseoutPlanFor(predicted, t, dets, scoreThresh, filter);
      CloseOut(Rows(t.high), Cols(t.high), t.highIdx, t.lowTracked, Cols(t.low), t.lowIdx,
               recovered, boxes, predicted, goal);
    }

    /** The empty-detection loop of update: predict, then count a miss. */
    method MissAll()
      requires Ready(trackers, filter) && AllViewValid(Views())
      modifies trackers
      ensures Views() == MissAllViews(old(Views()), filter)
    {
      ghost var before := Views();
      var i := 0;
      while i < |trackers|
        invariant 0 <= i <= |trackers|
        invariant forall k :: 0 <= k < i ==> trackers[k].View() == MissedView(PredictedView(before[k], filter))
        invariant forall k :: i <= k < |trackers| ==> trackers[k].View() == before[k]
      {
        var _ := PredictTrack(i);
        MissTrack(i);
        i := i + 1;
      }
      assert Views() == MissAllViews(before, filter);
    }

    /** The two score passes and recovery, as update runs them, gathered into the frame's
        table. */
    method BuildTable(preds: seq<Box>, lastDets: seq<Box>, losts: seq<nat>, dets: seq<Detection>, frame: Frame)
      returns (t: Table)
      requires |lastDets| == |preds| && |losts| == |preds|
      requires FrameOk(frame) && IsAssignmentSolver(solve)
      ensures t == Associate(preds, lastDets, losts, dets, frame, scoreThresh, solve)
    {
      var n := |preds|;
      var boxes := Boxes(dets);
      var highIdx := ScoreIndices(dets, scoreThresh, true);
      var lowIdx := ScoreIndices(dets, scoreThresh, false);
      var high := FirstMatching(preds, Pick(boxes, highIdx), frame);
      RowsColsBelow(high, n, |highIdx|);
      var unmatchedTrackers := Complement(n, Rows(high));
      var low := SecondMatching(Pick(preds, unmatchedTrackers), Pick(boxes, lowIdx), frame);
      RowsColsBelow(low, |unmatchedTrackers|, |lowIdx|);
      var lowTracked := Pick(unmatchedTrackers, Rows(low));
      var unmatchedTracks := Complement(n, Rows(high) + lowTracked);
      var matchedDetIdx := Pick(highIdx, Cols(high)) + Pick(lowIdx, Cols(low));
      var unmatchedDets := Complement(|dets|, matchedDetIdx);
      var recovery := [];
      if |unmatchedTracks| > 0 && |unmatchedDets| > 0 {
        recovery := TrajectoryRecovery(Pick(lastDets, unmatchedTracks), Pick(losts, unmatchedTracks),
                                       Pick(boxes, unmatchedDets), frame);
      }
      t := Table(highIdx, lowIdx, high, unmatchedTrackers, low, lowTracked,
                 unmatchedTracks, matchedDetIdx, unmatchedDets, recovery);
    }

    /** The pruning step: keeps the trackers whose miss counter is below maxLost. */
    method Prune(ghost out: seq<TrackView>, ghost spawned: seq<TrackView>)
      requires |trackers| == |out| + |spawned|
      requires forall j :: 0 <= j < |trackers| ==> trackers[j].View() == (out + spawned)[j]
      modifies this
      ensures Views() == Survivors(out + spawned, maxLost)
      ensures forall k :: k in trackers ==> k in old(trackers)
      ensures nextId == old(nextId)
    {
      assert ViewsOf(trackers) == out + spawned;
      trackers := Alive(trackers, maxLost);
    }

    /** The high-score pass: predicted boxes against high-confidence detections by centre
        distance. */
    method FirstMatching(preds: seq<Box>, dets: seq<Box>, f: Frame) returns (matches: seq<(nat, nat)>)
      requires IsAssignmentSolver(solve) && FrameOk(f)
      ensures matches == PassResult(HighScore, preds, Zeros(|preds|), dets, f, solve)
      ensures ValidAssignment(matches, |preds|, |dets|)
      ensures forall p :: p in matches ==>
        (!Gated(preds[p.0], dets[p.1], f) && PairCost(HighScore, preds[p.0], dets[p.1], 0, f) < MatchThreshold)
    {
      matches := RunPass(HighScore, preds, Zeros(|preds|), dets, f, solve);
      PassResultSound(HighScore, preds, Zeros(|preds|), dets, f, solve);
    }

    /** The low-score pass: still-unmatched predicted boxes against low-confidence detections
        by IoU and centre distance. */
    method SecondMatching(preds: seq<Box>, dets: seq<Box>, f: Frame) returns (matches: seq<(nat, nat)>)
      requires IsAssignmentSolver(solve) && FrameOk(f)
      ensures matches == PassResult(LowScore, preds, Zeros(|preds|), dets, f, solve)
      ensures ValidAssignment(matches, |preds|, |dets|)
      ensures forall p :: p in matches ==>
        (!Gated(preds[p.0], dets[p.1], f) && PairCost(LowScore, preds[p.0], dets[p.1], 0, f) < MatchThreshold &&
         ComputeIou(preds[p.0], dets[p.1]) > 0.4)
    {
      matches := RunPass(LowScore, preds, Zeros(|preds|), dets, f, solve);
      PassResultSound(LowScore, preds, Zeros(|preds|), dets, f, solve);
      LowScoreNeedsOverlap(preds, Zeros(|preds|), dets, f, solve);
    }

    /** Occlusion recovery: last matched boxes of still-unmatched tracks against
        still-unmatched detections, weighted by 1 - 0.9^lost. */
    method TrajectoryRecovery(lastDets: seq<Box>, losts: seq<nat>, dets: seq<Box>, f: Frame) returns (matches: seq<(nat, nat)>)
      requires IsAssignmentSolver(solve) && FrameOk(f) && |losts| == |lastDets|
      ensures matches == PassResult(Recovery, lastDets, losts, dets, f, solve)
      ensures ValidAssignment(matches, |lastDets|, |dets|)
      ensures forall p :: p in matches ==>
        (!Gated(lastDets[p.0], dets[p.1], f) && PairCost(Recovery, lastDets[p.0], dets[p.1], losts[p.0], f) < MatchThreshold &&
         losts[p.0] >= 12)
    {
      matches := RunPass(Recovery, lastDets, losts, dets, f, solve);
      PassResultSound(Recovery, lastDets, losts, dets, f, solve);
      RecoveryNeedsLongAbsence(lastDets, losts, dets, f, solve);
    }
  }
}
