/** One tracked object: identity, age, miss counter, last matched box, bounded trajectory
    history, and the state of its motion estimator. */
module KalmanTracking {
  import opened Geometry
  import opened Optional

  /** Capacity of a track's trajectory history. */
  const DefaultMaxHistory: nat := 30

  /** An eight-component motion estimate: centre, size, velocity and acceleration. */
  datatype Motion = Motion(cx: real, cy: real, w: real, h: real, vx: real, vy: real, ax: real, ay: real)

  /** The estimator state the tracker relies on: the last prediction (statePre), the last
      correction (statePost) and the 8x8 error covariance, row by row. */
  datatype KalmanState = KalmanState(statePre: Motion, statePost: Motion, errorCov: seq<real>)

  /** A measurement (centre x, centre y, width, height). */
  datatype Measurement = Measurement(cx: real, cy: real, w: real, h: real)

  /** The constant-acceleration estimator, supplied from outside: one predict step and one
      correct step. Nothing is assumed of either. */
  datatype Filter = Filter(predict: KalmanState -> KalmanState, correct: (KalmanState, Measurement) -> KalmanState)

  /** The measurement taken from a box: its centre and its extents. */
  function MeasurementOf(b: Box): Measurement {
    Measurement((b.x1 + b.x2) / 2.0, (b.y1 + b.y2) / 2.0, b.x2 - b.x1, b.y2 - b.y1)
  }

  /** The box read back from an estimate: centre plus or minus half the extents. */
  function BoxOf(m: Motion): Box {
    Box(m.cx - m.w / 2.0, m.cy - m.h / 2.0, m.cx + m.w / 2.0, m.cy + m.h / 2.0)
  }

  /** The identity matrix times 0.9, the initial error covariance. */
  function InitialCovariance(): (cov: seq<real>) {
    seq(64, k requires 0 <= k < 64 => if k / 8 == k % 8 then 0.9 else 0.0)
  }

  /** The initial estimate: the box's centre and size, zero velocity and acceleration,
      with statePre and statePost equal. */
  function InitialState(b: Box): KalmanState {
    var m := MeasurementOf(b);
    var motion := Motion(m.cx, m.cy, m.w, m.h, 0.0, 0.0, 0.0, 0.0);
    KalmanState(motion, motion, InitialCovariance())
  }

  /** Appends to a history bounded by `cap`, dropping the oldest entry when full: the
      result is the newest min(|h| + 1, cap) entries of h + [p]. */
  function Push(h: seq<Point>, p: Point, cap: nat): (r: seq<Point>)
    requires 1 <= cap && |h| <= cap
    ensures |r| == if |h| < cap then |h| + 1 else cap
    ensures r[|r| - 1] == p
    ensures forall k :: 0 <= k < |r| - 1 ==> r[k] == h[|h| + 1 - |r| + k]
  {
    if |h| < cap then h + [p] else h[1..] + [p]
  }

  /** Everything the tracker reads or writes of one track. */
  datatype TrackView = TrackView(
    id: int, age: nat, lost: nat, lastDetection: Box, history: seq<Point>, maxHistory: nat,
    kf: KalmanState, predictState: Option<Box>)

  predicate ViewValid(v: TrackView) {
    1 <= |v.history| <= v.maxHistory
  }

  /** A track freshly created from a detection box. */
  function NewTrackView(b: Box, id: int, maxHistory: nat): TrackView {
    var kf := InitialState(b);
    TrackView(id, 0, 0, b, [Point(kf.statePost.cx, kf.statePost.cy)], maxHistory, kf, None)
  }

  /** After predict(): the estimator has taken one step, the predicted box is cached, the age
      has gone up by one and nothing else changed. */
  function PredictedView(v: TrackView, filter: Filter): TrackView {
    var kf := filter.predict(v.kf);
    v.(kf := kf, predictState := Some(BoxOf(kf.statePre)), age := v.age + 1)
  }

  /** After update(b): the estimator is corrected with b, b becomes the last detection, the
      miss counter is reset and the corrected centre is appended to the history. */
  function CorrectedView(v: TrackView, b: Box, filter: Filter): TrackView
    requires ViewValid(v)
  {
    var kf := filter.correct(v.kf, MeasurementOf(b));
    v.(kf := kf, lastDetection := b, lost := 0,
       history := Push(v.history, Point(kf.statePost.cx, kf.statePost.cy), v.maxHistory))
  }

  /** A track that found no detection this frame. */
  function MissedView(v: TrackView): TrackView {
    v.(lost := v.lost + 1)
  }

  /** The box a track reports: read from the corrected estimate. */
  function StateBox(v: TrackView): Box {
    BoxOf(v.kf.statePost)
  }

  /** The reference box of the first two passes: the cached prediction, or the current
      estimate when no prediction was made. */
  function PredictedBox(v: TrackView): Box {
    if v.predictState.Some? then v.predictState.value else StateBox(v)
  }

  class KalmanTracker {
    const id: int
    const maxHistory: nat
    const filter: Filter
    var age: nat
    var lost: nat
    var history: seq<Point>
    var lastDetection: Box
    var kf: KalmanState
    var predictState: Option<Box>

    ghost predicate Valid()
      reads this
    {
      1 <= |history| <= maxHistory
    }

    function View(): TrackView
      reads this
    {
      TrackView(id, age, lost, lastDetection, history, maxHistory, kf, predictState)
    }

    /** A new track seeded from a detection box, with one history entry: the box's centre. */
    constructor (bbox: Box, id: int, maxHistory: nat, filter: Filter)
      requires 1 <= maxHistory
      ensures Valid() && this.filter == filter
      ensures View() == NewTrackView(bbox, id, maxHistory)
      ensures history == [Center(bbox)]
    {
      this.id := id;
      this.maxHistory := maxHistory;
      this.filter := filter;
      age := 0;
      lost := 0;
      history := [];
      lastDetection := bbox;
      kf := InitialState(bbox);
      predictState := None;
      new;
      UpdateHistory();
    }

    /** Advances the estimator one step and caches the predicted box. */
    method Predict() returns (box: Box)
      requires Valid()
      modifies this
      ensures Valid()
      ensures View() == PredictedView(old(View()), filter)
      ensures box == BoxOf(kf.statePre) && predictState == Some(box)
    {
      kf := filter.predict(kf);
      var state := kf.statePre;
      predictState := Some(BoxOf(state));
      age := age + 1;
      box := predictState.value;
    }

    /** Corrects the estimator with a matched box and records the match. */
    method Update(bbox: Box)
      requires Valid()
      modifies this
      ensures Valid()
      ensures View() == CorrectedView(old(View()), bbox, filter)
      ensures lost == 0 && lastDetection == bbox
      ensures |history| == if |old(history)| < maxHistory then |old(history)| + 1 else maxHistory
    {
      kf := filter.correct(kf, MeasurementOf(bbox));
      lastDetection := bbox;
      lost := 0;
      UpdateHistory();
    }

    /** Appends the corrected centre to the bounded history. */
    method UpdateHistory()
      requires 1 <= maxHistory && |history| <= maxHistory
      modifies this`history
      ensures history == Push(old(history), Point(kf.statePost.cx, kf.statePost.cy), maxHistory)
      ensures 1 <= |history| <= maxHistory
    {
      var x := kf.statePost.cx;
      var y := kf.statePost.cy;
      if |history| == maxHistory {
        history := history[1..];
      }
      history := history + [Point(x, y)];
    }

    /** The box read from the corrected estimate: same centre and extents as the estimate. */
    function GetState(): (b: Box)
      reads this
      ensures Center(b) == Point(kf.statePost.cx, kf.statePost.cy)
      ensures b.x2 - b.x1 == kf.statePost.w && b.y2 - b.y1 == kf.statePost.h
    {
      BoxOf(kf.statePost)
    }

    /** The box of the most recent successful match, used by occlusion recovery. */
    function GetLastDetection(): (b: Box)
      reads this
      ensures b == View().lastDetection
    {
      lastDetection
    }
  }

  /** A track created from a box reports that very box until it is corrected or predicted:
      reading the initial estimate back gives the detection. */
  lemma NewTrackReportsItsBox(b: Box, id: int, maxHistory: nat)
    ensures StateBox(NewTrackView(b, id, maxHistory)) == b
    ensures NewTrackView(b, id, maxHistory).history == [Center(b)]
  {
  }
}
