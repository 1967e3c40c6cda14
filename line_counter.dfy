/** The counting line of the detection worker: a horizontal or vertical line rebuilt on
    every frame, and the tally of the tracks whose last step crosses it, per direction. */
module LineCounting {
  import opened Geometry
  import opened Optional
  import opened Matching
  import opened KalmanTracking
  import opened Association
  import opened ObjectTracking

  /** The four ways across the line, as recorded per id. */
  datatype Crossing = TopToBottom | BottomToTop | LeftToRight | RightToLeft

  /** The counting line [(x1, y1), (x2, y2)] in integer pixels. */
  datatype Segment = Segment(x1: int, y1: int, x2: int, y2: int)

  /** The direction value that selects a horizontal line; any other value means vertical. */
  const Horizontal: string := "horizontal"

  /** Python's int() on a float: truncation toward zero. */
  function Trunc(x: real): (r: int)
    ensures x >= 0.0 ==> r as real <= x < r as real + 1.0
    ensures x < 0.0 ==> r as real - 1.0 < x <= r as real
  {
    if x >= 0.0 then x.Floor else -((-x).Floor)
  }

  /** max(0, min(1, position)). */
  function Clamp(p: real): (r: real)
    ensures 0.0 <= r <= 1.0
    ensures 0.0 <= p <= 1.0 ==> r == p
    ensures p < 0.0 ==> r == 0.0
    ensures p > 1.0 ==> r == 1.0
  {
    Max(0.0, Min(1.0, p))
  }

  /** The line for a frame of h rows and w columns at relative position `position`. */
  function LineFor(direction: string, position: real, h: nat, w: nat): (l: Segment)
    ensures LineMatches(Some(l), direction)
    ensures direction == Horizontal ==> l.x2 == w
    ensures direction != Horizontal ==> l.y2 == h
  {
    if direction == Horizontal then
      var y := Trunc(h as real * position);
      Segment(0, y, w, y)
    else
      var x := Trunc(w as real * position);
      Segment(x, 0, x, h)
  }

  /** A line of the given direction, as rebuilt from a frame: a full-width row when
      horizontal, a full-height column otherwise. */
  predicate LineMatches(line: Option<Segment>, direction: string) {
    line.Some? ==>
      if direction == Horizontal then line.value.x1 == 0 && line.value.y1 == line.value.y2
      else line.value.y1 == 0 && line.value.x1 == line.value.x2
  }

  /** A relative position scaled by a side length stays between 0 and that side. */
  lemma ScaledWithin(side: nat, position: real)
    requires 0.0 <= position <= 1.0
    ensures 0 <= Trunc(side as real * position) <= side
  {
    assert side as real * position <= side as real * 1.0;
  }

  /** The line of any frame lies inside that frame and has the requested direction. */
  lemma LineWithinFrame(direction: string, position: real, h: nat, w: nat)
    requires 0.0 <= position <= 1.0
    ensures var l := LineFor(direction, position, h, w);
      LineMatches(Some(l), direction) &&
      0 <= l.x1 <= w && 0 <= l.x2 <= w && 0 <= l.y1 <= h && 0 <= l.y2 <= h
  {
    if direction == Horizontal {
      ScaledWithin(h, position);
    } else {
      ScaledWithin(w, position);
    }
  }

  /** The direction in which the last step of a trajectory crosses the line, if it does:
      from the second-to-last to the last point, against the line's row (horizontal) or
      column (vertical). */
  function CrossingOf(line: Segment, horizontal: bool, trace: seq<Point>): (r: Option<Crossing>)
    ensures |trace| < 2 ==> r.None?
    ensures r.Some? ==> (horizontal <==> r.value == TopToBottom || r.value == BottomToTop)
  {
    if |trace| < 2 then None
    else
      var p1, p2 := trace[|trace| - 2], trace[|trace| - 1];
      if horizontal then
        var lineY := line.y1 as real;
        if p1.y < lineY && p2.y >= lineY then Some(TopToBottom)
        else if p1.y >= lineY && p2.y < lineY then Some(BottomToTop)
        else None
      else
        var lineX := line.x1 as real;
        if p1.x < lineX && p2.x >= lineX then Some(LeftToRight)
        else if p1.x >= lineX && p2.x < lineX then Some(RightToLeft)
        else None
  }

  /** The coordinate of a point the line is compared against. */
  function Coordinate(p: Point, horizontal: bool): real {
    if horizontal then p.y else p.x
  }

  /** The position of the line the trajectory is compared against. */
  function Level(line: Segment, horizontal: bool): real {
    if horizontal then line.y1 as real else line.x1 as real
  }

  /** A step crosses exactly when its two points lie on different sides of the line
      (a point on the line counts as below or right of it); the direction names the side
      the step starts on, and a horizontal line only yields vertical motion and back. */
  lemma CrossingMeansSidesDiffer(line: Segment, horizontal: bool, trace: seq<Point>)
    requires |trace| >= 2
    ensures var before := Coordinate(trace[|trace| - 2], horizontal) < Level(line, horizontal);
      var after := Coordinate(trace[|trace| - 1], horizontal) < Level(line, horizontal);
      var c := CrossingOf(line, horizontal, trace);
      (c.Some? <==> before != after) &&
      (c.Some? ==> (c.value == TopToBottom || c.value == LeftToRight <==> before)) &&
      (c.Some? ==> (horizontal <==> c.value == TopToBottom || c.value == BottomToTop))
  {
  }

  // ---------------------------------------------------------------------------
  // The tally

  /** The counting state of the worker: the ids counted since the last reset, the
      direction recorded for each, the four directional counters and the total. */
  datatype Tally = Tally(crossedIds: set<int>, crossedDirection: map<int, Crossing>,
                         leftToRight: int, rightToLeft: int, topToBottom: int, bottomToTop: int,
                         counter: int)

  /** The state reset_counter leaves. */
  const EmptyTally: Tally := Tally({}, map[], 0, 0, 0, 0, 0)

  /** The ids recorded with crossing c. */
  function CrossedWith(m: map<int, Crossing>, c: Crossing): set<int> {
    set id | id in m && m[id] == c
  }

  /** The tally invariant: one direction per counted id, each directional counter the
      number of ids recorded in its direction, and the total the number of counted ids. */
  predicate TallyValid(t: Tally) {
    t.crossedDirection.Keys == t.crossedIds &&
    (forall d :: DirectionCount(t, d) == |CrossedWith(t.crossedDirection, d)|) &&
    t.counter == |t.crossedIds|
  }

  /** The counter of direction d. */
  function DirectionCount(t: Tally, d: Crossing): int {
    match d
    case TopToBottom => t.topToBottom
    case BottomToTop => t.bottomToTop
    case LeftToRight => t.leftToRight
    case RightToLeft => t.rightToLeft
  }

  /** Counting id in direction c: the id joins the counted set with its direction and
      the counter of c goes up by one. The total is left to the caller. */
  function Record(t: Tally, id: int, c: Crossing): Tally {
    var r := t.(crossedIds := t.crossedIds + {id}, crossedDirection := t.crossedDirection[id := c]);
    match c
    case TopToBottom => r.(topToBottom := r.topToBottom + 1)
    case BottomToTop => r.(bottomToTop := r.bottomToTop + 1)
    case LeftToRight => r.(leftToRight := r.leftToRight + 1)
    case RightToLeft => r.(rightToLeft := r.rightToLeft + 1)
  }

  /** check_line_crossing on values: whether the track is counted now, and the tally
      after. Nothing is counted without a line, for an id already counted, or for a
      trajectory whose last step does not cross. */
  function Check(t: Tally, line: Option<Segment>, direction: string, track: TrackResult): (r: (bool, Tally))
    ensures !r.0 ==> r.1 == t
    ensures r.0 <==> line.Some? && track.id !in t.crossedIds &&
                     CrossingOf(line.value, direction == Horizontal, track.trace).Some?
    ensures r.0 ==>
      var c := CrossingOf(line.value, direction == Horizontal, track.trace).value;
      r.1.crossedIds == t.crossedIds + {track.id} && r.1.crossedDirection == t.crossedDirection[track.id := c] &&
      r.1.counter == t.counter &&
      forall d :: DirectionCount(r.1, d) == DirectionCount(t, d) + (if d == c then 1 else 0)
  {
    if line.None? || track.id in t.crossedIds then (false, t)
    else
      match CrossingOf(line.value, direction == Horizontal, track.trace)
      case None => (false, t)
      case Some(c) => (true, Record(t, track.id, c))
  }

  /** One iteration of the counting loop of process_frame: check the track, and count it
      in the total when the check says it crossed. */
  function CountTrack(t: Tally, line: Option<Segment>, direction: string, track: TrackResult): (r: Tally)
    ensures t.crossedIds <= r.crossedIds <= t.crossedIds + {track.id}
    ensures r.counter == t.counter + (if track.id in r.crossedIds - t.crossedIds then 1 else 0)
  {
    var checked := Check(t, line, direction, track);
    if checked.0 then checked.1.(counter := checked.1.counter + 1) else checked.1
  }

  /** The counting loop over the tracks of a frame, in order. */
  function CountTracks(t: Tally, line: Option<Segment>, direction: string, tracks: seq<TrackResult>): (r: Tally)
    ensures t.crossedIds <= r.crossedIds
  {
    if tracks == [] then t
    else CountTrack(CountTracks(t, line, direction, tracks[..|tracks| - 1]), line, direction, tracks[|tracks| - 1])
  }

  /** The total of a frame goes up by exactly the number of ids the frame newly counts,
      whatever the state of the tally before it. */
  lemma {:induction false} TotalCountsNewIds(t: Tally, line: Option<Segment>, direction: string,
                                             tracks: seq<TrackResult>)
    ensures var r := CountTracks(t, line, direction, tracks);
      r.counter == t.counter + |r.crossedIds - t.crossedIds|
  {
    if tracks == [] {
      assert t.crossedIds - t.crossedIds == {};
    } else {
      var prev := CountTracks(t, line, direction, tracks[..|tracks| - 1]);
      var next := CountTrack(prev, line, direction, tracks[|tracks| - 1]);
      TotalCountsNewIds(t, line, direction, tracks[..|tracks| - 1]);
      var added := next.crossedIds - prev.crossedIds;
      assert added == {} || added == {tracks[|tracks| - 1].id};
      assert next.crossedIds - t.crossedIds == (prev.crossedIds - t.crossedIds) + added;
      assert (prev.crossedIds - t.crossedIds) !! added;
    }
  }

  /** One more track extends the counting loop by one iteration and its ids by one id. */
  lemma CountTracksStep(t: Tally, line: Option<Segment>, direction: string, tracks: seq<TrackResult>, i: nat)
    requires i < |tracks|
    ensures CountTracks(t, line, direction, tracks[..i + 1])
         == CountTrack(CountTracks(t, line, direction, tracks[..i]), line, direction, tracks[i])
    ensures Ids(tracks[..i + 1]) == Ids(tracks[..i]) + {tracks[i].id}
  {
    assert tracks[..i + 1][..i] == tracks[..i];
  }

  /** The ids of a list of tracks. */
  function Ids(tracks: seq<TrackResult>): set<int> {
    if tracks == [] then {} else Ids(tracks[..|tracks| - 1]) + {tracks[|tracks| - 1].id}
  }

  /** The state reset_counter leaves satisfies the tally invariant. */
  lemma EmptyTallyValid()
    ensures TallyValid(EmptyTally)
  {
    forall c: Crossing ensures CrossedWith(EmptyTally.crossedDirection, c) == {} {
    }
  }

  /** The total equals the sum of the four directional counters. */
  lemma CounterIsSumOfDirections(t: Tally)
    requires TallyValid(t)
    ensures t.counter == t.topToBottom + t.bottomToTop + t.leftToRight + t.rightToLeft
  {
    assert DirectionCount(t, TopToBottom) == t.topToBottom && DirectionCount(t, BottomToTop) == t.bottomToTop;
    assert DirectionCount(t, LeftToRight) == t.leftToRight && DirectionCount(t, RightToLeft) == t.rightToLeft;
    var m := t.crossedDirection;
    var tb, bt := CrossedWith(m, TopToBottom), CrossedWith(m, BottomToTop);
    var lr, rl := CrossedWith(m, LeftToRight), CrossedWith(m, RightToLeft);
    assert m.Keys == tb + bt + lr + rl by {
      forall id | id in m.Keys ensures id in tb + bt + lr + rl {
        match m[id]
        case TopToBottom => assert id in tb;
        case BottomToTop => assert id in bt;
        case LeftToRight => assert id in lr;
        case RightToLeft => assert id in rl;
      }
    }
    assert tb * bt == {} && (tb + bt) * lr == {} && (tb + bt + lr) * rl == {};
    assert |tb + bt| == |tb| + |bt|;
    assert |tb + bt + lr| == |tb + bt| + |lr|;
    assert |tb + bt + lr + rl| == |tb + bt + lr| + |rl|;
  }

  /** Recording a new id adds it to the ids of its direction and leaves the others. */
  lemma RecordCrossedWith(m: map<int, Crossing>, id: int, c: Crossing, d: Crossing)
    requires id !in m
    ensures CrossedWith(m[id := c], d) == if c == d then CrossedWith(m, d) + {id} else CrossedWith(m, d)
    ensures id !in CrossedWith(m, d)
  {
    var after := CrossedWith(m[id := c], d);
    var expected := if c == d then CrossedWith(m, d) + {id} else CrossedWith(m, d);
    forall x ensures x in after <==> x in expected {
      if x != id {
        assert x in m[id := c] <==> x in m;
      }
    }
  }

  /** Recording an id not yet counted, and bumping the total, keeps the tally invariant. */
  lemma RecordKeepsValid(t: Tally, id: int, c: Crossing)
    requires TallyValid(t) && id !in t.crossedIds
    ensures TallyValid(Record(t, id, c).(counter := t.counter + 1))
  {
    var r := Record(t, id, c).(counter := t.counter + 1);
    assert |t.crossedIds + {id}| == |t.crossedIds| + 1;
    forall d ensures DirectionCount(r, d) == |CrossedWith(r.crossedDirection, d)| {
      RecordCrossedWith(t.crossedDirection, id, c, d);
    }
  }

  /** A check that counts keeps the tally invariant once the total is bumped, and a
      check that does not count changes nothing. */
  lemma CountTrackKeepsValid(t: Tally, line: Option<Segment>, direction: string, track: TrackResult)
    requires TallyValid(t)
    ensures var r := CountTrack(t, line, direction, track);
      TallyValid(r) && t.crossedIds <= r.crossedIds <= t.crossedIds + {track.id}
  {
    var c := if line.Some? then CrossingOf(line.value, direction == Horizontal, track.trace) else None;
    if line.Some? && track.id !in t.crossedIds && c.Some? {
      RecordKeepsValid(t, track.id, c.value);
      assert CountTrack(t, line, direction, track) == Record(t, track.id, c.value).(counter := t.counter + 1);
    } else {
      assert CountTrack(t, line, direction, track) == t;
    }
  }

  /** The counting loop keeps the tally invariant, only ever adds ids, and adds only ids
      of the frame's tracks. */
  lemma {:induction false} CountTracksKeepsValid(t: Tally, line: Option<Segment>, direction: string,
                                                 tracks: seq<TrackResult>)
    requires TallyValid(t)
    ensures var r := CountTracks(t, line, direction, tracks);
      TallyValid(r) && t.crossedIds <= r.crossedIds <= t.crossedIds + Ids(tracks)
  {
    if tracks != [] {
      var init := tracks[..|tracks| - 1];
      CountTracksKeepsValid(t, line, direction, init);
      CountTrackKeepsValid(CountTracks(t, line, direction, init), line, direction, tracks[|tracks| - 1]);
    }
  }

  /** An id is counted at most once between resets: a check that counts a track puts its
      id among the counted ones, and any later check of that id, in any direction and
      with any trajectory, counts nothing. */
  lemma CountedOnce(t: Tally, line: Option<Segment>, direction: string, track: TrackResult,
                    line2: Option<Segment>, direction2: string, later: TrackResult)
    requires Check(t, line, direction, track).0 && later.id == track.id
    ensures track.id !in t.crossedIds
    ensures var r := CountTrack(t, line, direction, track);
      track.id in r.crossedIds && Check(r, line2, direction2, later) == (false, r)
  {
    var c := CrossingOf(line.value, direction == Horizontal, track.trace).value;
    assert Check(t, line, direction, track).1 == Record(t, track.id, c);
  }

  // ---------------------------------------------------------------------------
  // The worker

  /** The counting part of DetectionWorker, without its threads, mutex, model and UI. */
  class DetectionWorker {
    /** The worker's tracker, created with a miss limit of 4. */
    const tracker: ObjectTracker
    var paused: bool
    var countingLine: Option<Segment>
    var linePosition: real
    var lineDirection: string
    var crossedIds: set<int>
    var counter: int
    var totalIds: set<int>
    var leftToRight: int
    var rightToLeft: int
    var topToBottom: int
    var bottomToTop: int
    var crossedDirection: map<int, Crossing>

    /** The counting fields, as one value. */
    function Counts(): Tally
      reads this
    {
      Tally(crossedIds, crossedDirection, leftToRight, rightToLeft, topToBottom, bottomToTop, counter)
    }

    /** The worker's own invariant; the tracker keeps its own. */
    ghost predicate Valid()
      reads this
    {
      0.0 <= linePosition <= 1.0 && LineMatches(countingLine, lineDirection) && TallyValid(Counts())
    }

    /** The counting fields of a fresh worker: no line until the first frame, a
        horizontal line in the middle, nothing counted. */
    constructor (filter: Filter, solve: Solver)
      requires IsAssignmentSolver(solve)
      ensures Valid() && tracker.Valid() && !paused
      ensures countingLine == None && linePosition == 0.5 && lineDirection == Horizontal
      ensures Counts() == EmptyTally && totalIds == {}
      ensures fresh(tracker) && tracker.maxLost == 4 && tracker.scoreThresh == 0.7
      ensures tracker.trackers == [] && tracker.nextId == 1
    {
      tracker := new ObjectTracker(4, 0.7, filter, solve);
      paused := false;
      countingLine := None;
      linePosition := 0.5;
      lineDirection := Horizontal;
      crossedIds := {};
      counter := 0;
      totalIds := {};
      leftToRight, rightToLeft, topToBottom, bottomToTop := 0, 0, 0, 0;
      crossedDirection := map[];
      new;
      EmptyTallyValid();
    }

    /** Stops frame processing until Resume. */
    method Pause()
      requires Valid()
      modifies this
      ensures Valid()
      ensures paused
      ensures countingLine == old(countingLine) && linePosition == old(linePosition)
      ensures lineDirection == old(lineDirection) && Counts() == old(Counts()) && totalIds == old(totalIds)
    {
      paused := true;
    }

    /** Lets frame processing continue. */
    method Resume()
      requires Valid()
      modifies this
      ensures Valid()
      ensures !paused
      ensures countingLine == old(countingLine) && linePosition == old(linePosition)
      ensures lineDirection == old(lineDirection) && Counts() == old(Counts()) && totalIds == old(totalIds)
    {
      paused := false;
    }

    /** Stores the position clamped into [0, 1]. */
    method SetLinePosition(position: real)
      requires Valid()
      modifies this
      ensures Valid()
      ensures linePosition == Clamp(position)
      ensures countingLine == old(countingLine) && lineDirection == old(lineDirection)
      ensures Counts() == old(Counts()) && totalIds == old(totalIds) && paused == old(paused)
    {
      linePosition := Max(0.0, Min(1.0, position));
    }

    /** Switches the direction; the line is dropped, to be rebuilt on the next frame,
        only when the direction actually changes. */
    method SetLineDirection(direction: string)
      requires Valid()
      modifies this
      ensures Valid()
      ensures lineDirection == direction
      ensures countingLine == if old(lineDirection) != direction then None else old(countingLine)
      ensures linePosition == old(linePosition)
      ensures Counts() == old(Counts()) && totalIds == old(totalIds) && paused == old(paused)
    {
      if lineDirection != direction {
        lineDirection := direction;
        countingLine := None;
      }
    }

    /** Zeroes every counter and forgets every counted and seen id. */
    method ResetCounter()
      requires Valid()
      modifies this
      ensures Valid()
      ensures Counts() == EmptyTally && totalIds == {}
      ensures countingLine == old(countingLine) && linePosition == old(linePosition)
      ensures lineDirection == old(lineDirection) && paused == old(paused)
    {
      counter := 0;
      leftToRight := 0;
      rightToLeft := 0;
      topToBottom := 0;
      bottomToTop := 0;
      crossedIds := {};
      crossedDirection := map[];
      totalIds := {};
      EmptyTallyValid();
    }

    /** Counts the track in the direction its last step crosses the line, unless there is
        no line, the id was already counted, or the trajectory has fewer than two points. */
    method CheckLineCrossing(track: TrackResult) returns (crossed: bool)
      modifies this
      ensures (crossed, Counts()) == Check(old(Counts()), countingLine, lineDirection, track)
      ensures countingLine == old(countingLine) && linePosition == old(linePosition)
      ensures lineDirection == old(lineDirection) && totalIds == old(totalIds) && paused == old(paused)
    {
      if countingLine.None? {
        return false;
      }
      if track.id in crossedIds {
        return false;
      }
      var trace := track.trace;
      if |trace| < 2 {
        return false;
      }
      var p1 := trace[|trace| - 2];
      var p2 := trace[|trace| - 1];
      if lineDirection == Horizontal {
        var lineY := countingLine.value.y1 as real;
        if p1.y < lineY && p2.y >= lineY {
          crossedIds := crossedIds + {track.id};
          crossedDirection := crossedDirection[track.id := TopToBottom];
          topToBottom := topToBottom + 1;
          return true;
        } else if p1.y >= lineY && p2.y < lineY {
          crossedIds := crossedIds + {track.id};
          crossedDirection := crossedDirection[track.id := BottomToTop];
          bottomToTop := bottomToTop + 1;
          return true;
        }
      } else {
        var lineX := countingLine.value.x1 as real;
        if p1.x < lineX && p2.x >= lineX {
          crossedIds := crossedIds + {track.id};
          crossedDirection := crossedDirection[track.id := LeftToRight];
          leftToRight := leftToRight + 1;
          return true;
        } else if p1.x >= lineX && p2.x < lineX {
          crossedIds := crossedIds + {track.id};
          crossedDirection := crossedDirection[track.id := RightToLeft];
          rightToLeft := rightToLeft + 1;
          return true;
        }
      }
      return false;
    }

    /** The loop of process_frame over the tracker's output: every track's id joins the
        seen ids, and every track is checked against the line, the total counting those
        that cross. */
    method CountFrame(tracks: seq<TrackResult>)
      modifies this
      ensures Counts() == CountTracks(old(Counts()), countingLine, lineDirection, tracks)
      ensures totalIds == old(totalIds) + Ids(tracks)
      ensures countingLine == old(countingLine) && linePosition == old(linePosition)
      ensures lineDirection == old(lineDirection) && paused == old(paused)
    {
      ghost var start := Counts();
      ghost var line, direction := countingLine, lineDirection;
      var i := 0;
      while i < |tracks|
        invariant 0 <= i <= |tracks|
        invariant countingLine == line && linePosition == old(linePosition)
        invariant lineDirection == direction && paused == old(paused)
        invariant Counts() == CountTracks(start, line, direction, tracks[..i])
        invariant totalIds == old(totalIds) + Ids(tracks[..i])
      {
        ghost var before := Counts();
        CountOne(tracks[i]);
        CountTracksStep(start, line, direction, tracks, i);
        assert Counts() == CountTrack(before, line, direction, tracks[i]);
        i := i + 1;
      }
      assert tracks[..i] == tracks;
    }

    /** One iteration of that loop: the id is seen, and the total counts the track when
        the check says it crossed. */
    method CountOne(track: TrackResult)
      modifies this
      ensures Counts() == CountTrack(old(Counts()), countingLine, lineDirection, track)
      ensures totalIds == old(totalIds) + {track.id}
      ensures countingLine == old(countingLine) && linePosition == old(linePosition)
      ensures lineDirection == old(lineDirection) && paused == old(paused)
    {
      totalIds := totalIds + {track.id};
      var crossed := CheckLineCrossing(track);
      if crossed {
        counter := counter + 1;
      }
    }

    /** The tracker call of process_frame on an unpaused frame of h rows and w columns:
        one tracker step on the frame's detections with the frame's shape, and its output. */
    method TrackFrame(h: nat, w: nat, dets: seq<Detection>) returns (tracks: seq<TrackResult>)
      requires tracker.Valid() && !paused
      requires dets != [] ==> FrameOk(Frame(w, h))
      modifies tracker, tracker.trackers
      ensures tracker.Valid()
      ensures Step(tracker.Views(), tracker.nextId) ==
        TrackerStep(old(tracker.Views()), old(tracker.nextId), dets, Some((h as int, w as int)),
                    tracker.maxLost, tracker.scoreThresh, tracker.filter, tracker.solve)
      ensures tracks == Results(tracker.Views())
    {
      tracks := tracker.Update(dets, Some((h as int, w as int)));
      assert tracks == Results(tracker.Views());
    }

    /** The counting part of process_frame on a frame of h rows and w columns, given the
        tracker's output for it: nothing while paused; otherwise the line is rebuilt for
        the frame, and every track's id is noted and checked against the line, the total
        counting the tracks that cross. */
    method ProcessFrame(h: nat, w: nat, tracks: seq<TrackResult>)
      requires Valid()
      modifies this
      ensures Valid()
      ensures old(paused) ==> Counts() == old(Counts()) && totalIds == old(totalIds) &&
                              countingLine == old(countingLine)
      ensures !old(paused) ==>
        countingLine == Some(LineFor(lineDirection, linePosition, h, w)) &&
        Counts() == CountTracks(old(Counts()), countingLine, lineDirection, tracks) &&
        totalIds == old(totalIds) + Ids(tracks)
      ensures linePosition == old(linePosition) && lineDirection == old(lineDirection) && paused == old(paused)
    {
      if paused {
        return;
      }
      ghost var start := Counts();
      assert TallyValid(start);
      countingLine := Some(LineFor(lineDirection, linePosition, h, w));
      LineWithinFrame(lineDirection, linePosition, h, w);
      CountFrame(tracks);
      CountTracksKeepsValid(start, countingLine, lineDirection, tracks);
    }
  }
}
