# Multi-object tracker and line counter: a Dafny model

This project models two parts of a video object-counting tool:

- **The tracker.** `tracker.py` implements a two-stage, ByteTrack-style multi-object tracker with a third trajectory-recovery pass.
- **The counting line.** The `DetectionWorker` of `gui_main.py` runs that tracker on each frame. It counts the tracked objects whose trajectory crosses a horizontal or vertical line, in each of four directions.

The model is split into these modules:

- `Geometry` (`geometry.dfy`): axis-aligned boxes, their centres and areas, and `compute_iou`.
- `Matching` (`matching.dfy`):
  - the constants of the tracker: match threshold 0.3, distance factor 0.1, decay factor 0.9;
  - the gating radius and the cost each pass writes into its cost matrix;
  - the method that fills the matrix;
  - the abstract assignment solver;
  - the filtering of the solver's pairs by the match threshold.
- `KalmanTracking` (`kalman_tracker.dfy`): the `KalmanTracker` object. Its fields are age, lost, the bounded history deque, the last detection, the filter state and the cached prediction. Its methods update those fields in place. The filter arithmetic is a parameter, a pair of functions.
- `Association` (`association.dfy`): the index bookkeeping of `ObjectTracker.update`. This covers:
  - the score split;
  - unmatched tracks and detections;
  - the assigned-detection flags;
  - the recovered tracks.

  It also defines the resulting per-track `Match` (by score, by overlap, recovered or missed) and proves that the matches are one-to-one.
- `ObjectTracking` (`object_tracker.dfy`):
  - the `ObjectTracker` class, whose track list is a sequence of `KalmanTracker` objects updated in place;
  - `TrackerStep`, a value-level specification of one call of `update`;
  - the proof that `Update` performs exactly that step and keeps the track-set invariant. The invariant: ids strictly increasing and below `next_id`, and histories non-empty and bounded.
- `LineCounting` (`line_counter.dfy`):
  - the counting part of `DetectionWorker`, as a class;
  - the tally invariant: one recorded direction per counted id, each directional counter equal to the number of ids counted in that direction, and the total equal to the number of counted ids;
  - the proof that every operation keeps the tally invariant and counts an id at most once.

## Model

| member | source | states |
|---|---|---|
| Geometry.ComputeIou | tracker.py:7-22 | IoU always lies in [0, 1]. It is 0 when the union is not positive or when the boxes do not overlap along some axis. A positive IoU implies both boxes are well-formed. |
| Geometry.IntersectionBounded | tracker.py:7-22 | The intersection area is non-negative. When it is positive, both boxes are proper and it is at most the area of each and at most the union. |
| Geometry.IouSymmetric | tracker.py:7-22 | IoU does not depend on the order of its two boxes. |
| Geometry.IouOfItself | tracker.py:7-22 | A proper box has IoU exactly 1 with itself. |
| Matching.PairCost | tracker.py:287-296 | The cost a pass writes for a pair is exactly 2.0 if and only if the pair is outside the gating radius. Inside it, the cost lies in [0, 1], for the position cost (first pass), the IoU-and-position cost (second pass) and the time-decayed cost (recovery, tracker.py:381-385) alike. |
| Matching.PassResult | tracker.py:273-396 | The pairs a matching pass keeps form a one-to-one assignment inside the cost matrix, provided the solver returns one. |
| Matching.FillCostMatrix | tracker.py:280-297 | The filled array has one row per reference box and one column per detection. Every cell holds the pass's cost for that pair: the initial 2.0 when the pair is gated (and so skipped), otherwise one minus the similarity. |
| Matching.AcceptPairs | tracker.py:300-307 | The kept pairs are exactly the solver's pairs whose cost is below 0.3, in solver order. |
| Matching.RunPass | tracker.py:273-308 | Running a pass (fill, solve, filter) yields exactly `PassResult` for that pass. |
| Matching.ContentsIsCostMatrix | tracker.py:280-297 | The array written cell by cell equals the cost matrix defined as a value. |
| Matching.AcceptedSound | tracker.py:300-307 | A pair is kept if and only if the solver returned it and its cost is below the threshold. |
| Matching.AcceptedOneToOne | tracker.py:300-307 | Filtering a one-to-one assignment leaves a one-to-one assignment. |
| Matching.PassResultSound | tracker.py:287-307 | Every kept pair is in range, costs less than 0.3 and lies inside the gating radius of 0.1 × the frame diagonal. |
| Matching.GatedPairRejected | tracker.py:289-291 | A pair whose centres are further apart than the gating radius is never matched, in any pass. |
| Matching.HighScoreAcceptsUngated | tracker.py:292-304 | In the first pass, a pair the solver returns is kept if and only if it is not gated. Every pair the first pass keeps has a position cost of at most 0.01. |
| Matching.UngatedCostSmall | tracker.py:292-296 | An ungated pair's first-pass cost 1 − D is at most 0.01. |
| Matching.LowScoreNeedsOverlap | tracker.py:332-347 | Every pair the second pass keeps has IoU > 0.4 between the predicted box and the detection. |
| Matching.PowDecreasing | tracker.py:146 | Powers of the decay factor 0.9 are non-negative and do not increase with the exponent. |
| Matching.RecoveryNeedsLongAbsence | tracker.py:374-394 | Every pair recovery keeps has time decay above 0.7, so its track has been lost for at least 12 frames. |
| Matching.RecoveryPairNeedsLongAbsence | tracker.py:381-386 | For one pair: a recovery cost below 0.3 forces lost ≥ 12, because 0.9^11 > 0.3. |
| KalmanTracking.Push | tracker.py:117-121 | Appending to the bounded history keeps the newest min(len + 1, capacity) points, the new point last and the older ones in order. |
| KalmanTracking.KalmanTracker.constructor | tracker.py:58-95 | A new track has age 0 and lost 0, and its last detection is the given box. Its filter starts at the box's centre and size with zero velocity. Its history is the single box centre. |
| KalmanTracking.KalmanTracker.Predict | tracker.py:97-105 | The filter takes one prediction step and the age goes up by one. The returned box, read from the predicted state, is cached. Nothing else changes. |
| KalmanTracking.KalmanTracker.Update | tracker.py:107-115 | The filter is corrected with the box, which becomes the last detection. Lost is reset to 0, and the corrected centre is appended to the bounded history. |
| KalmanTracking.KalmanTracker.UpdateHistory | tracker.py:117-121 | The history becomes the bounded append of the current centre, and stays between 1 and the capacity. |
| KalmanTracking.KalmanTracker.GetState | tracker.py:123-127 | The reported box is centred on the filter's corrected centre and has the filter's width and height. |
| KalmanTracking.KalmanTracker.GetLastDetection | tracker.py:129-131 | Returns the track's last detection: the box it was created from, or the box of its most recent update. The recovery pass matches against this box. |
| KalmanTracking.NewTrackReportsItsBox | tracker.py:58-95 | A freshly created track reports exactly the detection box it was created from, with that box's centre as its history. |
| Association.ScoreIndices | tracker.py:178-179 | Lists the detections whose score is ≥ the threshold (or < it), increasing. An index is listed if and only if its score is on that side. |
| Association.Complement | tracker.py:188 | Lists the indices below n that are not taken, increasing; membership holds if and only if. This covers unmatched_trackers, unmatched_tracks and unmatched_dets. |
| Association.Associate | tracker.py:175-214 | The table built from the three passes is well-formed: every index list is increasing and in range, and every pass's pairs are one-to-one. It is consistent with update's own definitions: the score split, the unmatched tracks and detections, and the detections the first two passes consumed. |
| Association.MatchOf | tracker.py:237-253 | How a track ends the frame, looked up in the closing loop's order. A matched detection always exists. The first pass takes precedence: a track is matched by score exactly when the first pass names it, and by overlap exactly when only the second does. |
| Association.TrackSetsDisjoint | tracker.py:184-234 | The tracks matched by score, by overlap and by recovery are each duplicate-free and pairwise disjoint. |
| Association.DetectionSetsDisjoint | tracker.py:202-231 | The detections consumed by the three passes are duplicate-free and pairwise disjoint, and all of them are in range. |
| Association.MatchSource | tracker.py:237-253 | Each track's match comes from a pair of the pass that names it. |
| Association.MatchesOneToOne | tracker.py:184-253 | No two tracks are matched to the same detection in one frame, and every matched detection exists. |
| Association.MatchTier | tracker.py:237-253 | A track matched by score, by overlap or by recovery got its detection from the pass of that tier. |
| Association.DetectionsPartitioned | tracker.py:209-260 | A detection spawns a new track if and only if no existing track was matched to it. |
| Association.HighPlaced | tracker.py:239-243 | Each first-pass pair makes its track's match "by score", with that detection. |
| Association.LowPlaced | tracker.py:244-248 | Each second-pass pair makes its track's match "by overlap", with that detection. |
| Association.RecoveryPlaced | tracker.py:225-234 | Each recovery pair makes its track's match "recovered", with that detection. |
| Association.MatchGuarantees | tracker.py:175-253 | By score: the detection scored ≥ the threshold, is ungated and costs < 0.3. By overlap: the detection scored < the threshold, is ungated, costs < 0.3 and has IoU > 0.4. Recovered: the pair is ungated against the last detection, costs < 0.3, and the track had been lost for ≥ 12 frames. |
| Association.HighMatchGuarantee | tracker.py:184-186 | The first-pass case of the above. |
| Association.LowMatchGuarantee | tracker.py:188-193 | The second-pass case of the above. |
| Association.RecoveryMatchGuarantee | tracker.py:216-234 | The recovery case of the above. |
| ObjectTracking.FrameOf | tracker.py:167-170 | The frame used for gating is (height, width) from the frame shape, or 640×480 when there is no shape. The fallback always has a usable diagonal; a given shape has one unless it is 0×0. |
| ObjectTracking.TrackerStep | tracker.py:148-271 | One call of update on values. next_id never decreases. A frame without detections keeps every track and issues no id. |
| ObjectTracking.MarkAssigned | tracker.py:208-214 | The assigned-detection flags are true exactly for the detections that the first two passes consumed. |
| ObjectTracking.SurvivorsExact | tracker.py:270 | The pruned list holds exactly the tracks whose lost count is below max_lost. |
| ObjectTracking.SurvivorsKeepTracksValid | tracker.py:270 | Pruning keeps the track-set invariant. |
| ObjectTracking.StepKeepsTracksValid | tracker.py:148-271 | One update keeps the track-set invariant: ids increasing and unique, every id issued, histories bounded. next_id never decreases. |
| ObjectTracking.PredictKeepsTracksValid | tracker.py:156-160 | Predicting every track, and then also counting a miss, keeps the track-set invariant. |
| ObjectTracking.SettleKeepsTracksValid | tracker.py:237-270 | Correcting, spawning and pruning keep the invariant and never lower next_id. |
| ObjectTracking.OutcomeFacts | tracker.py:237-253 | After the closing loop, a matched track has been corrected with its detection, has lost 0 and keeps its id. A missed track has one more lost frame. |
| ObjectTracking.EmptyFrameKeepsEveryTrack | tracker.py:156-161 | A frame without detections keeps every track, in order, with the same id, history and last detection. Each track has one more lost frame and an age one higher. No id is issued. |
| ObjectTracking.StepOutcome | tracker.py:237-270 | After an update, every track is under the miss limit. Each is either an old track (corrected with the detection it matched, or one miss further) or a new track spawned from an unmatched detection with a fresh id. |
| ObjectTracking.RecoveryNeedsUnprunedTracks | tracker.py:216-234 | With max_lost ≤ 12 (the worker uses 4), a track that survived pruning is never recovered, since recovery needs lost ≥ 12. |
| ObjectTracking.Results | tracker.py:398-408 | The tracker output has one result per track. |
| ObjectTracking.ObjectTracker.constructor | tracker.py:137-146 | A new tracker has no tracks, next_id 1, and the given miss limit and score threshold. |
| ObjectTracking.ObjectTracker.Reset | tracker.py:420-424 | Reset empties the track list and restarts ids at 1, keeping the invariant. |
| ObjectTracking.ObjectTracker.GetTrackingResults | tracker.py:398-408 | One result per track, in track order: its id, the box read from its state, and its history. The ids come out strictly increasing. |
| ObjectTracking.ObjectTracker.Update | tracker.py:148-271 | The new track list and next_id are exactly `TrackerStep` of the old ones. The invariant is kept, and the output is the results of the new tracks. |
| ObjectTracking.ObjectTracker.MissAll | tracker.py:156-160 | With no detections, every track predicts and then counts one miss. |
| ObjectTracking.ObjectTracker.PredictAll | tracker.py:175 | Every track predicts once. The returned boxes are the tracks' predicted boxes, in order. |
| ObjectTracking.ObjectTracker.BuildTable | tracker.py:178-214 | The three passes and the index lists they produce are exactly `Associate` of the predicted boxes, last detections and lost counts. |
| ObjectTracking.ObjectTracker.FirstMatching | tracker.py:273-308 | The first pass's pairs are one-to-one. Each is ungated and costs less than 0.3. |
| ObjectTracking.ObjectTracker.SecondMatching | tracker.py:310-351 | The second pass's pairs are one-to-one. Each is ungated, costs less than 0.3 and has IoU > 0.4. |
| ObjectTracking.ObjectTracker.TrajectoryRecovery | tracker.py:353-396 | The recovery pass's pairs are one-to-one, ungated against the last detection, cost less than 0.3, and their tracks had lost ≥ 12. |
| ObjectTracking.ObjectTracker.ApplyRecovery | tracker.py:216-234 | Exactly the recovered tracks are corrected. Every other track is left as predicted. The flags mark exactly the detections consumed by the three passes. |
| ObjectTracking.ObjectTracker.CloseOut | tracker.py:237-253 | Every track ends as its match decides: corrected by its first- or second-pass detection, left as recovered, or one miss further. |
| ObjectTracking.ObjectTracker.SpawnTracks | tracker.py:256-260 | Each unflagged detection, in order, becomes a new track appended after the existing ones, with consecutive fresh ids. |
| ObjectTracking.ObjectTracker.SpawnOne | tracker.py:257-260 | One new track from the box, with id next_id. next_id goes up by one. |
| ObjectTracking.ObjectTracker.Prune | tracker.py:270 | Only the tracks with lost < max_lost remain, in order, and next_id is unchanged. |
| ObjectTracking.ObjectTracker.CorrectExisting | tracker.py:209-253 | Every existing track ends as the association table decides. The assigned flags mark exactly the detections the table consumes. |
| LineCounting.Trunc | gui_main.py:414 | Truncates toward zero, as Python's `int()` does on a float. |
| LineCounting.Clamp | gui_main.py:91 | Clamps into [0, 1]: a position already in range is kept, anything below becomes 0, anything above becomes 1. |
| LineCounting.LineFor | gui_main.py:411-418 | The line rebuilt for a frame: for the horizontal direction a row from x = 0 to the frame width, for any other direction a column from y = 0 to the frame height. |
| LineCounting.LineWithinFrame | gui_main.py:411-418 | The line rebuilt from the direction and position lies inside the frame. A horizontal line is a full-width row; otherwise it is a full-height column. |
| LineCounting.CrossingMeansSidesDiffer | gui_main.py:368-397 | A trajectory's last step crosses if and only if its two points are on different sides of the line. The direction names the side it starts on. A horizontal line only yields top/bottom crossings. |
| LineCounting.CrossingOf | gui_main.py:359-397 | A trajectory with fewer than two points never crosses. A crossing of a horizontal line is top-to-bottom or bottom-to-top, and one of a vertical line is left-to-right or right-to-left. |
| LineCounting.Check | gui_main.py:350-402 | A track is counted if and only if there is a line, its id has not been counted yet and its last step crosses. Otherwise the tally is unchanged. A counted id joins the counted set with its crossing direction, and exactly that direction's counter goes up by one. |
| LineCounting.CountTrack | gui_main.py:437-440 | One iteration of the counting loop adds at most the track's id to the counted set. The total goes up by one exactly when the id is newly counted. |
| LineCounting.CountTracks | gui_main.py:436-440 | The counting loop over a frame's tracks never forgets a counted id. |
| LineCounting.TotalCountsNewIds | gui_main.py:436-440 | The total goes up by exactly the number of ids the frame newly counts, from any tally. |
| LineCounting.EmptyTallyValid | gui_main.py:73-86 | The initial (and reset) tally satisfies the tally invariant. |
| LineCounting.CounterIsSumOfDirections | gui_main.py:373-396 | Under the tally invariant, the total counter equals the sum of the four directional counters. |
| LineCounting.CountTrackKeepsValid | gui_main.py:436-440 | Counting one track keeps the tally invariant, and adds at most that track's id to the counted set. |
| LineCounting.CountTracksKeepsValid | gui_main.py:436-440 | Counting a frame's tracks keeps the tally invariant, and only ids from that frame join the counted set. |
| LineCounting.CountedOnce | gui_main.py:356-357 | An id that crosses is counted once: after it is recorded, any later check of that id counts nothing and changes nothing. |
| LineCounting.DetectionWorker.constructor | gui_main.py:62-86 | The worker starts unpaused with no line, position 0.5, horizontal direction and empty tallies. Its tracker is new, with max_lost 4 and score threshold 0.7. |
| LineCounting.DetectionWorker.Pause | gui_main.py:189-192 | Sets paused, changing nothing else. |
| LineCounting.DetectionWorker.Resume | gui_main.py:194-198 | Clears paused, changing nothing else. |
| LineCounting.DetectionWorker.SetLinePosition | gui_main.py:88-91 | The stored position is the clamped argument, and nothing else changes. |
| LineCounting.DetectionWorker.SetLineDirection | gui_main.py:93-99 | The direction becomes the argument. The line is cleared if and only if the direction changed. The tallies are untouched. |
| LineCounting.DetectionWorker.ResetCounter | gui_main.py:102-112 | All counters, the counted ids, their directions and the seen ids are cleared. The line and its settings are untouched. |
| LineCounting.DetectionWorker.CheckLineCrossing | gui_main.py:350-402 | The result and the new tally are `Check` of the old tally. Nothing is counted without a line, for an id already counted, or for a trajectory whose last step does not cross. Otherwise the id is recorded with its direction and that direction's counter goes up. |
| LineCounting.DetectionWorker.CountFrame | gui_main.py:436-440 | After the counting loop, the tally is the fold of the per-track count over the tracks, and every track id has joined the seen ids. |
| LineCounting.DetectionWorker.CountOne | gui_main.py:437-440 | One iteration: the id joins the seen ids, and the tally becomes `CountTrack` of the old one. |
| LineCounting.DetectionWorker.TrackFrame | gui_main.py:433 | The tracker takes exactly one step on the frame's detections with the frame's shape. The output is the new tracks' results. |
| LineCounting.DetectionWorker.ProcessFrame | gui_main.py:406-440 | A paused worker changes nothing. Otherwise the line is rebuilt from the frame size, the tracks are counted, and the tally invariant is kept. |

The recovery pass is not live in normal tracking. A recovered track must have been lost for at least 12 frames (`Matching.RecoveryNeedsLongAbsence`). The worker creates its tracker with `max_lost=4`, and a frame with detections prunes every track lost for 4 frames or more. So the pass can only fire after a run of at least 9 frames with no detections: the empty-frame path skips pruning (`ObjectTracking.RecoveryNeedsUnprunedTracks`, `ObjectTracking.EmptyFrameKeepsEveryTrack`). A track with 0 < lost < max_lost never gets the second chance the design describes.

## Left out

- The Kalman filter's matrix arithmetic (`cv2.KalmanFilter`): `predict` and `correct` are a parameter of the model. Only the bookkeeping around them (age, lost, history, last detection, the box read back from the state) is modelled.
- `scipy.optimize.linear_sum_assignment` is a parameter. The model assumes only that its pairs form a one-to-one assignment inside the matrix. That the assignment has minimum cost is not modelled.
- Floating-point arithmetic is modelled as exact reals: no float32 rounding, no `nan`. The gating test compares squared distances instead of taking `np.sqrt`, which is the same test on non-negative values.
- Zero-sized frames: the model excludes every zero-sized frame that has detections, with a precondition (`FrameOk`). The source divides by zero only when a pair's centres coincide: with a zero gating radius, only such a pair passes the gate. Other zero-sized frames run normally in the source and, for example, spawn tracks.
- Frame-shape fallback: the code falls back to 640×480 only when `frame_shape` is `None`, and the model follows the code. It does not also fall back on a zero size.
- `id_mapping` is left out. It starts empty, `update` only rewrites keys already present, and it is never read, so it cannot affect any result.
- `KalmanTracker.count`, the unused `frame_w`/`frame_h` fields of a track, and the `id_` default are left out. `ObjectTracker` always passes an explicit id.
- `compute_euclidean_distance`, `compute_diou` and `draw_tracks` are not called by the modelled passes; the passes compute their similarities inline.
- The recovery pass returns tracker objects that `update` looks up with `self.trackers.index`. The model returns track indices, which is the same thing since the tracker objects are distinct.
- `DetectionWorker.ProcessFrame`: the YOLO call and the conversion of its boxes to detections are left out. `process_frame` is modelled as `TrackFrame` (the tracker call) followed by `ProcessFrame` (the line and the counting loop over the tracker's output), not as one method.
- LineCounting.DetectionWorker.ProcessFrame: the line is rebuilt before the tracker call in the source and after it in the model. The two touch disjoint state, so the result is the same.
- LineCounting.DetectionWorker.CheckLineCrossing: the `try`/`except` that returns False on an exception is left out, because no exception can arise on well-formed track results.
- Detection boxes are real-valued. The source truncates YOLO's boxes to integers before tracking, which is a special case.
- The Qt thread, mutex, signals, video and USB sources, drawing, `get_color`, the GUI window and the per-frame annotation are I/O and concurrency outside the core.
