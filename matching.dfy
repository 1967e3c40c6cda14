/** One association pass of the tracker: a cost matrix over (reference boxes) x
    (detection boxes), an optimal-assignment solver, and the acceptance filter. */
module Matching {
  import opened Geometry

  /** Acceptance ceiling on a pair's cost. */
  const MatchThreshold: real := 0.3
  /** Gating radius as a fraction of the frame diagonal. */
  const MaxDistanceFactor: real := 0.1
  /** Base of the recovery time-decay weight. */
  const DecayFactor: real := 0.9
  /** Cost left in the matrix for a pair that fails the distance gate. */
  const GatedCost: real := 2.0

  /** Frame size in pixels, as the tracker uses it (width, height). */
  datatype Frame = Frame(width: int, height: int)

  /** Squared frame diagonal, W^2 + H^2. */
  function DiagonalSq(f: Frame): real {
    (f.width * f.width + f.height * f.height) as real
  }

  /** The frame diagonal used as a divisor must not vanish. */
  predicate FrameOk(f: Frame) {
    DiagonalSq(f) > 0.0
  }

  /** Squared gating radius: (MaxDistanceFactor * sqrt(W^2 + H^2))^2. */
  function MaxDistanceSq(f: Frame): real {
    DiagonalSq(f) * MaxDistanceFactor * MaxDistanceFactor
  }

  function DistSq(p: Point, q: Point): real {
    (q.x - p.x) * (q.x - p.x) + (q.y - p.y) * (q.y - p.y)
  }

  /** A pair whose centre distance exceeds the gating radius. Comparing squares is
      the same test as comparing the square roots, both sides being non-negative. */
  predicate Gated(reference: Box, det: Box, f: Frame) {
    DistSq(Center(reference), Center(det)) > MaxDistanceSq(f)
  }

  /** Position similarity D = 1 - d^2 / c^2 of the two centres. */
  function Proximity(reference: Box, det: Box, f: Frame): real
    requires FrameOk(f)
  {
    1.0 - DistSq(Center(reference), Center(det)) / DiagonalSq(f)
  }

  function Pow(b: real, n: nat): real {
    if n == 0 then 1.0 else b * Pow(b, n - 1)
  }

  /** Recovery weight 1 - DecayFactor^lost. */
  function TimeDecay(lost: nat): real {
    1.0 - Pow(DecayFactor, lost)
  }

  /** The three passes of a frame. */
  datatype Pass = HighScore | LowScore | Recovery

  /** The cost a pass writes into the matrix for one pair: the sentinel for a gated pair,
      otherwise one minus the pass's similarity. `lost` is used by recovery only. */
  function PairCost(pass: Pass, reference: Box, det: Box, lost: nat, f: Frame): (r: real)
    requires FrameOk(f)
    ensures r == GatedCost <==> Gated(reference, det, f)
    ensures !Gated(reference, det, f) ==> 0.0 <= r <= 1.0
  {
    if Gated(reference, det, f) then GatedCost
    else
      UngatedProximity(reference, det, f);
      match pass
      case HighScore => 1.0 - Proximity(reference, det, f)
      case LowScore => 1.0 - (ComputeIou(reference, det) + Proximity(reference, det, f)) / 2.0
      case Recovery =>
        var s := (ComputeIou(reference, det) + Proximity(reference, det, f)) / 2.0;
        PowNonNegative(lost);
        MulMonotone(s, TimeDecay(lost), 1.0, 1.0);
        1.0 - s * TimeDecay(lost)
  }

  type CostMatrix = seq<seq<real>>

  /** The matrix a pass builds: row i for reference i, column j for detection j. */
  function CostMatrixOf(pass: Pass, refs: seq<Box>, losts: seq<nat>, dets: seq<Box>, f: Frame): (c: CostMatrix)
    requires |losts| == |refs| && FrameOk(f)
  {
    seq(|refs|, i requires 0 <= i < |refs| =>
      seq(|dets|, j requires 0 <= j < |dets| => PairCost(pass, refs[i], dets[j], losts[i], f)))
  }

  function Width(c: CostMatrix): nat {
    if |c| == 0 then 0 else |c[0]|
  }

  /** Distinct in-range rows and distinct in-range columns: a one-to-one partial assignment. */
  predicate ValidAssignment(pairs: seq<(nat, nat)>, n: nat, m: nat) {
    (forall p :: p in pairs ==> p.0 < n && p.1 < m) &&
    (forall k, l :: 0 <= k < l < |pairs| ==> pairs[k].0 != pairs[l].0 && pairs[k].1 != pairs[l].1)
  }

  /** The optimal-assignment solver, returning its (row, column) pairs. */
  type Solver = CostMatrix -> seq<(nat, nat)>

  /** All that is assumed of the solver: its pairs form a one-to-one assignment inside
      the matrix. Optimality is not assumed. */
  ghost predicate IsAssignmentSolver(solve: Solver) {
    forall c: CostMatrix :: ValidAssignment(solve(c), |c|, Width(c))
  }

  predicate InMatrix(c: CostMatrix, pairs: seq<(nat, nat)>) {
    forall k :: 0 <= k < |pairs| ==> pairs[k].0 < |c| && pairs[k].1 < |c[pairs[k].0]|
  }

  /** The solver's pairs whose cost is below MatchThreshold, in solver order. */
  function AcceptedPairs(c: CostMatrix, pairs: seq<(nat, nat)>): seq<(nat, nat)>
    requires InMatrix(c, pairs)
  {
    if pairs == [] then []
    else
      var rest := AcceptedPairs(c, pairs[..|pairs| - 1]);
      var p := pairs[|pairs| - 1];
      if c[p.0][p.1] < MatchThreshold then rest + [p] else rest
  }

  /** What one pass returns: nothing when either side is empty, otherwise the accepted
      solver pairs on the pass's cost matrix. */
  function PassResult(pass: Pass, refs: seq<Box>, losts: seq<nat>, dets: seq<Box>, f: Frame, solve: Solver): (r: seq<(nat, nat)>)
    requires |losts| == |refs| && FrameOk(f)
    requires IsAssignmentSolver(solve)
    ensures ValidAssignment(r, |refs|, |dets|)
  {
    if |refs| == 0 || |dets| == 0 then []
    else
      var c := CostMatrixOf(pass, refs, losts, dets, f);
      assert Width(c) == |dets|;
      assert ValidAssignment(solve(c), |c|, Width(c));
      AcceptedOneToOne(c, solve(c), |refs|, |dets|);
      AcceptedPairs(c, solve(c))
  }

  function Rows(pairs: seq<(nat, nat)>): (rows: seq<nat>)
    ensures |rows| == |pairs|
  {
    seq(|pairs|, k requires 0 <= k < |pairs| => pairs[k].0)
  }

  function Cols(pairs: seq<(nat, nat)>): (cols: seq<nat>)
    ensures |cols| == |pairs|
  {
    seq(|pairs|, k requires 0 <= k < |pairs| => pairs[k].1)
  }

  /** Builds the cost matrix of a pass in place: every cell starts at the sentinel and is
      overwritten only for pairs inside the gating radius. */
  method FillCostMatrix(pass: Pass, refs: seq<Box>, losts: seq<nat>, dets: seq<Box>, f: Frame) returns (cost: array2<real>)
    requires |losts| == |refs| && FrameOk(f)
    ensures cost.Length0 == |refs| && cost.Length1 == |dets|
    ensures forall i, j :: 0 <= i < |refs| && 0 <= j < |dets| ==>
      cost[i, j] == PairCost(pass, refs[i], dets[j], losts[i], f)
  {
    cost := new real[|refs|, |dets|]((i, j) => GatedCost);
    var i := 0;
    while i < |refs|
      invariant 0 <= i <= |refs|
      invariant forall i', j :: 0 <= i' < i && 0 <= j < |dets| ==>
        cost[i', j] == PairCost(pass, refs[i'], dets[j], losts[i'], f)
      invariant forall i', j :: i <= i' < |refs| && 0 <= j < |dets| ==> cost[i', j] == GatedCost
    {
      var j := 0;
      while j < |dets|
        invariant 0 <= j <= |dets|
        invariant forall i', j' :: 0 <= i' < i && 0 <= j' < |dets| ==>
          cost[i', j'] == PairCost(pass, refs[i'], dets[j'], losts[i'], f)
        invariant forall j' :: 0 <= j' < j ==> cost[i, j'] == PairCost(pass, refs[i], dets[j'], losts[i], f)
        invariant forall i', j' :: i <= i' < |refs| && 0 <= j' < |dets| && (i' != i || j' >= j) ==>
          cost[i', j'] == GatedCost
      {
        if !Gated(refs[i], dets[j], f) {
          cost[i, j] := PairCost(pass, refs[i], dets[j], losts[i], f);
        }
        j := j + 1;
      }
      i := i + 1;
    }
  }

  /** The value of a filled matrix, as the solver receives it. */
  function Contents(cost: array2<real>): (c: CostMatrix)
    reads cost
  {
    seq(cost.Length0, i requires 0 <= i < cost.Length0 reads cost =>
      seq(cost.Length1, j requires 0 <= j < cost.Length1 reads cost => cost[i, j]))
  }

  /** Keeps, in solver order, the pairs whose cost is below MatchThreshold. */
  method AcceptPairs(c: CostMatrix, pairs: seq<(nat, nat)>) returns (valid: seq<(nat, nat)>)
    requires InMatrix(c, pairs)
    ensures valid == AcceptedPairs(c, pairs)
    ensures forall p :: p in valid ==> p in pairs && c[p.0][p.1] < MatchThreshold
  {
    valid := [];
    var k := 0;
    while k < |pairs|
      invariant 0 <= k <= |pairs|
      invariant valid == AcceptedPairs(c, pairs[..k])
    {
      assert pairs[..k + 1][..k] == pairs[..k];
      if c[pairs[k].0][pairs[k].1] < MatchThreshold {
        valid := valid + [pairs[k]];
      }
      k := k + 1;
    }
    assert pairs[..|pairs|] == pairs;
    AcceptedSound(c, pairs);
  }

  /** One complete pass: the shared body of the tracker's three matching methods. */
  method RunPass(pass: Pass, refs: seq<Box>, losts: seq<nat>, dets: seq<Box>, f: Frame, solve: Solver)
    returns (valid: seq<(nat, nat)>)
    requires |losts| == |refs| && FrameOk(f)
    requires IsAssignmentSolver(solve)
    ensures valid == PassResult(pass, refs, losts, dets, f, solve)
  {
    if |refs| == 0 || |dets| == 0 {
      return [];
    }
    var cost := FillCostMatrix(pass, refs, losts, dets, f);
    var c := Contents(cost);
    ContentsIsCostMatrix(pass, refs, losts, dets, f, cost);
    var pairs := solve(c);
    assert ValidAssignment(pairs, |c|, Width(c));
    valid := AcceptPairs(c, pairs);
  }

  lemma ContentsIsCostMatrix(pass: Pass, refs: seq<Box>, losts: seq<nat>, dets: seq<Box>, f: Frame, cost: array2<real>)
    requires |losts| == |refs| && FrameOk(f)
    requires cost.Length0 == |refs| && cost.Length1 == |dets|
    requires forall i, j :: 0 <= i < |refs| && 0 <= j < |dets| ==>
      cost[i, j] == PairCost(pass, refs[i], dets[j], losts[i], f)
    ensures Contents(cost) == CostMatrixOf(pass, refs, losts, dets, f)
  {
    var c, m := Contents(cost), CostMatrixOf(pass, refs, losts, dets, f);
    forall i | 0 <= i < |refs| ensures c[i] == m[i] {
      assert |c[i]| == |m[i]|;
    }
  }

  // ---------------------------------------------------------------------------
  // Properties of one pass

  /** Every accepted pair is a solver pair whose cost is below MatchThreshold, and
      acceptance keeps the solver's relative order. */
  lemma {:induction false} AcceptedSound(c: CostMatrix, pairs: seq<(nat, nat)>)
    requires InMatrix(c, pairs)
    ensures forall p :: p in AcceptedPairs(c, pairs) ==> p in pairs && c[p.0][p.1] < MatchThreshold
    ensures forall p :: p in pairs && c[p.0][p.1] < MatchThreshold ==> p in AcceptedPairs(c, pairs)
  {
    if pairs != [] {
      var init := pairs[..|pairs| - 1];
      AcceptedSound(c, init);
      assert pairs == init + [pairs[|pairs| - 1]];
    }
  }

  /** A subsequence-like filter of a one-to-one assignment is one-to-one. */
  lemma {:induction false} AcceptedOneToOne(c: CostMatrix, pairs: seq<(nat, nat)>, n: nat, m: nat)
    requires InMatrix(c, pairs) && ValidAssignment(pairs, n, m)
    ensures ValidAssignment(AcceptedPairs(c, pairs), n, m)
  {
    if pairs != [] {
      var init := pairs[..|pairs| - 1];
      var p := pairs[|pairs| - 1];
      assert ValidAssignment(init, n, m);
      AcceptedOneToOne(c, init, n, m);
      AcceptedSound(c, init);
      var rest := AcceptedPairs(c, init);
      forall q | q in rest ensures q.0 != p.0 && q.1 != p.1 {
        var k :| 0 <= k < |init| && init[k] == q;
        assert pairs[k] == q && pairs[|pairs| - 1] == p;
      }
    }
  }

  /** What every pass guarantees: a one-to-one assignment between in-range references and
      detections, each pair inside the gating radius and below the acceptance threshold. */
  lemma PassResultSound(pass: Pass, refs: seq<Box>, losts: seq<nat>, dets: seq<Box>, f: Frame, solve: Solver)
    requires |losts| == |refs| && FrameOk(f)
    requires IsAssignmentSolver(solve)
    ensures forall p :: p in PassResult(pass, refs, losts, dets, f, solve) ==>
      p.0 < |refs| && p.1 < |dets| &&
      PairCost(pass, refs[p.0], dets[p.1], losts[p.0], f) < MatchThreshold &&
      !Gated(refs[p.0], dets[p.1], f)
  {
    if |refs| != 0 && |dets| != 0 {
      var c := CostMatrixOf(pass, refs, losts, dets, f);
      assert ValidAssignment(solve(c), |c|, Width(c));
      AcceptedSound(c, solve(c));
    }
  }

  /** Gating: a pair outside the gating radius keeps the sentinel cost, which no
      acceptance test lets through, whatever the pass. */
  lemma GatedPairRejected(pass: Pass, refs: seq<Box>, losts: seq<nat>, dets: seq<Box>, f: Frame, solve: Solver, i: nat, j: nat)
    requires |losts| == |refs| && FrameOk(f)
    requires IsAssignmentSolver(solve)
    requires i < |refs| && j < |dets| && Gated(refs[i], dets[j], f)
    ensures (i, j) !in PassResult(pass, refs, losts, dets, f, solve)
  {
    PassResultSound(pass, refs, losts, dets, f, solve);
  }

  /** With the default constants the high-score pass accepts a solver pair exactly when it
      lies inside the gating radius: its cost d^2/c^2 is then at most 0.01 < 0.3. */
  lemma HighScoreAcceptsUngated(refs: seq<Box>, losts: seq<nat>, dets: seq<Box>, f: Frame, solve: Solver)
    requires |losts| == |refs| && FrameOk(f)
    requires IsAssignmentSolver(solve)
    requires |refs| > 0 && |dets| > 0
    ensures forall p :: p in solve(CostMatrixOf(HighScore, refs, losts, dets, f)) ==>
      (p in PassResult(HighScore, refs, losts, dets, f, solve) <==> !Gated(refs[p.0], dets[p.1], f))
    ensures forall p :: p in PassResult(HighScore, refs, losts, dets, f, solve) ==>
      PairCost(HighScore, refs[p.0], dets[p.1], 0, f) <= 0.01
  {
    var c := CostMatrixOf(HighScore, refs, losts, dets, f);
    PassResultSound(HighScore, refs, losts, dets, f, solve);
    forall p | p in PassResult(HighScore, refs, losts, dets, f, solve)
      ensures PairCost(HighScore, refs[p.0], dets[p.1], 0, f) <= 0.01
    {
      UngatedCostSmall(refs[p.0], dets[p.1], f);
    }
    assert ValidAssignment(solve(c), |c|, Width(c));
    AcceptedSound(c, solve(c));
    forall p | p in solve(c)
      ensures p in PassResult(HighScore, refs, losts, dets, f, solve) <==> !Gated(refs[p.0], dets[p.1], f)
    {
      var k :| 0 <= k < |solve(c)| && solve(c)[k] == p;
      if !Gated(refs[p.0], dets[p.1], f) {
        UngatedCostSmall(refs[p.0], dets[p.1], f);
      }
    }
  }

  /** Inside the gating radius the high-score cost is d^2/c^2 <= 0.01. */
  lemma UngatedCostSmall(reference: Box, det: Box, f: Frame)
    requires FrameOk(f) && !Gated(reference, det, f)
    ensures PairCost(HighScore, reference, det, 0, f) <= 0.01
  {
    var d2, c2 := DistSq(Center(reference), Center(det)), DiagonalSq(f);
    assert d2 <= c2 * 0.01;
    assert PairCost(HighScore, reference, det, 0, f) == d2 / c2;
    assert d2 / c2 * c2 == d2;
  }

  /** The low-score pass needs real overlap: an accepted pair has IoU above 0.4 with the
      predicted box, because D never exceeds 1. */
  lemma LowScoreNeedsOverlap(refs: seq<Box>, losts: seq<nat>, dets: seq<Box>, f: Frame, solve: Solver)
    requires |losts| == |refs| && FrameOk(f)
    requires IsAssignmentSolver(solve)
    ensures forall p :: p in PassResult(LowScore, refs, losts, dets, f, solve) ==>
      ComputeIou(refs[p.0], dets[p.1]) > 0.4
  {
    PassResultSound(LowScore, refs, losts, dets, f, solve);
    forall p | p in PassResult(LowScore, refs, losts, dets, f, solve)
      ensures ComputeIou(refs[p.0], dets[p.1]) > 0.4
    {
      ProximityAtMostOne(refs[p.0], dets[p.1], f);
    }
  }

  /** Inside the gating radius the centres are close: D = 1 - d^2/c^2 is at least 0.99. */
  lemma UngatedProximity(reference: Box, det: Box, f: Frame)
    requires FrameOk(f) && !Gated(reference, det, f)
    ensures 0.99 <= Proximity(reference, det, f) <= 1.0
  {
    var d2, c2 := DistSq(Center(reference), Center(det)), DiagonalSq(f);
    assert 0.0 <= d2 <= c2 * 0.01;
    assert d2 / c2 * c2 == d2;
  }

  lemma ProximityAtMostOne(reference: Box, det: Box, f: Frame)
    requires FrameOk(f)
    ensures Proximity(reference, det, f) <= 1.0
  {
    var d2, c2 := DistSq(Center(reference), Center(det)), DiagonalSq(f);
    assert 0.0 <= d2;
    assert d2 / c2 * c2 == d2;
  }

  /** DecayFactor^n never increases with n and stays non-negative. */
  lemma {:induction false} PowDecreasing(n: nat, k: nat)
    requires n <= k
    ensures 0.0 <= Pow(DecayFactor, k) <= Pow(DecayFactor, n)
  {
    if n < k {
      PowDecreasing(n, k - 1);
    } else {
      PowNonNegative(k);
    }
  }

  lemma {:induction false} PowNonNegative(n: nat)
    ensures 0.0 <= Pow(DecayFactor, n) <= 1.0
  {
    if n > 0 {
      PowNonNegative(n - 1);
    }
  }

  /** With a weight of 1 - 0.9^lost, IoU <= 1 and D <= 1, a recovery pair is accepted only
      when 0.9^lost < 0.3, that is only for a track lost at least 12 frames
      (0.9^11 is about 0.314). In particular a track with lost == 0 (weight 0, cost 1) is
      never recovered. */
  lemma RecoveryNeedsLongAbsence(refs: seq<Box>, losts: seq<nat>, dets: seq<Box>, f: Frame, solve: Solver)
    requires |losts| == |refs| && FrameOk(f)
    requires IsAssignmentSolver(solve)
    ensures forall p :: p in PassResult(Recovery, refs, losts, dets, f, solve) ==>
      TimeDecay(losts[p.0]) > 1.0 - MatchThreshold && losts[p.0] >= 12
  {
    PassResultSound(Recovery, refs, losts, dets, f, solve);
    forall p | p in PassResult(Recovery, refs, losts, dets, f, solve)
      ensures TimeDecay(losts[p.0]) > 1.0 - MatchThreshold && losts[p.0] >= 12
    {
      RecoveryPairNeedsLongAbsence(refs[p.0], dets[p.1], losts[p.0], f);
    }
  }

  /** The single-pair form of RecoveryNeedsLongAbsence. */
  lemma RecoveryPairNeedsLongAbsence(reference: Box, det: Box, lost: nat, f: Frame)
    requires FrameOk(f)
    requires PairCost(Recovery, reference, det, lost, f) < MatchThreshold
    ensures TimeDecay(lost) > 1.0 - MatchThreshold && lost >= 12
  {
    ProximityAtMostOne(reference, det, f);
    PowNonNegative(lost);
    var s := (ComputeIou(reference, det) + Proximity(reference, det, f)) / 2.0;
    var w := TimeDecay(lost);
    assert s <= 1.0 && w >= 0.0;
    assert !Gated(reference, det, f);
    assert PairCost(Recovery, reference, det, lost, f) == 1.0 - s * w;
    assert s * w > 0.7;
    MulMonotone(s, w, 1.0, w);
    assert w > 0.7;
    if lost < 12 {
      PowDecreasing(lost, 11);
    }
  }
}
