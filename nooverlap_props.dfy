/**
 * What one run of the NoOverlap propagator guarantees: it only raises lower
 * bounds, it never removes a non-overlapping placement (so it never fails
 * while one exists), on fixed bounds it fails exactly when two rectangles
 * overlap, and once every pair is certainly separated it never prunes again.
 */
module NoOverlapProps {
  import opened Domains
  import opened NoOverlapRules

  // ---------------------------------------------------------------------------
  // Only lower bounds move, and only upwards

  lemma NarrowerTrans(b2: Box, b1: Box, b0: Box)
    requires Narrower(b2, b1) && Narrower(b1, b0)
    ensures Narrower(b2, b0)
  {
  }

  lemma {:induction false} PairRulesNarrows(b: Box, r: Rects, i: nat, j: nat)
    requires Fits(b, r) && i < |r.x| && j < |r.x|
    ensures PairRules(b, r, i, j).Some? ==>
              PairRules(b, r, i, j).value.hi == b.hi && Narrower(PairRules(b, r, i, j).value, b)
  {
    var o1 := ForceUp(b, r, i, j);
    if o1.Some? {
      var o2 := ForceDown(o1.value, r, i, j);
      if o2.Some? {
        var o3 := ForceRight(o2.value, r, i, j);
        if o3.Some? {
          var o4 := ForceLeft(o3.value, r, i, j);
          assert PairRules(b, r, i, j) == o4;
        }
      }
    }
  }

  lemma {:induction false} PairRulesKeepsDomains(b: Box, r: Rects, i: nat, j: nat)
    requires Fits(b, r) && WellFormed(b) && i < |r.x| && j < |r.x|
    ensures PairRules(b, r, i, j).Some? ==> WellFormed(PairRules(b, r, i, j).value)
  {
    var o1 := ForceUp(b, r, i, j);
    if o1.Some? {
      var o2 := ForceDown(o1.value, r, i, j);
      if o2.Some? {
        var o3 := ForceRight(o2.value, r, i, j);
        if o3.Some? {
          var o4 := ForceLeft(o3.value, r, i, j);
          assert PairRules(b, r, i, j) == o4;
        }
      }
    }
  }

  lemma {:induction false} RunFromNarrows(b: Box, r: Rects, i: nat, j: nat)
    requires Fits(b, r) && i < j
    ensures RunFrom(b, r, i, j).Some? ==>
              var b' := RunFrom(b, r, i, j).value;
              b'.hi == b.hi && Narrower(b', b) && (WellFormed(b) ==> WellFormed(b'))
    decreases |r.x| - i, |r.x| - j
  {
    if i + 1 >= |r.x| {
    } else if j >= |r.x| {
      RunFromNarrows(b, r, i + 1, i + 2);
    } else {
      PairRulesNarrows(b, r, i, j);
      if WellFormed(b) {
        PairRulesKeepsDomains(b, r, i, j);
      }
      RunFromPair(b, r, i, j);
      if PairRules(b, r, i, j).Some? {
        var b1 := PairRules(b, r, i, j).value;
        RunFromNarrows(b1, r, i, j + 1);
        if RunFrom(b1, r, i, j + 1).Some? {
          NarrowerTrans(RunFrom(b1, r, i, j + 1).value, b1, b);
        }
      }
    }
  }

  /** A run never lowers a lower bound and never touches an upper bound. */
  lemma PropagationOnlyRaisesLowerBounds(b: Box, r: Rects)
    requires Fits(b, r)
    ensures Propagation(b, r).Some? ==>
              var b' := Propagation(b, r).value;
              b'.hi == b.hi && |b'.lo| == |b.lo| &&
              (forall k :: 0 <= k < |b.lo| ==> b.lo[k] <= b'.lo[k]) &&
              (WellFormed(b) ==> WellFormed(b'))
  {
    RunFromNarrows(b, r, 0, 1);
  }

  // ---------------------------------------------------------------------------
  // Soundness: no non-overlapping placement inside the bounds is pruned

  lemma {:induction false} PairRulesKeeps(b: Box, r: Rects, i: nat, j: nat, v: seq<int>)
    requires Fits(b, r) && i < |r.x| && j < |r.x|
    requires InBox(v, b) && Separated(v, r, i, j)
    ensures PairRules(b, r, i, j).Some? && InBox(v, PairRules(b, r, i, j).value)
  {
    var b1 := ForceUp(b, r, i, j).value;
    assert InBox(v, b1);
    var b2 := ForceDown(b1, r, i, j).value;
    assert InBox(v, b2);
    var b3 := ForceRight(b2, r, i, j).value;
    assert InBox(v, b3);
    assert PairRules(b, r, i, j) == ForceLeft(b3, r, i, j);
  }

  lemma {:induction false} RunFromKeeps(b: Box, r: Rects, i: nat, j: nat, v: seq<int>)
    requires Fits(b, r) && InBox(v, b) && NonOverlapping(v, r) && i < j
    ensures RunFrom(b, r, i, j).Some? && InBox(v, RunFrom(b, r, i, j).value)
    decreases |r.x| - i, |r.x| - j
  {
    if i + 1 >= |r.x| {
    } else if j >= |r.x| {
      assert RunFrom(b, r, i, j) == RunFrom(b, r, i + 1, i + 2);
      RunFromKeeps(b, r, i + 1, i + 2, v);
    } else {
      PairRulesKeeps(b, r, i, j, v);
      RunFromPair(b, r, i, j);
      var b1 := PairRules(b, r, i, j).value;
      RunFromKeeps(b1, r, i, j + 1, v);
    }
  }

  /**
   * Every placement inside the bounds in which no two rectangles overlap
   * survives the run, even though each rule reads bounds the earlier rules
   * already raised; in particular the run does not fail while one exists.
   */
  lemma PropagationIsSound(b: Box, r: Rects, v: seq<int>)
    requires Fits(b, r) && InBox(v, b) && NonOverlapping(v, r)
    ensures Propagation(b, r).Some?
    ensures InBox(v, Propagation(b, r).value)
  {
    RunFromKeeps(b, r, 0, 1, v);
  }

  // ---------------------------------------------------------------------------
  // Fixed bounds: the run decides overlap and changes nothing otherwise

  ghost predicate Fixed(b: Box)
  {
    |b.lo| == |b.hi| && forall k :: 0 <= k < |b.lo| ==> b.lo[k] == b.hi[k]
  }

  lemma {:induction false} PairRulesOnFixed(b: Box, r: Rects, i: nat, j: nat)
    requires Fits(b, r) && Fixed(b) && i < |r.x| && j < |r.x|
    ensures PairRules(b, r, i, j) == if Separated(b.lo, r, i, j) then Some(b) else None
  {
    if Separated(b.lo, r, i, j) {
      assert ForceUp(b, r, i, j) == Some(b);
      assert ForceDown(b, r, i, j) == Some(b);
      assert ForceRight(b, r, i, j) == Some(b);
      assert ForceLeft(b, r, i, j) == Some(b);
    } else {
      assert ForceUp(b, r, i, j) == None;
    }
  }

  /** Every pair the sweep still visits from (i, j) on is separated in v. */
  ghost predicate SeparatedFrom(v: seq<int>, r: Rects, i: nat, j: nat)
    requires Indexes(r, |v|)
  {
    (forall q :: i < j <= q < |r.x| ==> Separated(v, r, i, q)) &&
    (forall p, q :: i < p < q < |r.x| ==> Separated(v, r, p, q))
  }

  lemma SeparatedFromNextRow(v: seq<int>, r: Rects, i: nat)
    requires Indexes(r, |v|) && i + 1 < |r.x|
    ensures SeparatedFrom(v, r, i, |r.x|) <==> SeparatedFrom(v, r, i + 1, i + 2)
  {
    if SeparatedFrom(v, r, i + 1, i + 2) {
      forall p, q | i < p < q < |r.x| ensures Separated(v, r, p, q) {
        if p > i + 1 {
          assert i + 1 < p < q < |r.x|;
        } else {
          assert i + 1 < i + 2 <= q < |r.x|;
        }
      }
    }
  }

  lemma SeparatedFromNextPair(v: seq<int>, r: Rects, i: nat, j: nat)
    requires Indexes(r, |v|) && i < j < |r.x|
    ensures SeparatedFrom(v, r, i, j) <==> Separated(v, r, i, j) && SeparatedFrom(v, r, i, j + 1)
  {
  }

  lemma {:induction false} RunFromOnFixed(b: Box, r: Rects, i: nat, j: nat)
    requires Fits(b, r) && Fixed(b) && i < j
    ensures RunFrom(b, r, i, j) == if SeparatedFrom(b.lo, r, i, j) then Some(b) else None
    decreases |r.x| - i, |r.x| - j
  {
    if i + 1 >= |r.x| {
    } else if j >= |r.x| {
      RunFromOnFixed(b, r, i + 1, i + 2);
      SeparatedFromNextRow(b.lo, r, i);
      assert SeparatedFrom(b.lo, r, i, j) <==> SeparatedFrom(b.lo, r, i, |r.x|);
    } else {
      PairRulesOnFixed(b, r, i, j);
      RunFromPair(b, r, i, j);
      SeparatedFromNextPair(b.lo, r, i, j);
      if Separated(b.lo, r, i, j) {
        RunFromOnFixed(b, r, i, j + 1);
      }
    }
  }

  /**
   * When every variable is fixed, the run fails if and only if two
   * rectangles overlap, and otherwise leaves the bounds as they were.
   */
  lemma FixedBoundsDecideOverlap(b: Box, r: Rects)
    requires Fits(b, r) && Fixed(b)
    ensures Propagation(b, r).None? <==> !NonOverlapping(b.lo, r)
    ensures Propagation(b, r).Some? ==> Propagation(b, r).value == b
  {
    RunFromOnFixed(b, r, 0, 1);
    assert SeparatedFrom(b.lo, r, 0, 1) <==> NonOverlapping(b.lo, r);
  }

  // ---------------------------------------------------------------------------
  // The separation test of the subsumption check

  /** j is certainly right of, left of, above or below i, whatever the values. */
  predicate CertainlySeparated(b: Box, r: Rects, i: nat, j: nat)
    requires Fits(b, r) && i < |r.x| && j < |r.x|
  {
    || b.lo[r.x[j]] >= b.hi[r.x[i]] + r.w[i]
    || b.lo[r.x[i]] >= b.hi[r.x[j]] + r.w[j]
    || b.lo[r.y[j]] >= b.hi[r.y[i]] + r.h[i]
    || b.lo[r.y[i]] >= b.hi[r.y[j]] + r.h[j]
  }

  ghost predicate Entailed(b: Box, r: Rects)
    requires Fits(b, r)
  {
    forall i, j :: 0 <= i < j < |r.x| ==> CertainlySeparated(b, r, i, j)
  }

  lemma {:induction false} CertainlySeparatedPairIsNoop(b: Box, r: Rects, i: nat, j: nat)
    requires Fits(b, r) && WellFormed(b) && i < |r.x| && j < |r.x|
    requires CertainlySeparated(b, r, i, j)
    ensures PairRules(b, r, i, j) == Some(b)
  {
    assert ForceUp(b, r, i, j) == Some(b);
    assert ForceDown(b, r, i, j) == Some(b);
    assert ForceRight(b, r, i, j) == Some(b);
    assert ForceLeft(b, r, i, j) == Some(b);
  }

  lemma {:induction false} RunFromEntailed(b: Box, r: Rects, i: nat, j: nat)
    requires Fits(b, r) && WellFormed(b) && Entailed(b, r) && i < j
    ensures RunFrom(b, r, i, j) == Some(b)
    decreases |r.x| - i, |r.x| - j
  {
    if i + 1 >= |r.x| {
    } else if j >= |r.x| {
      RunFromEntailed(b, r, i + 1, i + 2);
    } else {
      CertainlySeparatedPairIsNoop(b, r, i, j);
      RunFromPair(b, r, i, j);
      RunFromEntailed(b, r, i, j + 1);
    }
  }

  /**
   * Once every pair is certainly separated, every placement inside the
   * bounds is non-overlapping, and the run changes nothing on these bounds
   * or on any narrower ones: the propagator could be retired.
   */
  lemma EntailedNeverPrunes(b: Box, r: Rects, b': Box)
    requires Fits(b, r) && WellFormed(b) && Entailed(b, r)
    requires WellFormed(b') && Narrower(b', b)
    ensures Fits(b', r) && Propagation(b', r) == Some(b')
    ensures forall v :: InBox(v, b) ==> NonOverlapping(v, r)
  {
    assert Entailed(b', r) by {
      forall i, j | 0 <= i < j < |r.x| ensures CertainlySeparated(b', r, i, j) {
        assert CertainlySeparated(b, r, i, j);
      }
    }
    RunFromEntailed(b', r, 0, 1);
    forall v | InBox(v, b) ensures NonOverlapping(v, r) {
      forall i, j | 0 <= i < j < |r.x| ensures Separated(v, r, i, j) {
        assert CertainlySeparated(b, r, i, j);
      }
    }
  }

  /**
   * Two unit squares fixed at (0, 0) and (5, 0): every pair is certainly
   * separated, so the propagator could report itself subsumed.
   */
  lemma FarApartIsEntailed()
    ensures Fits(Box([0, 5, 0, 0], [0, 5, 0, 0]), Rects([0, 1], [1, 1], [2, 3], [1, 1]))
    ensures Entailed(Box([0, 5, 0, 0], [0, 5, 0, 0]), Rects([0, 1], [1, 1], [2, 3], [1, 1]))
  {
    var b, r := Box([0, 5, 0, 0], [0, 5, 0, 0]), Rects([0, 1], [1, 1], [2, 3], [1, 1]);
    assert CertainlySeparated(b, r, 0, 1);
  }

  // ---------------------------------------------------------------------------
  // A square fixed at the origin pushes a neighbour above it

  /**
   * A 3 x 3 square fixed at (0, 0) and a 2 x 2 square with x in [0, 2] and
   * y in [0, 5]; store variables 0, 1 are x0, y0 and 2, 3 are x1, y1.
   */
  const CornerRects := Rects([0, 2], [3, 2], [1, 3], [3, 2])
  const CornerStart := Box([0, 0, 0, 0], [0, 0, 2, 5])
  const CornerEnd := Box([0, 0, 0, 3], [0, 0, 2, 5])

  /**
   * The second square can be neither left of, right of nor below the
   * first, so one run raises its y to 3 and changes nothing else.
   */
  lemma CornerPushesAbove()
    ensures Fits(CornerStart, CornerRects) && WellFormed(CornerStart)
    ensures Propagation(CornerStart, CornerRects) == Some(CornerEnd)
  {
    var b, r := CornerStart, CornerRects;
    assert NotLeft(b, r, 0, 1) && NotRight(b, r, 0, 1) && NotDown(b, r, 0, 1);
    assert b.lo[3 := 3] == CornerEnd.lo;
    assert ForceUp(b, r, 0, 1) == Some(CornerEnd);
    var e := CornerEnd;
    assert !NotUp(e, r, 0, 1);
    assert PairRules(b, r, 0, 1) == Some(CornerEnd);
    assert RunFrom(b, r, 0, 1) == RunFrom(e, r, 0, 2);
  }

  // ---------------------------------------------------------------------------
  // One run is reported as a fixpoint, but it is not one

  /**
   * Three unit squares on one row (every y fixed to 0), x0 and x1 in [0, 1],
   * x2 fixed to 0; store variables 0..2 are x0..x2 and 3..5 are y0..y2.
   */
  const RowRects := Rects([0, 1, 2], [1, 1, 1], [3, 4, 5], [1, 1, 1])
  const RowStart := Box([0, 0, 0, 0, 0, 0], [1, 1, 0, 0, 0, 0])
  const RowMiddle := Box([1, 0, 0, 0, 0, 0], [1, 1, 0, 0, 0, 0])
  const RowEnd := Box([1, 1, 0, 0, 0, 0], [1, 1, 0, 0, 0, 0])

  lemma RowFirstPair()
    ensures Fits(RowStart, RowRects) && PairRules(RowStart, RowRects, 0, 1) == Some(RowStart)
  {
    var b, r := RowStart, RowRects;
    assert !NotLeft(b, r, 0, 1) && !NotRight(b, r, 0, 1);
  }

  lemma RowSecondPair()
    ensures Fits(RowStart, RowRects) && PairRules(RowStart, RowRects, 0, 2) == Some(RowMiddle)
  {
    var b, r := RowStart, RowRects;
    assert !NotLeft(b, r, 0, 2) && NotRight(b, r, 0, 2) && NotUp(b, r, 0, 2) && NotDown(b, r, 0, 2);
    assert b.lo[0 := 1] == RowMiddle.lo;
    assert ForceLeft(b, r, 0, 2) == Some(RowMiddle);
  }

  lemma RowThirdPair()
    ensures Fits(RowMiddle, RowRects) && PairRules(RowMiddle, RowRects, 1, 2) == Some(RowEnd)
  {
    var b, r := RowMiddle, RowRects;
    assert !NotLeft(b, r, 1, 2) && NotRight(b, r, 1, 2) && NotUp(b, r, 1, 2) && NotDown(b, r, 1, 2);
    assert b.lo[1 := 1] == RowEnd.lo;
    assert ForceLeft(b, r, 1, 2) == Some(RowEnd);
  }

  /**
   * On the row above, pair (0, 1) prunes nothing, pair (0, 2) pushes x0 to 1
   * and pair (1, 2) then pushes x1 to 1: the run ends without failure, with
   * every variable fixed and squares 0 and 1 on the same cell, which a
   * second run rejects.  Yet the propagator reports a fixpoint.
   */
  lemma OneRunIsNotAFixpoint()
    ensures Fits(RowStart, RowRects) && WellFormed(RowStart)
    ensures Propagation(RowStart, RowRects) == Some(RowEnd)
    ensures Fixed(RowEnd) && !NonOverlapping(RowEnd.lo, RowRects)
    ensures Propagation(RowEnd, RowRects) == None
  {
    var b, r := RowStart, RowRects;
    RowFirstPair();
    RowSecondPair();
    RowThirdPair();
    assert RunFrom(RowMiddle, r, 1, 2) == Some(RowEnd);
    assert RunFrom(b, r, 0, 2) == Some(RowEnd);
    assert !Separated(RowEnd.lo, r, 0, 1);
    FixedBoundsDecideOverlap(RowEnd, r);
  }

  // ---------------------------------------------------------------------------
  // Corrected: repeat the run until it changes nothing

  /** Total width of all domains; a run that changes anything lowers it. */
  function Slack(lo: seq<int>, hi: seq<int>): int
    requires |lo| == |hi|
  {
    if lo == [] then 0 else (hi[0] - lo[0]) + Slack(lo[1..], hi[1..])
  }

  lemma {:induction false} SlackDrops(lo: seq<int>, lo': seq<int>, hi: seq<int>)
    requires |lo| == |lo'| == |hi|
    requires forall k :: 0 <= k < |lo| ==> lo[k] <= lo'[k] <= hi[k]
    ensures 0 <= Slack(lo', hi) <= Slack(lo, hi)
    ensures lo' != lo ==> Slack(lo', hi) < Slack(lo, hi)
  {
    if lo != [] {
      SlackDrops(lo[1..], lo'[1..], hi[1..]);
      if lo' != lo && lo'[0] == lo[0] {
        assert lo'[1..] != lo[1..] by {
          assert lo == [lo[0]] + lo[1..] && lo' == [lo'[0]] + lo'[1..];
        }
      }
    }
  }

  /**
   * The run repeated until it leaves the bounds unchanged: what the
   * propagator promises when it reports a fixpoint.
   */
  function Fixpoint(b: Box, r: Rects): (res: Option<Box>)
    requires Fits(b, r) && WellFormed(b)
    ensures res.Some? ==> res.value.hi == b.hi && Narrower(res.value, b) && WellFormed(res.value)
    ensures res.Some? ==> Fits(res.value, r) && Propagation(res.value, r) == res
    decreases Slack(b.lo, b.hi)
  {
    match Propagation(b, r)
    case None => None
    case Some(b') =>
      if b' == b then Some(b)
      else
        RunFromNarrows(b, r, 0, 1);
        SlackDrops(b.lo, b'.lo, b.hi);
        Fixpoint(b', r)
  }

  lemma {:induction false} FixpointIsSound(b: Box, r: Rects, v: seq<int>)
    requires Fits(b, r) && WellFormed(b) && InBox(v, b) && NonOverlapping(v, r)
    ensures Fixpoint(b, r).Some? && InBox(v, Fixpoint(b, r).value)
    decreases Slack(b.lo, b.hi)
  {
    PropagationIsSound(b, r, v);
    var b' := Propagation(b, r).value;
    if b' != b {
      RunFromNarrows(b, r, 0, 1);
      SlackDrops(b.lo, b'.lo, b.hi);
      FixpointIsSound(b', r, v);
    }
  }

  /**
   * With the repeated run, bounds that end up fixed always describe a
   * packing: no two rectangles overlap (compare OneRunIsNotAFixpoint).
   */
  lemma FixpointFixedIsPacking(b: Box, r: Rects)
    requires Fits(b, r) && WellFormed(b)
    requires Fixpoint(b, r).Some? && Fixed(Fixpoint(b, r).value)
    ensures NonOverlapping(Fixpoint(b, r).value.lo, r)
  {
    FixedBoundsDecideOverlap(Fixpoint(b, r).value, r);
  }

  /** The repeated run rejects the row that one run lets through. */
  lemma FixpointRejectsRow()
    ensures Fits(RowStart, RowRects) && WellFormed(RowStart)
    ensures Fixpoint(RowStart, RowRects) == None
  {
    OneRunIsNotAFixpoint();
    assert WellFormed(RowEnd);
    assert Fixpoint(RowStart, RowRects) == Fixpoint(RowEnd, RowRects);
  }
}
