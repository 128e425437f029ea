/**
 * The pruning performed by one run of the NoOverlap propagator, as a
 * function on bounds.  Rectangle i sits at (v[x[i]], v[y[i]]) with width w[i]
 * and height h[i]; x[i] and y[i] are indices of store variables, so two
 * rectangles may share a variable.  For every pair i < j, in the order of
 * the two nested loops, four rules each test three "j cannot be there"
 * conditions on the current bounds and, when all three hold, raise one lower
 * bound so that j lies in the fourth direction.
 */
module NoOverlapRules {
  import opened Domains

  datatype Rects = Rects(x: seq<nat>, w: seq<int>, y: seq<nat>, h: seq<int>)

  /** Every coordinate of the rectangles names one of the n store variables. */
  predicate Indexes(r: Rects, n: nat)
  {
    |r.w| == |r.x| && |r.y| == |r.x| && |r.h| == |r.x| &&
    (forall i :: 0 <= i < |r.x| ==> r.x[i] < n) &&
    (forall i :: 0 <= i < |r.y| ==> r.y[i] < n)
  }

  predicate Fits(b: Box, r: Rects)
  {
    |b.lo| == |b.hi| && Indexes(r, |b.lo|)
  }

  // ---------------------------------------------------------------------------
  // The four "j cannot be there" tests on bounds

  /** j cannot be left of i: x[j].min + w[j] > x[i].max */
  predicate NotLeft(b: Box, r: Rects, i: nat, j: nat)
    requires Fits(b, r) && i < |r.x| && j < |r.x|
  {
    b.lo[r.x[j]] + r.w[j] > b.hi[r.x[i]]
  }

  /** j cannot be right of i: x[i].min + w[i] > x[j].max */
  predicate NotRight(b: Box, r: Rects, i: nat, j: nat)
    requires Fits(b, r) && i < |r.x| && j < |r.x|
  {
    b.lo[r.x[i]] + r.w[i] > b.hi[r.x[j]]
  }

  /** j cannot be below i: y[j].min + h[j] > y[i].max */
  predicate NotDown(b: Box, r: Rects, i: nat, j: nat)
    requires Fits(b, r) && i < |r.x| && j < |r.x|
  {
    b.lo[r.y[j]] + r.h[j] > b.hi[r.y[i]]
  }

  /** j cannot be above i: y[i].min + h[i] > y[j].max */
  predicate NotUp(b: Box, r: Rects, i: nat, j: nat)
    requires Fits(b, r) && i < |r.x| && j < |r.x|
  {
    b.lo[r.y[i]] + r.h[i] > b.hi[r.y[j]]
  }

  // ---------------------------------------------------------------------------
  // Placements (one value per store variable) and separation

  predicate InBox(v: seq<int>, b: Box)
  {
    |v| == |b.lo| == |b.hi| && forall k :: 0 <= k < |v| ==> b.lo[k] <= v[k] <= b.hi[k]
  }

  /** In placement v, rectangle j lies left of, right of, below or above i. */
  predicate Separated(v: seq<int>, r: Rects, i: nat, j: nat)
    requires Indexes(r, |v|) && i < |r.x| && j < |r.x|
  {
    || v[r.x[j]] + r.w[j] <= v[r.x[i]]
    || v[r.x[i]] + r.w[i] <= v[r.x[j]]
    || v[r.y[j]] + r.h[j] <= v[r.y[i]]
    || v[r.y[i]] + r.h[i] <= v[r.y[j]]
  }

  /** No two rectangles overlap in placement v. */
  predicate NonOverlapping(v: seq<int>, r: Rects)
    requires Indexes(r, |v|)
  {
    forall i, j :: 0 <= i < j < |r.x| ==> Separated(v, r, i, j)
  }

  // ---------------------------------------------------------------------------
  // The four rules

  function Rule(b: Box, fire: bool, k: nat, v: int): Option<Box>
    requires k < |b.lo| == |b.hi|
  {
    if fire then BoxGq(b, k, v) else Some(b)
  }

  /** j cannot be left, right or below, so j is above: y[j] >= y[i].min + h[i]. */
  function ForceUp(b: Box, r: Rects, i: nat, j: nat): (res: Option<Box>)
    requires Fits(b, r) && i < |r.x| && j < |r.x|
    ensures res.Some? ==> res.value.hi == b.hi && |res.value.lo| == |b.lo|
    ensures !(NotLeft(b, r, i, j) && NotRight(b, r, i, j) && NotDown(b, r, i, j)) ==> res == Some(b)
    ensures WellFormed(b) && NotLeft(b, r, i, j) && NotRight(b, r, i, j) && NotDown(b, r, i, j) ==>
              (res.None? <==> b.lo[r.y[i]] + r.h[i] > b.hi[r.y[j]])
    ensures res.Some? && NotLeft(b, r, i, j) && NotRight(b, r, i, j) && NotDown(b, r, i, j) ==>
              res.value.lo[r.y[j]] >= b.lo[r.y[i]] + r.h[i]
  {
    Rule(b, NotLeft(b, r, i, j) && NotRight(b, r, i, j) && NotDown(b, r, i, j),
         r.y[j], b.lo[r.y[i]] + r.h[i])
  }

  /** j cannot be left, right or above, so j is below: y[i] >= y[j].min + h[j]. */
  function ForceDown(b: Box, r: Rects, i: nat, j: nat): (res: Option<Box>)
    requires Fits(b, r) && i < |r.x| && j < |r.x|
    ensures res.Some? ==> res.value.hi == b.hi && |res.value.lo| == |b.lo|
    ensures !(NotLeft(b, r, i, j) && NotRight(b, r, i, j) && NotUp(b, r, i, j)) ==> res == Some(b)
    ensures WellFormed(b) && NotLeft(b, r, i, j) && NotRight(b, r, i, j) && NotUp(b, r, i, j) ==>
              (res.None? <==> b.lo[r.y[j]] + r.h[j] > b.hi[r.y[i]])
    ensures res.Some? && NotLeft(b, r, i, j) && NotRight(b, r, i, j) && NotUp(b, r, i, j) ==>
              res.value.lo[r.y[i]] >= b.lo[r.y[j]] + r.h[j]
  {
    Rule(b, NotLeft(b, r, i, j) && NotRight(b, r, i, j) && NotUp(b, r, i, j),
         r.y[i], b.lo[r.y[j]] + r.h[j])
  }

  /** j cannot be left, above or below, so j is right: x[j] >= x[i].min + w[i]. */
  function ForceRight(b: Box, r: Rects, i: nat, j: nat): (res: Option<Box>)
    requires Fits(b, r) && i < |r.x| && j < |r.x|
    ensures res.Some? ==> res.value.hi == b.hi && |res.value.lo| == |b.lo|
    ensures !(NotLeft(b, r, i, j) && NotUp(b, r, i, j) && NotDown(b, r, i, j)) ==> res == Some(b)
    ensures WellFormed(b) && NotLeft(b, r, i, j) && NotUp(b, r, i, j) && NotDown(b, r, i, j) ==>
              (res.None? <==> b.lo[r.x[i]] + r.w[i] > b.hi[r.x[j]])
    ensures res.Some? && NotLeft(b, r, i, j) && NotUp(b, r, i, j) && NotDown(b, r, i, j) ==>
              res.value.lo[r.x[j]] >= b.lo[r.x[i]] + r.w[i]
  {
    Rule(b, NotLeft(b, r, i, j) && NotUp(b, r, i, j) && NotDown(b, r, i, j),
         r.x[j], b.lo[r.x[i]] + r.w[i])
  }

  /** j cannot be right, above or below, so j is left: x[i] >= x[j].min + w[j]. */
  function ForceLeft(b: Box, r: Rects, i: nat, j: nat): (res: Option<Box>)
    requires Fits(b, r) && i < |r.x| && j < |r.x|
    ensures res.Some? ==> res.value.hi == b.hi && |res.value.lo| == |b.lo|
    ensures !(NotRight(b, r, i, j) && NotUp(b, r, i, j) && NotDown(b, r, i, j)) ==> res == Some(b)
    ensures WellFormed(b) && NotRight(b, r, i, j) && NotUp(b, r, i, j) && NotDown(b, r, i, j) ==>
              (res.None? <==> b.lo[r.x[j]] + r.w[j] > b.hi[r.x[i]])
    ensures res.Some? && NotRight(b, r, i, j) && NotUp(b, r, i, j) && NotDown(b, r, i, j) ==>
              res.value.lo[r.x[i]] >= b.lo[r.x[j]] + r.w[j]
  {
    Rule(b, NotRight(b, r, i, j) && NotUp(b, r, i, j) && NotDown(b, r, i, j),
         r.x[i], b.lo[r.x[j]] + r.w[j])
  }

  /** The four rules for pair (i, j), each on the bounds the previous one left. */
  function PairRules(b: Box, r: Rects, i: nat, j: nat): Option<Box>
    requires Fits(b, r) && i < |r.x| && j < |r.x|
  {
    var b1 :- ForceUp(b, r, i, j);
    var b2 :- ForceDown(b1, r, i, j);
    var b3 :- ForceRight(b2, r, i, j);
    ForceLeft(b3, r, i, j)
  }

  /**
   * The rest of the sweep from pair (i, j) on: pairs (i, j), (i, j+1), ...,
   * (i, n-1), then (i+1, i+2), ... up to (n-2, n-1).  None at the first rule
   * whose bound would cross an upper bound.
   */
  function RunFrom(b: Box, r: Rects, i: nat, j: nat): Option<Box>
    requires Fits(b, r)
    decreases |r.x| - i, |r.x| - j, 1
  {
    if i + 1 >= |r.x| then Some(b)
    else if j >= |r.x| then RunFrom(b, r, i + 1, i + 2)
    else Visit(b, r, i, j)
  }

  /** Pair (i, j), then the rest of the sweep on the bounds it leaves. */
  function Visit(b: Box, r: Rects, i: nat, j: nat): Option<Box>
    requires Fits(b, r) && i < |r.x| && j < |r.x|
    decreases |r.x| - i, |r.x| - j, 0
  {
    match PairRules(b, r, i, j)
    case None => None
    case Some(b') => RunFrom(b', r, i, j + 1)
  }

  /** One run of the propagator from the bounds b. */
  function Propagation(b: Box, r: Rects): Option<Box>
    requires Fits(b, r)
  {
    RunFrom(b, r, 0, 1)
  }

  lemma PropagationStarts(b: Box, r: Rects)
    requires Fits(b, r)
    ensures Propagation(b, r) == RunFrom(b, r, 0, 1)
  {
  }

  lemma RunFromPair(b: Box, r: Rects, i: nat, j: nat)
    requires Fits(b, r) && i < j < |r.x|
    ensures PairRules(b, r, i, j).None? ==> RunFrom(b, r, i, j).None?
    ensures PairRules(b, r, i, j).Some? ==>
              Fits(PairRules(b, r, i, j).value, r) &&
              RunFrom(b, r, i, j) == RunFrom(PairRules(b, r, i, j).value, r, i, j + 1)
  {
  }

  lemma RunFromRow(b: Box, r: Rects, i: nat)
    requires Fits(b, r) && i + 1 < |r.x|
    ensures RunFrom(b, r, i, |r.x|) == RunFrom(b, r, i + 1, i + 2)
  {
  }
}
