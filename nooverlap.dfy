/**
 * The NoOverlap propagator as an object over a bounds store: its view arrays
 * are store indices, its widths and heights arrays it owns.  `Propagate`
 * runs the two nested pair loops in place and is proved to compute
 * `Propagation` from NoOverlapRules; the subsumption loop that follows it is
 * kept exactly as written, which means it never runs.
 */
module NoOverlapPropagator {
  import opened Domains
  import opened NoOverlapRules
  import opened NoOverlapProps

  class NoOverlap {
    const x: seq<nat>
    const w: array<int>
    const y: seq<nat>
    const h: array<int>

    /** Only posted for two rectangles or more, with one extent per rectangle. */
    ghost predicate Valid()
    {
      w.Length == |x| && |y| == |x| && h.Length == |x| && |x| > 1
    }

    function Rects(): Rects
      reads w, h
    {
      NoOverlapRules.Rects(x, w[..], y, h[..])
    }

    /** The propagator keeps the arrays it is given (allocated by the caller). */
    constructor (x0: seq<nat>, w0: array<int>, y0: seq<nat>, h0: array<int>)
      requires w0.Length == |x0| && |y0| == |x0| && h0.Length == |x0| && |x0| > 1
      ensures Valid() && x == x0 && w == w0 && y == y0 && h == h0
    {
      x, w, y, h := x0, w0, y0, h0;
    }

    /** Copy constructor used when the store is cloned: w and h are copied. */
    constructor Clone(p: NoOverlap)
      requires p.Valid()
      ensures Valid() && x == p.x && y == p.y
      ensures fresh(w) && fresh(h) && w[..] == p.w[..] && h[..] == p.h[..]
    {
      var n := |p.x|;
      var wc := new int[n];
      var hc := new int[n];
      for i := n downto 0
        invariant forall k :: i <= k < n ==> wc[k] == p.w[k] && hc[k] == p.h[k]
      {
        wc[i], hc[i] := p.w[i], p.h[i];
      }
      x, w, y, h := p.x, wc, p.y, hc;
    }

    /**
     * propagate(): one run of the pair loops, then the subsumption loop.  A
     * run that does not fail reports a fixpoint (OneRunIsNotAFixpoint shows
     * it may not be one).
     */
    method Propagate(s: Store) returns (es: ExecStatus)
      requires Valid() && s.Valid() && Indexes(Rects(), s.Size())
      requires s.lo != w && s.lo != h
      modifies s.lo
      ensures s.Valid()
      ensures es == EsFailed <==> Propagation(old(s.Bounds()), old(Rects())).None?
      ensures es != EsFailed ==> es == EsFix
      ensures es != EsFailed ==> s.Bounds() == Propagation(old(s.Bounds()), old(Rects())).value
    {
      PropagationStarts(s.Bounds(), Rects());
      var ok := Sweep(s);
      if !ok {
        return EsFailed;
      }
      var row: int := *;  // `i` is never initialised in the source
      var subsumed := SubsumptionLoop(s, false, row);
      if subsumed {
        es := EsSubsumed;
      } else {
        es := EsFix;
      }
    }

    /**
     * The two nested pair loops: every pair i < j, four rules each, failing
     * at the first lower bound that would cross its upper bound.
     */
    method Sweep(s: Store) returns (ok: bool)
      requires Valid() && s.Valid() && Indexes(Rects(), s.Size())
      requires s.lo != w && s.lo != h
      modifies s.lo
      ensures s.Valid() && Rects() == old(Rects())
      ensures ok <==> RunFrom(old(s.Bounds()), old(Rects()), 0, 1).Some?
      ensures ok ==> s.Bounds() == RunFrom(old(s.Bounds()), old(Rects()), 0, 1).value
    {
      ghost var r := Rects();
      var n := |x|;
      ghost var target := RunFrom(s.Bounds(), r, 0, 1);
      for i := 0 to n - 1
        invariant s.Valid() && Fits(s.Bounds(), r)
        invariant Rects() == r && target == RunFrom(s.Bounds(), r, i, i + 1)
      {
        ok := Row(s, i, r);
        if !ok { return; }
      }
      ok := true;
    }

    /** The inner loop for row i: the pairs (i, i+1), ..., (i, n-1). */
    method Row(s: Store, i: nat, ghost r: Rects) returns (ok: bool)
      requires Valid() && s.Valid() && r == Rects() && Indexes(r, s.Size())
      requires s.lo != w && s.lo != h && i + 1 < |x|
      modifies s.lo
      ensures s.Valid() && Fits(s.Bounds(), r) && Rects() == r
      ensures !ok ==> RunFrom(old(s.Bounds()), r, i, i + 1).None?
      ensures ok ==> RunFrom(old(s.Bounds()), r, i, i + 1) == RunFrom(s.Bounds(), r, i + 1, i + 2)
    {
      ghost var target := RunFrom(s.Bounds(), r, i, i + 1);
      var n := |x|;
      for j := i + 1 to n
        invariant s.Valid() && Fits(s.Bounds(), r)
        invariant target == RunFrom(s.Bounds(), r, i, j)
      {
        RunFromPair(s.Bounds(), r, i, j);
        ok := PairStep(s, i, j);
        if !ok { return; }
      }
      RunFromRow(s.Bounds(), r, i);
      ok := true;
    }

    /** The four rules of lines 108-130 for one pair (i, j), in order. */
    method PairStep(s: Store, i: nat, j: nat) returns (ok: bool)
      requires Valid() && s.Valid() && Indexes(Rects(), s.Size())
      requires s.lo != w && s.lo != h && i < |x| && j < |x|
      modifies s.lo
      ensures s.Valid()
      ensures ok <==> PairRules(old(s.Bounds()), Rects(), i, j).Some?
      ensures ok ==> s.Bounds() == PairRules(old(s.Bounds()), Rects(), i, j).value
    {
      ok := StepUp(s, i, j);
      if !ok { return; }
      ok := StepDown(s, i, j);
      if !ok { return; }
      ok := StepRight(s, i, j);
      if !ok { return; }
      ok := StepLeft(s, i, j);
    }

    /** j cannot be left, right or below: j is above. */
    method StepUp(s: Store, i: nat, j: nat) returns (ok: bool)
      requires Valid() && s.Valid() && Indexes(Rects(), s.Size())
      requires s.lo != w && s.lo != h && i < |x| && j < |x|
      modifies s.lo
      ensures s.Valid()
      ensures ok <==> ForceUp(old(s.Bounds()), Rects(), i, j).Some?
      ensures ok ==> s.Bounds() == ForceUp(old(s.Bounds()), Rects(), i, j).value
    {
      ghost var b, r := s.Bounds(), Rects();
      if s.lo[x[j]] + w[j] > s.hi[x[i]] && s.lo[x[i]] + w[i] > s.hi[x[j]] &&
         s.lo[y[j]] + h[j] > s.hi[y[i]] {
        assert NotLeft(b, r, i, j) && NotRight(b, r, i, j) && NotDown(b, r, i, j);
        var me := s.Gq(y[j], s.lo[y[i]] + h[i]);
        ok := me != MeFailed;
      } else {
        ok := true;
      }
    }

    /** j cannot be left, right or above: j is below. */
    method StepDown(s: Store, i: nat, j: nat) returns (ok: bool)
      requires Valid() && s.Valid() && Indexes(Rects(), s.Size())
      requires s.lo != w && s.lo != h && i < |x| && j < |x|
      modifies s.lo
      ensures s.Valid()
      ensures ok <==> ForceDown(old(s.Bounds()), Rects(), i, j).Some?
      ensures ok ==> s.Bounds() == ForceDown(old(s.Bounds()), Rects(), i, j).value
    {
      ghost var b, r := s.Bounds(), Rects();
      if s.lo[x[j]] + w[j] > s.hi[x[i]] && s.lo[x[i]] + w[i] > s.hi[x[j]] &&
         s.lo[y[i]] + h[i] > s.hi[y[j]] {
        assert NotLeft(b, r, i, j) && NotRight(b, r, i, j) && NotUp(b, r, i, j);
        var me := s.Gq(y[i], s.lo[y[j]] + h[j]);
        ok := me != MeFailed;
      } else {
        ok := true;
      }
    }

    /** j cannot be left, above or below: j is right. */
    method StepRight(s: Store, i: nat, j: nat) returns (ok: bool)
      requires Valid() && s.Valid() && Indexes(Rects(), s.Size())
      requires s.lo != w && s.lo != h && i < |x| && j < |x|
      modifies s.lo
      ensures s.Valid()
      ensures ok <==> ForceRight(old(s.Bounds()), Rects(), i, j).Some?
      ensures ok ==> s.Bounds() == ForceRight(old(s.Bounds()), Rects(), i, j).value
    {
      ghost var b, r := s.Bounds(), Rects();
      if s.lo[x[j]] + w[j] > s.hi[x[i]] && s.lo[y[i]] + h[i] > s.hi[y[j]] &&
         s.lo[y[j]] + h[j] > s.hi[y[i]] {
        assert NotLeft(b, r, i, j) && NotUp(b, r, i, j) && NotDown(b, r, i, j);
        var me := s.Gq(x[j], s.lo[x[i]] + w[i]);
        ok := me != MeFailed;
      } else {
        ok := true;
      }
    }

    /** j cannot be right, above or below: j is left. */
    method StepLeft(s: Store, i: nat, j: nat) returns (ok: bool)
      requires Valid() && s.Valid() && Indexes(Rects(), s.Size())
      requires s.lo != w && s.lo != h && i < |x| && j < |x|
      modifies s.lo
      ensures s.Valid()
      ensures ok <==> ForceLeft(old(s.Bounds()), Rects(), i, j).Some?
      ensures ok ==> s.Bounds() == ForceLeft(old(s.Bounds()), Rects(), i, j).value
    {
      ghost var b, r := s.Bounds(), Rects();
      if s.lo[x[i]] + w[i] > s.hi[x[j]] && s.lo[y[i]] + h[i] > s.hi[y[j]] &&
         s.lo[y[j]] + h[j] > s.hi[y[i]] {
        assert NotRight(b, r, i, j) && NotUp(b, r, i, j) && NotDown(b, r, i, j);
        var me := s.Gq(x[i], s.lo[x[j]] + w[j]);
        ok := me != MeFailed;
      } else {
        ok := true;
      }
    }

    /**
     * The subsumption loop as written, from a given initial flag and initial
     * row index (the source starts it from `false` and an uninitialised
     * index, with the column index 0).  It only runs while the flag is set,
     * so started from `false` it answers `false`.
     */
    method SubsumptionLoop(s: Store, subsumed0: bool, i0: int) returns (subsumed: bool)
      requires Valid() && s.Valid() && Indexes(Rects(), s.Size())
      requires subsumed0 ==> 0 <= i0
      ensures subsumed ==> subsumed0
    {
      var n := |x|;
      subsumed := subsumed0;
      var i, j := i0, 0;
      while subsumed && i < n - 1
        invariant subsumed ==> subsumed0 && 0 <= i && 0 <= j && (i < n - 1 ==> j < n)
        decreases n - i, n - j
      {
        subsumed :=
          (s.lo[x[j]] >= s.hi[x[i]] + w[i]) ||  // j is on the right of i
          (s.lo[x[i]] >= s.hi[x[j]] + w[j]) ||  // j is on the left of i
          (s.lo[y[j]] >= s.hi[y[i]] + h[i]) ||  // j is above i
          (s.lo[y[i]] >= s.hi[y[j]] + h[j]);    // j is below i
        j := j + 1;
        if j >= n {
          i := i + 1;
          j := i + 1;
        }
      }
    }

    /**
     * The subsumption test the loop above evidently means: starting from
     * `true` at pair (0, 1), it walks the pairs in order while every pair
     * seen so far is certainly separated.
     */
    method IsSubsumed(s: Store) returns (subsumed: bool)
      requires Valid() && s.Valid() && Indexes(Rects(), s.Size())
      ensures subsumed <==> Entailed(s.Bounds(), Rects())
    {
      ghost var b, r := s.Bounds(), Rects();
      var n := |x|;
      subsumed := true;
      var i, j := 0, 1;
      while subsumed && i < n - 1
        invariant 0 <= i < j && (i < n - 1 ==> j < n)
        invariant subsumed <==>
          forall p, q :: 0 <= p < q < n && (p < i || (p == i && q < j)) ==> CertainlySeparated(b, r, p, q)
        decreases n - i, n - j
      {
        subsumed :=
          (s.lo[x[j]] >= s.hi[x[i]] + w[i]) ||
          (s.lo[x[i]] >= s.hi[x[j]] + w[j]) ||
          (s.lo[y[j]] >= s.hi[y[i]] + h[i]) ||
          (s.lo[y[i]] >= s.hi[y[j]] + h[j]);
        assert subsumed <==> CertainlySeparated(b, r, i, j);
        j := j + 1;
        if j >= n {
          i := i + 1;
          j := i + 1;
        }
      }
    }
  }

  /** NoOverlap::post: a propagator only when there are two rectangles or more. */
  method Post(x: seq<nat>, w: array<int>, y: seq<nat>, h: array<int>)
    returns (es: ExecStatus, p: Option<NoOverlap>)
    requires w.Length == |x| && |y| == |x| && h.Length == |x|
    ensures es == EsOk
    ensures p.Some? <==> |x| > 1
    ensures p.Some? ==> fresh(p.value) && p.value.Valid()
    ensures p.Some? ==> p.value.x == x && p.value.w == w && p.value.y == y && p.value.h == h
  {
    es, p := EsOk, None;
    if |x| > 1 {
      var q := new NoOverlap(x, w, y, h);
      p := Some(q);
    }
  }

  /**
   * nooverlap2: checks that the four argument arrays have one length,
   * does nothing on a failed store, copies the widths and heights into
   * fresh arrays and posts the propagator.
   */
  method NoOverlap2(s: Store, x: seq<nat>, w: seq<int>, y: seq<nat>, h: seq<int>)
    returns (res: PostOutcome<Option<NoOverlap>>)
    requires forall k :: 0 <= k < |x| ==> x[k] < s.Size()
    requires forall k :: 0 <= k < |y| ==> y[k] < s.Size()
    ensures |x| != |y| || |x| != |w| || |y| != |h| ==> res == SizeMismatch("nooverlap")
    ensures |x| == |y| == |w| == |h| && s.failed ==> res == SpaceFailed
    ensures |x| == |y| == |w| == |h| && !s.failed ==> res.Posted? && (res.actor.Some? <==> |x| > 1)
    ensures res.Posted? && res.actor.Some? ==>
              var p := res.actor.value;
              fresh(p) && fresh(p.w) && fresh(p.h) && p.Valid() && p.x == x && p.y == y &&
              p.w[..] == w && p.h[..] == h && Indexes(p.Rects(), s.Size())
  {
    if |x| != |y| || |x| != |w| || |y| != |h| {
      return SizeMismatch("nooverlap");
    }
    if s.failed {
      return SpaceFailed;
    }
    var n := |x|;
    var wc := new int[n];
    var hc := new int[n];
    for i := n downto 0
      invariant forall k :: i <= k < n ==> wc[k] == w[k] && hc[k] == h[k]
    {
      wc[i], hc[i] := w[i], h[i];
    }
    assert wc[..] == w && hc[..] == h;
    var es, p := Post(x, wc, y, hc);
    // Post always answers EsOk, so the source's `home.fail()` branch is dead.
    res := Posted(p);
  }
}
