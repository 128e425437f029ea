/**
 * The interval brancher over a bounds store.  Its view array is a sequence
 * of store indices, its extents an array it owns, and p the mandatory-part
 * ratio.  `Status` and `Choice` scan the variables in order; `Commit`
 * narrows the chosen variable with gq, then le.
 */
module IntervalBranching {
  import opened Domains
  import opened IntervalSplit

  /** Every view names one of the n store variables. */
  predicate Views(x: seq<nat>, n: nat)
  {
    forall i :: 0 <= i < |x| ==> x[i] < n
  }

  /**
   * Variable i still needs splitting: its extent is at least 5 and its
   * domain is wider than the sub-interval size.
   */
  predicate Splittable(b: Box, x: seq<nat>, w: seq<int>, p: Ratio, i: nat)
    requires ProperFraction(p) && i < |x| == |w| && Views(x, |b.lo|) && |b.lo| == |b.hi|
  {
    w[i] >= 5 && b.hi[x[i]] - b.lo[x[i]] > IntervalSize(p, w[i])
  }

  class IntervalBrancher {
    const x: seq<nat>
    const w: array<int>
    const p: Ratio

    ghost predicate Valid()
    {
      w.Length == |x| && ProperFraction(p)
    }

    /** The brancher keeps the extents array it is given. */
    constructor (x0: seq<nat>, w0: array<int>, p0: Ratio)
      requires w0.Length == |x0| && ProperFraction(p0)
      ensures Valid() && x == x0 && w == w0 && p == p0
    {
      x, w, p := x0, w0, p0;
    }

    /** Copy constructor used when the store is cloned: w is copied. */
    constructor Clone(b: IntervalBrancher)
      requires b.Valid()
      ensures Valid() && x == b.x && p == b.p
      ensures fresh(w) && w[..] == b.w[..]
    {
      var n := |b.x|;
      var wc := new int[n];
      for i := n downto 0
        invariant forall k :: i <= k < n ==> wc[k] == b.w[k]
      {
        wc[i] := b.w[i];
      }
      x, w, p := b.x, wc, b.p;
    }

    /** status: some variable still needs splitting. */
    method Status(s: Store) returns (res: bool)
      requires Valid() && s.Valid() && Views(x, s.Size())
      ensures res <==> exists i :: 0 <= i < |x| && Splittable(s.Bounds(), x, w[..], p, i)
    {
      ghost var b := s.Bounds();
      for i := 0 to |x|
        invariant forall k :: 0 <= k < i ==> !Splittable(b, x, w[..], p, k)
      {
        if w[i] >= 5 && s.hi[x[i]] - s.lo[x[i]] > IntervalSize(p, w[i]) {
          assert Splittable(b, x, w[..], p, i);
          return true;
        }
      }
      return false;
    }

    /**
     * choice: the first variable that needs splitting, its bounds, and the
     * number of sub-intervals that cover them (at least two).
     */
    method Choice(s: Store) returns (d: Description)
      requires Valid() && s.Valid() && Views(x, s.Size())
      requires exists i :: 0 <= i < |x| && Splittable(s.Bounds(), x, w[..], p, i)
      ensures 0 <= d.pos < |x| && Splittable(s.Bounds(), x, w[..], p, d.pos)
      ensures forall i :: 0 <= i < d.pos ==> !Splittable(s.Bounds(), x, w[..], p, i)
      ensures d.min == s.lo[x[d.pos]] && d.max == s.hi[x[d.pos]]
      ensures d == Describe(p, w[..], d.pos, d.min, d.max) && d.alt >= 2
    {
      ghost var b := s.Bounds();
      ghost var j :| 0 <= j < |x| && Splittable(b, x, w[..], p, j);
      var i := 0;
      while !(w[i] >= 5 && s.hi[x[i]] - s.lo[x[i]] > IntervalSize(p, w[i]))
        invariant 0 <= i <= j
        invariant forall k :: 0 <= k < i ==> !Splittable(b, x, w[..], p, k)
        decreases j - i
      {
        assert !Splittable(b, x, w[..], p, i);
        i := i + 1;
      }
      var alt := Alternatives(s.hi[x[i]] - s.lo[x[i]], IntervalSize(p, w[i]));
      d := Description(alt, i, s.lo[x[i]], s.hi[x[i]]);
    }

    /** Alternative a of choice d applied to the bounds b. */
    function Committed(b: Box, d: Description, a: nat): Option<Box>
      requires Valid() && 0 <= d.pos < |x| && x[d.pos] < |b.lo| == |b.hi|
      reads w
    {
      var size := IntervalSize(p, w[d.pos]);
      CommitBox(b, x[d.pos], Low(d.min, size, a), Low(d.min, size, a + 1))
    }

    /**
     * commit: alternative a of choice d narrows variable d.pos to
     * [Low(a), Low(a + 1) - 1]; le only runs when gq did not fail.
     */
    method Commit(s: Store, d: Description, a: nat) returns (es: ExecStatus)
      requires Valid() && s.Valid() && Views(x, s.Size())
      requires 0 <= d.pos < |x| && s.lo != w && s.hi != w
      modifies s.lo, s.hi
      ensures s.Valid()
      ensures es == EsFailed <==> Committed(old(s.Bounds()), d, a).None?
      ensures es != EsFailed ==> es == EsOk && s.Bounds() == Committed(old(s.Bounds()), d, a).value
    {
      var pos, min := d.pos, d.min;
      var size := IntervalSize(p, w[pos]);
      var me := s.Gq(x[pos], min + a * (size + 1));
      if me != MeFailed {
        me := s.Le(x[pos], min + (a + 1) * (size + 1));
        if me != MeFailed {
          return EsOk;
        }
      }
      return EsFailed;
    }
  }

  /**
   * interval: checks that views and extents have one length, does nothing
   * on a failed store, copies the extents into a fresh array and posts the
   * brancher.
   */
  method Interval(s: Store, x: seq<nat>, w: seq<int>, p: Ratio)
    returns (res: PostOutcome<IntervalBrancher>)
    requires ProperFraction(p)
    ensures |x| != |w| ==> res == SizeMismatch("interval")
    ensures |x| == |w| && s.failed ==> res == SpaceFailed
    ensures |x| == |w| && !s.failed ==>
              res.Posted? && fresh(res.actor) && fresh(res.actor.w) && res.actor.Valid() &&
              res.actor.x == x && res.actor.w[..] == w && res.actor.p == p
  {
    if |x| != |w| {
      return SizeMismatch("interval");
    }
    if s.failed {
      return SpaceFailed;
    }
    var n := |x|;
    var wc := new int[n];
    for i := n downto 0
      invariant forall k :: i <= k < n ==> wc[k] == w[k]
    {
      wc[i] := w[i];
    }
    assert wc[..] == w;
    var b := new IntervalBrancher(x, wc, p);
    res := Posted(b);
  }
}
