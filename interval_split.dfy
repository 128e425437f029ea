/**
 * The arithmetic of the interval brancher: how wide a sub-interval may be,
 * how many sub-intervals a domain is cut into, which range alternative a
 * covers, and the choice description with its archive form.
 *
 * The mandatory-part ratio p is a rational num/den with 0 < num < den; the
 * brancher's floor((1 - p) * w) becomes ((den - num) * w) / den, and its
 * ceiling of a quotient becomes an integer ceiling division.
 */
module IntervalSplit {
  import opened Domains

  datatype Ratio = Ratio(num: int, den: int)

  predicate ProperFraction(p: Ratio)
  {
    0 < p.num < p.den
  }

  // ---------------------------------------------------------------------------
  // Facts about products and quotients by a positive number

  lemma MulSign(a: int, m: int)
    requires m > 0
    ensures a > 0 <==> a * m > 0
    ensures a >= 0 <==> a * m >= 0
  {
  }

  lemma Dist(a: int, b: int, m: int)
    ensures a * m - b * m == (a - b) * m
  {
  }

  lemma FloorDiv(q: int, d: int)
    requires d > 0
    ensures (q / d) * d <= q < (q / d + 1) * d
  {
  }

  // ---------------------------------------------------------------------------
  // Sizes and counts

  /** interval_size: the largest sub-interval width, floor((1 - p) * width). */
  function IntervalSize(p: Ratio, width: int): (size: int)
    requires ProperFraction(p)
    ensures size * p.den <= (p.den - p.num) * width < (size + 1) * p.den
    ensures width >= 0 ==> 0 <= size <= width
  {
    var q := (p.den - p.num) * width;
    FloorDiv(q, p.den);
    var size := q / p.den;
    MulSign(width, p.den - p.num);
    MulSign(size + 1, p.den);
    Dist(p.den, p.num, width);
    MulSign(width, p.num);
    Dist(size, width, p.den);
    MulSign(size - width, p.den);
    size
  }

  /**
   * alternatives: ceil((width + 1) / (size + 1)), the number of
   * sub-intervals of size + 1 values needed to cover width + 1 values.
   */
  function Alternatives(width: int, size: int): (alt: int)
    requires size >= 0
    ensures (alt - 1) * (size + 1) < width + 1 <= alt * (size + 1)
    ensures width >= 0 ==> alt >= 1
    ensures width > size ==> alt >= 2
  {
    var m := size + 1;
    FloorDiv(width + 1 + size, m);
    var alt := (width + 1 + size) / m;
    Dist(alt + 1, alt, m);
    Dist(alt, alt - 1, m);
    MulSign(alt, m);
    MulSign(alt - 1, m);
    alt
  }

  // ---------------------------------------------------------------------------
  // The range of alternative a

  /** First value of alternative a: min + a * (size + 1), the gq argument. */
  function Low(min: int, size: int, a: int): int
  {
    min + a * (size + 1)
  }

  /** Last value of alternative a: the le argument Low(a + 1), minus one. */
  function High(min: int, size: int, a: int): int
  {
    Low(min, size, a + 1) - 1
  }

  /** Alternative a holds size + 1 values. */
  lemma RangeLength(min: int, size: int, a: int)
    ensures High(min, size, a) - Low(min, size, a) == size
  {
    Dist(a + 1, a, size + 1);
  }

  /**
   * Alternative a of a choice on [min, max] covers exactly the values v of
   * [min, max] with (v - min) / (size + 1) == a: every value belongs to one
   * alternative and only to it, and that alternative is one of the choice's.
   */
  lemma AlternativeOf(min: int, max: int, size: int, v: int, a: int)
    requires size >= 0 && min <= v <= max
    ensures Low(min, size, a) <= v <= High(min, size, a) <==> a == (v - min) / (size + 1)
    ensures 0 <= (v - min) / (size + 1) < Alternatives(max - min, size)
  {
    var m := size + 1;
    var d := v - min;
    FloorDiv(d, m);
    var q := d / m;
    Dist(a, q + 1, m);
    MulSign(a - q - 1, m);
    Dist(q, a + 1, m);
    MulSign(q - a - 1, m);
    MulSign(q + 1, m);
    var alt := Alternatives(max - min, size);
    Dist(q, alt, m);
    MulSign(q - alt, m);
  }

  /**
   * The ranges of the alternatives 0 .. alt - 1 of a choice on [min, max]
   * start at min, follow one another without gap, are never empty, and the
   * last one is the first to reach max; with RangesDisjoint they cover
   * exactly [min, max] and each holds some of it.
   */
  lemma RangesPartition(min: int, max: int, size: int)
    requires size >= 0 && min <= max
    ensures Low(min, size, 0) == min
    ensures forall a :: High(min, size, a) + 1 == Low(min, size, a + 1)
    ensures forall a :: Low(min, size, a) <= High(min, size, a)
    ensures var alt := Alternatives(max - min, size);
              Low(min, size, alt - 1) <= max <= High(min, size, alt - 1)
  {
    forall a ensures Low(min, size, a) <= High(min, size, a) {
      RangeLength(min, size, a);
    }
  }

  /** Two different alternatives share no value. */
  lemma RangesDisjoint(min: int, size: int, a: int, b: int)
    requires size >= 0 && a < b
    ensures High(min, size, a) < Low(min, size, b)
  {
    Dist(b, a + 1, size + 1);
    MulSign(b - a - 1, size + 1);
  }

  // ---------------------------------------------------------------------------
  // Commit on bounds: gq, then le only if gq did not fail

  /** x[k] >= low, then x[k] < high: None as soon as one of them fails. */
  function CommitBox(b: Box, k: nat, low: int, high: int): (r: Option<Box>)
    requires k < |b.lo| == |b.hi|
    ensures b.lo[k] <= b.hi[k] ==>
              (r.None? <==> Max(b.lo[k], low) > Min(b.hi[k], high - 1))
    ensures r.Some? ==>
              r.value == Box(b.lo[k := Max(b.lo[k], low)], b.hi[k := Min(b.hi[k], high - 1)])
  {
    var b1 :- BoxGq(b, k, low);
    BoxLe(b1, k, high)
  }

  /**
   * On the bounds the choice was made from, every alternative a < alt
   * leaves a non-empty domain: [Low(a), min(High(a), max)].
   */
  lemma CommitAtChoice(b: Box, k: nat, size: int, a: int)
    requires k < |b.lo| == |b.hi| && b.lo[k] <= b.hi[k] && size >= 0
    requires 0 <= a < Alternatives(b.hi[k] - b.lo[k], size)
    ensures var r := CommitBox(b, k, Low(b.lo[k], size, a), Low(b.lo[k], size, a + 1));
              r.Some? && r.value.lo[k] == Low(b.lo[k], size, a) &&
              r.value.hi[k] == Min(b.hi[k], High(b.lo[k], size, a))
  {
    var mn, mx, m := b.lo[k], b.hi[k], size + 1;
    var alt := Alternatives(mx - mn, size);
    RangeLength(mn, size, a);
    MulSign(a, m);
    Dist(alt - 1, a, m);
    MulSign(alt - 1 - a, m);
  }

  /**
   * Committing to alternative a of a choice on the bounds it was made from
   * keeps exactly the values v of the domain with (v - min) / (size + 1) == a:
   * every value of the domain survives in one alternative and in no other.
   */
  lemma CommitKeepsItsRange(b: Box, k: nat, size: int, a: int, v: int)
    requires k < |b.lo| == |b.hi| && b.lo[k] <= b.hi[k] && size >= 0
    requires 0 <= a < Alternatives(b.hi[k] - b.lo[k], size)
    ensures var r := CommitBox(b, k, Low(b.lo[k], size, a), Low(b.lo[k], size, a + 1));
              r.Some? &&
              (r.value.lo[k] <= v <= r.value.hi[k] <==>
                 b.lo[k] <= v <= b.hi[k] && (v - b.lo[k]) / (size + 1) == a)
  {
    CommitAtChoice(b, k, size, a);
    if b.lo[k] <= v <= b.hi[k] {
      AlternativeOf(b.lo[k], b.hi[k], size, v, a);
    } else {
      RangeLength(b.lo[k], size, a);
    }
  }

  /** The interval scenario: width 10, p = 3/10, domain [0, 10]. */
  lemma SplitScenario()
    ensures IntervalSize(Ratio(3, 10), 10) == 7
    ensures Alternatives(10, 7) == 2
    ensures CommitBox(Box([0], [10]), 0, Low(0, 7, 0), Low(0, 7, 1)) == Some(Box([0], [7]))
    ensures CommitBox(Box([0], [10]), 0, Low(0, 7, 1), Low(0, 7, 2)) == Some(Box([8], [10]))
  {
    assert [0][0 := 0] == [0] && [10][0 := 7] == [7];
    assert [0][0 := 8] == [8] && [10][0 := 10] == [10];
  }

  // ---------------------------------------------------------------------------
  // The choice description and its archive

  /**
   * A choice: the number of alternatives, the position of the variable and
   * its bounds when the choice was made.
   */
  datatype Description = Description(alt: int, pos: int, min: int, max: int)

  /** archive: pos, min and max, in that order, after the base part. */
  function Archive(d: Description): seq<int>
  {
    [d.pos, d.min, d.max]
  }

  /** The description choice() builds for variable pos with bounds [mn, mx]. */
  function Describe(p: Ratio, w: seq<int>, pos: nat, mn: int, mx: int): (d: Description)
    requires ProperFraction(p) && pos < |w| && w[pos] >= 0
    ensures d.pos == pos && d.min == mn && d.max == mx
    ensures mx - mn > IntervalSize(p, w[pos]) ==> d.alt >= 2
  {
    Description(Alternatives(mx - mn, IntervalSize(p, w[pos])), pos, mn, mx)
  }

  /**
   * Reading an archive back, as written: pos, min, max are read in order,
   * but pos goes to the alternatives slot and the recomputed alternative
   * count to the position slot of the description.
   */
  function ReconstructAsWritten(p: Ratio, w: seq<int>, e: seq<int>): Description
    requires ProperFraction(p) && |e| == 3 && 0 <= e[0] < |w| && w[e[0]] >= 0
  {
    Description(e[0], Alternatives(e[2] - e[1], IntervalSize(p, w[e[0]])), e[1], e[2])
  }

  /** Reading an archive back with every value in its own slot. */
  function Reconstruct(p: Ratio, w: seq<int>, e: seq<int>): (d: Description)
    requires ProperFraction(p) && |e| == 3 && 0 <= e[0] < |w| && w[e[0]] >= 0
    ensures Archive(d) == e
  {
    Describe(p, w, e[0], e[1], e[2])
  }

  /** Every description choice() makes survives archiving and reading back. */
  lemma ArchiveRoundTrip(p: Ratio, w: seq<int>, pos: nat, mn: int, mx: int)
    requires ProperFraction(p) && pos < |w| && w[pos] >= 0
    ensures Reconstruct(p, w, Archive(Describe(p, w, pos, mn, mx))) == Describe(p, w, pos, mn, mx)
  {
  }

  /**
   * As written, a description comes back unchanged exactly when its
   * position happens to equal its alternative count.
   */
  lemma AsWrittenRoundTrip(p: Ratio, w: seq<int>, pos: nat, mn: int, mx: int)
    requires ProperFraction(p) && pos < |w| && w[pos] >= 0
    ensures var d := Describe(p, w, pos, mn, mx);
              ReconstructAsWritten(p, w, Archive(d)) == d <==> d.pos == d.alt
  {
  }

  /**
   * The scenario choice (position 0, [0, 10], two alternatives) comes back
   * as a choice on position 2 with zero alternatives.
   */
  lemma AsWrittenLosesTheChoice()
    ensures var d := Describe(Ratio(3, 10), [10], 0, 0, 10);
              d == Description(2, 0, 0, 10) &&
              ReconstructAsWritten(Ratio(3, 10), [10], Archive(d)) == Description(0, 2, 0, 10)
  {
    assert IntervalSize(Ratio(3, 10), 10) == 7;
  }
}
