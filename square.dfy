/**
 * The two pure helpers of the square-packing model: the side of the square
 * with a given index (the squares are indexed from the biggest, of side n,
 * down) and the forbidden gap of a square, the distance from the border of
 * the enclosing box at which that square may not be placed.
 */
module SquarePacking {

  /** size(i): square i has side n - i, so index 0 is the biggest square. */
  function Size(n: int, i: int): (s: int)
    ensures 0 <= i < n ==> 1 <= s <= n
    ensures s + i == n
  {
    n - i
  }

  /** The forbidden gap as a function of the side of the square. */
  function GapOfSide(side: int): (g: int)
    ensures g == -1 <==> side < 2
    ensures side >= 2 ==> 2 <= g <= 10
    ensures g == 10 <==> side == 45
  {
    if side == 45 then 10
    else if side >= 34 then 9
    else if side >= 30 then 8
    else if side >= 22 then 7
    else if side >= 18 then 6
    else if side >= 12 then 5
    else if side >= 9 then 4
    else if side >= 5 then 3
    else if side >= 2 then 2
    else -1
  }

  /** forbiddenGap(i): the gap of square i. */
  function ForbiddenGap(n: int, i: int): (g: int)
    ensures g == -1 <==> Size(n, i) < 2
    ensures Size(n, i) >= 2 ==> 2 <= g <= 10
  {
    GapOfSide(Size(n, i))
  }

  /** From side 2 up to side 45 a bigger square never has a smaller gap. */
  lemma {:induction false} GapMonotone(s1: int, s2: int)
    requires 2 <= s1 <= s2 <= 45
    ensures GapOfSide(s1) <= GapOfSide(s2)
  {
  }

  /**
   * Past side 45 the table drops back from 10 to 9, so the gap is not
   * monotone over all sides.
   */
  lemma GapNotMonotoneBeyond45()
    ensures GapOfSide(45) == 10 && GapOfSide(46) == 9
  {
  }

  /**
   * Over square indices the same fact: a smaller square (larger index) never
   * has a larger gap, as long as the biggest square has side at most 45.  A
   * square of side 1 has gap -1, below every other.
   */
  lemma ForbiddenGapByIndex(n: int, i: int, j: int)
    requires n <= 45 && 0 <= i <= j
    ensures ForbiddenGap(n, j) <= ForbiddenGap(n, i)
  {
    if Size(n, j) >= 2 {
      GapMonotone(Size(n, j), Size(n, i));
    }
  }
}
