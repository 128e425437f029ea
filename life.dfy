/**
 * The still-life check of the Life model.  A board of dim x dim cells sits
 * inside a border of dead cells, so the grid holds (dim + 2) x (dim + 2)
 * values in row-major order: cell (r, c) is q[r * (dim + 2) + c], with 0 for
 * dead and 1 for live.  The check visits every interior cell, sums its eight
 * neighbours and flags the cell when the condition of the source holds; the
 * board checks when no cell is flagged.
 */
module StillLife {

  /** A cell of an n x n row-major grid lies inside the grid. */
  lemma IndexInRange(r: int, c: int, n: int)
    requires 0 <= r < n && 0 <= c < n
    ensures 0 <= r * n + c < n * n
  {
    assert r * n >= 0;
    assert (n - 1 - r) * n >= 0;
    assert (n - 1 - r) * n == n * n - n - r * n;
  }

  /** The value at row r, column c of an n x n row-major grid. */
  function Cell(q: seq<int>, n: int, r: int, c: int): int
    requires |q| == n * n && 0 <= r < n && 0 <= c < n
  {
    IndexInRange(r, c, n);
    q[r * n + c]
  }

  /** A grid for a board of side dim, border included. */
  predicate Grid(q: seq<int>, dim: nat)
  {
    |q| == (dim + 2) * (dim + 2)
  }

  /** Interior cell (i, j) of the board. */
  predicate Interior(dim: nat, i: int, j: int)
  {
    1 <= i <= dim && 1 <= j <= dim
  }

  /**
   * The sum over the eight neighbours of interior cell (i, j), read in the
   * order of the source: the row above, the two sides, the row below.
   */
  function NeighbourSum(q: seq<int>, dim: nat, i: int, j: int): int
    requires Grid(q, dim) && Interior(dim, i, j)
  {
    var n := dim + 2;
    Cell(q, n, i - 1, j - 1) + Cell(q, n, i - 1, j) + Cell(q, n, i - 1, j + 1) +
    Cell(q, n, i, j - 1) + Cell(q, n, i, j + 1) +
    Cell(q, n, i + 1, j - 1) + Cell(q, n, i + 1, j) + Cell(q, n, i + 1, j + 1)
  }

  // ---------------------------------------------------------------------------
  // An independent reading of "the eight neighbours"

  /** The offsets (dr, dc) with -1 <= dr, dc <= 1 other than (0, 0). */
  const Around: seq<(int, int)> :=
    [(-1, -1), (-1, 0), (-1, 1), (0, -1), (0, 1), (1, -1), (1, 0), (1, 1)]

  predicate Near(o: (int, int))
  {
    -1 <= o.0 <= 1 && -1 <= o.1 <= 1
  }

  /** The values at (i, j) + o for every offset o of offs. */
  function SumAt(q: seq<int>, dim: nat, i: int, j: int, offs: seq<(int, int)>): int
    requires Grid(q, dim) && Interior(dim, i, j)
    requires forall k :: 0 <= k < |offs| ==> Near(offs[k])
  {
    if offs == [] then 0
    else
      assert Near(offs[0]);
      Cell(q, dim + 2, i + offs[0].0, j + offs[0].1) + SumAt(q, dim, i, j, offs[1..])
  }

  /** Around lists each offset of the 3 x 3 block around a cell but its centre, once. */
  lemma AroundIsTheNeighbourhood()
    ensures |Around| == 8
    ensures forall k, l :: 0 <= k < l < |Around| ==> Around[k] != Around[l]
    ensures forall dr, dc :: (dr, dc) in Around <==> Near((dr, dc)) && (dr, dc) != (0, 0)
  {
  }

  /** The source's eight reads are the sum over the neighbourhood. */
  lemma {:induction false} NeighbourSumIsSumAround(q: seq<int>, dim: nat, i: int, j: int)
    requires Grid(q, dim) && Interior(dim, i, j)
    ensures NeighbourSum(q, dim, i, j) == SumAt(q, dim, i, j, Around)
  {
    var n := dim + 2;
    assert Around[7..] == [(1, 1)];
    assert SumAt(q, dim, i, j, Around[7..]) == Cell(q, n, i + 1, j + 1) by {
      assert Around[7..][1..] == [];
    }
    assert SumAt(q, dim, i, j, Around[6..]) == Cell(q, n, i + 1, j) + SumAt(q, dim, i, j, Around[7..]) by {
      assert Around[6..][1..] == Around[7..];
    }
    assert SumAt(q, dim, i, j, Around[5..]) == Cell(q, n, i + 1, j - 1) + SumAt(q, dim, i, j, Around[6..]) by {
      assert Around[5..][1..] == Around[6..];
    }
    assert SumAt(q, dim, i, j, Around[4..]) == Cell(q, n, i, j + 1) + SumAt(q, dim, i, j, Around[5..]) by {
      assert Around[4..][1..] == Around[5..];
    }
    assert SumAt(q, dim, i, j, Around[3..]) == Cell(q, n, i, j - 1) + SumAt(q, dim, i, j, Around[4..]) by {
      assert Around[3..][1..] == Around[4..];
    }
    assert SumAt(q, dim, i, j, Around[2..]) == Cell(q, n, i - 1, j + 1) + SumAt(q, dim, i, j, Around[3..]) by {
      assert Around[2..][1..] == Around[3..];
    }
    assert SumAt(q, dim, i, j, Around[1..]) == Cell(q, n, i - 1, j) + SumAt(q, dim, i, j, Around[2..]) by {
      assert Around[1..][1..] == Around[2..];
    }
  }

  // ---------------------------------------------------------------------------
  // The flag condition

  /**
   * The condition of the source, with && binding tighter than ||: a live
   * cell with more than three neighbours, any cell with fewer than two, or a
   * dead cell with exactly three.
   */
  function NonStill(cell: int, sum: int): (r: bool)
    ensures cell == 1 && 2 <= sum <= 3 ==> !r
    ensures cell == 1 && sum > 3 ==> r
    ensures cell == 0 && sum == 3 ==> r
    ensures sum < 2 ==> r
    ensures cell == 0 && sum != 3 && sum >= 2 ==> !r
  {
    ((cell == 1 && sum > 3) || sum < 2) || (cell == 0 && sum == 3)
  }

  /** Interior cell (i, j) is reported as not still. */
  predicate Flagged(q: seq<int>, dim: nat, i: int, j: int)
    requires Grid(q, dim) && Interior(dim, i, j)
  {
    NonStill(Cell(q, dim + 2, i, j), NeighbourSum(q, dim, i, j))
  }

  /**
   * The check: every interior cell is visited, row by row, and the board
   * checks exactly when none of them is flagged.
   */
  method Check(q: seq<int>, dim: nat) returns (checks: bool)
    requires Grid(q, dim)
    ensures checks <==> forall i, j :: Interior(dim, i, j) ==> !Flagged(q, dim, i, j)
  {
    checks := true;
    for i := 1 to dim + 1
      invariant checks <==> forall r, c :: 1 <= r < i && 1 <= c <= dim ==> !Flagged(q, dim, r, c)
    {
      for j := 1 to dim + 1
        invariant checks <==>
                    (forall r, c :: 1 <= r < i && 1 <= c <= dim ==> !Flagged(q, dim, r, c)) &&
                    (forall c :: 1 <= c < j ==> !Flagged(q, dim, i, c))
      {
        var sum := NeighbourSum(q, dim, i, j);
        var nonStill := NonStill(Cell(q, dim + 2, i, j), sum);
        assert nonStill == Flagged(q, dim, i, j);
        if nonStill {
          checks := false;
        }
      }
    }
  }

  // ---------------------------------------------------------------------------
  // What the condition was meant to say: the cell changes under B3/S23

  /** The next state of a cell under B3/S23: born with 3, survives with 2 or 3. */
  function Next(cell: int, sum: int): int
  {
    if sum == 3 || (cell == 1 && sum == 2) then 1 else 0
  }

  /**
   * The condition with the live-cell test applied to both survival limits:
   * a live cell with fewer than two or more than three neighbours, or a dead
   * cell with exactly three.
   */
  function Changes(cell: int, sum: int): (r: bool)
    ensures (cell == 0 || cell == 1) ==> (r <==> Next(cell, sum) != cell)
  {
    (cell == 1 && (sum > 3 || sum < 2)) || (cell == 0 && sum == 3)
  }

  /** As written, the condition also flags every dead cell with fewer than two neighbours. */
  lemma NonStillOverflags(cell: int, sum: int)
    requires cell == 0 || cell == 1
    ensures NonStill(cell, sum) <==> Changes(cell, sum) || (cell == 0 && sum < 2)
  {
  }

  /** The board is a still life: no interior cell changes. */
  predicate Still(q: seq<int>, dim: nat)
    requires Grid(q, dim)
  {
    forall i, j :: 1 <= i <= dim && 1 <= j <= dim ==> !Changes(Cell(q, dim + 2, i, j), NeighbourSum(q, dim, i, j))
  }

  /** On a 0/1 grid, Still means one Life step leaves every interior cell as it is. */
  lemma StillIsFixpoint(q: seq<int>, dim: nat)
    requires Grid(q, dim)
    requires forall k :: 0 <= k < |q| ==> q[k] == 0 || q[k] == 1
    ensures Still(q, dim) <==>
              forall i, j :: Interior(dim, i, j) ==>
                Next(Cell(q, dim + 2, i, j), NeighbourSum(q, dim, i, j)) == Cell(q, dim + 2, i, j)
  {
    forall i, j | Interior(dim, i, j)
      ensures Cell(q, dim + 2, i, j) == 0 || Cell(q, dim + 2, i, j) == 1
    {
      IndexInRange(i, j, dim + 2);
    }
  }

  /**
   * The 2 x 2 block in the middle of a 4 x 4 board: four live cells and a
   * dead border.
   */
  const Block: seq<int> := seq(36, k => if k == 14 || k == 15 || k == 20 || k == 21 then 1 else 0)

  /** The block is a board the Life model admits: a 0/1 grid, dead border, no cell changes. */
  lemma BlockIsStill()
    ensures Grid(Block, 4)
    ensures forall k :: 0 <= k < |Block| ==> Block[k] == 0 || Block[k] == 1
    ensures forall r :: 0 <= r < 6 ==>
              Cell(Block, 6, 0, r) == 0 && Cell(Block, 6, 5, r) == 0 &&
              Cell(Block, 6, r, 0) == 0 && Cell(Block, 6, r, 5) == 0
    ensures Still(Block, 4)
  {
    forall i, j | 1 <= i <= 4 && 1 <= j <= 4
      ensures !Changes(Cell(Block, 6, i, j), NeighbourSum(Block, 4, i, j))
    {
      IndexInRange(i, j, 6);
    }
  }

  /**
   * Yet the block's corner cell (1, 1) is dead with one live neighbour and
   * is flagged, so the check rejects this still life.
   */
  lemma BlockCornerFlagged()
    ensures Grid(Block, 4)
    ensures Cell(Block, 6, 1, 1) == 0 && NeighbourSum(Block, 4, 1, 1) == 1
    ensures Flagged(Block, 4, 1, 1)
  {
  }
}
