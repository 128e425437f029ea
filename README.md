# Square packing, interval branching and the still-life check

This project models the hand-written parts of three constraint models built
on a finite-domain solver, and proves properties of them:

- **The NoOverlap propagator** (`A3/square.cpp`). Rectangle `i` sits at
  `(x[i], y[i])` with fixed width `w[i]` and height `h[i]`. One run visits
  every pair `i < j` in the order of the two nested loops. For each pair it
  applies four rules of the form "j can be neither left of, right of nor
  below i, so j is above i". Each rule raises one lower bound with `gq` and
  the run fails at the first bound that would cross its upper bound. After
  the loops comes a subsumption loop, modelled exactly as written. Posting
  (`post`, `nooverlap2`) is modelled too, as are the pure helpers `size` and
  `forbiddenGap` of the `Square` model.
- **The interval brancher** (`A4/interval.cpp`). `status` asks whether some
  variable with extent at least 5 has a domain wider than its sub-interval
  size `floor((1 - p) * w)`. `choice` picks the first such variable and
  records its position, bounds and number of alternatives
  `ceil((width + 1) / (size + 1))`. `commit(a)` narrows the variable to
  `[min + a (size + 1), min + (a + 1) (size + 1))` with `gq` and then `le`.
  The description's archive form and its reconstruction are modelled, as
  are posting (`interval`) and the copy constructor's copy of `w`.
- **The still-life check** in `Life::print` (`A4/life.cpp`). The board lies
  inside a dead border and is stored row-major with stride `dim + 2`. The
  check sums the eight neighbours of every interior cell and flags the cell
  when the source's condition holds.

The solver runtime itself is not part of this model. In its place,
`store.dfy` is a bounds store: one interval `[lo[k], hi[k]]` per variable,
with `Gq` (x >= v) and `Le` (x < v). Their events follow the solver's view
operations: no change, failure when the bound would cross, otherwise a
narrowed domain.

Layout:

- `store.dfy` (`Domains`) holds the store, its value form `Box` and the
  value-level `BoxGq`/`BoxLe`.
- `nooverlap_rules.dfy` (`NoOverlapRules`) defines one propagator run as a
  function on bounds (`Propagation`).
- `nooverlap_props.dfy` (`NoOverlapProps`) proves what that run guarantees.
- `nooverlap.dfy` (`NoOverlapPropagator`) is the propagator as a class whose
  methods narrow the store in place. They are proved to compute exactly
  `Propagation`.
- `square.dfy` (`SquarePacking`) holds `size` and `forbiddenGap`.
- `interval_split.dfy` (`IntervalSplit`) holds the brancher's arithmetic and
  its choice description.
- `interval.dfy` (`IntervalBranching`) is the brancher as a class.
- `life.dfy` (`StillLife`) is the still-life check.

The ratio `p` is a `double` in the source. Here it is a rational `num/den`
with `0 < num < den`, and `floor((1 - p) * w)` becomes
`((den - num) * w) / den`.

The subsumption block at A3/square.cpp:134-151 is meant to retire the
propagator once every pair is certainly separated. But `subsumed` starts
`false`, so the loop never runs and the propagator is never retired.
`SubsumptionLoop` models the loop as written. `IsSubsumed` is the test that
block evidently intends.

## Model

| member | source | states |
|---|---|---|
| Domains.GqEvent | A3/square.cpp:112 | raising a lower bound to v fails exactly when v exceeds the upper bound, changes nothing when v is at or below the lower bound, and assigns the variable when v equals the upper bound |
| Domains.BoxGq | A3/square.cpp:112 | `x >= v` fails exactly when v is above the upper bound; otherwise only the lower bound of that variable becomes max(lo, v), which is at least v, and a non-empty domain stays non-empty |
| Domains.BoxLe | A4/interval.cpp:154 | `x < v` fails exactly when v - 1 is below the lower bound; otherwise only the upper bound becomes min(hi, v - 1), which is below v |
| Domains.Store.Gq | A3/square.cpp:112 | the in-place gq returns the event of GqEvent and leaves the store equal to BoxGq of the old bounds; on failure nothing changes |
| Domains.Store.Le | A4/interval.cpp:154 | the in-place le fails exactly when BoxLe fails and otherwise leaves the store equal to BoxLe of the old bounds; on failure nothing changes |
| NoOverlapRules.PairRules | A3/square.cpp:108-130 | defines the four rules of one pair in source order, each on the bounds the previous one left, stopping at the first failure; its properties are PairRulesNarrows, PairRulesKeepsDomains, PairRulesKeeps and PairRulesOnFixed |
| NoOverlapRules.RunFrom | A3/square.cpp:105-131 | defines the rest of the nested sweep from pair (i, j): the pairs (i, j) to (i, n-1), then row i+1 onwards, ending at the first failure; its properties are the RunFrom lemmas of NoOverlapProps |
| NoOverlapRules.Visit | A3/square.cpp:105-131 | defines one step of that sweep: the rules of pair (i, j), then the rest of the sweep on the bounds they leave |
| NoOverlapRules.Propagation | A3/square.cpp:105-131 | defines one run of the propagator, the sweep from pair (0, 1); Sweep is proved to compute it and PropagationIsSound, FixedBoundsDecideOverlap and EntailedNeverPrunes state what it guarantees |
| NoOverlapRules.ForceUp | A3/square.cpp:108-112 | if j can be neither left, right nor below i, j's y lower bound becomes at least y[i].min + h[i], failing exactly when that crosses y[j].max; otherwise the bounds are unchanged; upper bounds never change |
| NoOverlapRules.ForceDown | A3/square.cpp:114-118 | if j can be neither left, right nor above i, i's y lower bound becomes at least y[j].min + h[j], failing exactly when that crosses y[i].max; otherwise nothing changes |
| NoOverlapRules.ForceRight | A3/square.cpp:120-124 | if j can be neither left, above nor below i, j's x lower bound becomes at least x[i].min + w[i], failing exactly when that crosses x[j].max; otherwise nothing changes |
| NoOverlapRules.ForceLeft | A3/square.cpp:126-130 | if j can be neither right, above nor below i, i's x lower bound becomes at least x[j].min + w[j], failing exactly when that crosses x[i].max; otherwise nothing changes |
| NoOverlapProps.PairRulesNarrows | A3/square.cpp:108-130 | the four rules of one pair keep every upper bound and never lower a lower bound |
| NoOverlapProps.PairRulesKeepsDomains | A3/square.cpp:108-130 | when the four rules of one pair do not fail, no domain becomes empty |
| NoOverlapProps.RunFromNarrows | A3/square.cpp:106-131 | the rest of a sweep from any pair keeps upper bounds, never lowers a lower bound, and leaves no domain empty unless it fails |
| NoOverlapProps.PropagationOnlyRaisesLowerBounds | A3/square.cpp:105-131 | a whole run only raises lower bounds, so every new domain is a subset of the old one |
| NoOverlapProps.PairRulesKeeps | A3/square.cpp:108-130 | a placement inside the bounds in which pair (i, j) is separated survives the four rules, each applied on the bounds the previous one left |
| NoOverlapProps.RunFromKeeps | A3/square.cpp:106-131 | a non-overlapping placement inside the bounds survives the rest of the sweep from any pair |
| NoOverlapProps.PropagationIsSound | A3/square.cpp:105-131 | a run never removes a non-overlapping placement, and so never fails while one exists |
| NoOverlapProps.PairRulesOnFixed | A3/square.cpp:108-130 | on fixed bounds the four rules change nothing when the pair is separated and fail otherwise |
| NoOverlapProps.RunFromOnFixed | A3/square.cpp:106-131 | on fixed bounds the rest of the sweep fails exactly when a pair it still visits overlaps |
| NoOverlapProps.FixedBoundsDecideOverlap | A3/square.cpp:105-131 | on fixed bounds a run fails if and only if two rectangles overlap, and otherwise changes nothing |
| NoOverlapProps.CertainlySeparated | A3/square.cpp:137-141 | defines the subsumption test of one pair: j is right of, left of, above or below i for every value in the bounds; CertainlySeparatedPairIsNoop and EntailedNeverPrunes state what it guarantees |
| NoOverlapProps.CertainlySeparatedPairIsNoop | A3/square.cpp:137-141 | a pair that passes the subsumption test is left alone by all four rules |
| NoOverlapProps.RunFromEntailed | A3/square.cpp:106-131 | when every pair passes the subsumption test, the rest of the sweep changes nothing |
| NoOverlapProps.EntailedNeverPrunes | A3/square.cpp:134-151 | once every pair passes the subsumption test, every placement in the bounds is non-overlapping and no later run on narrower bounds prunes anything, so retiring the propagator is safe |
| NoOverlapProps.FarApartIsEntailed | A3/square.cpp:137-141 | two unit squares fixed at (0, 0) and (5, 0) pass the subsumption test |
| NoOverlapProps.CornerPushesAbove | A3/square.cpp:108-112 | a 3 x 3 square fixed at the origin raises the y of a 2 x 2 square with x in [0, 2] and y in [0, 5] to 3, changing nothing else |
| NoOverlapProps.OneRunIsNotAFixpoint | A3/square.cpp:104-152 | on three unit squares in one row a run succeeds with every variable fixed and two squares on the same cell, and a second run on its result fails |
| NoOverlapProps.SlackDrops | A3/square.cpp:105-131 | raising lower bounds within the upper bounds never increases the total domain width, and strictly lowers it when anything changes |
| NoOverlapProps.Fixpoint | A3/square.cpp:104-152 | repeating the run until nothing changes ends in bounds that a further run leaves unchanged, narrower than the input and with no empty domain |
| NoOverlapProps.FixpointIsSound | A3/square.cpp:104-152 | the repeated run never removes a non-overlapping placement |
| NoOverlapProps.FixpointFixedIsPacking | A3/square.cpp:104-152 | when the repeated run leaves every variable fixed, no two rectangles overlap |
| NoOverlapProps.FixpointRejectsRow | A3/square.cpp:104-152 | the repeated run fails on the row that one run accepts |
| NoOverlapPropagator.NoOverlap.constructor | A3/square.cpp:64-70 | the propagator keeps the coordinate views and the width and height arrays it is given |
| NoOverlapPropagator.NoOverlap.Clone | A3/square.cpp:82-91 | the copy shares the views and owns fresh copies of the widths and heights, element for element |
| NoOverlapPropagator.NoOverlap.Propagate | A3/square.cpp:104-152 | propagate fails exactly when the run fails; otherwise the store holds the run's bounds and the result is always ES_FIX, never subsumed |
| NoOverlapPropagator.NoOverlap.Sweep | A3/square.cpp:105-132 | the nested pair loops leave the store equal to a run from the old bounds, and fail exactly when the run fails |
| NoOverlapPropagator.NoOverlap.Row | A3/square.cpp:107-131 | the inner loop for row i carries the sweep from pair (i, i+1) to pair (i+1, i+2), or fails exactly when the sweep fails within the row |
| NoOverlapPropagator.NoOverlap.PairStep | A3/square.cpp:108-130 | the four guarded gq calls for one pair, in order with early exit, leave the store equal to PairRules of the old bounds, failing exactly when it fails |
| NoOverlapPropagator.NoOverlap.StepUp | A3/square.cpp:109-112 | the first guarded gq computes ForceUp on the store |
| NoOverlapPropagator.NoOverlap.StepDown | A3/square.cpp:115-118 | the second guarded gq computes ForceDown on the store |
| NoOverlapPropagator.NoOverlap.StepRight | A3/square.cpp:121-124 | the third guarded gq computes ForceRight on the store |
| NoOverlapPropagator.NoOverlap.StepLeft | A3/square.cpp:127-130 | the fourth guarded gq computes ForceLeft on the store |
| NoOverlapPropagator.NoOverlap.SubsumptionLoop | A3/square.cpp:134-146 | the loop as written answers subsumed only if the flag started true, so from the source's `false` it never reports subsumption |
| NoOverlapPropagator.NoOverlap.IsSubsumed | A3/square.cpp:134-146 | the loop started from true at pair (0, 1) answers true exactly when every pair is certainly separated |
| NoOverlapPropagator.Post | A3/square.cpp:72-79 | posting always returns ES_OK and creates a propagator, keeping its arguments, exactly when there are at least two rectangles |
| NoOverlapPropagator.NoOverlap2 | A3/square.cpp:170-191 | mismatched lengths are reported before anything else; a failed store gets nothing; otherwise widths and heights are copied into fresh arrays and a propagator is posted exactly when there are at least two rectangles |
| SquarePacking.Size | A3/square.cpp:205-207 | square i has side n - i, between 1 and n for every index 0 <= i < n |
| SquarePacking.GapOfSide | A3/square.cpp:213-234 | the gap is -1 exactly for sides below 2, otherwise between 2 and 10, and 10 exactly for side 45 |
| SquarePacking.ForbiddenGap | A3/square.cpp:213-234 | forbiddenGap(i) is -1 exactly when size(i) < 2 and otherwise between 2 and 10 |
| SquarePacking.GapMonotone | A3/square.cpp:213-234 | from side 2 to side 45 a bigger square never has a smaller gap |
| SquarePacking.GapNotMonotoneBeyond45 | A3/square.cpp:214-217 | side 45 has gap 10 but side 46 has gap 9 |
| SquarePacking.ForbiddenGapByIndex | A3/square.cpp:213-234 | with a biggest square of side at most 45, a later index never has a larger gap, a square of side 1 included |
| IntervalSplit.IntervalSize | A4/interval.cpp:54-56 | interval_size is the floor of (1 - p) * width, and lies between 0 and the width |
| IntervalSplit.Alternatives | A4/interval.cpp:58-60 | alternatives is the ceiling of (width + 1) / (size + 1): the fewest blocks of size + 1 values covering width + 1 values; at least 1, and at least 2 when the width exceeds the size |
| IntervalSplit.RangeLength | A4/interval.cpp:153-154 | the range of every alternative holds size + 1 values |
| IntervalSplit.AlternativeOf | A4/interval.cpp:153-154 | a value of [min, max] lies in the range of alternative a exactly when a = (v - min) / (size + 1), and that alternative is one of the choice's |
| IntervalSplit.RangesPartition | A4/interval.cpp:153-154 | the ranges start at min, follow one another without gaps, are never empty, and the last alternative's range contains max |
| IntervalSplit.RangesDisjoint | A4/interval.cpp:153-154 | two different alternatives share no value |
| IntervalSplit.CommitBox | A4/interval.cpp:153-157 | gq then le: fails exactly when the new bounds max(lo, low) and min(hi, high - 1) cross, and otherwise narrows only that variable to them |
| IntervalSplit.CommitAtChoice | A4/interval.cpp:146-157 | on the bounds the choice was made from, every alternative a < alt succeeds and leaves [Low(a), min(High(a), max)] |
| IntervalSplit.CommitKeepsItsRange | A4/interval.cpp:146-157 | committing to alternative a keeps exactly the values v of the domain with (v - min) / (size + 1) = a, so each value survives in exactly one alternative |
| IntervalSplit.SplitScenario | A4/interval.cpp:54-60 | width 10 with p = 3/10 gives size 7 and two alternatives, [0, 7] and [8, 10] |
| IntervalSplit.Archive | A4/interval.cpp:85-89 | defines the archive of a choice as pos, min and max in that order; ArchiveRoundTrip and Reconstruct state that reading it back in slot order inverts it |
| IntervalSplit.ReconstructAsWritten | A4/interval.cpp:139-144 | defines the archive read as written: pos, min and max read in order, with pos put in the alternatives slot and the recomputed count in the position slot; AsWrittenRoundTrip and AsWrittenLosesTheChoice state what that loses |
| IntervalSplit.Describe | A4/interval.cpp:129-132 | the description records the position and bounds, with at least two alternatives when the domain is wider than the sub-interval size |
| IntervalSplit.Reconstruct | A4/interval.cpp:139-144 | reading an archive back with each value in its own slot gives a description whose archive is the input |
| IntervalSplit.ArchiveRoundTrip | A4/interval.cpp:85-89 | archiving a description and reading it back gives the same description |
| IntervalSplit.AsWrittenRoundTrip | A4/interval.cpp:139-144 | as written, a description survives archiving only when its position equals its alternative count |
| IntervalSplit.AsWrittenLosesTheChoice | A4/interval.cpp:139-144 | as written, the choice on position 0 with two alternatives comes back as a choice on position 2 with no alternative |
| IntervalBranching.IntervalBrancher.constructor | A4/interval.cpp:93-99 | the brancher keeps its views, extents and ratio |
| IntervalBranching.IntervalBrancher.Clone | A4/interval.cpp:102-108 | the copy keeps the views and ratio and owns a fresh element-wise copy of the extents |
| IntervalBranching.IntervalBrancher.Status | A4/interval.cpp:115-124 | status is true exactly when some variable has extent at least 5 and a domain wider than its sub-interval size |
| IntervalBranching.IntervalBrancher.Choice | A4/interval.cpp:126-137 | choice picks the lowest such variable, records its current bounds and the alternatives count, which is at least 2 |
| IntervalBranching.Splittable | A4/interval.cpp:119 | defines the status test of one variable: extent at least 5 and a domain wider than its sub-interval size; Status and Choice are stated with it |
| IntervalBranching.IntervalBrancher.Committed | A4/interval.cpp:152-154 | defines alternative a of a choice on given bounds: CommitBox over [min + a * (size + 1), min + (a + 1) * (size + 1)); Commit is proved to compute it, and CommitAtChoice and CommitKeepsItsRange state what it keeps |
| IntervalBranching.IntervalBrancher.Commit | A4/interval.cpp:146-162 | commit fails exactly when the gq or, after it, the le fails; otherwise it returns ES_OK and the store equals CommitBox of the old bounds, so only the chosen variable changes |
| IntervalBranching.Interval | A4/interval.cpp:180-194 | mismatched lengths are reported, a failed store gets nothing, otherwise a brancher is posted on a fresh copy of the extents |
| StillLife.NeighbourSum | A4/life.cpp:130-138 | defines the sum of the eight reads of the source for interior cell (i, j); NeighbourSumIsSumAround proves it is the sum over the 3 x 3 neighbourhood |
| StillLife.Flagged | A4/life.cpp:139-143 | defines the source's flag for interior cell (i, j): NonStill of the cell and its neighbour sum; Check is proved to report exactly the absence of flagged cells |
| StillLife.IndexInRange | A4/life.cpp:128-138 | every row r and column c of the bordered grid map to an index in [0, (dim + 2)^2) |
| StillLife.AroundIsTheNeighbourhood | A4/life.cpp:130-138 | the eight offsets are distinct and are exactly the 3 x 3 block around a cell without its centre |
| StillLife.NeighbourSumIsSumAround | A4/life.cpp:130-138 | the source's eight reads add up the cells at every offset of the neighbourhood |
| StillLife.NonStill | A4/life.cpp:139-142 | a live cell with 2 or 3 neighbours is never flagged; a dead cell with 3 always is; any cell with fewer than 2 is flagged whatever its state; a live cell with more than 3 is flagged |
| StillLife.Check | A4/life.cpp:127-149 | the check ends true exactly when no interior cell is flagged |
| StillLife.Changes | A4/life.cpp:139-142 | on 0/1 cells the corrected condition holds exactly when the B3/S23 next state differs from the cell |
| StillLife.NonStillOverflags | A4/life.cpp:139-142 | the condition as written is the corrected one plus every dead cell with fewer than 2 neighbours |
| StillLife.StillIsFixpoint | A4/life.cpp:139-142 | on a 0/1 grid no interior cell meets the corrected condition exactly when one Life step leaves every interior cell unchanged |
| StillLife.BlockIsStill | A4/life.cpp:83-104 | the 2 x 2 block centred on a 4 x 4 board is a 0/1 grid with a dead border and no interior cell that changes, so the Life model admits it |
| StillLife.BlockCornerFlagged | A4/life.cpp:139-143 | on that block the dead corner cell (1, 1) has one live neighbour and is flagged |

## Left out

- The solver runtime is not part of this model: spaces, view arrays, subscriptions, cost, disposal, the search engines and `Script::run`. The bounds store stands in for the variables.
- The `Square`, `Life` and other model constructors are not part of this model. They only post library constraints and branchings. This includes the guard `size(i)<=45 || size(i)>=2` at A3/square.cpp:278, which holds for every `i`.
- Domains with holes are not modelled. The store keeps only the bounds of each variable. The Square model posts `x[i] != forbiddenGap(i)`, `!= 3` and `!= 1` (A3/square.cpp:278-289), so there a real `gq(v)` or `le(v)` moves the bound to the next value in the domain rather than to v, and a commit can fail on a range made only of holes.
- The ratio `p` and the `floor`/`ceil` on doubles are modelled with exact rationals and integer division. Floating-point rounding is not captured. `filter`'s `0.3*size(i)` is not modelled.
- 32-bit `int` overflow is not modelled. The same goes for commit's unsigned `a` and its cast back to `int`. Integers are unbounded here.
- `IntervalBrancher::print` (A4/interval.cpp:164-176) is output only and is not modelled. It reports ranges of `size` values where commit uses `size + 1`.
- The other output is not modelled: the streams written by `Life::print`, the other `print` methods, the GUI inspector and `main`.
- The `start` cache of the interval brancher is not modelled, because it is never read.
- The base part of `Choice::archive` is not modelled. Only `pos`, `min` and `max` are.
- The `home.fail()` branch of `nooverlap2` is not modelled. `post` always returns ES_OK, so the branch cannot run (see `NoOverlapPropagator.Post`).
- IntervalSplit.Alternatives: requires `size >= 0`. A negative sub-interval size only arises from a negative extent, and the brancher splits only variables with extent at least 5.
- IntervalSplit.Reconstruct: requires the stored position's extent to be non-negative, for the same reason.
- SquarePacking.GapMonotone: stated for sides 2 to 45 only. The table drops from 10 to 9 past 45 (GapNotMonotoneBeyond45).
- SquarePacking.ForbiddenGapByIndex: stated only for a biggest square of side at most 45, for the same reason.
- NoOverlapPropagator.NoOverlap.SubsumptionLoop: the source declares `i` without initialising it. The `subsumed &&` test at A3/square.cpp:136 short-circuits, so `i` is never read. The model takes an arbitrary starting row.
- NoOverlapPropagator.NoOverlap.constructor: requires at least two rectangles, because `post` creates a propagator only then.

## Findings

| source | as written | input that shows it | evidently intended | confidence | as-written member | corrected member |
|---|---|---|---|---|---|---|
| A3/square.cpp:104-152 | one sweep over the pairs, then ES_FIX whenever it does not fail | three unit squares in one row (y fixed at 0), x0, x1 in [0, 1], x2 = 0: the run fixes x0 = x1 = 1 on top of each other and reports a fixpoint, and a second run fails | report a fixpoint only when a run changes nothing, by repeating the run | not executed | NoOverlapProps.OneRunIsNotAFixpoint | NoOverlapProps.Fixpoint |
| A3/square.cpp:134-146 | `subsumed` starts false, so the subsumption loop never runs, and `i` is uninitialised | two unit squares fixed at (0, 0) and (5, 0): every pair is certainly separated, yet propagate returns ES_FIX | start from true at pair (0, 1) and report subsumption when every pair is certainly separated | not executed | NoOverlapPropagator.NoOverlap.SubsumptionLoop | NoOverlapPropagator.NoOverlap.IsSubsumed |
| A4/interval.cpp:143 | the archived position goes to the alternatives slot and the recomputed count to the position slot | description (2 alternatives, position 0, [0, 10]) with w = [10], p = 3/10 comes back as (0 alternatives, position 2, [0, 10]) | `Description(*this, alternatives(...), pos, min, max)`, the slot order of line 78 | not executed | IntervalSplit.AsWrittenLosesTheChoice | IntervalSplit.Reconstruct |
| A4/life.cpp:139-143 | `&&` binds tighter than `\|\|`, so `sum < 2` flags dead cells too | the 2 x 2 block centred on a 4 x 4 board: a still life the Life model admits, whose dead corner cell (1, 1) has one live neighbour and is flagged | flag a live cell with fewer than 2 or more than 3 neighbours, or a dead cell with exactly 3 | not executed | StillLife.BlockCornerFlagged | StillLife.Changes |
