# Genetic path planner — verified model

A Dafny model of the discrete machinery of `code/genetic-algorithm.py`: a
genetic algorithm that searches for a collision-avoiding route between a
start and an end point in a rectangular field with rectangular obstacles.

The model covers:

- the placement of points and obstacles in the field (`Grid.random`,
  `Grid.generateObstacles`), in module `Environment`;
- the fitness of a route (the length and collision loop of `Path.fitness`),
  in module `Fitness`;
- the shape of a random initial route (`individual`), in module `Routes`;
- the ranker (`sort` and `merge`, a top-down stable merge sort on a scratch
  array), in module `Ranker`;
- the evolution operator (`evolve`: parent choice, midpoint crossover,
  mutation), in module `Evolution`;
- the elitist generation loop of `main` (breed, score, rank parents and
  children together, truncate, read the best score), in module `Generations`.

Shared error values live in module `Results`. Points, segments and
rectangles are in module `Geometry`.

How the model stands in for what it cannot see:

- **Randomness.** numpy's random generator is replaced by supplied draws:
  - `Environment.Draw` holds one number per axis;
  - `Evolution.Attempt` holds the draws of one pass of `evolve`'s loop;
  - `randint(low, high)` returns `low + u % (high - low)` for a supplied
    `u`.

  Every value numpy could return is reachable (`RandIntCovers`,
  `RandomCovers`).
- **Unbounded loops.** The source redraws obstacles and parent pairs
  without bound. The model consumes a finite list of draws and reports
  `Exhausted` when the list runs out.
- **Geometry.** The geometry module is not part of this model. Its
  operations come in as function parameters:
  - point/obstacle intersection (`hits`);
  - segment/obstacle intersection (`crosses`);
  - segment length (`length`);
  - subdivision (`divide`).
- **Python lists.** `merge` overwrites a copy of the population in place,
  so the model keeps that as a Dafny `array`. Everywhere else lists are
  values: every function returns new sequences, and no input is modified.
  In particular, `evolve` leaves the parents' point lists unchanged.
- **Scores.** A path's `score` is stored as the square of the source's
  score: `(distance / shortest)² + collisions²` without the square root.
  The square root is strictly increasing on non-negative numbers, so under
  exact arithmetic the ranking and every tie are the same. With floats they
  can differ (see `Fitness.Score` under "## Left out").

`evolve` needs two distinct members and does not check for them: with one
member it loops forever, and with none `randint` raises. The model follows
the code:

- `Evolution.Lonely` shows that one member runs out of attempts;
- `Generations.NeedsTwo` shows that a completed evolution step had at least
  two members.

## Model

| member | source | states |
|---|---|---|
| `Ranker.Sort` | code/genetic-algorithm.py:94-103 | the result is the merge sort of the input: a list of length at most one comes back unchanged; otherwise the result is non-decreasing in score, a permutation of the input (same multiset), and stable (for every score, the paths with that score keep their input order) |
| `Ranker.Merge` | code/genetic-algorithm.py:106-125 | after the main loop and both tail loops, the scratch array holds exactly the merge of the two runs, left run first on ties |
| `Ranker.Interleave` | code/genetic-algorithm.py:110-117 | the main loop stops with one run used up; the first `leftPosition + rightPosition` slots hold the merge's prefix; the rest of the merge is the merge of the two remainders |
| `Ranker.Drain` | code/genetic-algorithm.py:119-123 | a tail loop copies the rest of its run to the slots after the other run's position, leaves every other slot alone, and leaves its loop variable at the last index it visited (or untouched when the range is empty), as Python's `for` does |
| `Ranker.MergedLength` | code/genetic-algorithm.py:106-125 | the merge of two runs is as long as both together |
| `Ranker.MergedPermutes` | code/genetic-algorithm.py:106-125 | the merge holds exactly the elements of both runs (multiset union) |
| `Ranker.MergedSorted` | code/genetic-algorithm.py:110-117 | merging two sorted runs gives a sorted sequence |
| `Ranker.MergedGroups` | code/genetic-algorithm.py:112 | with `<=` favouring the left run, for every score the merge lists that score's left-run paths, then its right-run paths, each in their own order |
| `Ranker.MergeSortCorrect` | code/genetic-algorithm.py:94-103 | the recursive sort is sorted, a permutation and stable |
| `Ranker.SortedGroupsUnique` | code/genetic-algorithm.py:94-125 | two sorted sequences with the same equal-score groups are equal, so a stable sort's result is determined by its input |
| `Ranker.MergeSortIdempotent` | code/genetic-algorithm.py:94-125 | sorting an already sorted population changes nothing, so sorting twice is sorting once |
| `Ranker.SortedHeadIsBest` | code/genetic-algorithm.py:289 | index 0 of a sorted population scores no worse than any member |
| `Environment.Trunc` | code/genetic-algorithm.py:32-33 | the float bounds handed to `randint` become integers by truncation toward zero (within 1, on the side of zero) |
| `Environment.RandInt` | code/genetic-algorithm.py:32-33 | `randint(low, high)` gives an integer in `[low, high)`, and fails with EmptyRange exactly when `low >= high` |
| `Environment.RandIntCovers` | code/genetic-algorithm.py:32-33 | every integer of `[low, high)` is drawn by some draw |
| `Environment.Random` | code/genetic-algorithm.py:30-34 | `Grid.random` succeeds exactly when both axes leave an integer to draw, and then returns whole-number coordinates between the truncated bounds `minimum + offset` and `maximum - offset - size + 1` (exclusive) |
| `Environment.RandomWithin` | code/genetic-algorithm.py:30-34 | with whole-number bounds, each coordinate lies in `[minimum + offset, maximum - offset - size]`, both ends included |
| `Environment.RandomCovers` | code/genetic-algorithm.py:30-34 | every point `Grid.random` may return is returned for some draw |
| `Environment.Candidate` | code/genetic-algorithm.py:39 | a candidate obstacle has the requested width, height and angle and a datum `Grid.random(Point(0, 0), size)` can return |
| `Environment.Place` | code/genetic-algorithm.py:36-43 | rejection sampling yields exactly `count` obstacles after those already placed; the already placed ones stay in front; EmptyRange only when no obstacle fits in the field |
| `Environment.PlaceObstacles` | code/genetic-algorithm.py:40-42 | every obstacle kept has the requested shape, lies where `Grid.random` can put it, and intersects neither the start point nor the end point |
| `Environment.PlaceSucceeds` | code/genetic-algorithm.py:38-42 | placement succeeds exactly when the obstacle fits in the field and the draws hold at least `count` acceptable candidates |
| `Environment.GenerateObstacles` | code/genetic-algorithm.py:36-43 | the nested for/while loops compute `Place` over the draws |
| `Fitness.Segments` | code/genetic-algorithm.py:55 | a non-empty route has `len(points) - 1` segments, the empty route none |
| `Fitness.RowSize` | code/genetic-algorithm.py:58-60 | the inner loop counts exactly the obstacles the segment intersects |
| `Fitness.CollisionsCountPairs` | code/genetic-algorithm.py:55-60 | the collision term is 1000 times the number of intersecting (segment index, obstacle index) pairs |
| `Fitness.CollisionFree` | code/genetic-algorithm.py:55-60 | the collision term is 0 exactly when no segment intersects any obstacle |
| `Fitness.Score` | code/genetic-algorithm.py:62 | the squared score is at least the squared collision term, and equals the squared relative length when there is no collision |
| `Fitness.Graded` | code/genetic-algorithm.py:51-62 | scoring keeps the route's points |
| `Fitness.Baseline` | code/genetic-algorithm.py:62 | a collision-free route as long as the straight start-to-end segment scores exactly 1 |
| `Fitness.CollisionScaling` | code/genetic-algorithm.py:62 | a route as long as the straight segment with `k` intersecting pairs scores `1 + (1000 k)²`, the square of `sqrt(1 + (1000 k)²)` |
| `Fitness.CollisionsDominate` | code/genetic-algorithm.py:55-62 | a collision-free route less than 1000 times the straight length ranks strictly ahead of any route that intersects an obstacle |
| `Fitness.Fitness` | code/genetic-algorithm.py:51-62 | the segment loop with its inner obstacle loop computes the summed length and the collision term, and the path gets the score of `Graded` |
| `Fitness.ScoreAll` | code/genetic-algorithm.py:268-271 | scoring the offspring yields one scored path per route, in order |
| `Routes.Individual` | code/genetic-algorithm.py:65-73 | the route starts at `grid.first`, is just `[grid.first]` for zero segments, and ends with `divide` of a hop from the route's last point to `grid.final`; it fails (EmptyRange) exactly when a random anchor is needed and the field leaves none |
| `Evolution.Crossover` | code/genetic-algorithm.py:136-137 | the child takes parent A's points before `len(pathA) // 2` and parent B's points from there on, so its length is `len(pathB)`, or the cut position when parent B is shorter |
| `Evolution.Offspring` | code/genetic-algorithm.py:131-141 | one pass of the loop breeds nothing exactly when the population is non-empty and the two drawn indices coincide (always so for a one-member population); it fails, always with EmptyRange, exactly when the population is empty, or when the indices differ, the coin calls for a mutation and either the child is empty or the field leaves no point to draw; in every other case it yields a child that is the crossover of two members at distinct indices, with at most one point replaced by a point `Grid.random` can return |
| `Evolution.Children` | code/genetic-algorithm.py:128-142 | breeding continues until there are `count` children, keeping those already bred in front |
| `Evolution.ChildrenBred` | code/genetic-algorithm.py:130-141 | every child comes from two distinct members with at most one point replaced |
| `Evolution.Lonely` | code/genetic-algorithm.py:130-133 | with a single member no pair is ever accepted (the source loops forever; the model runs out of attempts) |
| `Evolution.ChildrenSucceed` | code/genetic-algorithm.py:129-142 | with at least two members, none of them an empty route, and a field that leaves room for a mutation point, breeding completes when every attempt draws distinct indices and there are enough attempts, whatever the coins: each attempt adds a child |
| `Evolution.OffspringCrossed` | code/genetic-algorithm.py:133-138 | when the coin is above the mutation chance, the child is exactly the crossover of the two chosen members |
| `Evolution.NoMutation` | code/genetic-algorithm.py:138-141 | when no coin is at most the mutation chance, every child is exactly a crossover of two distinct members |
| `Evolution.Evolve` | code/genetic-algorithm.py:128-142 | the while loop, one `Offspring` pass per attempt, computes `Children` from an empty list |
| `Generations.Elitism` | code/genetic-algorithm.py:273-277 | after extend, sort and truncate, the population is sorted, has `min(len, populationCount)` members drawn from parents and children, every survivor scores no worse than every path cut off, and the best is no worse than the parents' best |
| `Generations.Truncated` | code/genetic-algorithm.py:276-277 | keeping the first `populationCount` of a ranking keeps it sorted, keeps only its members, and every kept path scores no worse than every path cut off |
| `Generations.NeedsTwo` | code/genetic-algorithm.py:264 | an evolution step that completes had a population of at least two |
| `Generations.GenerationElitist` | code/genetic-algorithm.py:264-277 | a completed generation leaves exactly `populationCount` ranked paths whose best is no worse than before |
| `Generations.HeadIsBest` | code/genetic-algorithm.py:252 | the first path of the ranked initial population scores no worse than any initial path |
| `Generations.NonIncreasingBelow` | code/genetic-algorithm.py:289 | a run of best scores that never gets worse and starts at or below a bound stays at or below that bound |
| `Generations.Step` | code/genetic-algorithm.py:264-277 | one pass of the generation loop computes `Generation`: evolve, score, extend, sort, truncate |
| `Generations.Run` | code/genetic-algorithm.py:252-296 | the loop reports one best score per generation; the best never gets worse; every best is no worse than every initial path; the final population exists exactly when at least one generation ran, and then it is ranked, has `populationCount` members and starts with the last best; a run with a generation had at least two initial routes |

## Left out

- `bezierCurve` and `bernsteinPolynomial` (code/genetic-algorithm.py:76-91) are floating-point numerics. `Generations.Run` takes the initial routes after smoothing as input.
- `visualize`, `scatterPlot`, the timing and the `print` calls (code/genetic-algorithm.py:145-211, 234, 286-300) are plotting and I/O.
- `generateBoundaries` (code/genetic-algorithm.py:22-28) builds four constant rectangles that the core never uses.
- The average score per generation (code/genetic-algorithm.py:279-284) is floating-point reporting. It divides by the population size, so `Generations.Run` requires a positive population size whenever a generation runs.
- The geometry module (`Point`, `Line`, `Polygon`, `intersects`, `length`, `divide`) is not part of this model. Its operations are parameters, and nothing is assumed about them.
- Fitness.Score: the square root of the source's score is left out. Scores are stored squared. Under exact arithmetic that keeps the ranking and all ties, but not the reported numbers. The float square root is rounded, so two different squares can give the same score (`sqrt(1 + 2⁻⁵²)` and `sqrt(1)` are both `1.0`). The source then sees a tie and keeps the left path first, while the model orders the two strictly, so such paths may be ranked differently.
- Fitness.Fitness: it requires a non-zero length of the straight start-to-end segment. What a zero length does depends on the unseen geometry's number type.
- Reals are exact, so floating-point rounding of the length sum and of the squares is not modelled.
- The unscored sentinel (`np.inf`, code/genetic-algorithm.py:48) is not modelled: every path is scored before it is ranked.
- numpy converting float bounds of `randint` to integers is modelled as truncation toward zero (`Environment.Trunc`). The planner's own field has whole-number bounds, where this makes no difference.
- Probabilities are not modelled. A draw is any natural number; the coin is any real, not restricted to `[0, 1)`.
- Routes.Individual: it states only the first point and the last hop. The route's length and its last point depend on `divide`, which is not visible. It requires one supplied draw for each random anchor.
- Generations.Run: it requires one list of attempts per generation. When the attempts run out, it reports `Exhausted` where the source would keep looping.
