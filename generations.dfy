/** The planner's elitist generational loop: each generation breeds as many
    children as the population size, scores them, ranks parents and
    children together and keeps the best `populationCount`. */
module Generations {
  import opened Results
  import opened Geometry
  import opened Environment
  import opened Ranker
  import opened Fitness
  import opened Evolution

  /** What the loop reports: the best score after each generation and the
      population after the last one (none when no generation runs). */
  datatype Outcome = Outcome(best: seq<real>, final: Option<seq<Path>>)

  /** Rank parents and children together and keep the first `cap`. */
  function Survivors(graded: seq<Path>, offspring: seq<Path>, cap: nat): seq<Path> {
    var ranked := MergeSort(graded + offspring);
    if |ranked| > cap then ranked[..cap] else ranked
  }

  /** Elitism: the survivors are ranked, as many as fit, drawn from parents
      and children, no worse than any path they push out, and their best is
      no worse than the parents' best. */
  lemma Elitism(graded: seq<Path>, offspring: seq<Path>, cap: nat)
    requires Sorted(graded) && 0 < |graded| && 0 < cap
    ensures var survivors := Survivors(graded, offspring, cap);
      var ranked := MergeSort(graded + offspring);
      && Sorted(survivors)
      && |survivors| == (if |graded| + |offspring| > cap then cap else |graded| + |offspring|)
      && multiset(survivors) <= multiset(graded + offspring)
      && (forall i, j :: 0 <= i < |survivors| <= j < |ranked| ==> survivors[i].score <= ranked[j].score)
      && survivors[0].score <= graded[0].score
  {
    var all := graded + offspring;
    var ranked := MergeSort(all);
    MergeSortCorrect(all);
    assert |ranked| == |multiset(ranked)| == |all|;
    assert graded[0] in multiset(all);
    SortedHeadIsBest(ranked, graded[0]);
    Truncated(ranked, cap);
  }

  /** Keeping the first `cap` of a ranking keeps it sorted, keeps only its
      members and keeps the best ones. */
  lemma Truncated(ranked: seq<Path>, cap: nat)
    requires Sorted(ranked)
    ensures var kept := if |ranked| > cap then ranked[..cap] else ranked;
      && Sorted(kept)
      && multiset(kept) <= multiset(ranked)
      && (forall i, j :: 0 <= i < |kept| <= j < |ranked| ==> kept[i].score <= ranked[j].score)
  {
    if |ranked| > cap {
      assert ranked == ranked[..cap] + ranked[cap..];
      assert multiset(ranked) == multiset(ranked[..cap]) + multiset(ranked[cap..]);
    }
  }

  /** Evolution needs two distinct members: with fewer, `evolve` raises
      (no member) or never ends (one member). */
  lemma {:induction false} NeedsTwo(grid: Grid, size: Point, chance: real, population: seq<Path>,
                                    bred: seq<seq<Point>>, count: nat, attempts: seq<Attempt>)
    requires |bred| < count
    requires Children(grid, size, chance, population, bred, count, attempts).Ok?
    ensures |population| >= 2
  {
    if |population| == 1 {
      Lonely(grid, size, chance, population, bred, count, attempts);
    }
  }

  /** One generation: breed `cap` children from `graded`, score them and
      keep the best `cap` of parents and children. */
  function Generation(grid: Grid, size: Point, obstacles: seq<Polygon>, shortest: Line,
                      length: Line -> real, crosses: (Line, Polygon) -> bool,
                      chance: real, graded: seq<Path>, cap: nat, attempts: seq<Attempt>)
    : Result<seq<Path>>
    requires length(shortest) != 0.0
  {
    match Children(grid, size, chance, graded, [], cap, attempts)
    case Err(e) => Err(e)
    case Ok(children) => Ok(Survivors(graded, Scored(children, obstacles, shortest, length, crosses), cap))
  }

  /** A generation that completes started from at least two members, and
      leaves `cap` ranked paths whose best is no worse than before. */
  lemma GenerationElitist(grid: Grid, size: Point, obstacles: seq<Polygon>, shortest: Line,
                          length: Line -> real, crosses: (Line, Polygon) -> bool,
                          chance: real, graded: seq<Path>, cap: nat, attempts: seq<Attempt>)
    requires length(shortest) != 0.0
    requires Sorted(graded) && 0 < cap
    requires Generation(grid, size, obstacles, shortest, length, crosses, chance, graded, cap, attempts).Ok?
    ensures |graded| >= 2
    ensures var next := Generation(grid, size, obstacles, shortest, length, crosses, chance, graded, cap, attempts).value;
      Sorted(next) && |next| == cap && next[0].score <= graded[0].score
  {
    var children := Children(grid, size, chance, graded, [], cap, attempts).value;
    NeedsTwo(grid, size, chance, graded, [], cap, attempts);
    Elitism(graded, Scored(children, obstacles, shortest, length, crosses), cap);
  }

  /** The head of a ranking of `paths` is no worse than any of them. */
  lemma HeadIsBest(ranked: seq<Path>, paths: seq<Path>)
    requires Sorted(ranked) && multiset(ranked) == multiset(paths) && |ranked| > 0
    ensures forall k :: 0 <= k < |paths| ==> ranked[0].score <= paths[k].score
  {
    forall k | 0 <= k < |paths|
      ensures ranked[0].score <= paths[k].score
    {
      assert paths[k] in multiset(ranked);
      SortedHeadIsBest(ranked, paths[k]);
    }
  }

  /** `best` never gets worse from one generation to the next and starts
      no worse than `bound`. */
  ghost predicate NonIncreasing(best: seq<real>, bound: real) {
    (|best| > 0 ==> best[0] <= bound) &&
    forall g :: 0 < g < |best| ==> best[g] <= best[g - 1]
  }

  lemma NonIncreasingExtend(best: seq<real>, bound: real, score: real)
    requires NonIncreasing(best, bound)
    requires if |best| > 0 then score <= best[|best| - 1] else score <= bound
    ensures NonIncreasing(best + [score], bound)
  {
  }

  lemma {:induction false} NonIncreasingBelow(best: seq<real>, bound: real)
    requires NonIncreasing(best, bound)
    ensures forall g :: 0 <= g < |best| ==> best[g] <= bound
    decreases |best|
  {
    if |best| > 1 {
      NonIncreasingBelow(best[..|best| - 1], bound);
      assert forall g :: 0 <= g < |best| - 1 ==> best[..|best| - 1][g] == best[g];
      assert best[|best| - 1] <= best[|best| - 2];
    }
  }

  /** The body of the generation loop. */
  method Step(grid: Grid, size: Point, obstacles: seq<Polygon>, shortest: Line,
              length: Line -> real, crosses: (Line, Polygon) -> bool,
              chance: real, graded: seq<Path>, cap: nat, attempts: seq<Attempt>)
    returns (r: Result<seq<Path>>)
    requires length(shortest) != 0.0
    ensures r == Generation(grid, size, obstacles, shortest, length, crosses, chance, graded, cap, attempts)
  {
    var children := Evolve(grid, size, chance, graded, cap, attempts);
    if children.Err? {
      return Err(children.error);
    }
    var offspring := ScoreAll(children.value, obstacles, shortest, length, crosses);
    var ranked := Sort(graded + offspring);
    if |ranked| > cap {
      ranked := ranked[..cap];
    }
    return Ok(ranked);
  }

  /** The generation loop of the planner's `main`: score the initial routes
      and rank them, then for each generation breed `populationCount`
      children with that generation's attempts, score them, and keep the
      best `populationCount` of parents and children. */
  method Run(grid: Grid, size: Point, obstacles: seq<Polygon>, shortest: Line,
             length: Line -> real, crosses: (Line, Polygon) -> bool,
             routes: seq<seq<Point>>, populationCount: nat, chance: real,
             evolutionMax: nat, oracle: seq<seq<Attempt>>) returns (r: Result<Outcome>)
    requires length(shortest) != 0.0
    requires evolutionMax > 0 ==> populationCount > 0
    requires |oracle| == evolutionMax
    ensures r.Err? ==> evolutionMax > 0
    ensures r.Ok? ==> |r.value.best| == evolutionMax
    ensures r.Ok? ==> forall g :: 0 < g < |r.value.best| ==> r.value.best[g] <= r.value.best[g - 1]
    ensures r.Ok? ==> forall g, k :: 0 <= g < |r.value.best| && 0 <= k < |routes| ==>
      r.value.best[g] <= Graded(routes[k], obstacles, shortest, length, crosses).score
    ensures r.Ok? && evolutionMax > 0 ==> |routes| >= 2
    ensures r.Ok? && evolutionMax > 1 ==> populationCount >= 2
    ensures r.Ok? ==> (r.value.final.Some? <==> evolutionMax > 0)
    ensures r.Ok? && r.value.final.Some? ==>
      var final := r.value.final.value;
      && Sorted(final) && |final| == populationCount
      && final[0].score == r.value.best[evolutionMax - 1]
  {
    var initial := ScoreAll(routes, obstacles, shortest, length, crosses);
    var graded := Sort(initial);
    assert |graded| == |multiset(graded)| == |routes|;
    // The best initial score bounds every score the loop reports.
    ghost var bound := if |graded| > 0 then graded[0].score else 0.0;
    if |graded| > 0 {
      HeadIsBest(graded, initial);
    }
    var best: seq<real> := [];
    var final: Option<seq<Path>> := None;
    var generation := 0;
    while generation < evolutionMax
      invariant generation <= evolutionMax && |best| == generation
      invariant Sorted(graded)
      invariant generation == 0 ==> |graded| == |routes|
      invariant generation > 0 ==> |graded| == populationCount && |routes| >= 2
      invariant generation > 1 ==> populationCount >= 2
      invariant generation > 0 ==> graded[0].score == best[generation - 1]
      invariant |graded| > 0 ==> graded[0].score <= bound
      invariant NonIncreasing(best, bound)
      invariant final.Some? <==> generation == evolutionMax > 0
      invariant final.Some? ==> final.value == graded
    {
      var next := Step(grid, size, obstacles, shortest, length, crosses, chance, graded, populationCount, oracle[generation]);
      if next.Err? {
        return Err(next.error);
      }
      GenerationElitist(grid, size, obstacles, shortest, length, crosses, chance, graded, populationCount, oracle[generation]);
      graded := next.value;
      NonIncreasingExtend(best, bound, graded[0].score);
      best := best + [graded[0].score];
      generation := generation + 1;
      if generation == evolutionMax {
        final := Some(graded);
      }
    }
    NonIncreasingBelow(best, bound);
    return Ok(Outcome(best, final));
  }
}
