/** The fitness of a route: its length relative to the straight start-to-end
    line, plus a penalty of 1000 for every (segment, obstacle) pair that
    intersects. The geometry (segment length, segment/obstacle
    intersection) comes in as parameters. */
module Fitness {
  import opened Geometry
  import opened Ranker

  /** The number of segments of a route: `len(points) - 1`, and none for an
      empty route. */
  function Segments(points: seq<Point>): (n: nat)
    ensures n < |points| || (n == 0 && points == [])
    ensures points != [] ==> n == |points| - 1
  {
    if points == [] then 0 else |points| - 1
  }

  /** Segment `i` of a route: from its `i`-th point to the next. */
  function Segment(points: seq<Point>, i: nat): Line
    requires i < Segments(points)
  {
    Line(points[i], points[i + 1])
  }

  /** The summed length of the first `n` segments. */
  function Distance(points: seq<Point>, n: nat, length: Line -> real): real
    requires n <= Segments(points)
  {
    if n == 0 then 0.0 else Distance(points, n - 1, length) + length(Segment(points, n - 1))
  }

  /** How many of the first `m` obstacles `segment` intersects. */
  function Crossings(segment: Line, obstacles: seq<Polygon>, m: nat,
                     crosses: (Line, Polygon) -> bool): nat
    requires m <= |obstacles|
  {
    if m == 0 then 0
    else Crossings(segment, obstacles, m - 1, crosses) + (if crosses(segment, obstacles[m - 1]) then 1 else 0)
  }

  /** The collision term after the first `n` segments. */
  function Collisions(points: seq<Point>, obstacles: seq<Polygon>, n: nat,
                      crosses: (Line, Polygon) -> bool): nat
    requires n <= Segments(points)
  {
    if n == 0 then 0
    else Collisions(points, obstacles, n - 1, crosses) +
         1000 * Crossings(Segment(points, n - 1), obstacles, |obstacles|, crosses)
  }

  /** The (segment, obstacle) index pairs that intersect, among the first
      `n` segments. */
  ghost function Pairs(points: seq<Point>, obstacles: seq<Polygon>, n: nat,
                       crosses: (Line, Polygon) -> bool): set<(nat, nat)>
    requires n <= Segments(points)
  {
    set i: nat, j: nat | i < n && j < |obstacles| && crosses(Segment(points, i), obstacles[j]) :: (i, j)
  }

  /** The pairs of segment `i` with the first `m` obstacles. */
  ghost function Row(points: seq<Point>, obstacles: seq<Polygon>, i: nat, m: nat,
                     crosses: (Line, Polygon) -> bool): set<(nat, nat)>
    requires i < Segments(points) && m <= |obstacles|
  {
    set j: nat | j < m && crosses(Segment(points, i), obstacles[j]) :: (i, j)
  }

  lemma {:induction false} RowSize(points: seq<Point>, obstacles: seq<Polygon>, i: nat, m: nat,
                                   crosses: (Line, Polygon) -> bool)
    requires i < Segments(points) && m <= |obstacles|
    ensures |Row(points, obstacles, i, m, crosses)| == Crossings(Segment(points, i), obstacles, m, crosses)
  {
    if m == 0 {
      assert Row(points, obstacles, i, m, crosses) == {};
    } else {
      RowSize(points, obstacles, i, m - 1, crosses);
      var before := Row(points, obstacles, i, m - 1, crosses);
      var last: set<(nat, nat)> := if crosses(Segment(points, i), obstacles[m - 1]) then {(i, m - 1)} else {};
      assert Row(points, obstacles, i, m, crosses) == before + last;
      assert before * last == {};
    }
  }

  /** The collision term is 1000 times the number of intersecting
      (segment, obstacle) pairs. */
  lemma {:induction false} CollisionsCountPairs(points: seq<Point>, obstacles: seq<Polygon>, n: nat,
                                                crosses: (Line, Polygon) -> bool)
    requires n <= Segments(points)
    ensures Collisions(points, obstacles, n, crosses) == 1000 * |Pairs(points, obstacles, n, crosses)|
  {
    if n == 0 {
      assert Pairs(points, obstacles, n, crosses) == {};
    } else {
      CollisionsCountPairs(points, obstacles, n - 1, crosses);
      RowSize(points, obstacles, n - 1, |obstacles|, crosses);
      PairsSplit(points, obstacles, n, crosses);
    }
  }

  /** The pairs of the first `n` segments are those of the first `n - 1`
      and, apart from them, those of segment `n - 1`. */
  lemma PairsSplit(points: seq<Point>, obstacles: seq<Polygon>, n: nat, crosses: (Line, Polygon) -> bool)
    requires 0 < n <= Segments(points)
    ensures var before := Pairs(points, obstacles, n - 1, crosses);
      var row := Row(points, obstacles, n - 1, |obstacles|, crosses);
      |Pairs(points, obstacles, n, crosses)| == |before| + |row|
  {
    var before := Pairs(points, obstacles, n - 1, crosses);
    var row := Row(points, obstacles, n - 1, |obstacles|, crosses);
    assert Pairs(points, obstacles, n, crosses) == before + row;
    assert before * row == {};
  }

  /** A route collects no collision penalty exactly when none of its
      segments intersects any obstacle. */
  lemma CollisionFree(points: seq<Point>, obstacles: seq<Polygon>, crosses: (Line, Polygon) -> bool)
    ensures Collisions(points, obstacles, Segments(points), crosses) == 0 <==>
      forall i, j :: 0 <= i < Segments(points) && 0 <= j < |obstacles| ==> !crosses(Segment(points, i), obstacles[j])
  {
    CollisionsCountPairs(points, obstacles, Segments(points), crosses);
    var pairs := Pairs(points, obstacles, Segments(points), crosses);
    if exists i, j :: 0 <= i < Segments(points) && 0 <= j < |obstacles| && crosses(Segment(points, i), obstacles[j]) {
      var i, j :| 0 <= i < Segments(points) && 0 <= j < |obstacles| && crosses(Segment(points, i), obstacles[j]);
      assert (i as nat, j as nat) in pairs;
    }
  }

  /** The ordering key of the source's score `sqrt((distance / shortest)² +
      collisions²)`: the square root is left out, which under exact
      arithmetic keeps the order of any two scores and their ties. */
  function Score(relative: real, collisions: nat): (s: real)
    ensures s >= (collisions * collisions) as real
    ensures collisions == 0 ==> s == relative * relative
  {
    relative * relative + (collisions * collisions) as real
  }

  /** The route's length relative to the straight start-to-end line. */
  function Relative(points: seq<Point>, shortest: Line, length: Line -> real): real
    requires length(shortest) != 0.0
  {
    Distance(points, Segments(points), length) / length(shortest)
  }

  /** The route `points` with its score. */
  function Graded(points: seq<Point>, obstacles: seq<Polygon>, shortest: Line,
                  length: Line -> real, crosses: (Line, Polygon) -> bool): (p: Path)
    requires length(shortest) != 0.0
    ensures p.points == points
  {
    var n := Segments(points);
    Path(Score(Relative(points, shortest, length), Collisions(points, obstacles, n, crosses)), points)
  }

  /** A collision-free route as long as the straight start-to-end line
      scores exactly 1. */
  lemma Baseline(points: seq<Point>, obstacles: seq<Polygon>, shortest: Line,
                 length: Line -> real, crosses: (Line, Polygon) -> bool)
    requires length(shortest) != 0.0
    requires Distance(points, Segments(points), length) == length(shortest)
    requires forall i, j :: 0 <= i < Segments(points) && 0 <= j < |obstacles| ==> !crosses(Segment(points, i), obstacles[j])
    ensures Graded(points, obstacles, shortest, length, crosses).score == 1.0
  {
    CollisionFree(points, obstacles, crosses);
    var d := Distance(points, Segments(points), length);
    assert d / length(shortest) == 1.0;
  }

  /** A route as long as the straight line whose segments make `k`
      intersecting (segment, obstacle) pairs scores `1 + (1000 k)²`, the
      square of the source's `sqrt(1 + (1000 k)²)`. */
  lemma CollisionScaling(points: seq<Point>, obstacles: seq<Polygon>, shortest: Line,
                         length: Line -> real, crosses: (Line, Polygon) -> bool, k: nat)
    requires length(shortest) != 0.0
    requires Distance(points, Segments(points), length) == length(shortest)
    requires |Pairs(points, obstacles, Segments(points), crosses)| == k
    ensures Graded(points, obstacles, shortest, length, crosses).score == 1.0 + ((1000 * k) * (1000 * k)) as real
  {
    CollisionsCountPairs(points, obstacles, Segments(points), crosses);
    var d := Distance(points, Segments(points), length);
    assert d / length(shortest) == 1.0;
  }

  /** A collision-free route ranks ahead of any route that intersects an
      obstacle, unless it is a thousand times longer than the straight
      line. */
  lemma CollisionsDominate(a: seq<Point>, b: seq<Point>, obstacles: seq<Polygon>, shortest: Line,
                           length: Line -> real, crosses: (Line, Polygon) -> bool)
    requires length(shortest) != 0.0
    requires forall i, j :: 0 <= i < Segments(a) && 0 <= j < |obstacles| ==> !crosses(Segment(a, i), obstacles[j])
    requires exists i, j :: 0 <= i < Segments(b) && 0 <= j < |obstacles| && crosses(Segment(b, i), obstacles[j])
    requires Relative(a, shortest, length) * Relative(a, shortest, length) < 1000000.0
    ensures Graded(a, obstacles, shortest, length, crosses).score < Graded(b, obstacles, shortest, length, crosses).score
  {
    CollisionFree(a, obstacles, crosses);
    CollisionFree(b, obstacles, crosses);
    CollisionsCountPairs(b, obstacles, Segments(b), crosses);
    var c := Collisions(b, obstacles, Segments(b), crosses);
    SquareAtLeast(c);
    assert Graded(b, obstacles, shortest, length, crosses).score >= 1000000.0;
    var graded := Graded(a, obstacles, shortest, length, crosses);
    assert Collisions(a, obstacles, Segments(a), crosses) == 0;
    assert graded.score == Relative(a, shortest, length) * Relative(a, shortest, length);
  }

  lemma SquareAtLeast(c: nat)
    requires c != 0 && c % 1000 == 0
    ensures (c * c) as real >= 1000000.0
  {
    assert c >= 1000;
    assert c * c >= 1000 * c;
  }

  /** `Path.fitness`: walk the segments, adding each one's length and 1000
      for every obstacle it intersects. */
  method Fitness(points: seq<Point>, obstacles: seq<Polygon>, shortest: Line,
                 length: Line -> real, crosses: (Line, Polygon) -> bool) returns (path: Path)
    requires length(shortest) != 0.0
    ensures path == Graded(points, obstacles, shortest, length, crosses)
  {
    var distance := 0.0;
    var collisions := 0;
    for i := 0 to Segments(points)
      invariant distance == Distance(points, i, length)
      invariant collisions == Collisions(points, obstacles, i, crosses)
    {
      var segment := Line(points[i], points[i + 1]);
      distance := distance + length(segment);
      for j := 0 to |obstacles|
        invariant collisions == Collisions(points, obstacles, i, crosses) +
                                1000 * Crossings(segment, obstacles, j, crosses)
      {
        if crosses(segment, obstacles[j]) {
          collisions := collisions + 1000;
        }
      }
    }
    path := Path(Score(distance / length(shortest), collisions), points);
  }

  /** Every route with its score, in order. */
  function Scored(routes: seq<seq<Point>>, obstacles: seq<Polygon>, shortest: Line,
                  length: Line -> real, crosses: (Line, Polygon) -> bool): seq<Path>
    requires length(shortest) != 0.0
  {
    seq(|routes|, k requires 0 <= k < |routes| => Graded(routes[k], obstacles, shortest, length, crosses))
  }

  /** The scoring loop of the generation step: one scored path per route,
      in order. */
  method ScoreAll(routes: seq<seq<Point>>, obstacles: seq<Polygon>, shortest: Line,
                  length: Line -> real, crosses: (Line, Polygon) -> bool) returns (paths: seq<Path>)
    requires length(shortest) != 0.0
    ensures |paths| == |routes|
    ensures forall k :: 0 <= k < |routes| ==> paths[k] == Graded(routes[k], obstacles, shortest, length, crosses)
    ensures paths == Scored(routes, obstacles, shortest, length, crosses)
  {
    paths := [];
    for k := 0 to |routes|
      invariant |paths| == k
      invariant forall i :: 0 <= i < k ==> paths[i] == Graded(routes[i], obstacles, shortest, length, crosses)
    {
      var path := Fitness(routes[k], obstacles, shortest, length, crosses);
      paths := paths + [path];
    }
  }
}
