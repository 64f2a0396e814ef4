/** The planning field: a rectangle between `minimum` and `maximum` with the
    vehicle's start and end points, integer-valued random placement inside it,
    and the rejection sampling that lays out the obstacles. numpy's random
    generator is replaced by supplied draws. */
module Environment {
  import opened Results
  import opened Geometry

  datatype Grid = Grid(minimum: Point, maximum: Point, first: Point, final: Point)

  /** The two natural numbers that stand for one call to the generator on
      each axis. */
  datatype Draw = Draw(u: nat, v: nat)

  /** Python's `int` on a real: truncation toward zero. numpy converts the
      bounds of `randint` this way. */
  function Trunc(r: real): (n: int)
    ensures r >= 0.0 ==> n as real <= r < n as real + 1.0
    ensures r < 0.0 ==> n as real - 1.0 < r <= n as real
  {
    if r >= 0.0 then r.Floor else -((-r).Floor)
  }

  /** numpy's `randint(low, high)`: an integer of `[low, high)`, the one `u`
      picks, or EmptyRange (numpy's ValueError) when the range is empty. */
  function RandInt(low: int, high: int, u: nat): (r: Result<int>)
    ensures r.Ok? <==> low < high
    ensures r.Ok? ==> low <= r.value < high
    ensures r.Err? ==> r.error == EmptyRange
  {
    if low < high then Ok(low + u % (high - low)) else Err(EmptyRange)
  }

  /** Every integer of the range is drawn by some `u`. */
  lemma RandIntCovers(low: int, high: int, k: int)
    requires low <= k < high
    ensures RandInt(low, high, (k - low) as nat) == Ok(k)
  {
    assert (k - low) % (high - low) == k - low;
  }

  /** `v` is a whole number that `randint(low, high)` can return. */
  predicate Span(low: real, high: real, v: real) {
    v == v.Floor as real && Trunc(low) <= v.Floor < Trunc(high)
  }

  /** The lower and upper (exclusive) bounds `Grid.random` passes to
      `randint` on each axis. */
  function LowX(grid: Grid, offset: Point): real { grid.minimum.x + offset.x }
  function LowY(grid: Grid, offset: Point): real { grid.minimum.y + offset.y }
  function HighX(grid: Grid, offset: Point, size: Point): real {
    grid.maximum.x - offset.x - size.x + 1.0
  }
  function HighY(grid: Grid, offset: Point, size: Point): real {
    grid.maximum.y - offset.y - size.y + 1.0
  }

  /** Both axes leave at least one integer to draw. */
  predicate CanDraw(grid: Grid, offset: Point, size: Point) {
    Trunc(LowX(grid, offset)) < Trunc(HighX(grid, offset, size)) &&
    Trunc(LowY(grid, offset)) < Trunc(HighY(grid, offset, size))
  }

  /** `p` is a point `Grid.random(offset, size)` can return. */
  predicate Drawable(grid: Grid, offset: Point, size: Point, p: Point) {
    Span(LowX(grid, offset), HighX(grid, offset, size), p.x) &&
    Span(LowY(grid, offset), HighY(grid, offset, size), p.y)
  }

  /** `Grid.random`: a point with integer coordinates such that a box of
      `size` anchored there stays `offset` away from the field's edges. */
  function Random(grid: Grid, offset: Point, size: Point, d: Draw): (r: Result<Point>)
    ensures r.Ok? <==> CanDraw(grid, offset, size)
    ensures r.Ok? ==> Drawable(grid, offset, size, r.value)
    ensures r.Err? ==> r.error == EmptyRange
  {
    var x := RandInt(Trunc(LowX(grid, offset)), Trunc(HighX(grid, offset, size)), d.u);
    var y := RandInt(Trunc(LowY(grid, offset)), Trunc(HighY(grid, offset, size)), d.v);
    if x.Err? then Err(x.error)
    else if y.Err? then Err(y.error)
    else Ok(Point(x.value as real, y.value as real))
  }

  /** Every point `Drawable` admits is drawn by some draw. */
  lemma RandomCovers(grid: Grid, offset: Point, size: Point, p: Point)
    requires Drawable(grid, offset, size, p)
    ensures Random(grid, offset, size,
                   Draw((p.x.Floor - Trunc(LowX(grid, offset))) as nat,
                        (p.y.Floor - Trunc(LowY(grid, offset))) as nat)) == Ok(p)
  {
    RandIntCovers(Trunc(LowX(grid, offset)), Trunc(HighX(grid, offset, size)), p.x.Floor);
    RandIntCovers(Trunc(LowY(grid, offset)), Trunc(HighY(grid, offset, size)), p.y.Floor);
  }

  predicate Whole(r: real) { r == r.Floor as real }

  lemma TruncWhole(r: real)
    requires Whole(r)
    ensures Trunc(r) == r.Floor && Trunc(r + 1.0) == r.Floor + 1
  {
    assert (r + 1.0).Floor == r.Floor + 1;
  }

  /** With whole-number bounds, as in the planner's own field, each
      coordinate lies in `[minimum + offset, maximum - offset - size]`,
      both ends included. */
  lemma RandomWithin(grid: Grid, offset: Point, size: Point, d: Draw)
    requires Whole(LowX(grid, offset)) && Whole(grid.maximum.x - offset.x - size.x)
    requires Whole(LowY(grid, offset)) && Whole(grid.maximum.y - offset.y - size.y)
    requires Random(grid, offset, size, d).Ok?
    ensures var p := Random(grid, offset, size, d).value;
      grid.minimum.x + offset.x <= p.x <= grid.maximum.x - offset.x - size.x &&
      grid.minimum.y + offset.y <= p.y <= grid.maximum.y - offset.y - size.y
  {
    TruncWhole(LowX(grid, offset));
    TruncWhole(grid.maximum.x - offset.x - size.x);
    TruncWhole(LowY(grid, offset));
    TruncWhole(grid.maximum.y - offset.y - size.y);
  }

  /** The obstacle covers the start or the end point and must be redrawn. */
  predicate Blocked(grid: Grid, hits: (Point, Polygon) -> bool, o: Polygon) {
    hits(grid.first, o) || hits(grid.final, o)
  }

  /** `o` is an obstacle `generateObstacles` may keep. */
  predicate Obstacle(grid: Grid, size: Point, theta: real, hits: (Point, Polygon) -> bool, o: Polygon) {
    o.width == size.x && o.height == size.y && o.theta == theta &&
    Drawable(grid, Origin, size, o.datum) && !Blocked(grid, hits, o)
  }

  /** The obstacle a draw proposes. */
  function Candidate(grid: Grid, size: Point, theta: real, d: Draw): (r: Result<Polygon>)
    ensures r.Ok? <==> CanDraw(grid, Origin, size)
    ensures r.Ok? ==> r.value.width == size.x && r.value.height == size.y &&
                      r.value.theta == theta && Drawable(grid, Origin, size, r.value.datum)
  {
    match Random(grid, Origin, size, d)
    case Ok(datum) => Ok(Polygon(size.x, size.y, theta, datum))
    case Err(e) => Err(e)
  }

  /** Specification of `generateObstacles`: behind the obstacles `placed`
      so far, draw obstacles until there are `count`, drawing each one again
      until it covers neither the start nor the end point. */
  function Place(grid: Grid, size: Point, theta: real, hits: (Point, Polygon) -> bool,
                 placed: seq<Polygon>, count: nat, draws: seq<Draw>): (r: Result<seq<Polygon>>)
    ensures r.Ok? ==> placed <= r.value
    ensures r.Ok? && |placed| <= count ==> |r.value| == count
    ensures r.Err? && r.error == EmptyRange ==> !CanDraw(grid, Origin, size)
    decreases |draws|
  {
    if |placed| >= count then Ok(placed)
    else if draws == [] then Err(Exhausted)
    else match Candidate(grid, size, theta, draws[0])
      case Err(e) => Err(e)
      case Ok(o) =>
        if Blocked(grid, hits, o) then Place(grid, size, theta, hits, placed, count, draws[1..])
        else Place(grid, size, theta, hits, placed + [o], count, draws[1..])
  }

  /** Every obstacle kept has the requested shape, lies where
      `Grid.random` can put it, and covers neither the start nor the end
      point. */
  lemma {:induction false} PlaceObstacles(grid: Grid, size: Point, theta: real, hits: (Point, Polygon) -> bool,
                                          placed: seq<Polygon>, count: nat, draws: seq<Draw>)
    requires forall o :: o in placed ==> Obstacle(grid, size, theta, hits, o)
    requires Place(grid, size, theta, hits, placed, count, draws).Ok?
    ensures forall o :: o in Place(grid, size, theta, hits, placed, count, draws).value ==>
      Obstacle(grid, size, theta, hits, o)
    decreases |draws|
  {
    if |placed| < count && draws != [] {
      match Candidate(grid, size, theta, draws[0])
      case Ok(o) =>
        if Blocked(grid, hits, o) {
          PlaceObstacles(grid, size, theta, hits, placed, count, draws[1..]);
        } else {
          assert forall p :: p in placed + [o] ==> Obstacle(grid, size, theta, hits, p);
          PlaceObstacles(grid, size, theta, hits, placed + [o], count, draws[1..]);
        }
    }
  }

  /** The draws whose obstacle would be kept. */
  function Accepted(grid: Grid, size: Point, theta: real,
                    hits: (Point, Polygon) -> bool, draws: seq<Draw>): nat
  {
    if draws == [] then 0
    else
      var o := Candidate(grid, size, theta, draws[0]);
      (if o.Ok? && !Blocked(grid, hits, o.value) then 1 else 0) +
      Accepted(grid, size, theta, hits, draws[1..])
  }

  /** Rejection sampling ends exactly when the draws hold enough acceptable
      obstacles. */
  lemma {:induction false} PlaceSucceeds(grid: Grid, size: Point, theta: real, hits: (Point, Polygon) -> bool,
                                         placed: seq<Polygon>, count: nat, draws: seq<Draw>)
    ensures Place(grid, size, theta, hits, placed, count, draws).Ok? <==>
      |placed| >= count ||
      (CanDraw(grid, Origin, size) && |placed| + Accepted(grid, size, theta, hits, draws) >= count)
    decreases |draws|
  {
    if |placed| < count && draws != [] {
      var o := Candidate(grid, size, theta, draws[0]);
      if o.Ok? {
        if Blocked(grid, hits, o.value) {
          PlaceSucceeds(grid, size, theta, hits, placed, count, draws[1..]);
        } else {
          PlaceSucceeds(grid, size, theta, hits, placed + [o.value], count, draws[1..]);
        }
      }
    }
  }

  /** `Grid.generateObstacles`: for each obstacle, draw a candidate and redraw
      it while it covers the start or the end point. */
  method GenerateObstacles(grid: Grid, count: nat, size: Point, theta: real,
                           hits: (Point, Polygon) -> bool, draws: seq<Draw>)
    returns (r: Result<seq<Polygon>>)
    ensures r == Place(grid, size, theta, hits, [], count, draws)
  {
    var obstacles: seq<Polygon> := [];
    var next := 0;
    assert draws[0..] == draws;
    for placed := 0 to count
      invariant next <= |draws| && |obstacles| == placed
      invariant Place(grid, size, theta, hits, obstacles, count, draws[next..]) ==
                Place(grid, size, theta, hits, [], count, draws)
    {
      if next == |draws| {
        return Err(Exhausted);
      }
      var candidate := Candidate(grid, size, theta, draws[next]);
      if candidate.Err? {
        return Err(candidate.error);
      }
      var obstacle := candidate.value;
      assert draws[next..][1..] == draws[next + 1..];
      next := next + 1;
      while Blocked(grid, hits, obstacle)
        invariant 0 < next <= |draws|
        invariant CanDraw(grid, Origin, size)
        invariant Candidate(grid, size, theta, draws[next - 1]) == Ok(obstacle)
        invariant Place(grid, size, theta, hits, obstacles, count, draws[next - 1..]) ==
                  Place(grid, size, theta, hits, [], count, draws)
        decreases |draws| - next
      {
        if next == |draws| {
          return Err(Exhausted);
        }
        obstacle := Candidate(grid, size, theta, draws[next]).value;
        assert draws[next..][1..] == draws[next + 1..];
        next := next + 1;
      }
      obstacles := obstacles + [obstacle];
    }
    return Ok(obstacles);
  }
}
