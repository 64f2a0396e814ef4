/** Random initial routes: from the start point through `segments - 1`
    random anchor points to the end point, each hop subdivided by the
    geometry collaborator's `divide`, which comes in as a parameter. Only
    the shape of the result that does not depend on `divide` is stated. */
module Routes {
  import opened Results
  import opened Geometry
  import opened Environment

  /** `individual`: the route starts at `grid.first`; hop `s` goes from the
      route's current last point to a random anchor (drawn with `draws[s]`,
      kept `size` away from the field's edges) or, for the last hop, to
      `grid.final`, and appends `divide` of that hop. */
  method Individual(grid: Grid, interpolation: nat, segments: nat, size: Point,
                    divide: (Line, nat) -> seq<Point>, draws: seq<Draw>)
    returns (r: Result<seq<Point>>)
    requires segments <= |draws| + 1
    ensures r.Ok? <==> segments <= 1 || CanDraw(grid, size, Origin)
    ensures r.Err? ==> r.error == EmptyRange
    ensures r.Ok? ==> |r.value| > 0 && r.value[0] == grid.first
    ensures segments == 0 ==> r == Ok([grid.first])
    ensures r.Ok? && segments > 0 ==>
      exists k :: 0 < k <= |r.value| &&
        r.value[k..] == divide(Line(r.value[k - 1], grid.final), interpolation)
  {
    var points := [grid.first];
    ghost var hop := 1;
    for s := 0 to segments
      invariant |points| > 0 && points[0] == grid.first
      invariant s == 0 ==> points == [grid.first]
      invariant 0 < s && 2 <= segments ==> CanDraw(grid, size, Origin)
      invariant 0 < s == segments ==>
        0 < hop <= |points| && points[hop..] == divide(Line(points[hop - 1], grid.final), interpolation)
    {
      var next: Point;
      if s < segments - 1 {
        var anchor := Random(grid, size, Origin, draws[s]);
        if anchor.Err? {
          return Err(anchor.error);
        }
        next := anchor.value;
      } else {
        next := grid.final;
      }
      var segment := Line(points[|points| - 1], next);
      hop := |points|;
      points := points + divide(segment, interpolation);
    }
    return Ok(points);
  }
}
