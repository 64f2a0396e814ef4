/** Error values shared by the planner's components, and the values the
    external geometry collaborator works on. */
module Results {

  /** Why an operation of the planner gives no value.
      EmptyRange: numpy's randint was asked for an empty range of integers
      (it raises ValueError).
      Exhausted: a rejection loop ran out of the random draws supplied to it;
      the original loops forever in that situation. */
  datatype Error = EmptyRange | Exhausted

  datatype Result<+T> = Ok(value: T) | Err(error: Error)

  datatype Option<+T> = None | Some(value: T)
}

/** The part of the geometry collaborator the planner's core touches: points,
    segments between two points and the rectangles used as obstacles. The
    operations on them (intersection tests, length, subdivision) are not part
    of this model; the operations that need them take them as parameters. */
module Geometry {

  datatype Point = Point(x: real, y: real)

  /** A segment from `start` to `end`. */
  datatype Line = Line(start: Point, end: Point)

  /** A rectangle of the given width and height, rotated by `theta`, anchored
      at `datum`. */
  datatype Polygon = Polygon(width: real, height: real, theta: real, datum: Point)

  const Origin := Point(0.0, 0.0)
}
