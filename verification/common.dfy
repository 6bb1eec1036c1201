/** Small shared vocabulary: optional values, results, points in space and distance functions. */
module Common {

  datatype Option<+T> = None | Some(value: T)

  datatype Result<+T, +E> = Ok(value: T) | Err(error: E)

  /** A point (or vector) in world space; the engine's `Vector3<f32>`, with reals for floats. */
  datatype Point = Point(x: real, y: real, z: real)

  const Origin := Point(0.0, 0.0, 0.0)

  function Add(a: Point, b: Point): Point
  {
    Point(a.x + b.x, a.y + b.y, a.z + b.z)
  }

  /** The engine's `metric_distance`, kept abstract: the model is parametric in it. */
  type Metric = (Point, Point) -> real

  ghost predicate NonNegative(dist: Metric)
  {
    forall a, b :: dist(a, b) >= 0.0
  }
}
