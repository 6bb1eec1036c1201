/**
 * How the evaluated upper-body pose reaches the scene graph. Every node but the hips gets
 * the whole pose; the hips take only scale values, so that position and rotation shifts
 * baked into some clips do not move the character.
 */
module HipsFilter {
  datatype Vector3 = Vector3(x: real, y: real, z: real)

  datatype Quaternion = Quaternion(i: real, j: real, k: real, w: real)

  datatype Transform = Transform(position: Vector3, rotation: Quaternion, scale: Vector3)

  /** What a pose value drives on its node. */
  datatype Binding = Position | Rotation | Scale | Property(name: string)

  datatype TrackValue = Vector3Value(v: Vector3) | QuaternionValue(q: Quaternion) | RealValue(r: real)

  datatype BoundValue = BoundValue(binding: Binding, value: TrackValue)

  /**
   * One value applied to a node's local transform: a vector to a position or scale binding,
   * a quaternion to a rotation binding. Any other pairing, and every property binding,
   * leaves the transform as it is.
   */
  function ApplyValue(t: Transform, b: BoundValue): Transform
  {
    match b.binding
    case Position => if b.value.Vector3Value? then t.(position := b.value.v) else t
    case Rotation => if b.value.QuaternionValue? then t.(rotation := b.value.q) else t
    case Scale => if b.value.Vector3Value? then t.(scale := b.value.v) else t
    case Property(_) => t
  }

  /** The whole pose applied value after value, in order. */
  function ApplyAll(t: Transform, values: seq<BoundValue>): Transform
  {
    if |values| == 0 then t
    else ApplyValue(ApplyAll(t, values[..|values| - 1]), values[|values| - 1])
  }

  predicate IsScaleVector(b: BoundValue)
  {
    b.binding == Scale && b.value.Vector3Value?
  }

  /** The hips filter: only scale bindings carrying a vector are kept, each one setting the scale. */
  function ApplyHips(t: Transform, values: seq<BoundValue>): Transform
  {
    if |values| == 0 then t
    else
      var before := ApplyHips(t, values[..|values| - 1]);
      var last := values[|values| - 1];
      if IsScaleVector(last) then before.(scale := last.value.v) else before
  }

  /** The last vector among the values bound to `binding`, or `default` when there is none. */
  function LastVector(values: seq<BoundValue>, binding: Binding, default: Vector3): Vector3
  {
    if |values| == 0 then default
    else if values[|values| - 1].binding == binding && values[|values| - 1].value.Vector3Value? then
      values[|values| - 1].value.v
    else LastVector(values[..|values| - 1], binding, default)
  }

  /** The last quaternion among the rotation values, or `default` when there is none. */
  function LastRotation(values: seq<BoundValue>, default: Quaternion): Quaternion
  {
    if |values| == 0 then default
    else if values[|values| - 1].binding == Rotation && values[|values| - 1].value.QuaternionValue? then
      values[|values| - 1].value.q
    else LastRotation(values[..|values| - 1], default)
  }

  /** Applying a whole pose leaves each component at the last value written to it. */
  lemma {:induction false} FullPoseIsLastWrites(t: Transform, values: seq<BoundValue>)
    ensures ApplyAll(t, values) ==
      Transform(LastVector(values, Position, t.position), LastRotation(values, t.rotation),
                LastVector(values, Scale, t.scale))
  {
    if |values| > 0 {
      FullPoseIsLastWrites(t, values[..|values| - 1]);
    }
  }

  /** The hips keep their position and rotation whatever the pose holds. */
  lemma {:induction false} HipsKeepPlacement(t: Transform, values: seq<BoundValue>)
    ensures ApplyHips(t, values).position == t.position
    ensures ApplyHips(t, values).rotation == t.rotation
  {
    if |values| > 0 {
      HipsKeepPlacement(t, values[..|values| - 1]);
    }
  }

  /** The hips end with the scale the whole pose would have given them. */
  lemma {:induction false} HipsScaleAsFullPose(t: Transform, values: seq<BoundValue>)
    ensures ApplyHips(t, values).scale == LastVector(values, Scale, t.scale)
    ensures ApplyHips(t, values).scale == ApplyAll(t, values).scale
  {
    if |values| > 0 {
      HipsScaleAsFullPose(t, values[..|values| - 1]);
    }
    FullPoseIsLastWrites(t, values);
  }

  /**
   * The pose applied to one node of the scene: the hips node keeps its placement and takes
   * the pose's scale; every other node takes the whole pose.
   */
  function ApplyToNode<H(==)>(node: H, hips: H, t: Transform, values: seq<BoundValue>): (r: Transform)
    ensures node == hips ==>
      r.position == t.position && r.rotation == t.rotation && r.scale == LastVector(values, Scale, t.scale)
    ensures node != hips ==>
      r == Transform(LastVector(values, Position, t.position), LastRotation(values, t.rotation),
                     LastVector(values, Scale, t.scale))
  {
    FullPoseIsLastWrites(t, values);
    HipsKeepPlacement(t, values);
    HipsScaleAsFullPose(t, values);
    if node == hips then ApplyHips(t, values) else ApplyAll(t, values)
  }
}
