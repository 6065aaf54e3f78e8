/** Vector arithmetic used by the movement controller, and the host engine's
    floating-point geometry as an uninterpreted record of functions.

    Vectors have real components; the engine's rounding is not modelled.
    Addition, subtraction, scaling and squared lengths are defined here;
    distances, normalisation, trigonometry, the facing angle and rotations
    belong to the engine and stay abstract (see `Engine`). */
module Geometry {

  datatype Vec3 = Vec3(x: real, y: real, z: real)

  /** An orientation, as the engine stores it. Only the engine's functions
      interpret it. */
  datatype Quat = Quat(x: real, y: real, z: real, w: real)

  const Zero: Vec3 := Vec3(0.0, 0.0, 0.0)

  function Add(a: Vec3, b: Vec3): Vec3 {
    Vec3(a.x + b.x, a.y + b.y, a.z + b.z)
  }

  function Sub(a: Vec3, b: Vec3): Vec3 {
    Vec3(a.x - b.x, a.y - b.y, a.z - b.z)
  }

  function Scale(v: Vec3, k: real): Vec3 {
    Vec3(v.x * k, v.y * k, v.z * k)
  }

  function SqrMagnitude(v: Vec3): real {
    v.x * v.x + v.y * v.y + v.z * v.z
  }

  function SqrDistance(a: Vec3, b: Vec3): real {
    SqrMagnitude(Sub(a, b))
  }

  /** The arrival distance of `IsAtDestination`. */
  const ArrivalDistance: real := 0.1

  /** The engine's `Vector3.kEpsilon`: two vectors compare equal when their
      difference is shorter than this. */
  const VectorEpsilon: real := 0.00001

  /** `v == Vector3.zero` under the engine's approximate vector equality. */
  predicate ApproxZero(v: Vec3) {
    SqrMagnitude(v) < VectorEpsilon * VectorEpsilon
  }

  /** `Mathf.PI` as a single-precision value. */
  const MathfPI: real := 3.14159274

  /** The turn rate bound of the steering step, in degrees per second. */
  const TurnRate: real := 500.0

  /** The engine's geometry, left uninterpreted: `distance` is
      `Vector3.Distance`, `normalized` is
      `Vector3.normalized`, `cos`/`sin` are `Mathf.Cos`/`Mathf.Sin`, `angle`
      is `Vector3.Angle` (in degrees), `lookRotation` is
      `Quaternion.LookRotation(v, Vector3.up)`, `rotateTowards` is
      `Quaternion.RotateTowards` and `forward` is `transform.forward` of a
      rotation. */
  datatype Engine = Engine(
    distance: (Vec3, Vec3) -> real,
    normalized: Vec3 -> Vec3,
    cos: real -> real,
    sin: real -> real,
    angle: (Vec3, Vec3) -> real,
    lookRotation: Vec3 -> Quat,
    rotateTowards: (Quat, Quat, real) -> Quat,
    forward: Quat -> Vec3)

  /** Scaling a vector by `k` scales its squared length by `k * k`. */
  lemma {:induction false} SqrMagnitudeScale(v: Vec3, k: real)
    ensures SqrMagnitude(Scale(v, k)) == k * k * SqrMagnitude(v)
  {
    calc {
      SqrMagnitude(Scale(v, k));
      (v.x * k) * (v.x * k) + (v.y * k) * (v.y * k) + (v.z * k) * (v.z * k);
      k * k * (v.x * v.x) + k * k * (v.y * v.y) + k * k * (v.z * v.z);
      k * k * SqrMagnitude(v);
    }
  }
}
