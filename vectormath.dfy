/**
  The vector-math vocabulary shared by the camera and the rasterizer.

  Vectors are tuples of reals; the element-wise operations the camera uses to
  build its velocity are exact over reals and are defined here. Everything that
  the source takes from its SIMD vector-math library (quaternion composition,
  rotation quaternions, normalisation, rotating a vector, matrix products,
  look-at and perspective matrices) is a field of `MathLib`: the model is
  proved for every choice of these operations, so nothing is assumed about
  their geometry. `MathLib` also carries the result of a float division by
  zero (an infinity or a NaN), which no real number represents.
*/
module VectorMath {

  datatype Vec3 = Vec3(x: real, y: real, z: real)

  datatype Vec4 = Vec4(x: real, y: real, z: real, w: real)

  /** A quaternion (x, y, z) + w. */
  datatype Quat = Quat(x: real, y: real, z: real, w: real)

  /** A 4x4 matrix, given by its four columns. */
  datatype Matrix4 = Matrix4(c0: Vec4, c1: Vec4, c2: Vec4, c3: Vec4)

  /** The operations of the vector-math library the source links against. */
  datatype MathLib = MathLib(
    quatMul: (Quat, Quat) -> Quat,          // quaternion product a * b
    rotation: (real, Vec3) -> Quat,         // rotation by an angle about an axis
    normalizeQuat: Quat -> Quat,
    rotate: (Quat, Vec3) -> Vec3,           // a vector rotated by a quaternion
    normalize: Vec3 -> Vec3,
    matMul: (Matrix4, Matrix4) -> Matrix4,
    matVec: (Matrix4, Vec4) -> Vec4,
    lookAt: (Vec3, Vec3, Vec3) -> Matrix4,  // eye, target, up
    perspective: (real, real, real, real) -> Matrix4,  // fov, aspect, near, far
    divideByZero: real -> real              // what a / 0 gives in single precision
  )

  const Zero: Vec3 := Vec3(0.0, 0.0, 0.0)
  const XAxis: Vec3 := Vec3(1.0, 0.0, 0.0)
  const YAxis: Vec3 := Vec3(0.0, 1.0, 0.0)
  const ZAxis: Vec3 := Vec3(0.0, 0.0, 1.0)

  const IdentityQuat: Quat := Quat(0.0, 0.0, 0.0, 1.0)

  const IdentityMatrix: Matrix4 := Matrix4(
    Vec4(1.0, 0.0, 0.0, 0.0), Vec4(0.0, 1.0, 0.0, 0.0),
    Vec4(0.0, 0.0, 1.0, 0.0), Vec4(0.0, 0.0, 0.0, 1.0))

  function Add(a: Vec3, b: Vec3): Vec3 {
    Vec3(a.x + b.x, a.y + b.y, a.z + b.z)
  }

  function Sub(a: Vec3, b: Vec3): Vec3 {
    Vec3(a.x - b.x, a.y - b.y, a.z - b.z)
  }

  function Neg(a: Vec3): Vec3 {
    Vec3(-a.x, -a.y, -a.z)
  }

  function Scale(a: Vec3, k: real): Vec3 {
    Vec3(a.x * k, a.y * k, a.z * k)
  }

  /** Single-precision division: exact when the divisor is not zero. */
  function Div(lib: MathLib, a: real, b: real): real {
    if b != 0.0 then a / b else lib.divideByZero(a)
  }
}
