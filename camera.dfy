/**
  The free-fly first-person camera: a small state machine that turns one
  keyboard snapshot and one relative mouse motion per frame into a new
  orientation, velocity and position, and rebuilds the view and projection
  matrices the rasterizer consumes.

  The input devices are not read here: each update is handed a `KeyState`
  (the keys the camera looks at) and the mouse motion `dx`, `dy` since the
  previous poll. Quaternion and matrix operations come from `MathLib`.
*/
module FreeFlyCamera {
  import opened VectorMath

  /** Per-update displacement along an axis for a held key. */
  const CameraLinearSpeed: real := 0.005

  const Pi: real := 3.14159265358979323846

  /** The elevation band is [-0.49 pi, 0.49 pi]. */
  const MaxElevation: real := 0.49 * Pi

  /** The keys the camera reads: W, S, A, D and Space. */
  datatype KeyState = KeyState(w: bool, s: bool, a: bool, d: bool, space: bool)

  predicate NoKeys(keys: KeyState) {
    !keys.w && !keys.s && !keys.a && !keys.d && !keys.space
  }

  /** The new elevation and the pitch actually applied to the orientation. */
  datatype Pitch = Pitch(elevation: real, rotationX: real)

  /**
    Accumulates a pitch request into the elevation. When the sum leaves the
    band, the elevation is set to the bound and the applied pitch shrinks by
    exactly the overshoot, so the applied pitch always equals the change of
    elevation. The prior elevation may be anything.
  */
  function ClampElevation(elevation: real, rotationX: real): (r: Pitch)
    ensures -MaxElevation <= r.elevation <= MaxElevation
    ensures r.elevation == elevation + r.rotationX
    ensures -MaxElevation <= elevation + rotationX <= MaxElevation ==> r.rotationX == rotationX
    ensures elevation + rotationX > MaxElevation ==>
      r.elevation == MaxElevation && r.rotationX == rotationX - (elevation + rotationX - MaxElevation)
    ensures elevation + rotationX < -MaxElevation ==>
      r.elevation == -MaxElevation && r.rotationX == rotationX - (elevation + rotationX + MaxElevation)
  {
    var e := elevation + rotationX;
    if e > MaxElevation then Pitch(MaxElevation, MaxElevation - elevation)
    else if e < -MaxElevation then Pitch(-MaxElevation, -MaxElevation - elevation)
    else Pitch(e, rotationX)
  }

  /** Elevation and orientation after one mouse capture. */
  datatype Look = Look(elevation: real, orientation: Quat)

  /**
    One mouse capture: pitch from dy / height, yaw from dx / width. The yaw
    rotates about the world up axis and is composed on the left; the pitch
    (after clamping) rotates about the camera's x axis and is composed on the
    right; each is composed only when it is non-zero. The result is
    renormalised.
  */
  function MouseLook(lib: MathLib, elevation: real, orientation: Quat, dx: int, dy: int, width: int, height: int): (r: Look)
    requires width > 0 && height > 0
    ensures -MaxElevation <= r.elevation <= MaxElevation
    ensures r.elevation - elevation == ClampElevation(elevation, dy as real / height as real).rotationX
  {
    var pitch := ClampElevation(elevation, dy as real / height as real);
    var rotationY := dx as real / width as real;
    var yawed := if rotationY != 0.0 then lib.quatMul(lib.rotation(-rotationY, YAxis), orientation) else orientation;
    var pitched := if pitch.rotationX != 0.0 then lib.quatMul(yawed, lib.rotation(pitch.rotationX, XAxis)) else yawed;
    Look(pitch.elevation, lib.normalizeQuat(pitched))
  }

  /** A motionless mouse composes no rotation: the orientation is only renormalised. */
  lemma StillMouseOnlyRenormalizes(lib: MathLib, elevation: real, orientation: Quat, width: int, height: int)
    requires width > 0 && height > 0
    requires -MaxElevation <= elevation <= MaxElevation
    ensures MouseLook(lib, elevation, orientation, 0, 0, width, height) == Look(elevation, lib.normalizeQuat(orientation))
  {
  }

  /** Horizontal motion alone yaws on the left about the world up axis and keeps the elevation. */
  lemma YawComposesOnTheLeft(lib: MathLib, elevation: real, orientation: Quat, dx: int, width: int, height: int)
    requires width > 0 && height > 0 && dx != 0
    requires -MaxElevation <= elevation <= MaxElevation
    ensures MouseLook(lib, elevation, orientation, dx, 0, width, height)
         == Look(elevation, lib.normalizeQuat(lib.quatMul(lib.rotation(-(dx as real / width as real), YAxis), orientation)))
  {
    assert dx as real / width as real != 0.0;
  }

  /**
    Vertical motion alone pitches on the right about the x axis by the clamped
    amount, or composes nothing when the clamp leaves no pitch to apply.
  */
  lemma PitchComposesOnTheRight(lib: MathLib, elevation: real, orientation: Quat, dy: int, width: int, height: int)
    requires width > 0 && height > 0
    ensures var pitch := ClampElevation(elevation, dy as real / height as real);
      MouseLook(lib, elevation, orientation, 0, dy, width, height)
      == Look(pitch.elevation,
              lib.normalizeQuat(if pitch.rotationX != 0.0 then lib.quatMul(orientation, lib.rotation(pitch.rotationX, XAxis))
                                else orientation))
  {
  }

  /**
    A diagonal motion yaws first, on the left of the old orientation, and
    then pitches by the clamped amount on the right of that product.
  */
  lemma DiagonalComposesYawThenPitch(lib: MathLib, elevation: real, orientation: Quat, dx: int, dy: int, width: int, height: int)
    requires width > 0 && height > 0 && dx != 0
    requires ClampElevation(elevation, dy as real / height as real).rotationX != 0.0
    ensures var pitch := ClampElevation(elevation, dy as real / height as real);
      MouseLook(lib, elevation, orientation, dx, dy, width, height)
      == Look(pitch.elevation,
              lib.normalizeQuat(lib.quatMul(lib.quatMul(lib.rotation(-(dx as real / width as real), YAxis), orientation),
                                            lib.rotation(pitch.rotationX, XAxis))))
  {
    assert dx as real / width as real != 0.0;
  }

  /** At the upper bound, further upward motion changes neither elevation nor orientation (beyond renormalising). */
  lemma PitchAtLimitIsDropped(lib: MathLib, orientation: Quat, dy: int, width: int, height: int)
    requires width > 0 && height > 0 && dy >= 0
    ensures MouseLook(lib, MaxElevation, orientation, 0, dy, width, height) == Look(MaxElevation, lib.normalizeQuat(orientation))
  {
    var rx := dy as real / height as real;
    assert rx >= 0.0;
    assert ClampElevation(MaxElevation, rx).rotationX == 0.0;
  }

  /**
    The velocity for one key snapshot. It does not depend on the previous
    velocity: W wins over S, A wins over D, Space adds a downward step, and
    with no key held the camera stops.
  */
  function KeyboardVelocity(keys: KeyState, forward: Vec3, right: Vec3, up: Vec3): (velocity: Vec3)
    ensures NoKeys(keys) ==> velocity == Zero
  {
    var v := if keys.w then Scale(forward, CameraLinearSpeed)
             else if keys.s then Scale(Neg(forward), CameraLinearSpeed)
             else Zero;
    var v' := if keys.a then Sub(v, Scale(right, CameraLinearSpeed))
              else if keys.d then Add(v, Scale(right, CameraLinearSpeed))
              else v;
    if keys.space then Sub(v', Scale(up, CameraLinearSpeed)) else v'
  }

  /** +1 for the key that wins, -1 for the other one, 0 for neither. */
  function AxisSign(positive: bool, negative: bool): real {
    if positive then 1.0 else if negative then -1.0 else 0.0
  }

  /** The velocity is a fixed step along forward, right and up, with the sign given by the key precedence. */
  lemma KeyboardVelocityIsAxisCombination(keys: KeyState, forward: Vec3, right: Vec3, up: Vec3)
    ensures KeyboardVelocity(keys, forward, right, up)
         == Scale(Add(Add(Scale(forward, AxisSign(keys.w, keys.s)),
                          Scale(right, -AxisSign(keys.a, keys.d))),
                      Scale(up, -AxisSign(keys.space, false))),
                  CameraLinearSpeed)
  {
  }

  /** Holding W makes S irrelevant. */
  lemma ForwardOverridesBackward(keys: KeyState, forward: Vec3, right: Vec3, up: Vec3)
    requires keys.w
    ensures KeyboardVelocity(keys, forward, right, up) == KeyboardVelocity(keys.(s := !keys.s), forward, right, up)
  {
  }

  /** Holding A makes D irrelevant. */
  lemma LeftOverridesRight(keys: KeyState, forward: Vec3, right: Vec3, up: Vec3)
    requires keys.a
    ensures KeyboardVelocity(keys, forward, right, up) == KeyboardVelocity(keys.(d := !keys.d), forward, right, up)
  {
  }

  class Camera {
    var x: int
    var y: int
    var width: int
    var height: int

    var fov: real
    var nearPlane: real
    var farPlane: real
    var aspect: real

    var position: Vec3
    var velocity: Vec3

    var forward: Vec3
    var up: Vec3
    var right: Vec3

    var elevation: real

    var orientation: Quat

    var view: Matrix4
    var projection: Matrix4
    var viewProjection: Matrix4

    /** A positive viewport with its aspect ratio, and an elevation inside the band. */
    ghost predicate Valid()
      reads this`width, this`height, this`aspect, this`elevation
    {
      && width > 0 && height > 0
      && aspect == width as real / height as real
      && -MaxElevation <= elevation <= MaxElevation
    }

    /** The view-projection matrix is left as whatever the first update computes. */
    constructor ()
      ensures Valid()
      ensures x == 0 && y == 0 && width == 640 && height == 480
      ensures fov == 0.25 * Pi && nearPlane == 1.0 && farPlane == 100.0
      ensures position == Vec3(0.0, 0.0, 10.0) && velocity == Zero
      ensures forward == Neg(ZAxis) && up == YAxis && right == XAxis
      ensures elevation == 0.0 && orientation == IdentityQuat
      ensures view == IdentityMatrix && projection == IdentityMatrix
    {
      x, y, width, height := 0, 0, 640, 480;
      aspect := 640 as real / 480 as real;
      fov := 0.25 * Pi;
      nearPlane, farPlane := 1.0, 100.0;
      position := Vec3(0.0, 0.0, 10.0);
      velocity := Vec3(0.0, 0.0, 0.0);
      forward := Neg(ZAxis);
      up := YAxis;
      right := XAxis;
      elevation := 0.0;
      orientation := IdentityQuat;
      view := IdentityMatrix;
      projection := IdentityMatrix;
    }

    method SetViewport(x: int, y: int, width: int, height: int)
      requires Valid() && width > 0 && height > 0
      modifies this`x, this`y, this`width, this`height, this`aspect
      ensures Valid()
      ensures this.x == x && this.y == y && this.width == width && this.height == height
      ensures aspect == width as real / height as real
    {
      this.x := x;
      this.y := y;
      this.width := width;
      this.height := height;
      aspect := width as real / height as real;
    }

    method SetClippingPlanes(zNear: real, zFar: real)
      modifies this`nearPlane, this`farPlane
      ensures nearPlane == zNear && farPlane == zFar
    {
      nearPlane := zNear;
      farPlane := zFar;
    }

    method SetFOV(fovRadians: real)
      modifies this`fov
      ensures fov == fovRadians
    {
      fov := fovRadians;
    }

    /** One frame: mouse first, then keyboard, then position; axes and matrices last. */
    method Update(dt: real, keys: KeyState, dx: int, dy: int, lib: MathLib)
      requires Valid()
      modifies this`elevation, this`orientation, this`velocity, this`position,
               this`forward, this`up, this`right, this`view, this`projection, this`viewProjection
      ensures Valid()
      ensures Look(elevation, orientation) == MouseLook(lib, old(elevation), old(orientation), dx, dy, width, height)
      // the velocity uses the axes left over from the previous update
      ensures velocity == KeyboardVelocity(keys, old(forward), old(right), old(up))
      ensures position == Add(old(position), Scale(velocity, dt))
      ensures NoKeys(keys) ==> position == old(position)
      ensures forward == lib.normalize(lib.rotate(orientation, Neg(ZAxis)))
      ensures up == lib.normalize(lib.rotate(orientation, YAxis))
      ensures right == lib.normalize(lib.rotate(orientation, XAxis))
      ensures view == lib.lookAt(position, Add(position, forward), up)
      ensures projection == lib.perspective(fov, aspect, nearPlane, farPlane)
      ensures viewProjection == lib.matMul(projection, view)
    {
      CaptureMouseState(dx, dy, lib);
      CaptureKeyboardState(keys);

      position := Add(position, Scale(velocity, dt));

      forward := lib.normalize(lib.rotate(orientation, Neg(ZAxis)));
      up := lib.normalize(lib.rotate(orientation, YAxis));
      right := lib.normalize(lib.rotate(orientation, XAxis));

      view := lib.lookAt(position, Add(position, forward), up);
      projection := lib.perspective(fov, aspect, nearPlane, farPlane);
      viewProjection := lib.matMul(projection, view);
    }

    method CaptureKeyboardState(keys: KeyState)
      modifies this`velocity
      ensures velocity == KeyboardVelocity(keys, forward, right, up)
    {
      if keys.w {
        velocity := Scale(forward, CameraLinearSpeed);
      } else if keys.s {
        velocity := Scale(Neg(forward), CameraLinearSpeed);
      } else {
        velocity := Vec3(0.0, 0.0, 0.0);
      }

      if keys.a {
        velocity := Sub(velocity, Scale(right, CameraLinearSpeed));
      } else if keys.d {
        velocity := Add(velocity, Scale(right, CameraLinearSpeed));
      }

      if keys.space {
        velocity := Sub(velocity, Scale(up, CameraLinearSpeed));
      }
    }

    method CaptureMouseState(dx: int, dy: int, lib: MathLib)
      requires Valid()
      modifies this`elevation, this`orientation
      ensures Valid()
      ensures Look(elevation, orientation) == MouseLook(lib, old(elevation), old(orientation), dx, dy, width, height)
    {
      var maxElevation := 0.49 * Pi;

      var rotationX := dy as real / height as real;
      var rotationY := dx as real / width as real;

      elevation := elevation + rotationX;

      if elevation > maxElevation {
        rotationX := maxElevation - (elevation - rotationX);
        elevation := maxElevation;
      }

      if elevation < -maxElevation {
        rotationX := -maxElevation - (elevation - rotationX);
        elevation := -maxElevation;
      }

      if rotationY != 0.0 {
        orientation := lib.quatMul(lib.rotation(-rotationY, YAxis), orientation);
      }

      if rotationX != 0.0 {
        orientation := lib.quatMul(orientation, lib.rotation(rotationX, XAxis));
      }

      orientation := lib.normalizeQuat(orientation);
    }
  }
}
