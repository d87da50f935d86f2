/**
 * The camera of the particles scene: two accumulated drag angles and the two
 * view matrices rebuilt from them.
 *
 * Angles are `real` rather than `float`. A view matrix is kept symbolically:
 * either the all-zero `float[16]` a fresh Java array holds, or the product,
 * left to right, of the factors the `android.opengl.Matrix` calls multiplied
 * onto an identity. `rotateM` and `translateM` post-multiply, so a call appends
 * its factor at the right-hand end.
 */
module ParticlesRenderer {

  /** One elementary transform: a rotation by `angle` degrees about an axis, or a translation. */
  datatype Factor =
    | Rotate(angle: real, x: real, y: real, z: real)
    | Translate(dx: real, dy: real, dz: real)

  datatype Matrix = Zero | Product(factors: seq<Factor>)

  /** The pitch limit, in degrees, on either side of the horizon. */
  const PitchLimit: real := 90.0

  /** Drag units per degree of rotation. */
  const DragScale: real := 16.0

  /** The translation that places the scene camera above and behind the origin. */
  const EyeOffset: Factor := Translate(0.0, -1.5, -5.0)

  /** `rotateM(m, 0, a, x, y, z)`: m becomes m * R(a, x, y, z). */
  function RotateM(m: Matrix, a: real, x: real, y: real, z: real): Matrix
  {
    match m
    case Zero => Zero
    case Product(fs) => Product(fs + [Rotate(a, x, y, z)])
  }

  /** `translateM(m, 0, x, y, z)`: m becomes m * T(x, y, z). */
  function TranslateM(m: Matrix, x: real, y: real, z: real): Matrix
  {
    match m
    case Zero => Zero
    case Product(fs) => Product(fs + [Translate(x, y, z)])
  }

  /** A factor that leaves every point where it is. */
  predicate IsIdentityFactor(f: Factor)
  {
    match f
    case Rotate(a, _, _, _) => a == 0.0
    case Translate(x, y, z) => x == 0.0 && y == 0.0 && z == 0.0
  }

  // ------------------------------------------------------------ drag angles

  /** The camera state `handleTouchDrag` updates: yaw in `xRotation`, pitch in `yRotation`. */
  datatype Angles = Angles(xRotation: real, yRotation: real)

  /** The pitch clamp of `handleTouchDrag`: saturate below -90 and above 90. */
  function ClampPitch(y: real): (r: real)
    ensures -PitchLimit <= r <= PitchLimit
    ensures -PitchLimit <= y <= PitchLimit ==> r == y
    ensures y < -PitchLimit ==> r == -PitchLimit
    ensures y > PitchLimit ==> r == PitchLimit
  {
    if y < -PitchLimit then -PitchLimit
    else if y > PitchLimit then PitchLimit
    else y
  }

  lemma ClampPitchMonotone(a: real, b: real)
    requires a <= b
    ensures ClampPitch(a) <= ClampPitch(b)
  {
  }

  /** One drag: yaw moves by deltaX / 16 with no bound, pitch by deltaY / 16 and is then clamped. */
  function AfterDrag(o: Angles, deltaX: real, deltaY: real): (r: Angles)
    ensures r.xRotation == o.xRotation + deltaX / DragScale
    ensures -PitchLimit <= r.yRotation <= PitchLimit
    ensures -PitchLimit <= o.yRotation + deltaY / DragScale <= PitchLimit ==> r.yRotation == o.yRotation + deltaY / DragScale
    ensures o.yRotation + deltaY / DragScale > PitchLimit ==> r.yRotation == PitchLimit
    ensures o.yRotation + deltaY / DragScale < -PitchLimit ==> r.yRotation == -PitchLimit
  {
    Angles(o.xRotation + deltaX / DragScale, ClampPitch(o.yRotation + deltaY / DragScale))
  }

  datatype Drag = Drag(deltaX: real, deltaY: real)

  /** The state after a sequence of drags, one `handleTouchDrag` each. */
  function AfterDrags(o: Angles, drags: seq<Drag>): Angles
    decreases |drags|
  {
    if drags == [] then o
    else AfterDrags(AfterDrag(o, drags[0].deltaX, drags[0].deltaY), drags[1..])
  }

  function TotalDeltaX(drags: seq<Drag>): real
    decreases |drags|
  {
    if drags == [] then 0.0 else drags[0].deltaX + TotalDeltaX(drags[1..])
  }

  /** Yaw is never clamped: it is the start plus the sum of all horizontal deltas over 16. */
  lemma {:induction false} YawAccumulates(o: Angles, drags: seq<Drag>)
    ensures AfterDrags(o, drags).xRotation == o.xRotation + TotalDeltaX(drags) / DragScale
    decreases |drags|
  {
    if drags != [] {
      YawAccumulates(AfterDrag(o, drags[0].deltaX, drags[0].deltaY), drags[1..]);
    }
  }

  /** After at least one drag, or from an in-range start, pitch lies in [-90, 90]. */
  lemma {:induction false} PitchStaysInRange(o: Angles, drags: seq<Drag>)
    requires drags != [] || -PitchLimit <= o.yRotation <= PitchLimit
    ensures -PitchLimit <= AfterDrags(o, drags).yRotation <= PitchLimit
    decreases |drags|
  {
    if drags != [] {
      PitchStaysInRange(AfterDrag(o, drags[0].deltaX, drags[0].deltaY), drags[1..]);
    }
  }

  /** Once at +90, further upward (or zero) drags keep pitch at exactly +90: no overshoot, no drift. */
  lemma {:induction false} PitchSaturatesHigh(o: Angles, drags: seq<Drag>)
    requires o.yRotation == PitchLimit
    requires forall i :: 0 <= i < |drags| ==> drags[i].deltaY >= 0.0
    ensures AfterDrags(o, drags).yRotation == PitchLimit
    decreases |drags|
  {
    if drags != [] {
      PitchSaturatesHigh(AfterDrag(o, drags[0].deltaX, drags[0].deltaY), drags[1..]);
    }
  }

  /** Once at -90, further downward (or zero) drags keep pitch at exactly -90. */
  lemma {:induction false} PitchSaturatesLow(o: Angles, drags: seq<Drag>)
    requires o.yRotation == -PitchLimit
    requires forall i :: 0 <= i < |drags| ==> drags[i].deltaY <= 0.0
    ensures AfterDrags(o, drags).yRotation == -PitchLimit
    decreases |drags|
  {
    if drags != [] {
      PitchSaturatesLow(AfterDrag(o, drags[0].deltaX, drags[0].deltaY), drags[1..]);
    }
  }

  /** Pitch after a drag sequence is monotone in the starting pitch. */
  lemma {:induction false} PitchMonotone(o: Angles, p: Angles, drags: seq<Drag>)
    requires o.yRotation <= p.yRotation
    ensures AfterDrags(o, drags).yRotation <= AfterDrags(p, drags).yRotation
    decreases |drags|
  {
    if drags != [] {
      var d := drags[0];
      ClampPitchMonotone(o.yRotation + d.deltaY / DragScale, p.yRotation + d.deltaY / DragScale);
      PitchMonotone(AfterDrag(o, d.deltaX, d.deltaY), AfterDrag(p, d.deltaX, d.deltaY), drags[1..]);
    }
  }

  /** Dragging through `a` and then `b` is the same as dragging through `a + b`. */
  lemma {:induction false} AfterDragsAppend(o: Angles, a: seq<Drag>, b: seq<Drag>)
    ensures AfterDrags(o, a + b) == AfterDrags(AfterDrags(o, a), b)
    decreases |a|
  {
    if a == [] {
      assert a + b == b;
    } else {
      assert (a + b)[0] == a[0] && (a + b)[1..] == a[1..] + b;
      AfterDragsAppend(AfterDrag(o, a[0].deltaX, a[0].deltaY), a[1..], b);
    }
  }

  // ------------------------------------------------------------ view matrices

  /** The rotation-only camera: identity, then -pitch about X, then -yaw about Y. */
  function SkyboxView(o: Angles): Matrix
  {
    Product([Rotate(-o.yRotation, 1.0, 0.0, 0.0), Rotate(-o.xRotation, 0.0, 1.0, 0.0)])
  }

  /** The scene camera: the skybox rotations, then the eye offset. */
  function SceneView(o: Angles): Matrix
  {
    Product([Rotate(-o.yRotation, 1.0, 0.0, 0.0), Rotate(-o.xRotation, 0.0, 1.0, 0.0), EyeOffset])
  }

  /**
   * The skybox view is exactly the scene view with its final translation
   * removed: the skybox turns with the camera but never moves.
   */
  lemma SkyboxIsSceneWithoutTranslation(o: Angles)
    ensures SceneView(o).Product? && SkyboxView(o).Product?
    ensures SceneView(o).factors == SkyboxView(o).factors + [EyeOffset]
    ensures forall f :: f in SkyboxView(o).factors ==> f.Rotate?
  {
  }

  /** At zero yaw and pitch the skybox view is the identity and the scene view is the eye offset alone. */
  lemma ZeroAnglesView()
    ensures forall f :: f in SkyboxView(Angles(0.0, 0.0)).factors ==> IsIdentityFactor(f)
    ensures SceneView(Angles(0.0, 0.0)).factors[2] == Translate(0.0, -1.5, -5.0)
    ensures forall i :: 0 <= i < 2 ==> IsIdentityFactor(SceneView(Angles(0.0, 0.0)).factors[i])
  {
  }

  // ------------------------------------------------------------ the renderer

  class Renderer {
    var xRotation: real
    var yRotation: real
    var viewMatrix: Matrix
    var viewMatrixForSkybox: Matrix

    function CurrentAngles(): Angles
      reads this
    {
      Angles(xRotation, yRotation)
    }

    /** The invariant `handleTouchDrag` keeps: pitch lies in [-90, 90]. */
    ghost predicate Valid()
      reads this
    {
      -PitchLimit <= yRotation <= PitchLimit
    }

    /** Both view matrices were last rebuilt from the current angles. */
    ghost predicate ViewsCurrent()
      reads this
    {
      viewMatrix == SceneView(CurrentAngles()) && viewMatrixForSkybox == SkyboxView(CurrentAngles())
    }

    /** A fresh renderer: Java's zeroed fields and zeroed `float[16]` arrays. */
    constructor ()
      ensures Valid()
      ensures xRotation == 0.0 && yRotation == 0.0
      ensures viewMatrix == Zero && viewMatrixForSkybox == Zero
    {
      xRotation := 0.0;
      yRotation := 0.0;
      viewMatrix := Zero;
      viewMatrixForSkybox := Zero;
    }

    /**
     * `updateViewMatrices`: reset to identity, rotate about X then about Y,
     * copy the rotation-only matrix for the skybox, and only then translate.
     */
    method UpdateViewMatrices()
      modifies this
      ensures xRotation == old(xRotation) && yRotation == old(yRotation)
      ensures ViewsCurrent()
    {
      viewMatrix := Product([]);
      viewMatrix := RotateM(viewMatrix, -yRotation, 1.0, 0.0, 0.0);
      viewMatrix := RotateM(viewMatrix, -xRotation, 0.0, 1.0, 0.0);
      viewMatrixForSkybox := viewMatrix;
      viewMatrix := TranslateM(viewMatrix, 0.0, -1.5, -5.0);
    }

    /**
     * `handleTouchDrag`: accumulate both deltas over 16, clamp pitch, and
     * rebuild the view matrices. Whatever the state before, pitch ends in range.
     */
    method HandleTouchDrag(deltaX: real, deltaY: real)
      modifies this
      ensures CurrentAngles() == AfterDrag(old(CurrentAngles()), deltaX, deltaY)
      ensures xRotation == old(xRotation) + deltaX / DragScale
      ensures Valid()
      ensures ViewsCurrent()
    {
      xRotation := xRotation + deltaX / DragScale;
      yRotation := yRotation + deltaY / DragScale;
      if yRotation < -PitchLimit {
        yRotation := -PitchLimit;
      } else if yRotation > PitchLimit {
        yRotation := PitchLimit;
      }
      UpdateViewMatrices();
    }
  }
}
