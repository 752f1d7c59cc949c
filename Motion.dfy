/** Shared vocabulary of the two pipelines: an accelerometer reading as the
    browser's `devicemotion` event delivers it, and the squared Euclidean norm
    that both pipelines compute from it. */
module Motion {

  datatype Option<+T> = None | Some(value: T)

  /** One axis triple; an axis the browser reports as `null` is `None`. */
  datatype Vector3 = Vector3(x: Option<real>, y: Option<real>, z: Option<real>)

  /** A `devicemotion` event: either acceleration object may be missing. */
  datatype MotionEvent = MotionEvent(
    acceleration: Option<Vector3>,
    accelerationIncludingGravity: Option<Vector3>)

  /** The value an axis contributes: a missing axis counts as 0
      (`(g.x || 0) ** 2` in the shake filter, `null ** 2 === 0` in the step
      classifier). */
  function AxisOrZero(a: Option<real>): real
  {
    match a
    case Some(v) => v
    case None => 0.0
  }

  /** x^2 + y^2 + z^2: the square of the magnitude the source takes with `Math.sqrt`. */
  function SquaredNorm(v: Vector3): (r: real)
    ensures r >= 0.0
  {
    var x, y, z := AxisOrZero(v.x), AxisOrZero(v.y), AxisOrZero(v.z);
    SquareNonNegative(x);
    SquareNonNegative(y);
    SquareNonNegative(z);
    x * x + y * y + z * z
  }

  /** A missing axis contributes to the norm exactly as an axis reading 0
      does, whichever axis it is. */
  lemma MissingAxisIsZero(x: Option<real>, y: Option<real>, z: Option<real>)
    ensures SquaredNorm(Vector3(None, y, z)) == SquaredNorm(Vector3(Some(0.0), y, z))
    ensures SquaredNorm(Vector3(x, None, z)) == SquaredNorm(Vector3(x, Some(0.0), z))
    ensures SquaredNorm(Vector3(x, y, None)) == SquaredNorm(Vector3(x, y, Some(0.0)))
  {
  }

  lemma SquareNonNegative(a: real)
    ensures a * a >= 0.0
  {
  }

  /** The product of two positive reals is positive. */
  lemma ProductPositive(x: real, y: real)
    requires x > 0.0 && y > 0.0
    ensures x * y > 0.0
  {
  }

  /** Squaring is strictly monotone on the non-negative reals. */
  lemma SquareAboveSquare(a: real, b: real)
    requires a > b >= 0.0
    ensures a * a > b * b
  {
    ProductPositive(a - b, a + b);
    assert (a - b) * (a + b) == a * a - b * b;
  }

  /** `Math.sqrt` on the non-negative reals, up to floating-point rounding:
      any function passed for it must return the non-negative root. */
  ghost predicate IsSquareRoot(sqrt: real -> real)
  {
    forall v :: 0.0 <= v ==> 0.0 <= sqrt(v) && sqrt(v) * sqrt(v) == v
  }

  /** The root of 0 is 0. */
  lemma SquareRootOfZero(sqrt: real -> real)
    requires IsSquareRoot(sqrt)
    ensures sqrt(0.0) == 0.0
  {
    var s := sqrt(0.0);
    if s > 0.0 {
      SquareAboveSquare(s, 0.0);
    }
  }

  /** Comparing a magnitude with a non-negative bound is the same as comparing
      its square with the bound's square, so no square root is needed. */
  lemma MagnitudeAboveIffSquareAbove(sqrt: real -> real, v: real, bound: real)
    requires IsSquareRoot(sqrt)
    requires 0.0 <= v && 0.0 <= bound
    ensures sqrt(v) > bound <==> v > bound * bound
  {
    var s := sqrt(v);
    assert 0.0 <= s && s * s == v;
    if s > bound {
      SquareAboveSquare(s, bound);
    } else if s < bound {
      SquareAboveSquare(bound, s);
    }
  }
}
