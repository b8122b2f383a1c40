/** Planar vectors as the haptic loop uses them (Unity's Vector2 and the
    two-element float arrays of the Haply API), with floats taken as
    mathematical reals, and the device-space to graphics-space transform. */
module Geometry {

  datatype Vec2 = Vec2(x: real, y: real)

  const Zero: Vec2 := Vec2(0.0, 0.0)

  function Sub(a: Vec2, b: Vec2): (d: Vec2) {
    Vec2(a.x - b.x, a.y - b.y)
  }

  function Neg(a: Vec2): (n: Vec2) {
    Vec2(-a.x, -a.y)
  }

  function Scale(c: real, a: Vec2): (v: Vec2) {
    Vec2(c * a.x, c * a.y)
  }

  /** Squared Euclidean length; the force law uses only the squared
      distance (Slingshot.cs:433), so no square root is needed. */
  function NormSq(a: Vec2): (n: real) {
    a.x * a.x + a.y * a.y
  }

  /** DeviceToGraphics: a device-space position is negated and then scaled by
      the device-to-graphics factor. For a non-zero factor the result can be
      mapped back exactly, and for a positive factor every coordinate changes
      sign. */
  function DeviceToGraphics(p: Vec2, factor: real): (g: Vec2)
    ensures factor != 0.0 ==> Vec2(-g.x / factor, -g.y / factor) == p
    ensures factor > 0.0 ==> (g.x < 0.0 <==> p.x > 0.0) && (g.y < 0.0 <==> p.y > 0.0)
    ensures factor == 0.0 ==> g == Zero
  {
    Vec2(-p.x * factor, -p.y * factor)
  }

  /** The algebraic inverse of DeviceToGraphics: negate, then divide by the factor. */
  function GraphicsToDevice(g: Vec2, factor: real): (p: Vec2)
    requires factor != 0.0
    ensures Vec2(-p.x * factor, -p.y * factor) == g
  {
    Vec2(-g.x / factor, -g.y / factor)
  }

  /** Both compositions of the transform and its inverse are the identity. */
  lemma TransformRoundTrip(p: Vec2, g: Vec2, factor: real)
    requires factor != 0.0
    ensures GraphicsToDevice(DeviceToGraphics(p, factor), factor) == p
    ensures DeviceToGraphics(GraphicsToDevice(g, factor), factor) == g
  {
  }

  /** With a non-zero factor two device positions publish the same graphics
      position only if they are equal; with a zero factor everything collapses. */
  lemma TransformInjective(p: Vec2, q: Vec2, factor: real)
    ensures factor != 0.0 ==> (DeviceToGraphics(p, factor) == DeviceToGraphics(q, factor) <==> p == q)
    ensures factor == 0.0 ==> DeviceToGraphics(p, factor) == DeviceToGraphics(q, factor)
  {
    if factor != 0.0 && DeviceToGraphics(p, factor) == DeviceToGraphics(q, factor) {
      TransformRoundTrip(p, Zero, factor);
      TransformRoundTrip(q, Zero, factor);
    }
  }
}
