/** engine/include/engine/math/general.hpp: reading a translation back out
    of a matrix, and which inputs the camera basis depends on. */
module MathGeneral {
  import opened Vectors
  import opened Matrices
  import opened Components

  /** extractPosition(m): the last column's first three rows. */
  function ExtractPosition(m: Mat4): (p: Vec3) {
    Vec3(m[3][0], m[3][1], m[3][2])
  }

  /** extractPosition undoes translate. */
  lemma ExtractTranslate(v: Vec3)
    ensures ExtractPosition(Translate(v)) == v
  {
    TranslateEntries(v);
  }

  /** The identity and every scale matrix sit at the origin. */
  lemma ExtractPositionOfLinear(v: Vec3)
    ensures ExtractPosition(Identity()) == Origin
    ensures ExtractPosition(Scale(v)) == Origin
  {
    ScaleEntries(v);
  }

  /** transformFromMatrix(m). extractScale and extractRotationEuler are
      floating-point computations (lengths, asin, atan2) and are passed in. */
  function TransformFromMatrix(m: Mat4, scaleOf: Mat4 -> Vec3, rotationOf: Mat4 -> Vec3): (t: Transform)
    ensures t.position == ExtractPosition(m)
  {
    Transform(ExtractPosition(m), rotationOf(m), scaleOf(m))
  }

  /** A transform decomposed from translate(v) has position v. */
  lemma TransformFromTranslate(v: Vec3, scaleOf: Mat4 -> Vec3, rotationOf: Mat4 -> Vec3)
    ensures TransformFromMatrix(Translate(v), scaleOf, rotationOf).position == v
  {
    ExtractTranslate(v);
  }

  /** Vec3::dot and Vec3::cross (vec3.cpp), exact on reals. */
  function Dot(a: Vec3, b: Vec3): real {
    a.x * b.x + a.y * b.y + a.z * b.z
  }

  /** Vec3::operator*(s): every component scaled by s. */
  function Scaled(v: Vec3, s: real): Vec3 {
    Vec3(v.x * s, v.y * s, v.z * s)
  }

  lemma DotSymmetric(a: Vec3, b: Vec3)
    ensures Dot(a, b) == Dot(b, a)
  {
  }

  /** The dot product is linear in its second argument. */
  lemma DotScaled(a: Vec3, b: Vec3, k: real)
    ensures Dot(a, Scaled(b, k)) == k * Dot(a, b)
  {
    assert Dot(a, Scaled(b, k)) == a.x * (b.x * k) + a.y * (b.y * k) + a.z * (b.z * k);
  }

  function Cross(a: Vec3, b: Vec3): (c: Vec3)
    ensures Dot(c, a) == 0.0 && Dot(c, b) == 0.0
  {
    var c := Vec3(a.y * b.z - a.z * b.y, a.z * b.x - a.x * b.z, a.x * b.y - a.y * b.x);
    assert Dot(c, a) == a.x * (a.y * b.z - a.z * b.y) + a.y * (a.z * b.x - a.x * b.z) + a.z * (a.x * b.y - a.y * b.x);
    c
  }

  /** The forward vector updateCameraBasis computes before normalising it,
      from pitch = rotation.x and yaw = rotation.y. std::cos and std::sin
      are passed in. */
  function RawForward(rotation: Vec3, cos: real -> real, sin: real -> real): (f: Vec3) {
    var pitch, yaw := rotation.x, rotation.y;
    Vec3(cos(pitch) * sin(yaw), sin(pitch), cos(pitch) * cos(yaw))
  }

  /** updateCameraBasis(rotation, forward, right, up, worldUp): forward is
      the normalised raw forward, right = worldUp × forward normalised, and
      up = forward × right normalised. Vec3::normalized involves a square
      root and is passed in. */
  function CameraBasis(rotation: Vec3, worldUp: Vec3, cos: real -> real, sin: real -> real,
                       normalized: Vec3 -> Vec3): (basis: (Vec3, Vec3, Vec3))
  {
    var forward := normalized(RawForward(rotation, cos, sin));
    var right := normalized(Cross(worldUp, forward));
    var up := normalized(Cross(forward, right));
    (forward, right, up)
  }

  /** The basis reads pitch and yaw only, so rotation.z (roll) has no
      effect on any of the three vectors. */
  lemma CameraBasisIgnoresRoll(rotation: Vec3, roll: real, worldUp: Vec3, cos: real -> real,
                               sin: real -> real, normalized: Vec3 -> Vec3)
    ensures CameraBasis(rotation.(z := roll), worldUp, cos, sin, normalized)
         == CameraBasis(rotation, worldUp, cos, sin, normalized)
  {
    assert RawForward(rotation.(z := roll), cos, sin) == RawForward(rotation, cos, sin);
  }

  /** When normalising only scales its argument, as Vec3::normalized does
      (it divides by the length, or returns zero for the zero vector), the
      three basis vectors are pairwise orthogonal. */
  lemma CameraBasisOrthogonal(rotation: Vec3, worldUp: Vec3, cos: real -> real, sin: real -> real,
                              normalized: Vec3 -> Vec3, factor: Vec3 -> real)
    requires forall v :: normalized(v) == Scaled(v, factor(v))
    ensures var basis := CameraBasis(rotation, worldUp, cos, sin, normalized);
      Dot(basis.0, basis.1) == 0.0 && Dot(basis.0, basis.2) == 0.0 && Dot(basis.1, basis.2) == 0.0
  {
    var forward := normalized(RawForward(rotation, cos, sin));
    var side := Cross(worldUp, forward);
    var right := normalized(side);
    var above := Cross(forward, right);
    var up := normalized(above);
    // right is a multiple of worldUp × forward, which is perpendicular to forward
    DotScaled(forward, side, factor(side));
    DotSymmetric(forward, side);
    // up is a multiple of forward × right, perpendicular to both
    DotScaled(forward, above, factor(above));
    DotSymmetric(forward, above);
    DotScaled(right, above, factor(above));
    DotSymmetric(right, above);
  }

  /** Where cos² + sin² = 1 holds for pitch and yaw, the raw forward
      vector already has unit length, so normalising it keeps its value
      up to rounding. */
  lemma RawForwardIsUnit(rotation: Vec3, cos: real -> real, sin: real -> real)
    requires cos(rotation.x) * cos(rotation.x) + sin(rotation.x) * sin(rotation.x) == 1.0
    requires cos(rotation.y) * cos(rotation.y) + sin(rotation.y) * sin(rotation.y) == 1.0
    ensures Dot(RawForward(rotation, cos, sin), RawForward(rotation, cos, sin)) == 1.0
  {
  }
}
