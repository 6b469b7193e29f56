/** Vec3 and Vec4 (engine/include/engine/math/vec3.hpp, vec4.hpp,
    engine/src/math/vec4.cpp). Float components are modelled as reals. */
module Vectors {
  import opened Wrappers

  datatype Vec3 = Vec3(x: real, y: real, z: real)

  const Origin: Vec3 := Vec3(0.0, 0.0, 0.0)

  /** A homogeneous vector; `w` is the fourth component. */
  datatype Vec4 = Vec4(x: real, y: real, z: real, w: real)

  /** The default constructor Vec4(): the origin as a point. */
  const DefaultVec4: Vec4 := Vec4(0.0, 0.0, 0.0, 1.0)

  /** The constructor Vec4(x, y, z, w = 1.0f). */
  function MakeVec4(x: real, y: real, z: real, w: real := 1.0): (v: Vec4)
    ensures Get(v, 0) == Ok(x) && Get(v, 1) == Ok(y) && Get(v, 2) == Ok(z) && Get(v, 3) == Ok(w)
  {
    Vec4(x, y, z, w)
  }

  /** The const operator[]: indices 0..3 select x, y, z, w; any other index
      throws std::out_of_range. */
  function Get(v: Vec4, i: int): (r: Result<real>)
    ensures r.Ok? <==> 0 <= i < 4
  {
    match i
    case 0 => Ok(v.x)
    case 1 => Ok(v.y)
    case 2 => Ok(v.z)
    case 3 => Ok(v.w)
    case _ => Err(OutOfRange)
  }

  /** Assignment through the mutable operator[]: `v[i] = a`. */
  function Set(v: Vec4, i: int, a: real): (r: Result<Vec4>)
    ensures r.Ok? <==> 0 <= i < 4
  {
    match i
    case 0 => Ok(v.(x := a))
    case 1 => Ok(v.(y := a))
    case 2 => Ok(v.(z := a))
    case 3 => Ok(v.(w := a))
    case _ => Err(OutOfRange)
  }

  /** Both operator[] overloads address the same field: what is written
      through one is read back through the other, and no other component
      changes. */
  lemma SetThenGet(v: Vec4, i: int, j: int, a: real)
    requires 0 <= i < 4
    ensures Set(v, i, a).Ok?
    ensures Get(Set(v, i, a).value, j) == if j == i then Ok(a) else Get(v, j)
  {
  }

  /** operator+, operator- and operator*(float) build their result with the
      three-argument constructor, so the result's w is always 1. */
  function Add(a: Vec4, b: Vec4): Vec4 { MakeVec4(a.x + b.x, a.y + b.y, a.z + b.z) }

  function Sub(a: Vec4, b: Vec4): Vec4 { MakeVec4(a.x - b.x, a.y - b.y, a.z - b.z) }

  function Mul(a: Vec4, s: real): Vec4 { MakeVec4(a.x * s, a.y * s, a.z * s) }

  /** The w of `+`, `-` and `*` is 1 whatever the operands' w, and the
      operands' w never influences the result. */
  lemma ArithmeticResetsW(a: Vec4, b: Vec4, s: real, wa: real, wb: real)
    ensures Add(a, b).w == 1.0 && Sub(a, b).w == 1.0 && Mul(a, s).w == 1.0
    ensures Add(a.(w := wa), b.(w := wb)) == Add(a, b)
    ensures Sub(a.(w := wa), b.(w := wb)) == Sub(a, b)
    ensures Mul(a.(w := wa), s) == Mul(a, s)
  {
  }
}
