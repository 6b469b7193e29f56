/** Mat4 (engine/include/engine/math/mat4.hpp, engine/src/math/mat4.cpp):
    a 4x4 float matrix stored column-major as m[column][row]. Only the
    structural facts are modelled; products, perspective and lookAt are not. */
module Matrices {
  import opened Wrappers
  import opened Vectors

  predicate IsMat4(m: seq<seq<real>>) {
    |m| == 4 && forall c :: 0 <= c < 4 ==> |m[c]| == 4
  }

  /** `float m[4][4]`, indexed m[column][row]. */
  type Mat4 = m: seq<seq<real>> | IsMat4(m)
    witness [[0.0, 0.0, 0.0, 0.0], [0.0, 0.0, 0.0, 0.0], [0.0, 0.0, 0.0, 0.0], [0.0, 0.0, 0.0, 0.0]]

  const Zero: Mat4 := [[0.0, 0.0, 0.0, 0.0], [0.0, 0.0, 0.0, 0.0], [0.0, 0.0, 0.0, 0.0], [0.0, 0.0, 0.0, 0.0]]

  /** Kronecker delta: the identity entry at (c, r). */
  function Delta(c: int, r: int): real { if c == r then 1.0 else 0.0 }

  /** The identity matrix, as a specification. */
  function Identity(): (m: Mat4)
    ensures forall c, r :: 0 <= c < 4 && 0 <= r < 4 ==> m[c][r] == (if c == r then 1.0 else 0.0)
  {
    seq(4, c => seq(4, r => Delta(c, r)))
  }

  /** The default constructor Mat4(): a nested loop that sets every entry
      m[c][r] to 1 on the diagonal and 0 elsewhere. */
  method NewMat4() returns (m: Mat4)
    ensures forall c, r :: 0 <= c < 4 && 0 <= r < 4 ==> m[c][r] == Delta(c, r)
    ensures m == Identity()
  {
    m := Zero;
    for c := 0 to 4
      invariant forall c', r' :: 0 <= c' < c && 0 <= r' < 4 ==> m[c'][r'] == Delta(c', r')
    {
      for r := 0 to 4
        invariant forall c', r' :: 0 <= c' < c && 0 <= r' < 4 ==> m[c'][r'] == Delta(c', r')
        invariant forall r' :: 0 <= r' < r ==> m[c][r'] == Delta(c, r')
      {
        m := m[c := m[c][r := Delta(c, r)]];
      }
    }
    assert forall c :: 0 <= c < 4 ==> m[c] == Identity()[c];
  }

  /** `Mat4::identity()` returns a default-constructed matrix. */
  function IdentityFactory(): (m: Mat4)
    ensures forall c, r :: 0 <= c < 4 && 0 <= r < 4 ==> m[c][r] == Delta(c, r)
  {
    Identity()
  }

  /** The column pointer returned by operator[](col). The source does not
      check `col`; callers must keep it in 0..3. */
  function Column(m: Mat4, c: int): (col: seq<real>)
    requires 0 <= c < 4
    ensures |col| == 4 && forall r :: 0 <= r < 4 ==> col[r] == m[c][r]
    ensures GetCol(m, c) == Vec4(col[0], col[1], col[2], col[3])
  {
    m[c]
  }

  /** Writing one entry through operator[]: `m[c][r] = v`. */
  function SetEntry(m: Mat4, c: int, r: int, v: real): (m': Mat4)
    requires 0 <= c < 4 && 0 <= r < 4
    ensures m'[c][r] == v
    ensures forall c', r' :: 0 <= c' < 4 && 0 <= r' < 4 && (c', r') != (c, r) ==> m'[c'][r'] == m[c'][r']
  {
    m[c := m[c][r := v]]
  }

  /** getRow(r): the r-th entry of every column. */
  function GetRow(m: Mat4, r: int): (v: Vec4)
    requires 0 <= r < 4
    ensures forall c :: 0 <= c < 4 ==> Get(v, c) == Ok(m[c][r])
  {
    Vec4(m[0][r], m[1][r], m[2][r], m[3][r])
  }

  /** getCol(c): the four entries of column c. */
  function GetCol(m: Mat4, c: int): (v: Vec4)
    requires 0 <= c < 4
    ensures forall r :: 0 <= r < 4 ==> Get(v, r) == Ok(m[c][r])
  {
    Vec4(m[c][0], m[c][1], m[c][2], m[c][3])
  }

  /** The transpose, as a specification. */
  function Transposed(m: Mat4): (t: Mat4)
    ensures forall c, r :: 0 <= c < 4 && 0 <= r < 4 ==> t[c][r] == m[r][c]
  {
    seq(4, c requires 0 <= c < 4 => seq(4, r requires 0 <= r < 4 => m[r][c]))
  }

  /** Mat4::transpose(): a nested loop that copies m[r][c] into nm[c][r]. */
  method Transpose(m: Mat4) returns (t: Mat4)
    ensures forall c, r :: 0 <= c < 4 && 0 <= r < 4 ==> t[c][r] == m[r][c]
    ensures t == Transposed(m)
  {
    t := NewMat4();
    for c := 0 to 4
      invariant forall c', r' :: 0 <= c' < c && 0 <= r' < 4 ==> t[c'][r'] == m[r'][c']
    {
      for r := 0 to 4
        invariant forall c', r' :: 0 <= c' < c && 0 <= r' < 4 ==> t[c'][r'] == m[r'][c']
        invariant forall r' :: 0 <= r' < r ==> t[c][r'] == m[r'][c]
      {
        t := t[c := t[c][r := m[r][c]]];
      }
    }
    assert forall c :: 0 <= c < 4 ==> t[c] == Transposed(m)[c];
  }

  /** Row r of the matrix and column r of its transpose agree in the
      other direction too: getRow of a transpose is getCol of the original. */
  lemma TransposeRowIsColumn(m: Mat4, i: int)
    requires 0 <= i < 4
    ensures GetRow(Transposed(m), i) == GetCol(m, i)
    ensures GetCol(Transposed(m), i) == GetRow(m, i)
  {
  }

  /** Transposing twice gives back the original matrix. */
  lemma TransposeInvolution(m: Mat4)
    ensures Transposed(Transposed(m)) == m
  {
    var tt := Transposed(Transposed(m));
    forall c | 0 <= c < 4
      ensures tt[c] == m[c]
    {
      assert forall r :: 0 <= r < 4 ==> tt[c][r] == m[c][r];
    }
  }

  /** The identity is symmetric. */
  lemma TransposeIdentity()
    ensures Transposed(Identity()) == Identity()
  {
    var t := Transposed(Identity());
    forall c | 0 <= c < 4
      ensures t[c] == Identity()[c]
    {
      assert forall r :: 0 <= r < 4 ==> t[c][r] == Identity()[c][r];
    }
  }

  // ---- Factories of mat4.hpp: each starts from `Mat4 x{}`, the identity ----

  /** translate(v): the translation sits in the last column, rows 0..2. */
  function Translate(v: Vec3): (m: Mat4) {
    SetEntry(SetEntry(SetEntry(Identity(), 3, 0, v.x), 3, 1, v.y), 3, 2, v.z)
  }

  /** scale(v): the diagonal entries (0,0), (1,1), (2,2). */
  function Scale(v: Vec3): (m: Mat4) {
    SetEntry(SetEntry(SetEntry(Identity(), 0, 0, v.x), 1, 1, v.y), 2, 2, v.z)
  }

  /** rotateX(angle), with cos(angle) and sin(angle) given: the trigonometry
      is floating point and not modelled. */
  function RotateX(cos: real, sin: real): (m: Mat4) {
    SetEntry(SetEntry(SetEntry(SetEntry(Identity(), 1, 1, cos), 2, 2, cos), 1, 2, sin), 2, 1, -sin)
  }

  function RotateY(cos: real, sin: real): (m: Mat4) {
    SetEntry(SetEntry(SetEntry(SetEntry(Identity(), 0, 0, cos), 2, 2, cos), 2, 0, sin), 0, 2, -sin)
  }

  function RotateZ(cos: real, sin: real): (m: Mat4) {
    SetEntry(SetEntry(SetEntry(SetEntry(Identity(), 0, 0, cos), 1, 1, cos), 0, 1, sin), 1, 0, -sin)
  }

  /** Every entry of translate(v): v in column 3, rows 0..2; identity elsewhere. */
  lemma TranslateEntries(v: Vec3)
    ensures Translate(v)[3][0] == v.x && Translate(v)[3][1] == v.y && Translate(v)[3][2] == v.z
    ensures forall c, r :: 0 <= c < 4 && 0 <= r < 4 && !(c == 3 && r < 3) ==> Translate(v)[c][r] == Delta(c, r)
  {
  }

  /** scale(v) is diagonal with (v.x, v.y, v.z, 1). */
  lemma ScaleEntries(v: Vec3)
    ensures Scale(v)[0][0] == v.x && Scale(v)[1][1] == v.y && Scale(v)[2][2] == v.z && Scale(v)[3][3] == 1.0
    ensures forall c, r :: 0 <= c < 4 && 0 <= r < 4 && c != r ==> Scale(v)[c][r] == 0.0
  {
  }

  /** translate by the origin and scale by one are both the identity. */
  lemma NeutralFactories()
    ensures Translate(Origin) == Identity()
    ensures Scale(Vec3(1.0, 1.0, 1.0)) == Identity()
  {
    var t := Translate(Origin);
    var s := Scale(Vec3(1.0, 1.0, 1.0));
    forall c | 0 <= c < 4
      ensures t[c] == Identity()[c] && s[c] == Identity()[c]
    {
      assert forall r :: 0 <= r < 4 ==> t[c][r] == Identity()[c][r];
      assert forall r :: 0 <= r < 4 ==> s[c][r] == Identity()[c][r];
    }
  }

  /** The entries each elementary rotation writes, and that every other
      entry keeps its identity value. */
  lemma RotationEntries(cos: real, sin: real)
    ensures RotateX(cos, sin)[1][1] == cos && RotateX(cos, sin)[2][2] == cos
    ensures RotateX(cos, sin)[1][2] == sin && RotateX(cos, sin)[2][1] == -sin
    ensures forall c, r :: 0 <= c < 4 && 0 <= r < 4 && !(c in {1, 2} && r in {1, 2}) ==> RotateX(cos, sin)[c][r] == Delta(c, r)
    ensures RotateY(cos, sin)[0][0] == cos && RotateY(cos, sin)[2][2] == cos
    ensures RotateY(cos, sin)[2][0] == sin && RotateY(cos, sin)[0][2] == -sin
    ensures forall c, r :: 0 <= c < 4 && 0 <= r < 4 && !(c in {0, 2} && r in {0, 2}) ==> RotateY(cos, sin)[c][r] == Delta(c, r)
    ensures RotateZ(cos, sin)[0][0] == cos && RotateZ(cos, sin)[1][1] == cos
    ensures RotateZ(cos, sin)[0][1] == sin && RotateZ(cos, sin)[1][0] == -sin
    ensures forall c, r :: 0 <= c < 4 && 0 <= r < 4 && !(c in {0, 1} && r in {0, 1}) ==> RotateZ(cos, sin)[c][r] == Delta(c, r)
  {
  }
}
