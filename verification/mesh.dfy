/** engine/src/assets/mesh.cpp: the cube built by Mesh::createCube and the
    line-by-line OBJ reader of Mesh::loadFromObj. Reading the file is
    outside the model: the reader is given the file's lines, or None when
    the file cannot be opened, and `std::stof` is a parameter. `std::stoi`
    is modelled in full, since face indices depend on its exact behaviour. */
module Meshes {
  import opened Wrappers
  import opened Vectors

  /** Triangle: three vertex indices and three textureMap indices. */
  datatype Triangle = Triangle(i0: int, i1: int, i2: int, uv0: int, uv1: int, uv2: int)

  datatype Mesh = Mesh(vertices: seq<Vec3>, triangles: seq<Triangle>, textureMap: seq<Vec3>)

  const EmptyMesh: Mesh := Mesh([], [], [])

  /** Every vertex index of every triangle names a vertex. */
  ghost predicate IndicesInRange(m: Mesh) {
    forall t | t in m.triangles :: 0 <= t.i0 < |m.vertices| && 0 <= t.i1 < |m.vertices| && 0 <= t.i2 < |m.vertices|
  }

  /** Every texture index of every triangle names a textureMap entry. */
  ghost predicate UvInRange(m: Mesh) {
    forall t | t in m.triangles :: 0 <= t.uv0 < |m.textureMap| && 0 <= t.uv1 < |m.textureMap| && 0 <= t.uv2 < |m.textureMap|
  }

  // ---- createCube ----

  function Corner(x: int, y: int, z: int): Vec3 {
    Vec3(x as real, y as real, z as real)
  }

  /** A triangle given by vertex indices only: aggregate initialisation
      leaves uv0 and uv1 value-initialised and uv2 has the default 0. */
  function Face(a: int, b: int, c: int): Triangle {
    Triangle(a, b, c, 0, 0, 0)
  }

  /** Lines 15-24: the eight corners of [-1, 1]^3. */
  const CubeVertices: seq<Vec3> := [
    Corner(-1, -1, -1), Corner(1, -1, -1), Corner(1, 1, -1), Corner(-1, 1, -1),
    Corner(-1, -1, 1), Corner(1, -1, 1), Corner(1, 1, 1), Corner(-1, 1, 1)]

  /** Lines 27-49: two triangles per face, back, front, left, right, top
      and bottom. */
  const CubeTriangles: seq<Triangle> := [
    Face(2, 1, 0), Face(3, 2, 0),
    Face(4, 5, 6), Face(4, 6, 7),
    Face(0, 4, 7), Face(0, 7, 3),
    Face(6, 5, 1), Face(6, 1, 2),
    Face(3, 7, 6), Face(3, 6, 2),
    Face(0, 1, 5), Face(0, 5, 4)]

  /** createCube(): the tables above and `textureMap.resize(8, Vec3(0,0,0))`. */
  function Cube(): (m: Mesh)
    ensures |m.vertices| == 8 && |m.triangles| == 12 && |m.textureMap| == |m.vertices|
    ensures forall k :: 0 <= k < |m.textureMap| ==> m.textureMap[k] == Origin
  {
    Mesh(CubeVertices, CubeTriangles, seq(|CubeVertices|, _ => Origin))
  }

  /** Triangle t's vertex and texture indices name entries of m. */
  predicate TriangleInRange(t: Triangle, m: Mesh) {
    && 0 <= t.i0 < |m.vertices| && 0 <= t.i1 < |m.vertices| && 0 <= t.i2 < |m.vertices|
    && 0 <= t.uv0 < |m.textureMap| && 0 <= t.uv1 < |m.textureMap| && 0 <= t.uv2 < |m.textureMap|
  }

  /** Every index of the cube's triangles names a vertex and a textureMap
      entry: the cube can be drawn without reading out of range. */
  lemma CubeIndicesInRange()
    ensures forall k | 0 <= k < 12 :: TriangleInRange(Cube().triangles[k], Cube())
    ensures IndicesInRange(Cube()) && UvInRange(Cube())
  {
    var m := Cube();
    forall k | 0 <= k < 12
      ensures TriangleInRange(m.triangles[k], m)
    {
      assert k in {0, 1, 2, 3, 4, 5, 6, 7, 8, 9, 10, 11};
    }
  }

  /** Three points on one face of the cube share one coordinate. */
  predicate OnOneFace(a: Vec3, b: Vec3, c: Vec3) {
    (a.x == b.x == c.x) || (a.y == b.y == c.y) || (a.z == b.z == c.z)
  }

  /** Every cube triangle lies on one face of the cube. */
  lemma CubeTrianglesOnFaces()
    ensures forall k | 0 <= k < 12 ::
      var t := CubeTriangles[k];
      0 <= t.i0 < 8 && 0 <= t.i1 < 8 && 0 <= t.i2 < 8
      && OnOneFace(CubeVertices[t.i0], CubeVertices[t.i1], CubeVertices[t.i2])
  {
    forall k | 0 <= k < 12
      ensures var t := CubeTriangles[k];
        0 <= t.i0 < 8 && 0 <= t.i1 < 8 && 0 <= t.i2 < 8
        && OnOneFace(CubeVertices[t.i0], CubeVertices[t.i1], CubeVertices[t.i2])
    {
      assert k in {0, 1, 2, 3, 4, 5, 6, 7, 8, 9, 10, 11};
    }
  }

  predicate Uses(t: Triangle, v: int) {
    v == t.i0 || v == t.i1 || v == t.i2
  }

  /** Vertex v belongs to some triangle of ts. */
  ghost predicate Used(ts: seq<Triangle>, v: int) {
    exists k | 0 <= k < |ts| :: Uses(ts[k], v)
  }

  /** Every corner of the cube belongs to some triangle. */
  lemma CubeUsesEveryCorner()
    ensures forall v | 0 <= v < 8 :: Used(CubeTriangles, v)
  {
    forall v | 0 <= v < 8
      ensures Used(CubeTriangles, v)
    {
      if v <= 2 {
        assert Uses(CubeTriangles[0], v);
      } else if v == 3 {
        assert Uses(CubeTriangles[1], v);
      } else if v <= 6 {
        assert Uses(CubeTriangles[2], v);
      } else {
        assert Uses(CubeTriangles[3], v);
      }
    }
  }

  /** The eight corners are pairwise distinct. */
  lemma CubeCornersDistinct()
    ensures forall i, j | 0 <= i < j < 8 :: CubeVertices[i] != CubeVertices[j]
  {
    forall i, j | 0 <= i < j < 8
      ensures CubeVertices[i] != CubeVertices[j]
    {
      assert i in {0, 1, 2, 3, 4, 5, 6} && j in {1, 2, 3, 4, 5, 6, 7};
    }
  }

  // ---- std::stoi ----

  /** The characters std::isspace accepts in the "C" locale. */
  predicate IsSpace(c: char) {
    c == ' ' || c == '\t' || c == '\n' || c == '\U{000B}' || c == '\U{000C}' || c == '\r'
  }

  predicate IsDigit(c: char) {
    '0' <= c <= '9'
  }

  predicate AllDigits(s: string) {
    forall k :: 0 <= k < |s| ==> IsDigit(s[k])
  }

  /** The string after its leading white space. */
  function DropSpaces(s: string): (r: string)
    ensures |r| <= |s|
    ensures r == [] || !IsSpace(r[0])
    ensures s != [] && !IsSpace(s[0]) ==> r == s
  {
    if s != [] && IsSpace(s[0]) then DropSpaces(s[1..]) else s
  }

  /** The longest prefix made of decimal digits. */
  function DigitPrefix(s: string): (d: string)
    ensures |d| <= |s| && d == s[..|d|]
    ensures AllDigits(d)
    ensures |d| == |s| || !IsDigit(s[|d|])
  {
    if s == [] || !IsDigit(s[0]) then [] else [s[0]] + DigitPrefix(s[1..])
  }

  /** The value of a string of decimal digits, most significant first. */
  function DigitsValue(d: string): (n: nat)
    requires AllDigits(d)
  {
    if d == [] then 0 else DigitsValue(d[..|d| - 1]) * 10 + (d[|d| - 1] as int - '0' as int)
  }

  const IntMin: int := -0x8000_0000
  const IntMax: int := 0x7FFF_FFFF

  /** An optional sign: whether it is '-', and the text after it. */
  function SignOf(t: string): (p: (bool, string))
    ensures |p.1| <= |t|
  {
    if t != [] && t[0] == '-' then (true, t[1..])
    else if t != [] && t[0] == '+' then (false, t[1..])
    else (false, t)
  }

  /** std::stoi(s): skip white space, read an optional sign and the longest
      run of digits; invalid_argument when there is no digit, out_of_range
      when the value does not fit an int. The rest of the string is ignored. */
  function Stoi(s: string): (r: Result<int>)
    ensures r.Ok? ==> IntMin <= r.value <= IntMax
    ensures r.Err? ==> r.error == InvalidArgument || r.error == OutOfRange
  {
    var (negative, body) := SignOf(DropSpaces(s));
    var digits := DigitPrefix(body);
    if digits == [] then Err(InvalidArgument)
    else
      var magnitude: int := DigitsValue(digits);
      var n := if negative then -magnitude else magnitude;
      if n < IntMin || n > IntMax then Err(OutOfRange) else Ok(n)
  }

  /** Text without a digit after its white space and sign is rejected. */
  lemma StoiNeedsDigit(s: string)
    requires var t := SignOf(DropSpaces(s)).1; t == [] || !IsDigit(t[0])
    ensures Stoi(s) == Err(InvalidArgument)
  {
  }

  // ---- decimal text, the partner of Stoi ----

  function DigitChar(d: int): (c: char)
    requires 0 <= d < 10
    ensures IsDigit(c) && c as int - '0' as int == d
  {
    ('0' as int + d) as char
  }

  /** The decimal digits of n, most significant first. */
  function Digits(n: nat): (d: string)
    ensures d != [] && AllDigits(d)
    decreases n
  {
    if n < 10 then [DigitChar(n)] else Digits(n / 10) + [DigitChar(n % 10)]
  }

  /** n written in decimal, with a leading '-' when negative. */
  function Decimal(n: int): (s: string)
    ensures s != [] && !IsSpace(s[0])
    ensures '/' !in s
  {
    if n < 0 then "-" + Digits(-n) else Digits(n)
  }

  lemma {:induction false} DigitsValueOfDigits(n: nat)
    ensures DigitsValue(Digits(n)) == n
    decreases n
  {
    if n >= 10 {
      DigitsValueOfDigits(n / 10);
      var d := Digits(n);
      assert d[..|d| - 1] == Digits(n / 10);
    }
  }

  lemma {:induction false} DigitPrefixOf(d: string, rest: string)
    requires AllDigits(d)
    requires rest == [] || !IsDigit(rest[0])
    ensures DigitPrefix(d + rest) == d
    decreases |d|
  {
    if d == [] {
      assert d + rest == rest;
    } else {
      assert (d + rest)[1..] == d[1..] + rest;
      DigitPrefixOf(d[1..], rest);
    }
  }

  /** The magnitude of n. */
  function Abs(n: int): (m: nat)
    ensures m == n || m == -n
  {
    if n < 0 then -n else n
  }

  /** Decimal text starts with its sign, then the digits of the magnitude. */
  lemma SignOfDecimal(n: int, rest: string)
    ensures SignOf(Decimal(n) + rest) == (n < 0, Digits(Abs(n)) + rest)
  {
    var s := Decimal(n) + rest;
    if n < 0 {
      assert s == "-" + (Digits(Abs(n)) + rest);
    } else {
      assert s == Digits(Abs(n)) + rest;
      assert IsDigit(s[0]);
    }
  }

  /** Stoi reads back a decimal int32 followed by anything that does not
      start with a digit: the text after the number is ignored. */
  lemma StoiDecimal(n: int, rest: string)
    requires IntMin <= n <= IntMax
    requires rest == [] || !IsDigit(rest[0])
    ensures Stoi(Decimal(n) + rest) == Ok(n)
  {
    var s := Decimal(n) + rest;
    assert DropSpaces(s) == s;
    SignOfDecimal(n, rest);
    DigitPrefixOf(Digits(Abs(n)), rest);
    DigitsValueOfDigits(Abs(n));
  }

  lemma StoiRoundTrip(n: int)
    requires IntMin <= n <= IntMax
    ensures Stoi(Decimal(n)) == Ok(n)
  {
    StoiDecimal(n, []);
    assert Decimal(n) + [] == Decimal(n);
  }

  // ---- face tokens ----

  /** std::string::find(c): the first position of c, or None for npos. */
  function Find(s: string, c: char): (i: Option<nat>)
    ensures i.None? <==> c !in s
    ensures i.Some? ==> i.value < |s| && s[i.value] == c && c !in s[..i.value]
  {
    if s == [] then None
    else if s[0] == c then Some(0)
    else
      match Find(s[1..], c)
      case None => None
      case Some(k) =>
        assert s[..k + 1] == [s[0]] + s[1..][..k];
        Some(k + 1)
  }

  /** Lines 86-104: a face token splits at its first '/' into the vertex
      text and the texture text; without '/' the texture text is "-1". */
  function SplitFace(token: string): (p: (string, string))
    ensures '/' !in token ==> p == (token, "-1")
    ensures '/' in token ==> token == p.0 + "/" + p.1 && '/' !in p.0
  {
    match Find(token, '/')
    case None => (token, "-1")
    case Some(k) =>
      assert token == token[..k] + "/" + token[k + 1..];
      (token[..k], token[k + 1..])
  }

  /** Lines 106-107: the six stoi calls, left to right (a braced list is
      evaluated in order), each index made 0-based. */
  function FaceTriangle(a: string, b: string, c: string): (r: Result<Triangle>) {
    var (af, av) := SplitFace(a);
    var (bf, bv) := SplitFace(b);
    var (cf, cv) := SplitFace(c);
    var i0 :- Stoi(af);
    var i1 :- Stoi(bf);
    var i2 :- Stoi(cf);
    var t0 :- Stoi(av);
    var t1 :- Stoi(bv);
    var t2 :- Stoi(cv);
    Ok(Triangle(i0 - 1, i1 - 1, i2 - 1, t0 - 1, t1 - 1, t2 - 1))
  }

  /** A token splits at its first '/'. */
  lemma SplitAt(pre: string, post: string)
    requires '/' !in pre
    ensures SplitFace(pre + "/" + post) == (pre, post)
  {
    var token := pre + "/" + post;
    assert token[|pre|] == '/';
    var k := Find(token, '/').value;
    assert forall j :: 0 <= j < |pre| ==> token[j] == pre[j];
    assert k >= |pre|;
    assert token[|pre|] in token[..|pre| + 1];
    assert k == |pre|;
    assert token[..k] == pre;
  }

  /** A token "a/t" gives vertex index a - 1 and texture index t - 1; a
      third part "/n" (a normal index) is ignored. */
  lemma FaceTokenParts(a: int, t: int, normal: string)
    requires IntMin <= a <= IntMax && IntMin <= t <= IntMax
    requires normal == [] || normal[0] == '/'
    ensures var p := SplitFace(Decimal(a) + "/" + (Decimal(t) + normal));
      Stoi(p.0) == Ok(a) && Stoi(p.1) == Ok(t)
  {
    SplitAt(Decimal(a), Decimal(t) + normal);
    StoiRoundTrip(a);
    StoiDecimal(t, normal);
  }

  /** A face of plain indices "f a b c" gets texture indices -2, which is
      stoi("-1") - 1. */
  lemma PlainFace(a: int, b: int, c: int)
    requires IntMin <= a <= IntMax && IntMin <= b <= IntMax && IntMin <= c <= IntMax
    ensures FaceTriangle(Decimal(a), Decimal(b), Decimal(c)) == Ok(Triangle(a - 1, b - 1, c - 1, -2, -2, -2))
  {
    StoiRoundTrip(a);
    StoiRoundTrip(b);
    StoiRoundTrip(c);
    StoiRoundTrip(-1);
    assert Decimal(-1) == "-1";
  }

  /** The common "v//vn" form has an empty texture part before the normal,
      so its texture text "/vn" holds no leading digit and stoi throws. */
  lemma NormalOnlyFaceFails(a: int, n: int, b: string, c: string)
    requires IntMin <= a <= IntMax && IntMin <= n <= IntMax
    ensures FaceTriangle(Decimal(a) + "/" + ("/" + Decimal(n)), b, c).Err?
  {
    SplitAt(Decimal(a), "/" + Decimal(n));
    StoiNeedsDigit("/" + Decimal(n));
  }

  // ---- loadFromObj ----

  /** The word at the front of s (s starts with a non-space). */
  function WordPrefix(s: string): (w: string)
    ensures |w| <= |s| && w == s[..|w|]
    ensures forall k :: 0 <= k < |w| ==> !IsSpace(w[k])
    ensures |w| == |s| || IsSpace(s[|w|])
  {
    if s == [] || IsSpace(s[0]) then [] else [s[0]] + WordPrefix(s[1..])
  }

  /** The white-space separated words of a line, as `iss >> word` reads
      them one after another. */
  function Words(s: string): (ws: seq<string>)
    ensures forall i :: 0 <= i < |ws| ==> ws[i] != [] && forall k :: 0 <= k < |ws[i]| ==> !IsSpace(ws[i][k])
    decreases |s|
  {
    var t := DropSpaces(s);
    if t == [] then []
    else
      var w := WordPrefix(t);
      if w == [] then [] else [w] + Words(t[|w|..])
  }

  /** `iss >> type >> a >> b >> c`: a word that is not there leaves its
      string empty. */
  function Field(ws: seq<string>, i: nat): string {
    if i < |ws| then ws[i] else ""
  }

  /** The first word of a line: empty, or free of white space. */
  function Kind(line: string): (kind: string)
    ensures forall k :: 0 <= k < |kind| ==> !IsSpace(kind[k])
  {
    Field(Words(line), 0)
  }

  /** `double scale = 1` of loadFromObj. */
  const ObjScale: real := 1.0

  /** n extends m by dv vertices, dt triangles and dm textureMap entries,
      keeping everything m had. */
  ghost predicate Extends(m: Mesh, n: Mesh, dv: nat, dt: nat, dm: nat) {
    && |n.vertices| == |m.vertices| + dv && n.vertices[..|m.vertices|] == m.vertices
    && |n.triangles| == |m.triangles| + dt && n.triangles[..|m.triangles|] == m.triangles
    && |n.textureMap| == |m.textureMap| + dm && n.textureMap[..|m.textureMap|] == m.textureMap
  }

  /** One pass of the getline loop (lines 68-108). An exception from stof
      or stoi ends the load with that error. */
  function ApplyLine(m: Mesh, line: string, stof: string -> Result<real>): (r: Result<Mesh>)
    ensures Kind(line) == "v" && r.Ok? ==> Extends(m, r.value, 1, 0, 0)
    ensures Kind(line) == "vt" && r.Ok? ==> Extends(m, r.value, 0, 0, 1)
    ensures Kind(line) == "f" && r.Ok? ==> Extends(m, r.value, 0, 1, 0)
    ensures Kind(line) != "v" && Kind(line) != "vt" && Kind(line) != "f" ==> r == Ok(m)
  {
    var ws := Words(line);
    var kind, a, b, c := Field(ws, 0), Field(ws, 1), Field(ws, 2), Field(ws, 3);
    if kind == "v" then
      var x :- stof(a);
      var y :- stof(b);
      var z :- stof(c);
      Ok(m.(vertices := m.vertices + [Vec3(x * ObjScale, y * ObjScale, z * ObjScale)]))
    else if kind == "vt" then
      var x :- stof(a);
      var y :- stof(b);
      var z :- stof(c);
      Ok(m.(textureMap := m.textureMap + [Vec3(x, y, z)]))
    else if kind == "f" then
      var t :- FaceTriangle(a, b, c);
      Ok(m.(triangles := m.triangles + [t]))
    else Ok(m)
  }

  /** The remaining lines applied in order; the first error stops the load. */
  function LoadLines(m: Mesh, lines: seq<string>, stof: string -> Result<real>): Result<Mesh>
    decreases |lines|
  {
    if lines == [] then Ok(m)
    else
      var m' :- ApplyLine(m, lines[0], stof);
      LoadLines(m', lines[1..], stof)
  }

  /** loadFromObj(filename): an empty mesh when the file cannot be opened. */
  function LoadFromObj(file: Option<seq<string>>, stof: string -> Result<real>): Result<Mesh> {
    match file
    case None => Ok(EmptyMesh)
    case Some(lines) => LoadLines(EmptyMesh, lines, stof)
  }

  /** The number of lines whose first word is `kind`. */
  function CountKind(lines: seq<string>, kind: string): (n: nat)
    ensures n <= |lines|
  {
    if lines == [] then 0 else (if Kind(lines[0]) == kind then 1 else 0) + CountKind(lines[1..], kind)
  }

  /** A successful load holds one vertex per "v" line, one textureMap entry
      per "vt" line and one triangle per "f" line, after what it started with. */
  lemma {:induction false} LoadLinesCounts(m: Mesh, lines: seq<string>, stof: string -> Result<real>)
    ensures LoadLines(m, lines, stof).Ok? ==>
      Extends(m, LoadLines(m, lines, stof).value, CountKind(lines, "v"), CountKind(lines, "f"), CountKind(lines, "vt"))
    decreases |lines|
  {
    if lines != [] {
      var r := ApplyLine(m, lines[0], stof);
      if r.Ok? {
        LoadLinesCounts(r.value, lines[1..], stof);
      }
    }
  }

  /** The mesh read from a file: as many vertices, textureMap entries and
      triangles as the file has v, vt and f lines. */
  lemma LoadFromObjCounts(lines: seq<string>, stof: string -> Result<real>)
    ensures var r := LoadFromObj(Some(lines), stof);
      r.Ok? ==>
        |r.value.vertices| == CountKind(lines, "v")
        && |r.value.textureMap| == CountKind(lines, "vt")
        && |r.value.triangles| == CountKind(lines, "f")
  {
    LoadLinesCounts(EmptyMesh, lines, stof);
  }

  /** The getline loop, pushing onto the mesh's three vectors. */
  method LoadObj(file: Option<seq<string>>, stof: string -> Result<real>) returns (r: Result<Mesh>)
    ensures r == LoadFromObj(file, stof)
  {
    if file.None? {
      return Ok(EmptyMesh);
    }
    var lines := file.value;
    var mesh := EmptyMesh;
    var i := 0;
    while i < |lines|
      invariant 0 <= i <= |lines|
      invariant LoadLines(mesh, lines[i..], stof) == LoadFromObj(file, stof)
    {
      assert lines[i..][1..] == lines[i + 1..];
      var step := ApplyLine(mesh, lines[i], stof);
      if step.Err? {
        return Err(step.error);
      }
      mesh := step.value;
      i := i + 1;
    }
    r := Ok(mesh);
  }
}
