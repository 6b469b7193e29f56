/** The Vec3 and Mat4 to_json/from_json pairs of
    engine/include/engine/serialization/serializer.hpp, over a model of the
    JSON values they build and read. */
module Serialization {
  import opened Wrappers
  import opened Vectors
  import opened Matrices

  datatype Json =
    | JNull
    | JBool(b: bool)
    | JNumber(n: real)
    | JString(s: string)
    | JArray(items: seq<Json>)
    | JObject(fields: map<string, Json>)

  /** json::at(key): a type error on a non-object, out_of_range on a missing key. */
  function AtKey(j: Json, key: string): (r: Result<Json>)
    ensures r.Ok? <==> j.JObject? && key in j.fields
  {
    if !j.JObject? then Err(TypeError)
    else if key !in j.fields then Err(OutOfRange)
    else Ok(j.fields[key])
  }

  /** json::at(index): a type error on a non-array, out_of_range past the end. */
  function AtIndex(j: Json, i: nat): (r: Result<Json>)
    ensures r.Ok? <==> j.JArray? && i < |j.items|
  {
    if !j.JArray? then Err(TypeError)
    else if i >= |j.items| then Err(OutOfRange)
    else Ok(j.items[i])
  }

  /** The values JSON's arithmetic conversion accepts: numbers and booleans. */
  predicate Arithmetic(j: Json) {
    j.JNumber? || j.JBool?
  }

  /** get<float>() / get_to(float&): a number is read as it is, a boolean
      converts to 1 or 0, and null, strings, arrays and objects are a type
      error. */
  function GetNumber(j: Json): (r: Result<real>)
    ensures r.Ok? <==> Arithmetic(j)
    ensures r.Err? ==> r.error == TypeError
    ensures j.JNumber? ==> r == Ok(j.n)
    ensures j.JBool? ==> r.Ok? && (r.value == 1.0 <==> j.b) && (r.value == 0.0 <==> !j.b)
  {
    match j
    case JNumber(n) => Ok(n)
    case JBool(b) => Ok(if b then 1.0 else 0.0)
    case _ => Err(TypeError)
  }

  // ---- Vec3 ----

  /** to_json(Vec3): the object {"x": x, "y": y, "z": z}. */
  function Vec3ToJson(v: Vec3): (j: Json)
    ensures j.JObject? && j.fields.Keys == {"x", "y", "z"}
  {
    JObject(map["x" := JNumber(v.x), "y" := JNumber(v.y), "z" := JNumber(v.z)])
  }

  /** from_json(Vec3): reads x, then y, then z with at(); the first failure
      is the exception that escapes. */
  function Vec3FromJson(j: Json): (r: Result<Vec3>) {
    var jx :- AtKey(j, "x");
    var x :- GetNumber(jx);
    var jy :- AtKey(j, "y");
    var y :- GetNumber(jy);
    var jz :- AtKey(j, "z");
    var z :- GetNumber(jz);
    Ok(Vec3(x, y, z))
  }

  lemma Vec3RoundTrip(v: Vec3)
    ensures Vec3FromJson(Vec3ToJson(v)) == Ok(v)
  {
  }

  /** Decoding succeeds exactly on objects whose x, y and z are numbers or
      booleans; in particular it fails whenever one of the keys is missing. */
  lemma Vec3FromJsonSucceeds(j: Json)
    ensures Vec3FromJson(j).Ok? <==>
      j.JObject? && "x" in j.fields && "y" in j.fields && "z" in j.fields
      && Arithmetic(j.fields["x"]) && Arithmetic(j.fields["y"]) && Arithmetic(j.fields["z"])
  {
  }

  // ---- Mat4 ----

  /** to_json(Mat4), as a specification: an array of 4 arrays of 4 numbers
      with j[i][k] = m[i][k]. The source names the outer index `row`, but
      m is stored m[column][row], so the outer arrays are the columns. */
  function Mat4ToJson(m: Mat4): (j: Json) {
    JArray(seq(4, c requires 0 <= c < 4 => JArray(seq(4, r requires 0 <= r < 4 => JNumber(m[c][r])))))
  }

  lemma Mat4ToJsonShape(m: Mat4)
    ensures Mat4ToJson(m).JArray? && |Mat4ToJson(m).items| == 4
    ensures forall i :: 0 <= i < 4 ==>
      Mat4ToJson(m).items[i].JArray? && |Mat4ToJson(m).items[i].items| == 4
    ensures forall i, k :: 0 <= i < 4 && 0 <= k < 4 ==>
      Mat4ToJson(m).items[i].items[k] == JNumber(Column(m, i)[k])
  {
  }

  /** The nested row/col loops of to_json(Mat4), pushing each entry onto an
      inner array and each inner array onto the outer one. */
  method WriteMat4(m: Mat4) returns (j: Json)
    ensures j == Mat4ToJson(m)
  {
    var outer: seq<Json> := [];
    for row := 0 to 4
      invariant |outer| == row
      invariant forall i :: 0 <= i < row ==> outer[i] == Mat4ToJson(m).items[i]
    {
      var inner: seq<Json> := [];
      for col := 0 to 4
        invariant |inner| == col
        invariant forall k :: 0 <= k < col ==> inner[k] == JNumber(m[row][k])
      {
        inner := inner + [JNumber(m[row][col])];
      }
      outer := outer + [JArray(inner)];
    }
    j := JArray(outer);
  }

  /** One step of from_json(Mat4): `j.at(row).at(col).get<float>()`. */
  function ReadEntry(j: Json, row: nat, col: nat): (r: Result<real>)
    ensures r.Ok? ==> j.JArray? && row < |j.items| && j.items[row].JArray? && col < |j.items[row].items|
  {
    var jr :- AtIndex(j, row);
    var jc :- AtIndex(jr, col);
    GetNumber(jc)
  }

  /** An entry is read exactly when both indices are in range and the value
      there is a number or a boolean. */
  lemma ReadEntryOk(j: Json, row: nat, col: nat)
    ensures ReadEntry(j, row, col).Ok? <==>
      (j.JArray? && row < |j.items| && j.items[row].JArray? && col < |j.items[row].items|
       && Arithmetic(j.items[row].items[col]))
  {
  }

  /** The entries from position k = 4*row + col onwards, in loop order,
      written into `acc`; the first failing read is the result. */
  function ReadFrom(j: Json, k: nat, acc: Mat4): (r: Result<Mat4>)
    requires k <= 16
    decreases 16 - k
  {
    if k == 16 then Ok(acc)
    else
      var x :- ReadEntry(j, k / 4, k % 4);
      ReadFrom(j, k + 1, SetEntry(acc, k / 4, k % 4, x))
  }

  /** from_json(Mat4) into a default-constructed matrix. */
  function Mat4FromJson(j: Json): (r: Result<Mat4>) {
    ReadFrom(j, 0, Identity())
  }

  /** Loop position k = 4 * row + col gives back row and col. */
  lemma PositionSplit(row: int, col: int)
    requires 0 <= row < 4 && 0 <= col < 4
    ensures (4 * row + col) / 4 == row && (4 * row + col) % 4 == col
  {
  }

  /** The inner loop of from_json(Mat4): the four entries of one outer
      array, in order; the first failing read is the result. */
  method ReadRow(j: Json, row: nat, m: Mat4) returns (r: Result<Mat4>)
    requires row < 4
    ensures r.Ok? ==> ReadFrom(j, 4 * row, m) == ReadFrom(j, 4 * row + 4, r.value)
    ensures r.Err? ==> ReadFrom(j, 4 * row, m) == Err(r.error)
  {
    var acc := m;
    for col := 0 to 4
      invariant ReadFrom(j, 4 * row, m) == ReadFrom(j, 4 * row + col, acc)
    {
      PositionSplit(row, col);
      var x := ReadEntry(j, row, col);
      if x.Err? {
        return Err(x.error);
      }
      acc := SetEntry(acc, row, col, x.value);
    }
    r := Ok(acc);
  }

  /** The nested loops of from_json(Mat4). */
  method ReadMat4(j: Json) returns (r: Result<Mat4>)
    ensures r == Mat4FromJson(j)
  {
    var m := Identity();
    for row := 0 to 4
      invariant ReadFrom(j, 4 * row, m) == Mat4FromJson(j)
    {
      var step := ReadRow(j, row, m);
      assert 4 * (row + 1) == 4 * row + 4;
      if step.Err? {
        return Err(step.error);
      }
      m := step.value;
    }
    r := Ok(m);
  }

  /** Reading the encoding of m from position k on finishes with m, provided
      the entries before k already agree with m. */
  lemma {:induction false} ReadFromEncoding(m: Mat4, k: nat, acc: Mat4)
    requires k <= 16
    requires forall c, r :: 0 <= c < 4 && 0 <= r < 4 && 4 * c + r < k ==> acc[c][r] == m[c][r]
    ensures ReadFrom(Mat4ToJson(m), k, acc) == Ok(m)
    decreases 16 - k
  {
    if k == 16 {
      forall c | 0 <= c < 4
        ensures acc[c] == m[c]
      {
        assert forall r :: 0 <= r < 4 ==> acc[c][r] == m[c][r];
      }
      assert acc == m;
    } else {
      var c, r := k / 4, k % 4;
      assert ReadEntry(Mat4ToJson(m), c, r) == Ok(m[c][r]);
      ReadFromEncoding(m, k + 1, SetEntry(acc, c, r, m[c][r]));
    }
  }

  lemma Mat4RoundTrip(m: Mat4)
    ensures Mat4FromJson(Mat4ToJson(m)) == Ok(m)
  {
    ReadFromEncoding(m, 0, Identity());
  }

  /** Reading from position k on succeeds only if every later entry exists. */
  lemma {:induction false} ReadFromNeedsEntries(j: Json, k: nat, acc: Mat4)
    requires k <= 16
    ensures ReadFrom(j, k, acc).Ok? ==>
      forall p :: k <= p < 16 ==> ReadEntry(j, p / 4, p % 4).Ok?
    decreases 16 - k
  {
    if k < 16 {
      var x := ReadEntry(j, k / 4, k % 4);
      if x.Ok? {
        ReadFromNeedsEntries(j, k + 1, SetEntry(acc, k / 4, k % 4, x.value));
      }
    }
  }

  /** The shape from_json(Mat4) accepts: at least 4 arrays of at least 4
      entries, the first 4 of each a number or a boolean. */
  ghost predicate Mat4Shaped(j: Json) {
    && j.JArray? && |j.items| >= 4
    && (forall i :: 0 <= i < 4 ==> j.items[i].JArray? && |j.items[i].items| >= 4)
    && (forall i, k :: 0 <= i < 4 && 0 <= k < 4 ==> Arithmetic(j.items[i].items[k]))
  }

  /** Every one of the 16 reads of from_json(Mat4) succeeds. */
  ghost predicate AllEntries(j: Json) {
    forall p :: 0 <= p < 16 ==> ReadEntry(j, p / 4, p % 4).Ok?
  }

  /** One read of that loop, at row i and column k. */
  lemma EntryShape(j: Json, i: int, k: int)
    requires AllEntries(j) && 0 <= i < 4 && 0 <= k < 4
    ensures j.JArray? && |j.items| >= 4 && j.items[i].JArray? && k < |j.items[i].items|
    ensures Arithmetic(j.items[i].items[k])
  {
    var p := 4 * i + k;
    PositionSplit(i, k);
    assert ReadEntry(j, p / 4, p % 4).Ok?;
    assert ReadEntry(j, 15 / 4, 15 % 4).Ok?;
    ReadEntryOk(j, i, k);
  }

  /** from_json(Mat4) fails on anything but that shape: an outer or inner
      array shorter than 4, or an entry of another type, throws. */
  lemma Mat4FromJsonNeedsShape(j: Json)
    ensures Mat4FromJson(j).Ok? ==> Mat4Shaped(j)
  {
    ReadFromNeedsEntries(j, 0, Identity());
    if Mat4FromJson(j).Ok? {
      assert AllEntries(j);
      EntryShape(j, 0, 0);
      forall i | 0 <= i < 4
        ensures j.items[i].JArray? && |j.items[i].items| >= 4
      {
        EntryShape(j, i, 3);
      }
      forall i, k | 0 <= i < 4 && 0 <= k < 4
        ensures Arithmetic(j.items[i].items[k])
      {
        EntryShape(j, i, k);
      }
    }
  }

  /** Reading from position k on succeeds when every later entry is read. */
  lemma {:induction false} ReadFromHasEntries(j: Json, k: nat, acc: Mat4)
    requires k <= 16
    requires forall p :: k <= p < 16 ==> ReadEntry(j, p / 4, p % 4).Ok?
    ensures ReadFrom(j, k, acc).Ok?
    decreases 16 - k
  {
    if k < 16 {
      var x := ReadEntry(j, k / 4, k % 4);
      ReadFromHasEntries(j, k + 1, SetEntry(acc, k / 4, k % 4, x.value));
    }
  }

  /** ... and succeeds on every value of that shape. */
  lemma Mat4FromJsonAcceptsShape(j: Json)
    ensures Mat4Shaped(j) ==> Mat4FromJson(j).Ok?
  {
    if Mat4Shaped(j) {
      forall p | 0 <= p < 16
        ensures ReadEntry(j, p / 4, p % 4).Ok?
      {
        ReadEntryOk(j, p / 4, p % 4);
      }
      ReadFromHasEntries(j, 0, Identity());
    }
  }
}
