/** The pose exchange of the remoting API: a stereo pose (four 4x4 matrices and two
    vectors) is written as a JSON object of six arrays and read back. JSON values are a
    datatype with the `Json::Value` behaviours the code relies on; a float element is an
    opaque real, and the text form (`toStyledString`, `Json::Reader`) is not part of this
    model. */
module RemotingApi {
  import opened Common

  datatype Json =
    | Null
    | Bool(b: bool)
    | Num(x: real)
    | Str(s: string)
    | Arr(items: seq<Json>)
    | Obj(members: map<string, Json>)

  /** `json[i] = v` on a null or array value: a null value becomes an array, which grows
      with nulls to hold index `i`. */
  function SetIndex(json: Json, i: nat, v: Json): (r: Json)
    requires json.Null? || json.Arr?
    ensures r.Arr? && |r.items| == Max(i + 1, if json.Arr? then |json.items| else 0)
    ensures r.items[i] == v
    ensures json.Arr? ==> forall k :: 0 <= k < |json.items| && k != i ==> r.items[k] == json.items[k]
  {
    var items := if json.Arr? then json.items else [];
    var grown := if i < |items| then items else items + seq(i + 1 - |items|, _ => Null);
    Arr(grown[i := v])
  }

  /** `json[i]` read from a null or array value: a missing index reads as null. */
  function Index(json: Json, i: nat): (r: Json)
    requires json.Null? || json.Arr?
    ensures json.Arr? && i < |json.items| ==> r == json.items[i]
  {
    if json.Arr? && i < |json.items| then json.items[i] else Null
  }

  /** `asFloat`: a number gives its value, null gives zero, a boolean one or zero; a
      string, array or object is refused. */
  function AsFloat(json: Json): (r: Option<real>)
    ensures r.Some? <==> json.Num? || json.Null? || json.Bool?
    ensures json.Num? ==> r == Some(json.x)
    ensures json.Null? ==> r == Some(0.0)
    ensures json.Bool? ==> r == Some(if json.b then 1.0 else 0.0)
  {
    match json
    case Num(x) => Some(x)
    case Null => Some(0.0)
    case Bool(b) => Some(if b then 1.0 else 0.0)
    case _ => None
  }

  /** The values written at indices `0 .. |values| - 1`, one assignment after another,
      starting from a null value. */
  function SerializeValues(values: seq<real>): (r: Json)
    ensures values != [] ==> r.Arr?
    decreases |values|
  {
    if values == [] then Null
    else SetIndex(SerializeValues(values[..|values| - 1]), |values| - 1, Num(values[|values| - 1]))
  }

  /** Writing the values in index order gives exactly the array of those numbers. */
  lemma {:induction false} SerializeValuesIsArray(values: seq<real>)
    requires values != []
    ensures SerializeValues(values) == Arr(seq(|values|, k requires 0 <= k < |values| => Num(values[k])))
    decreases |values|
  {
    var n := |values| - 1;
    if n > 0 {
      SerializeValuesIsArray(values[..n]);
    }
  }

  /** The values read back at indices `0 .. count - 1`. */
  function DeserializeValues(json: Json, count: nat): (r: Option<seq<real>>)
    requires json.Null? || json.Arr?
    ensures r.Some? ==> |r.value| == count
    decreases count
  {
    if count == 0 then Some([])
    else
      var front := DeserializeValues(json, count - 1);
      var last := AsFloat(Index(json, count - 1));
      if front.Some? && last.Some? then Some(front.value + [last.value]) else None
  }

  /** Reading back an array of numbers gives its values. */
  lemma {:induction false} DeserializeValuesOfArray(values: seq<real>, count: nat)
    requires count <= |values|
    ensures DeserializeValues(Arr(seq(|values|, k requires 0 <= k < |values| => Num(values[k]))), count)
         == Some(values[..count])
    decreases count
  {
    if count > 0 {
      DeserializeValuesOfArray(values, count - 1);
      assert values[..count] == values[..count - 1] + [values[count - 1]];
    }
  }

  /** `Matrix4x4`. */
  datatype Matrix4x4 = Matrix4x4(
    m11: real, m12: real, m13: real, m14: real,
    m21: real, m22: real, m23: real, m24: real,
    m31: real, m32: real, m33: real, m34: real,
    m41: real, m42: real, m43: real, m44: real)

  /** `Vector3`. */
  datatype Vector3 = Vector3(x: real, y: real, z: real)

  /** `XrStereoPose`. */
  datatype StereoPose = StereoPose(viewLeft: Matrix4x4, viewRight: Matrix4x4,
                                   projLeft: Matrix4x4, projRight: Matrix4x4,
                                   cameraPosition: Vector3, cameraOrientation: Vector3)

  /** The matrix elements in the index order of the JSON array: row by row. */
  function MatrixElements(m: Matrix4x4): (r: seq<real>)
    ensures |r| == 16
  {
    [m.m11, m.m12, m.m13, m.m14, m.m21, m.m22, m.m23, m.m24,
     m.m31, m.m32, m.m33, m.m34, m.m41, m.m42, m.m43, m.m44]
  }

  function MatrixOfElements(e: seq<real>): (r: Matrix4x4)
    requires |e| == 16
    ensures MatrixElements(r) == e
  {
    Matrix4x4(e[0], e[1], e[2], e[3], e[4], e[5], e[6], e[7],
              e[8], e[9], e[10], e[11], e[12], e[13], e[14], e[15])
  }

  function VectorElements(v: Vector3): (r: seq<real>)
    ensures |r| == 3
  {
    [v.x, v.y, v.z]
  }

  /** `SerializeMatrixAsJson`: element `_rc` at index `4 * (r - 1) + (c - 1)`. */
  function SerializeMatrix(m: Matrix4x4): (r: Json)
    ensures r.Arr?
  {
    SerializeValues(MatrixElements(m))
  }

  /** `DeserializeMatrixFromJson`. */
  function DeserializeMatrix(json: Json): (r: Option<Matrix4x4>)
    requires json.Null? || json.Arr?
    ensures r.Some? <==> DeserializeValues(json, 16).Some?
    ensures r.Some? ==> MatrixElements(r.value) == DeserializeValues(json, 16).value
  {
    var e := DeserializeValues(json, 16);
    if e.Some? then Some(MatrixOfElements(e.value)) else None
  }

  /** `SerializeVectorAsJson`: x, y, z at indices 0, 1, 2. */
  function SerializeVector(v: Vector3): (r: Json)
    ensures r.Arr?
  {
    SerializeValues(VectorElements(v))
  }

  /** `DeserializeVectorFromJson`. */
  function DeserializeVector(json: Json): (r: Option<Vector3>)
    requires json.Null? || json.Arr?
    ensures r.Some? <==> DeserializeValues(json, 3).Some?
    ensures r.Some? ==> VectorElements(r.value) == DeserializeValues(json, 3).value
  {
    var e := DeserializeValues(json, 3);
    if e.Some? then Some(Vector3(e.value[0], e.value[1], e.value[2])) else None
  }

  /** The matrix is written row by row: `_11 .. _14` at 0..3, up to `_41 .. _44` at 12..15. */
  lemma SerializeMatrixLayout(m: Matrix4x4)
    ensures SerializeMatrix(m) == Arr([Num(m.m11), Num(m.m12), Num(m.m13), Num(m.m14),
                                       Num(m.m21), Num(m.m22), Num(m.m23), Num(m.m24),
                                       Num(m.m31), Num(m.m32), Num(m.m33), Num(m.m34),
                                       Num(m.m41), Num(m.m42), Num(m.m43), Num(m.m44)])
  {
    SerializeValuesIsArray(MatrixElements(m));
  }

  /** Reading a written matrix gives the matrix back. */
  lemma MatrixRoundTrip(m: Matrix4x4)
    ensures DeserializeMatrix(SerializeMatrix(m)) == Some(m)
  {
    var e := MatrixElements(m);
    SerializeValuesIsArray(e);
    DeserializeValuesOfArray(e, 16);
    assert e[..16] == e;
  }

  /** Reading a written vector gives the vector back. */
  lemma VectorRoundTrip(v: Vector3)
    ensures DeserializeVector(SerializeVector(v)) == Some(v)
  {
    var e := VectorElements(v);
    SerializeValuesIsArray(e);
    DeserializeValuesOfArray(e, 3);
    assert e[..3] == e;
  }

  const KeyViewLeft: string := "viewLeft"
  const KeyViewRight: string := "viewRight"
  const KeyProjLeft: string := "projLeft"
  const KeyProjRight: string := "projRight"
  const KeyCamPos: string := "camPos"
  const KeyCamRot: string := "camRot"

  /** `SerializePoseAsJson`, before the text form: an object of the six arrays. */
  function SerializePose(pose: StereoPose): (r: Json)
    ensures r.Obj? && r.members.Keys == {KeyViewLeft, KeyViewRight, KeyProjLeft, KeyProjRight, KeyCamPos, KeyCamRot}
    ensures forall k :: k in r.members ==> r.members[k].Arr?
  {
    Obj(map[KeyViewLeft := SerializeMatrix(pose.viewLeft),
            KeyViewRight := SerializeMatrix(pose.viewRight),
            KeyProjLeft := SerializeMatrix(pose.projLeft),
            KeyProjRight := SerializeMatrix(pose.projRight),
            KeyCamPos := SerializeVector(pose.cameraPosition),
            KeyCamRot := SerializeVector(pose.cameraOrientation)])
  }

  /** `jsonRoot.get(key, "invalid")`. */
  function Get(root: Json, key: string): (r: Json)
    ensures r.Arr? ==> root.Obj? && key in root.members
    ensures root.Obj? && key in root.members ==> r == root.members[key]
  {
    if root.Obj? && key in root.members then root.members[key] else Str("invalid")
  }

  /** `DecodePoseFromJson`, after parsing: each of the six keys must hold an array (the
      assertions), and every element must read as a float. */
  function DecodePose(root: Json): (r: Option<StereoPose>)
    ensures r.Some? ==> forall k :: k in [KeyViewLeft, KeyViewRight, KeyProjLeft, KeyProjRight, KeyCamPos, KeyCamRot]
                          ==> Get(root, k).Arr?
  {
    var vl := Get(root, KeyViewLeft);
    var vr := Get(root, KeyViewRight);
    var pl := Get(root, KeyProjLeft);
    var pr := Get(root, KeyProjRight);
    var cp := Get(root, KeyCamPos);
    var cr := Get(root, KeyCamRot);
    if !(vl.Arr? && vr.Arr? && pl.Arr? && pr.Arr? && cp.Arr? && cr.Arr?) then None
    else
      var viewLeft := DeserializeMatrix(vl);
      var viewRight := DeserializeMatrix(vr);
      var projLeft := DeserializeMatrix(pl);
      var projRight := DeserializeMatrix(pr);
      var position := DeserializeVector(cp);
      var orientation := DeserializeVector(cr);
      if viewLeft.Some? && viewRight.Some? && projLeft.Some? && projRight.Some? && position.Some? && orientation.Some?
      then Some(StereoPose(viewLeft.value, viewRight.value, projLeft.value, projRight.value,
                           position.value, orientation.value))
      else None
  }

  /** `DecodePoseFromJson` as written, built with `NDEBUG` defined, where `assert`
      expands to nothing: the parse of the text and the six array checks sit inside
      assertions and are compiled out. The root then stays null, every key reads the
      default string "invalid", and reading the first matrix element from a string
      fails (`None`). The value the parse would have produced is ignored. */
  function DecodePoseRelease(parsed: Json): (r: Option<StereoPose>)
    ensures r == None
  {
    var root := Null;
    var viewLeft := Get(root, KeyViewLeft);
    if viewLeft.Null? || viewLeft.Arr? then DecodePose(root) else None
  }

  /** Built that way, not even a serialised pose is decoded, while `DecodePose`, which
      always parses and refuses what the assertions reject, gives it back. */
  lemma ReleaseBuildDecodesNothing(pose: StereoPose)
    ensures DecodePoseRelease(SerializePose(pose)) == None
    ensures DecodePose(SerializePose(pose)) == Some(pose)
  {
    PoseRoundTrip(pose);
  }

  /** The six keys of a pose object are distinct. */
  lemma KeysDistinct()
    ensures KeyViewLeft !in {KeyViewRight, KeyProjLeft, KeyProjRight, KeyCamPos, KeyCamRot}
    ensures KeyViewRight !in {KeyProjLeft, KeyProjRight, KeyCamPos, KeyCamRot}
    ensures KeyProjLeft !in {KeyProjRight, KeyCamPos, KeyCamRot}
    ensures KeyProjRight !in {KeyCamPos, KeyCamRot}
    ensures KeyCamPos != KeyCamRot
  {
    assert KeyViewLeft[0] != KeyProjLeft[0] && KeyViewLeft[0] != KeyCamPos[0];
    assert KeyProjLeft[0] != KeyCamPos[0] && KeyCamPos[3] != KeyCamRot[3];
    assert |KeyViewLeft| != |KeyViewRight| && |KeyProjLeft| != |KeyProjRight|;
    assert KeyViewRight[0] != KeyProjRight[0];
  }

  /** Each key of a serialised pose reads back the array written under it. */
  lemma SerializedPoseFields(pose: StereoPose)
    ensures var root := SerializePose(pose);
      && Get(root, KeyViewLeft) == SerializeMatrix(pose.viewLeft)
      && Get(root, KeyViewRight) == SerializeMatrix(pose.viewRight)
      && Get(root, KeyProjLeft) == SerializeMatrix(pose.projLeft)
      && Get(root, KeyProjRight) == SerializeMatrix(pose.projRight)
      && Get(root, KeyCamPos) == SerializeVector(pose.cameraPosition)
      && Get(root, KeyCamRot) == SerializeVector(pose.cameraOrientation)
  {
    KeysDistinct();
  }

  /** Decoding a serialised pose gives the same pose. */
  lemma PoseRoundTrip(pose: StereoPose)
    ensures DecodePose(SerializePose(pose)) == Some(pose)
  {
    SerializedPoseFields(pose);
    MatrixRoundTrip(pose.viewLeft);
    MatrixRoundTrip(pose.viewRight);
    MatrixRoundTrip(pose.projLeft);
    MatrixRoundTrip(pose.projRight);
    VectorRoundTrip(pose.cameraPosition);
    VectorRoundTrip(pose.cameraOrientation);
  }

  /** A pose object missing any of the six keys is refused. */
  lemma MissingKeyRefused(root: Json, key: string)
    requires key in [KeyViewLeft, KeyViewRight, KeyProjLeft, KeyProjRight, KeyCamPos, KeyCamRot]
    requires !root.Obj? || key !in root.members
    ensures DecodePose(root) == None
  {
    assert Get(root, key) == Str("invalid");
  }
}
