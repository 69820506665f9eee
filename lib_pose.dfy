/** lib/pose.go: `ParsePose`, the seven-field pose reader. */
module LibPose {
  import opened GoValues
  import opened Wrappers
  import opened Errors
  import LibFloat

  /**
   * A pose: position (x, y, z) and an orientation vector (o_x, o_y, o_z) with angle
   * theta, as seven plain numbers (the library pose type and its normalisation are
   * not modelled).
   */
  datatype Pose = Pose(x: real, y: real, z: real, ox: real, oy: real, oz: real, theta: real)

  /** The field `key` of a pose object: `GetFloat64` with 0.0 as the default. */
  function Field(m: map<string, Value>, key: string): real {
    LibFloat.GetFloat64(Lookup(m, key), 0.0)
  }

  /**
   * `ParsePose`: every non-map (nil included) fails with "expected pose object";
   * a map never fails, and each field comes from its own key.
   */
  function ParsePose(poseData: Value): (r: Result<Pose, Error>)
    ensures !IsMap(poseData) ==> r == Failure(NotPoseObject(TypeName(poseData)))
    ensures IsMap(poseData) ==> r.Success?
    ensures r.Success? ==>
      var m := Entries(poseData);
      && r.value.x == Field(m, "x") && r.value.y == Field(m, "y") && r.value.z == Field(m, "z")
      && r.value.ox == Field(m, "o_x") && r.value.oy == Field(m, "o_y") && r.value.oz == Field(m, "o_z")
      && r.value.theta == Field(m, "theta")
  {
    if !IsMap(poseData) then
      Failure(NotPoseObject(TypeName(poseData)))
    else
      var m := Entries(poseData);
      Success(Pose(Field(m, "x"), Field(m, "y"), Field(m, "z"), Field(m, "o_x"), Field(m, "o_y"), Field(m, "o_z"), Field(m, "theta")))
  }

  /** Absent fields are 0.0: {x: 1, y: 2, z: 3} with int values gives (1, 2, 3, 0, 0, 0, 0). */
  lemma ParsePosePartialExample()
    ensures ParsePose(Dict(map["x" := IntNum(Int, 1), "y" := IntNum(Int, 2), "z" := IntNum(Int, 3)]))
         == Success(Pose(1.0, 2.0, 3.0, 0.0, 0.0, 0.0, 0.0))
  {
  }
}
