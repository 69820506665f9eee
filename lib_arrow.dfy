/**
 * lib/arrow.go: arrow specifications parsed from a DoCommand payload
 * (`ParseArrow`, `ParseArrows`) and turned into transform records
 * (`CreateArrowTransforms`).
 */
module LibArrow {
  import opened GoValues
  import opened Wrappers
  import opened Errors
  import opened Text
  import opened LibColor
  import opened LibPose
  import opened LibUUID
  import opened WorldState

  /** Yellow, used when an arrow specification has no colour. */
  const DefaultColor := Color(255, 255, 0)

  /** A parsed arrow. An empty `uuid` asks for a freshly generated identity. */
  datatype Arrow = Arrow(pose: Pose, uuid: string, color: Color, parentFrame: string)

  /**
   * `ParseArrow`: the checks fire in a fixed order (not a map, no "pose", a bad pose,
   * a non-string "parent_frame", a bad colour); "parent_frame" defaults to "world" and
   * "color" to `DefaultColor`; the identity is always left empty.
   */
  function ParseArrow(item: Value): (r: Result<Arrow, Error>)
    ensures !IsMap(item) ==> r == Failure(NotArrowObject(TypeName(item)))
    ensures IsMap(item) ==>
      var m := Entries(item);
      && ("pose" !in m ==> r == Failure(MissingPose))
      && ("pose" in m && !IsMap(m["pose"]) ==> r == Failure(BadPose(NotPoseObject(TypeName(m["pose"])))))
      && ("pose" in m && IsMap(m["pose"]) && "parent_frame" in m && !m["parent_frame"].Str? ==>
            r == Failure(ParentFrameNotString(TypeName(m["parent_frame"]))))
      && ("pose" in m && IsMap(m["pose"]) && ("parent_frame" in m ==> m["parent_frame"].Str?)
            && "color" in m && !IsMap(m["color"]) ==>
            r == Failure(BadColor(NotColorObject(TypeName(m["color"])))))
    ensures r.Success? <==>
      && IsMap(item)
      && "pose" in Entries(item) && IsMap(Entries(item)["pose"])
      && ("parent_frame" in Entries(item) ==> Entries(item)["parent_frame"].Str?)
      && ("color" in Entries(item) ==> IsMap(Entries(item)["color"]))
    ensures r.Success? ==>
      var m := Entries(item);
      && r.value.uuid == ""
      && r.value.pose == ParsePose(m["pose"]).value
      && r.value.parentFrame == (if "parent_frame" in m then m["parent_frame"].s else "world")
      && r.value.color == (if "color" in m then ParseColor(m["color"], DefaultColor).color else DefaultColor)
  {
    if !IsMap(item) then
      Failure(NotArrowObject(TypeName(item)))
    else
      var m := Entries(item);
      if "pose" !in m then
        Failure(MissingPose)
      else
        match ParsePose(m["pose"])
        case Failure(e) => Failure(BadPose(e))
        case Success(pose) =>
          if "parent_frame" in m && !m["parent_frame"].Str? then
            Failure(ParentFrameNotString(TypeName(m["parent_frame"])))
          else
            var parentFrame := if "parent_frame" in m then m["parent_frame"].s else "world";
            if "color" in m && ParseColor(m["color"], DefaultColor).err.Some? then
              Failure(BadColor(ParseColor(m["color"], DefaultColor).err.value))
            else
              var color := if "color" in m then ParseColor(m["color"], DefaultColor).color else DefaultColor;
              Success(Arrow(pose, "", color, parentFrame))
  }

  /** `i` is the first element of `items` that `ParseArrow` rejects. */
  ghost predicate FirstParseFailure(items: seq<Value>, i: int) {
    && 0 <= i < |items|
    && ParseArrow(items[i]).Failure?
    && forall j | 0 <= j < i :: ParseArrow(items[j]).Success?
  }

  /** `ParseArrows` succeeds on this payload. */
  ghost predicate ParsesAll(drawData: Value) {
    drawData.Arr? && forall i | 0 <= i < |drawData.items| :: ParseArrow(drawData.items[i]).Success?
  }

  /** What `ParseArrows` returns on a payload it accepts. */
  ghost function ParsedAll(drawData: Value): (arrows: seq<Arrow>)
    requires ParsesAll(drawData)
    ensures |arrows| == |drawData.items|
    ensures forall i | 0 <= i < |arrows| :: arrows[i] == ParseArrow(drawData.items[i]).value && arrows[i].uuid == ""
  {
    seq(|drawData.items|, i requires 0 <= i < |drawData.items| && ParseArrow(drawData.items[i]).Success? =>
      ParseArrow(drawData.items[i]).value)
  }

  /** The error `ParseArrows` reports on a payload it rejects. */
  ghost predicate ParseArrowsError(drawData: Value, e: Error) {
    if !drawData.Arr? then e == NotArray(TypeName(drawData))
    else exists i :: FirstParseFailure(drawData.items, i) && e == ArrowAtIndex(i, ParseArrow(drawData.items[i]).error)
  }

  /**
   * `ParseArrows`: a non-array fails; otherwise each element is parsed in order, and the
   * first failure aborts the whole call with the element's index and no partial list.
   */
  method ParseArrows(drawData: Value) returns (r: Result<seq<Arrow>, Error>)
    ensures !drawData.Arr? ==> r == Failure(NotArray(TypeName(drawData)))
    ensures drawData.Arr? ==>
      var items := drawData.items;
      && (r.Success? <==> forall i | 0 <= i < |items| :: ParseArrow(items[i]).Success?)
      && (r.Success? ==> |r.value| == |items| && forall i | 0 <= i < |items| :: r.value[i] == ParseArrow(items[i]).value)
      && (r.Failure? ==> exists i :: FirstParseFailure(items, i) && r.error == ArrowAtIndex(i, ParseArrow(items[i]).error))
    ensures r.Success? <==> ParsesAll(drawData)
    ensures r.Success? ==> r.value == ParsedAll(drawData)
    ensures r.Failure? ==> ParseArrowsError(drawData, r.error)
  {
    if !drawData.Arr? {
      return Failure(NotArray(TypeName(drawData)));
    }
    var items := drawData.items;
    var arrows: seq<Arrow> := [];
    for i := 0 to |items|
      invariant |arrows| == i
      invariant forall j | 0 <= j < i :: ParseArrow(items[j]).Success? && arrows[j] == ParseArrow(items[j]).value
    {
      var parsed := ParseArrow(items[i]);
      if parsed.Failure? {
        assert FirstParseFailure(items, i);
        return Failure(ArrowAtIndex(i, parsed.error));
      }
      arrows := arrows + [parsed.value];
    }
    return Success(arrows);
  }

  /**
   * One arrow's transform: the identity is fresh when the arrow has none and parsed
   * otherwise (a parse failure is the error); the reference frame is "arrow-" and the
   * identity's hex; pose and parent frame are copied; the metadata holds the colour.
   */
  function ArrowTransform(a: Arrow, random: UUID): (r: Result<Transform, Error>)
    ensures a.uuid == "" ==> r.Success? && r.value.uuid == GenerateUUID(random)
    ensures a.uuid != "" ==> (r.Success? <==> Parse(a.uuid).Success?)
    ensures a.uuid != "" && r.Success? ==> r.value.uuid == Parse(a.uuid).value
    ensures a.uuid != "" && r.Failure? ==> r.error == BadUUID(Parse(a.uuid).error)
    ensures r.Success? ==>
      && |r.value.uuid| == 16
      && r.value.referenceFrame == "arrow-" + Hex(r.value.uuid)
      && r.value.poseInObserverFrame == Some(PoseInFrame(a.parentFrame, a.pose))
      && r.value.physicalObject == None
      && r.value.metadata == Some(ArrowMetadata(a.color))
  {
    var id := if a.uuid == "" then Success(GenerateUUID(random)) else Parse(a.uuid);
    match id
    case Failure(e) => Failure(BadUUID(e))
    case Success(u) =>
      Success(Transform("arrow-" + Hex(Bytes(u)), Some(PoseInFrame(a.parentFrame, a.pose)), Bytes(u), None, Some(ArrowMetadata(a.color))))
  }

  /** Every arrow of the batch builds; `random(i)` is the generator's output for arrow i. */
  ghost predicate BuildsAll(arrows: seq<Arrow>, random: nat -> UUID) {
    forall i | 0 <= i < |arrows| :: ArrowTransform(arrows[i], random(i)).Success?
  }

  ghost function BuiltAll(arrows: seq<Arrow>, random: nat -> UUID): (ts: seq<Transform>)
    requires BuildsAll(arrows, random)
    ensures |ts| == |arrows|
    ensures forall i | 0 <= i < |arrows| :: ts[i] == ArrowTransform(arrows[i], random(i)).value
    ensures forall i | 0 <= i < |arrows| :: |ts[i].uuid| == 16
  {
    seq(|arrows|, i requires 0 <= i < |arrows| reads {} => ArrowTransform(arrows[i], random(i)).value)
  }

  ghost predicate FirstBuildFailure(arrows: seq<Arrow>, random: nat -> UUID, i: int) {
    && 0 <= i < |arrows|
    && ArrowTransform(arrows[i], random(i)).Failure?
    && forall j | 0 <= j < i :: ArrowTransform(arrows[j], random(j)).Success?
  }

  /**
   * `CreateArrowTransforms`: one transform per arrow, in order; the first identity
   * that fails to parse aborts the whole call with no partial result.
   */
  method CreateArrowTransforms(arrows: seq<Arrow>, random: nat -> UUID) returns (r: Result<seq<Transform>, Error>)
    ensures r.Success? <==> BuildsAll(arrows, random)
    ensures r.Success? ==> r.value == BuiltAll(arrows, random)
    ensures r.Failure? ==> exists i :: FirstBuildFailure(arrows, random, i) && r.error == ArrowTransform(arrows[i], random(i)).error
  {
    var data: seq<Transform> := [];
    for i := 0 to |arrows|
      invariant |data| == i
      invariant forall j | 0 <= j < i :: ArrowTransform(arrows[j], random(j)).Success? && data[j] == ArrowTransform(arrows[j], random(j)).value
    {
      var t := ArrowTransform(arrows[i], random(i));
      if t.Failure? {
        assert FirstBuildFailure(arrows, random, i);
        return Failure(t.error);
      }
      data := data + [t.value];
    }
    return Success(data);
  }

  /** Arrows that came out of `ParseArrow` carry no identity, so building them never fails. */
  lemma ParsedArrowsBuild(arrows: seq<Arrow>, random: nat -> UUID)
    requires forall i | 0 <= i < |arrows| :: arrows[i].uuid == ""
    ensures BuildsAll(arrows, random)
    ensures forall i | 0 <= i < |arrows| :: BuiltAll(arrows, random)[i].uuid == GenerateUUID(random(i))
  {
  }

  /** Two built arrows share a reference frame only if they share an identity. */
  lemma ArrowFrameNamesIdentify(a: Transform, b: Transform)
    requires a.referenceFrame == "arrow-" + Hex(a.uuid) && b.referenceFrame == "arrow-" + Hex(b.uuid)
    ensures a.referenceFrame == b.referenceFrame ==> a.uuid == b.uuid
  {
    if a.referenceFrame == b.referenceFrame {
      assert Hex(a.uuid) == a.referenceFrame[6..];
      assert Hex(b.uuid) == b.referenceFrame[6..];
      HexInjective(a.uuid, b.uuid);
    }
  }
}
