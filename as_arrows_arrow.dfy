/**
 * as_arrows/arrow.go: the older arrow parser of the motion-plan service and its
 * transform builder, which names frames by position. The pose and colour readers it
 * calls belong to a package that is not part of this model, so they are parameters.
 */
module AsArrowsArrow {
  import opened GoValues
  import opened Wrappers
  import opened Text
  import opened LibColor
  import opened LibPose
  import opened LibUUID
  import opened WorldState

  /** Black: the colour of an arrow that has none. */
  const Black := Color(0, 0, 0)

  /** A parsed plan arrow: unlike `LibArrow.Arrow` it has no identity of its own. */
  datatype PlanArrow = PlanArrow(pose: Pose, color: Color, parentFrame: string)

  /** The errors of `parseArrows`/`parseArrow`; the causes from the absent readers are their messages. */
  datatype PlanError =
    | NotArray(got: string)
    | AtIndex(index: nat, cause: PlanError)
    | NotArrowObject(got: string)
    | MissingPose
    | BadPose(message: string)
    | BadColor(message: string)

  function PlanMessage(e: PlanError): string {
    match e
    case NotArray(got) => "expected array of arrows, got " + got
    case AtIndex(i, cause) => "failed to parse arrow at index " + NatToString(i) + ": " + PlanMessage(cause)
    case NotArrowObject(got) => "expected arrow object, got " + got
    case MissingPose => "missing required 'pose' field"
    case BadPose(cause) => "failed to parse pose: " + cause
    case BadColor(cause) => "failed to parse color: " + cause
  }

  /**
   * `parseArrow`: not a map, then no "pose", then a pose the reader rejects, then a
   * colour the reader rejects; an absent colour is black, and a "parent_frame" that is
   * absent or not a string is silently "world".
   */
  function ParsePlanArrow(item: Value, parsePose: Value -> Result<Pose, string>,
                          parseColor: Value -> Result<Color, string>): (r: Result<PlanArrow, PlanError>)
    ensures !IsMap(item) ==> r == Failure(NotArrowObject(TypeName(item)))
    ensures IsMap(item) ==>
      var m := Entries(item);
      && ("pose" !in m ==> r == Failure(MissingPose))
      && ("pose" in m && parsePose(m["pose"]).Failure? ==> r == Failure(BadPose(parsePose(m["pose"]).error)))
      && ("pose" in m && parsePose(m["pose"]).Success? && "color" in m && parseColor(m["color"]).Failure? ==>
            r == Failure(BadColor(parseColor(m["color"]).error)))
    ensures r.Success? <==>
      && IsMap(item)
      && "pose" in Entries(item) && parsePose(Entries(item)["pose"]).Success?
      && ("color" in Entries(item) ==> parseColor(Entries(item)["color"]).Success?)
    ensures r.Success? ==>
      var m := Entries(item);
      && r.value.pose == parsePose(m["pose"]).value
      && r.value.color == (if "color" in m then parseColor(m["color"]).value else Black)
      && r.value.parentFrame == (if "parent_frame" in m && m["parent_frame"].Str? then m["parent_frame"].s else "world")
  {
    if !IsMap(item) then
      Failure(NotArrowObject(TypeName(item)))
    else
      var arrowMap := Entries(item);
      if "pose" !in arrowMap then
        Failure(MissingPose)
      else
        match parsePose(arrowMap["pose"])
        case Failure(e) => Failure(BadPose(e))
        case Success(pose) =>
          var color := if "color" in arrowMap then parseColor(arrowMap["color"]) else Success(Black);
          match color
          case Failure(e) => Failure(BadColor(e))
          case Success(c) =>
            var parentFrame :=
              if "parent_frame" in arrowMap && arrowMap["parent_frame"].Str? then arrowMap["parent_frame"].s else "world";
            Success(PlanArrow(pose, c, parentFrame))
  }

  /**
   * "parent_frame" never makes `parseArrow` fail: setting it to any value leaves the
   * outcome, the pose and the colour as they were.
   */
  lemma ParentFrameNeverRejects(m: map<string, Value>, v: Value, parsePose: Value -> Result<Pose, string>,
                                parseColor: Value -> Result<Color, string>)
    ensures
      var before := ParsePlanArrow(Dict(m), parsePose, parseColor);
      var after := ParsePlanArrow(Dict(m["parent_frame" := v]), parsePose, parseColor);
      && (after.Success? <==> before.Success?)
      && (after.Success? ==> after.value.pose == before.value.pose && after.value.color == before.value.color)
      && (after.Success? ==> after.value.parentFrame == if v.Str? then v.s else "world")
  {
    var m' := m["parent_frame" := v];
    assert "pose" in m' <==> "pose" in m;
    assert "color" in m' <==> "color" in m;
    if "pose" in m {
      assert m'["pose"] == m["pose"];
    }
    if "color" in m {
      assert m'["color"] == m["color"];
    }
  }

  ghost predicate FirstPlanFailure(items: seq<Value>, parsePose: Value -> Result<Pose, string>,
                                   parseColor: Value -> Result<Color, string>, i: int) {
    && 0 <= i < |items|
    && ParsePlanArrow(items[i], parsePose, parseColor).Failure?
    && forall j | 0 <= j < i :: ParsePlanArrow(items[j], parsePose, parseColor).Success?
  }

  /**
   * `parseArrows`: a non-array fails; otherwise the elements are parsed in order and the
   * first failure aborts with its index and no partial list.
   */
  method ParsePlanArrows(drawData: Value, parsePose: Value -> Result<Pose, string>,
                         parseColor: Value -> Result<Color, string>) returns (r: Result<seq<PlanArrow>, PlanError>)
    ensures !drawData.Arr? ==> r == Failure(NotArray(TypeName(drawData)))
    ensures drawData.Arr? ==>
      var items := drawData.items;
      && (r.Success? <==> forall i | 0 <= i < |items| :: ParsePlanArrow(items[i], parsePose, parseColor).Success?)
      && (r.Success? ==> |r.value| == |items|)
      && (r.Success? ==>
            forall i | 0 <= i < |items| :: r.value[i] == ParsePlanArrow(items[i], parsePose, parseColor).value)
      && (r.Failure? ==>
            exists i :: (FirstPlanFailure(items, parsePose, parseColor, i) &&
              r.error == AtIndex(i, ParsePlanArrow(items[i], parsePose, parseColor).error)))
  {
    if !drawData.Arr? {
      return Failure(NotArray(TypeName(drawData)));
    }
    var arrowArray := drawData.items;
    var arrows: seq<PlanArrow> := [];
    for i := 0 to |arrowArray|
      invariant |arrows| == i
      invariant forall j | 0 <= j < i ::
        ParsePlanArrow(arrowArray[j], parsePose, parseColor).Success? &&
        arrows[j] == ParsePlanArrow(arrowArray[j], parsePose, parseColor).value
    {
      var arrowData := ParsePlanArrow(arrowArray[i], parsePose, parseColor);
      if arrowData.Failure? {
        assert FirstPlanFailure(arrowArray, parsePose, parseColor, i);
        return Failure(AtIndex(i, arrowData.error));
      }
      arrows := arrows + [arrowData.value];
    }
    return Success(arrows);
  }

  /**
   * The transform of the arrow at position `index`: frame "arrow-" and the decimal
   * index, the arrow's parent frame and pose, the fresh identity, and arrow metadata.
   */
  function PlanTransform(a: PlanArrow, index: nat, id: UUID): (t: Transform)
    ensures t.referenceFrame == "arrow-" + NatToString(index)
    ensures |t.referenceFrame| > 6 && t.referenceFrame[..6] == "arrow-"
    ensures forall k | 6 <= k < |t.referenceFrame| :: IsDecimalDigit(t.referenceFrame[k])
    ensures DecimalValue(t.referenceFrame[6..]) == index
    ensures t.poseInObserverFrame == Some(PoseInFrame(a.parentFrame, a.pose))
    ensures t.uuid == Bytes(id)
    ensures t.physicalObject == None
    ensures t.metadata == Some(ArrowMetadata(a.color))
  {
    var frame := "arrow-" + NatToString(index);
    assert frame[6..] == NatToString(index);
    DecimalValueOfNatToString(index);
    Transform(frame, Some(PoseInFrame(a.parentFrame, a.pose)), Bytes(id), None, Some(ArrowMetadata(a.color)))
  }

  /**
   * `drawArrows`: one transform per arrow, in order, the i-th named "arrow-i" and given
   * the fresh identity `newId(i)`. The metadata builder cannot fail on these inputs, so
   * no error is returned.
   */
  method DrawPlanArrows(arrows: seq<PlanArrow>, newId: nat -> UUID) returns (data: seq<Transform>)
    ensures |data| == |arrows|
    ensures forall i | 0 <= i < |arrows| :: data[i] == PlanTransform(arrows[i], i, newId(i))
  {
    data := [];
    var index := 0;
    for k := 0 to |arrows|
      invariant index == k == |data|
      invariant forall i | 0 <= i < k :: data[i] == PlanTransform(arrows[i], i, newId(i))
    {
      data := data + [PlanTransform(arrows[k], index, newId(index))];
      index := index + 1;
    }
  }

  /** Frames are named by position, so the transforms of one batch have pairwise distinct frames. */
  lemma PlanFramesDistinct(a: PlanArrow, b: PlanArrow, i: nat, j: nat, u: UUID, v: UUID)
    requires i != j
    ensures PlanTransform(a, i, u).referenceFrame != PlanTransform(b, j, v).referenceFrame
  {
    NatToStringInjective(i, j);
  }
}
