/**
 * drawmesh/module.go: the mesh world-state service. A draw command loads a PLY mesh and
 * stores it as one transform under a freshly generated identity; the store, the change
 * queue, clear, lookup and listing work as in the arrow service.
 */
module DrawMesh {
  import opened GoValues
  import opened Wrappers
  import opened Errors
  import opened LibColor
  import opened LibPose
  import opened LibUUID
  import opened WorldState
  import opened TransformStore

  /** Blue: the colour a draw command falls back to, channel by channel. */
  const MeshDefaultColor := Color(0, 0, 255)

  /** The identity orientation the mesh is placed with: at the world origin, pointing along z. */
  const MeshPose := Pose(0.0, 0.0, 0.0, 0.0, 0.0, 1.0, 0.0)

  /**
   * The record `draw` builds: reference frame "mesh-" and the identity's text form,
   * parent frame "world", the fixed pose, the loaded geometry and metadata holding only
   * the colour.
   */
  function MeshTransform(id: UUID, geometry: Geometry, color: Color): (t: Transform)
    ensures HasIdentity(t) && t.uuid == Bytes(id)
    ensures t.referenceFrame == "mesh-" + String(id)
    ensures |t.referenceFrame| == 41 && t.referenceFrame[..5] == "mesh-"
    ensures Parse(t.referenceFrame[5..]) == Success(id)
    ensures t.poseInObserverFrame == Some(PoseInFrame("world", MeshPose))
    ensures t.physicalObject == Some(geometry)
    ensures t.metadata == Some(Metadata(None, color))
  {
    var frame := "mesh-" + String(id);
    assert frame[5..] == String(id);
    ParseOfString(id);
    Transform(frame, Some(PoseInFrame("world", MeshPose)), Bytes(id), Some(geometry), Some(Metadata(None, color)))
  }

  class WorldStateService {
    /** `transforms`: identity text form to record. */
    var transforms: map<string, Transform>
    /** The buffered `changeStream` channel, oldest event first. */
    var changeStream: seq<Change>

    ghost predicate Valid()
      reads this
    {
      && |changeStream| <= ChangeStreamCapacity
      && KeyedByIdentity(transforms)
    }

    /** `NewWorldStateService`: an empty store and an empty queue. */
    constructor ()
      ensures Valid()
      ensures transforms == map[] && changeStream == []
    {
      transforms := map[];
      changeStream := [];
    }

    /** `emitChange`: a non-blocking send; when the queue is full the event is dropped. */
    method EmitChange(c: Change)
      requires Valid()
      modifies this
      ensures Valid()
      ensures transforms == old(transforms)
      ensures changeStream == Emit(old(changeStream), c)
    {
      if |changeStream| < ChangeStreamCapacity {
        changeStream := changeStream + [c];
      }
    }

    /**
     * `draw`: opening the file or loading the mesh can fail, and then nothing changes.
     * Otherwise the record is stored under the text form of the fresh identity
     * `GenerateUUID(random)` and one ADDED event is queued. The file system and the PLY
     * loader are the parameters `openFile` (an error message, or None) and `load`.
     */
    method Draw(meshPath: string, color: Color, openFile: string -> Option<string>,
                load: string -> Result<Geometry, string>, random: UUID) returns (err: Option<Error>)
      requires Valid()
      modifies this
      ensures Valid()
      ensures openFile(meshPath).Some? ==>
        && err == Some(MeshSource(openFile(meshPath).value))
        && transforms == old(transforms) && changeStream == old(changeStream)
      ensures openFile(meshPath).None? && load(meshPath).Failure? ==>
        && err == Some(MeshSource(load(meshPath).error))
        && transforms == old(transforms) && changeStream == old(changeStream)
      ensures openFile(meshPath).None? && load(meshPath).Success? ==>
        var id := GenerateUUID(random);
        var t := MeshTransform(id, load(meshPath).value, color);
        && err == None
        && transforms == old(transforms)[String(id) := t]
        && changeStream == Emit(old(changeStream), AddedChange(t))
    {
      var openErr := openFile(meshPath);
      if openErr.Some? {
        return Some(MeshSource(openErr.value));
      }
      var mesh := load(meshPath);
      if mesh.Failure? {
        return Some(MeshSource(mesh.error));
      }
      var uuidBytes := GenerateUUID(random);
      var transform := MeshTransform(uuidBytes, mesh.value, color);
      StoreKeepsKeyedByIdentity(transforms, transform);
      transforms := transforms[String(uuidBytes) := transform];
      EmitChange(AddedChange(transform));
      return None;
    }

    /**
     * `clear`: visits every key once, in the map's (unspecified) order `order`, queueing a
     * REMOVED event carrying the identity parsed back from the key; then empties the map
     * and returns how many records it held.
     */
    method Clear() returns (count: nat, ghost order: seq<string>)
      requires Valid()
      modifies this
      ensures Valid()
      ensures count == |old(transforms)| == |order|
      ensures Enumerates(order, old(transforms).Keys)
      ensures transforms == map[]
      ensures changeStream == EmitAll(old(changeStream), RemovedFor(order, old(transforms)))
    {
      count := |transforms|;
      var remaining := transforms.Keys;
      order := [];
      while remaining != {}
        invariant Valid()
        invariant transforms == old(transforms)
        invariant PartlyEnumerated(order, remaining, transforms.Keys)
        invariant changeStream == EmitAll(old(changeStream), RemovedFor(order, transforms))
        decreases |remaining|
      {
        var id :| id in remaining;
        ParseKey(transforms, id);
        var parsedId := Parse(id).value;
        RemovedStep(old(changeStream), order, transforms, id);
        EnumerationStep(order, remaining, transforms.Keys, id);
        EmitChange(RemovedChange(Bytes(parsedId)));
        order := order + [id];
        remaining := remaining - {id};
      }
      EnumerationDone(order, transforms.Keys);
      transforms := map[];
    }

    /** `GetTransform`: see `Find`. */
    method GetTransform(id: seq<Byte>) returns (r: Result<Transform, Error>)
      requires Valid()
      ensures r == Find(transforms, id)
    {
      r := Find(transforms, id);
    }

    /**
     * `ListUUIDs`: one identity per stored record, in the map's (unspecified) order, each
     * 16 bytes long and no two alike.
     */
    method ListUUIDs() returns (uuids: seq<seq<Byte>>, ghost order: seq<string>)
      requires Valid()
      ensures Enumerates(order, transforms.Keys)
      ensures |uuids| == |order| == |transforms|
      ensures forall i | 0 <= i < |uuids| :: |uuids[i]| == 16 && uuids[i] == transforms[order[i]].uuid
      ensures forall i, j | 0 <= i < j < |uuids| :: uuids[i] != uuids[j]
    {
      uuids := [];
      order := [];
      var remaining := transforms.Keys;
      while remaining != {}
        invariant PartlyEnumerated(order, remaining, transforms.Keys)
        invariant |uuids| == |order|
        invariant forall i | 0 <= i < |order| :: |uuids[i]| == 16 && uuids[i] == transforms[order[i]].uuid
        decreases |remaining|
      {
        var key :| key in remaining;
        var parsedId := UUIDFromBytes(transforms[key].uuid).value;
        EnumerationStep(order, remaining, transforms.Keys, key);
        uuids := uuids + [Bytes(parsedId)];
        order := order + [key];
        remaining := remaining - {key};
      }
      EnumerationDone(order, transforms.Keys);
      forall i, j | 0 <= i < j < |uuids| ensures uuids[i] != uuids[j] {
        assert order[i] == String(uuids[i]) && order[j] == String(uuids[j]);
      }
    }

    /**
     * `DoCommand`: "draw" is looked at before "clear". A draw command reads "model_path"
     * (which must be a string) and parses "color" with blue as the default; a colour
     * error, and so a missing colour, or a failed load is reported as
     * `{success: false, error}` with the store untouched. "clear" replies with the number
     * of meshes removed; anything else is unknown.
     */
    method DoCommand(cmd: map<string, Value>, openFile: string -> Option<string>,
                     load: string -> Result<Geometry, string>, random: UUID) returns (reply: Reply)
      requires Valid()
      requires "draw" in cmd ==> IsMap(cmd["draw"]) && Lookup(Entries(cmd["draw"]), "model_path").Str?
      modifies this
      ensures Valid()
      ensures "draw" in cmd ==>
        var c := ParseColor(Lookup(Entries(cmd["draw"]), "color"), MeshDefaultColor);
        var path := Lookup(Entries(cmd["draw"]), "model_path").s;
        && (c.err.Some? ==>
             reply == Failed(Message(c.err.value)) && transforms == old(transforms) && changeStream == old(changeStream))
        && (c.err.None? && openFile(path).Some? ==>
             reply == Failed(openFile(path).value) && transforms == old(transforms) && changeStream == old(changeStream))
        && (c.err.None? && openFile(path).None? && load(path).Failure? ==>
             reply == Failed(load(path).error) && transforms == old(transforms) && changeStream == old(changeStream))
        && (c.err.None? && openFile(path).None? && load(path).Success? ==>
             var id := GenerateUUID(random);
             var t := MeshTransform(id, load(path).value, c.color);
             && reply == Succeeded(map[])
             && transforms == old(transforms)[String(id) := t]
             && changeStream == Emit(old(changeStream), AddedChange(t)))
      ensures "draw" !in cmd && "clear" in cmd ==>
        && reply == Succeeded(map["mesh_removed" := |old(transforms)|])
        && transforms == map[]
        && exists order :: Enumerates(order, old(transforms).Keys) &&
             changeStream == EmitAll(old(changeStream), RemovedFor(order, old(transforms)))
      ensures "draw" !in cmd && "clear" !in cmd ==>
        && reply == Unknown("Unknown command")
        && transforms == old(transforms)
        && changeStream == old(changeStream)
    {
      if "draw" in cmd {
        var drawCmd := Entries(cmd["draw"]);
        var meshPath := Lookup(drawCmd, "model_path").s;
        var colorJson := Lookup(drawCmd, "color");
        var color := ParseColor(colorJson, MeshDefaultColor);
        if color.err.Some? {
          return Failed(Message(color.err.value));
        }
        var err := Draw(meshPath, color.color, openFile, load, random);
        if err.Some? {
          return Failed(Message(err.value));
        }
        return Succeeded(map[]);
      }
      if "clear" in cmd {
        var count, order := Clear();
        return Succeeded(map["mesh_removed" := count]);
      }
      return Unknown("Unknown command");
    }
  }

  /** A draw command without "color" is rejected: `ParseColor` of nil is an error. */
  lemma DrawWithoutColorRejected(drawCmd: map<string, Value>)
    requires "color" !in drawCmd
    ensures ParseColor(Lookup(drawCmd, "color"), MeshDefaultColor).err == Some(NotColorObject("<nil>"))
  {
  }

  /** After a successful draw the new mesh is found under its identity. */
  lemma DrawnMeshIsFound(m: map<string, Transform>, id: UUID, geometry: Geometry, color: Color)
    requires KeyedByIdentity(m)
    ensures KeyedByIdentity(m[String(id) := MeshTransform(id, geometry, color)])
    ensures Find(m[String(id) := MeshTransform(id, geometry, color)], Bytes(id)) == Success(MeshTransform(id, geometry, color))
  {
    FindAfterStore(m, MeshTransform(id, geometry, color));
  }
}
