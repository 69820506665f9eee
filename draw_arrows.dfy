/**
 * drawarrows/module.go: the arrow world-state service. It holds the drawn arrows in a map
 * keyed by `id.String()` and queues one change event per addition, removal or update on
 * a bounded channel that drops events when full.
 */
module DrawArrows {
  import opened GoValues
  import opened Wrappers
  import opened Errors
  import opened LibColor
  import opened LibUUID
  import opened LibArrow
  import opened WorldState
  import opened TransformStore

  /**
   * The records `NewWorldStateService` ends up holding: each configured arrow is drawn on
   * its own (with generator output `random(i)` for arrow i), and one that fails to build
   * is skipped.
   */
  function Configured(conf: seq<Arrow>, random: nat -> UUID): (ts: seq<Transform>)
    ensures |ts| <= |conf|
    ensures forall i | 0 <= i < |ts| :: HasIdentity(ts[i])
  {
    if conf == [] then []
    else
      var rest := Configured(conf[..|conf| - 1], random);
      match ArrowTransform(conf[|conf| - 1], random(|conf| - 1))
      case Success(t) => rest + [t]
      case Failure(_) => rest
  }

  class WorldStateService {
    /** `transforms`: identity text form to record. */
    var transforms: map<string, Transform>
    /** The buffered `changeStream` channel, oldest event first. */
    var changeStream: seq<Change>

    ghost predicate Valid()
      reads this
    {
      && |changeStream| <= ChangeStreamCapacity
      && KeyedByIdentity(transforms)
    }

    /** `NewWorldStateService`: an empty store into which each configured arrow is drawn. */
    constructor (conf: seq<Arrow>, random: nat -> UUID)
      ensures Valid()
      ensures transforms == Upsert(map[], Configured(conf, random))
      ensures changeStream == EmitAll([], AddedChanges(Configured(conf, random)))
    {
      transforms := map[];
      changeStream := [];
      new;
      for i := 0 to |conf|
        invariant Valid()
        invariant transforms == Upsert(map[], Configured(conf[..i], random))
        invariant changeStream == EmitAll([], AddedChanges(Configured(conf[..i], random)))
      {
        var gen: nat -> UUID := _ => random(i);
        ghost var m, q := transforms, changeStream;
        var r := Draw([conf[i]], gen);
        DrawOne(m, q, conf[i], gen);
        ConfiguredStep(conf, random, i);
        if r.Success? {
          var t := ArrowTransform(conf[i], random(i)).value;
          UpsertSnoc(map[], Configured(conf[..i], random), t);
          AddedSnoc(Configured(conf[..i], random), t);
          EmitAllSnoc([], AddedChanges(Configured(conf[..i], random)), AddedChange(t));
        }
      }
      assert conf[..|conf|] == conf;
    }

    /** `emitChange`: a non-blocking send; when the queue is full the event is dropped. */
    method EmitChange(c: Change)
      requires Valid()
      modifies this
      ensures Valid()
      ensures transforms == old(transforms)
      ensures changeStream == Emit(old(changeStream), c)
    {
      if |changeStream| < ChangeStreamCapacity {
        changeStream := changeStream + [c];
      }
    }

    /**
     * `draw`: builds the transforms of the batch; when that fails nothing changes.
     * Otherwise each record is stored under `id.String()` in batch order (a later record
     * replaces an earlier one with the same identity), one ADDED event is queued per
     * record, and the count is the batch length.
     */
    method Draw(arrows: seq<Arrow>, random: nat -> UUID) returns (r: Result<nat, Error>)
      requires Valid()
      modifies this
      ensures Valid()
      ensures r.Success? <==> BuildsAll(arrows, random)
      ensures r.Failure? ==>
        && transforms == old(transforms)
        && changeStream == old(changeStream)
        && exists i :: FirstBuildFailure(arrows, random, i) && r.error == ArrowTransform(arrows[i], random(i)).error
      ensures r.Success? ==>
        && r.value == |arrows|
        && transforms == Upsert(old(transforms), BuiltAll(arrows, random))
        && changeStream == EmitAll(old(changeStream), AddedChanges(BuiltAll(arrows, random)))
    {
      var built := CreateArrowTransforms(arrows, random);
      if built.Failure? {
        return Failure(built.error);
      }
      var ts := built.value;
      for i := 0 to |ts|
        invariant Valid()
        invariant transforms == Upsert(old(transforms), ts[..i])
        invariant changeStream == EmitAll(old(changeStream), AddedChanges(ts[..i]))
      {
        var t := ts[i];
        var id := UUIDFromBytes(t.uuid).value;
        UpsertPrefixStep(old(transforms), ts, i);
        AddedPrefixStep(old(changeStream), ts, i);
        StoreKeepsKeyedByIdentity(transforms, t);
        transforms := transforms[String(id) := t];
        EmitChange(AddedChange(t));
      }
      assert ts[..|ts|] == ts;
      return Success(|ts|);
    }

    /**
     * `clear`: visits every key once, in the map's (unspecified) order `order`, queueing a
     * REMOVED event carrying the identity parsed back from the key; then empties the map
     * and returns how many records it held.
     */
    method Clear() returns (count: nat, ghost order: seq<string>)
      requires Valid()
      modifies this
      ensures Valid()
      ensures count == |old(transforms)| == |order|
      ensures Enumerates(order, old(transforms).Keys)
      ensures transforms == map[]
      ensures changeStream == EmitAll(old(changeStream), RemovedFor(order, old(transforms)))
    {
      count := |transforms|;
      var remaining := transforms.Keys;
      order := [];
      while remaining != {}
        invariant Valid()
        invariant transforms == old(transforms)
        invariant PartlyEnumerated(order, remaining, transforms.Keys)
        invariant changeStream == EmitAll(old(changeStream), RemovedFor(order, transforms))
        decreases |remaining|
      {
        var id :| id in remaining;
        ParseKey(transforms, id);
        var parsedId := Parse(id).value;
        RemovedStep(old(changeStream), order, transforms, id);
        EnumerationStep(order, remaining, transforms.Keys, id);
        EmitChange(RemovedChange(Bytes(parsedId)));
        order := order + [id];
        remaining := remaining - {id};
      }
      EnumerationDone(order, transforms.Keys);
      transforms := map[];
    }

    /** `GetTransform`: see `Find`. */
    method GetTransform(id: seq<Byte>) returns (r: Result<Transform, Error>)
      requires Valid()
      ensures r == Find(transforms, id)
    {
      r := Find(transforms, id);
    }

    /**
     * `ListUUIDs`: one identity per stored record, in the map's (unspecified) order, each
     * 16 bytes long and no two alike.
     */
    method ListUUIDs() returns (uuids: seq<seq<Byte>>, ghost order: seq<string>)
      requires Valid()
      ensures Enumerates(order, transforms.Keys)
      ensures |uuids| == |order| == |transforms|
      ensures forall i | 0 <= i < |uuids| :: |uuids[i]| == 16 && uuids[i] == transforms[order[i]].uuid
      ensures forall i, j | 0 <= i < j < |uuids| :: uuids[i] != uuids[j]
    {
      uuids := [];
      order := [];
      var remaining := transforms.Keys;
      while remaining != {}
        invariant PartlyEnumerated(order, remaining, transforms.Keys)
        invariant |uuids| == |order|
        invariant forall i | 0 <= i < |order| :: |uuids[i]| == 16 && uuids[i] == transforms[order[i]].uuid
        decreases |remaining|
      {
        var key :| key in remaining;
        var parsedId := UUIDFromBytes(transforms[key].uuid).value;
        EnumerationStep(order, remaining, transforms.Keys, key);
        uuids := uuids + [Bytes(parsedId)];
        order := order + [key];
        remaining := remaining - {key};
      }
      EnumerationDone(order, transforms.Keys);
      forall i, j | 0 <= i < j < |uuids| ensures uuids[i] != uuids[j] {
        assert order[i] == String(uuids[i]) && order[j] == String(uuids[j]);
      }
    }

    /**
     * `updateArrowColor`: an unknown key changes nothing; a known one has only its
     * metadata replaced by an arrow of the new colour, and an UPDATED event carrying
     * just the identity and the new metadata is queued.
     */
    method UpdateArrowColor(id: string, newColor: Color)
      requires Valid()
      modifies this
      ensures Valid()
      ensures id !in old(transforms) ==> transforms == old(transforms) && changeStream == old(changeStream)
      ensures id in old(transforms) ==>
        && transforms == old(transforms)[id := old(transforms)[id].(metadata := Some(ArrowMetadata(newColor)))]
        && changeStream == Emit(old(changeStream), MetadataUpdatedChange(old(transforms)[id].uuid, ArrowMetadata(newColor)))
    {
      if id !in transforms {
        return;
      }
      var transform := transforms[id];
      var metadata := ArrowMetadata(newColor);
      transforms := transforms[id := transform.(metadata := Some(metadata))];
      EmitChange(MetadataUpdatedChange(transform.uuid, metadata));
    }

    /**
     * `DoCommand`: "draw" is looked at before "clear". A draw payload that does not parse
     * is reported as `{success: false, error}` with the store untouched. Parsed arrows
     * carry no identity, so drawing them always succeeds (the error branch after `draw`
     * cannot be taken) and the reply is the number of arrows added; "clear" replies with
     * the number removed. Any other command is unknown.
     */
    method DoCommand(cmd: map<string, Value>, random: nat -> UUID) returns (reply: Reply)
      requires Valid()
      modifies this
      ensures Valid()
      ensures "draw" in cmd && !ParsesAll(cmd["draw"]) ==>
        && transforms == old(transforms)
        && changeStream == old(changeStream)
        && exists e :: ParseArrowsError(cmd["draw"], e) && reply == Failed(Message(e))
      ensures "draw" in cmd && ParsesAll(cmd["draw"]) ==>
        && BuildsAll(ParsedAll(cmd["draw"]), random)
        && var built := BuiltAll(ParsedAll(cmd["draw"]), random);
        && reply == Succeeded(map["arrows_added" := |cmd["draw"].items|])
        && transforms == Upsert(old(transforms), built)
        && changeStream == EmitAll(old(changeStream), AddedChanges(built))
      ensures "draw" !in cmd && "clear" in cmd ==>
        && reply == Succeeded(map["arrows_removed" := |old(transforms)|])
        && transforms == map[]
        && exists order :: Enumerates(order, old(transforms).Keys) &&
             changeStream == EmitAll(old(changeStream), RemovedFor(order, old(transforms)))
      ensures "draw" !in cmd && "clear" !in cmd ==>
        && reply == Unknown("Unknown command")
        && transforms == old(transforms)
        && changeStream == old(changeStream)
    {
      if "draw" in cmd {
        var arrows := ParseArrows(cmd["draw"]);
        if arrows.Failure? {
          return Failed(Message(arrows.error));
        }
        ParsedArrowsBuild(arrows.value, random);
        var count := Draw(arrows.value, random);
        return Succeeded(map["arrows_added" := count.value]);
      }
      if "clear" in cmd {
        var count, order := Clear();
        return Succeeded(map["arrows_removed" := count]);
      }
      return Unknown("Unknown command");
    }
  }

  /** The records configured so far: the step from the first `i` arrows to the first `i + 1`. */
  lemma ConfiguredStep(conf: seq<Arrow>, random: nat -> UUID, i: nat)
    requires i < |conf|
    ensures ArrowTransform(conf[i], random(i)).Success? ==>
      Configured(conf[..i + 1], random) == Configured(conf[..i], random) + [ArrowTransform(conf[i], random(i)).value]
    ensures ArrowTransform(conf[i], random(i)).Failure? ==>
      Configured(conf[..i + 1], random) == Configured(conf[..i], random)
  {
    assert conf[..i + 1][..i] == conf[..i];
  }

  /** Drawing a one-arrow batch: it builds exactly when the arrow does, and then stores and announces that one record. */
  lemma DrawOne(m: map<string, Transform>, q: seq<Change>, a: Arrow, gen: nat -> UUID)
    ensures BuildsAll([a], gen) <==> ArrowTransform(a, gen(0)).Success?
    ensures ArrowTransform(a, gen(0)).Success? ==>
      var t := ArrowTransform(a, gen(0)).value;
      && BuiltAll([a], gen) == [t]
      && Upsert(m, [t]) == m[Key(t) := t]
      && EmitAll(q, AddedChanges([t])) == Emit(q, AddedChange(t))
  {
    if ArrowTransform(a, gen(0)).Success? {
      var t := ArrowTransform(a, gen(0)).value;
      UpsertSnoc(m, [], t);
      assert [] + [t] == [t];
      assert AddedChanges([t]) == [AddedChange(t)];
    }
  }

  /** The ADDED events of a batch extended by one record. */
  lemma AddedSnoc(ts: seq<Transform>, t: Transform)
    ensures AddedChanges(ts + [t]) == AddedChanges(ts) + [AddedChange(t)]
  {
  }

  /**
   * Drawing parsed arrows always succeeds and, afterwards, each record is found under
   * the identity generated for the last arrow carrying it.
   */
  lemma DrawnArrowsAreFound(m: map<string, Transform>, arrows: seq<Arrow>, random: nat -> UUID, i: int)
    requires KeyedByIdentity(m)
    requires forall j | 0 <= j < |arrows| :: arrows[j].uuid == ""
    requires 0 <= i < |arrows|
    requires forall j | i < j < |arrows| :: GenerateUUID(random(j)) != GenerateUUID(random(i))
    ensures BuildsAll(arrows, random)
    ensures KeyedByIdentity(Upsert(m, BuiltAll(arrows, random)))
    ensures Find(Upsert(m, BuiltAll(arrows, random)), GenerateUUID(random(i))) == Success(BuiltAll(arrows, random)[i])
  {
    ParsedArrowsBuild(arrows, random);
    var ts := BuiltAll(arrows, random);
    assert LastWithIdentity(ts, i);
    FindAfterUpsert(m, ts, i);
  }
}
