/**
 * as_arrows/module.go: the motion-plan-as-arrows service. Its configuration is checked
 * and defaulted; its store maps the raw identity bytes to a stored (identity, transform)
 * pair and is only ever cleared, since drawing a motion plan is still a stub.
 */
module AsArrows {
  import opened GoValues
  import opened Wrappers
  import opened Errors
  import opened LibColor
  import opened LibUUID
  import opened WorldState
  import AsArrowsArrow

  /** The lowest update rate accepted, exclusive. */
  const MinUpdateRateHz: real := 16.6667

  /** The service configuration; absent optional fields are None or "". */
  datatype Config = Config(motionService: string, updateRateHz: Option<real>, color: Option<Color>, parentFrame: string)

  const MotionServiceRequired := "motion_service is required"
  /** The text `%f` renders for the minimum rate. */
  const UpdateRateTooLow := "update_rate_hz must be greater than or equal to 16.666700"

  /**
   * `Config.Validate`: a missing motion service is rejected first, then a rate at or
   * below the minimum (the minimum itself included, whatever the message says); a valid
   * configuration depends on its motion service alone.
   */
  function Validate(cfg: Config): (r: Result<seq<string>, string>)
    ensures cfg.motionService == "" ==> r == Failure(MotionServiceRequired)
    ensures cfg.motionService != "" && cfg.updateRateHz.Some? && cfg.updateRateHz.value <= MinUpdateRateHz ==>
      r == Failure(UpdateRateTooLow)
    ensures r.Success? <==>
      cfg.motionService != "" && (cfg.updateRateHz.Some? ==> cfg.updateRateHz.value > MinUpdateRateHz)
    ensures r.Success? ==> r.value == [cfg.motionService]
  {
    if cfg.motionService == "" then Failure(MotionServiceRequired)
    else if cfg.updateRateHz.Some? && cfg.updateRateHz.value <= MinUpdateRateHz then Failure(UpdateRateTooLow)
    else Success([cfg.motionService])
  }

  /** Exactly the minimum rate is rejected. */
  lemma ValidateRejectsMinimumRate(motionService: string)
    requires motionService != ""
    ensures Validate(Config(motionService, Some(MinUpdateRateHz), None, "")) == Failure(UpdateRateTooLow)
  {
  }

  /** What `NewAsArrows` resolves from the configuration. */
  datatype Settings = Settings(motionService: string, color: Color, parentFrame: string, runsWorker: bool)

  /**
   * The configuration part of `NewAsArrows`: the motion service must be among the
   * available dependencies (`depError` is the framework's error text otherwise); the
   * colour defaults to black and the parent frame to "world"; a background worker runs
   * only when an update rate is given.
   */
  function Resolve(conf: Config, motionServices: set<string>, depError: string): (r: Result<Settings, string>)
    ensures r.Success? <==> conf.motionService in motionServices
    ensures r.Failure? ==> r.error == "failed to get motion service \"" + conf.motionService + "\": " + depError
    ensures r.Success? ==>
      && r.value.motionService == conf.motionService
      && (conf.color.None? ==> r.value.color == AsArrowsArrow.Black)
      && (conf.color.Some? ==> r.value.color == conf.color.value)
      && (conf.parentFrame == "" ==> r.value.parentFrame == "world")
      && (conf.parentFrame != "" ==> r.value.parentFrame == conf.parentFrame)
      && (r.value.runsWorker <==> conf.updateRateHz.Some?)
  {
    if conf.motionService !in motionServices then
      Failure("failed to get motion service \"" + conf.motionService + "\": " + depError)
    else
      var color := if conf.color.None? then AsArrowsArrow.Black else conf.color.value;
      var parentFrame := if conf.parentFrame == "" then "world" else conf.parentFrame;
      Success(Settings(conf.motionService, color, parentFrame, conf.updateRateHz.Some?))
  }

  /** A record of the store: the identity and its transform. */
  datatype StoredTransform = StoredTransform(uuid: UUID, transform: Transform)

  /** The REMOVED events for the keys in `order`, each carrying the key's raw bytes. */
  function RemovedKeys(order: seq<seq<Byte>>): (cs: seq<Change>)
    ensures |cs| == |order|
    ensures forall i | 0 <= i < |order| :: cs[i] == RemovedChange(order[i])
  {
    seq(|order|, i requires 0 <= i < |order| => RemovedChange(order[i]))
  }

  lemma RemovedKeysStep(q: seq<Change>, order: seq<seq<Byte>>, k: seq<Byte>)
    ensures EmitAll(q, RemovedKeys(order + [k])) == Emit(EmitAll(q, RemovedKeys(order)), RemovedChange(k))
  {
    assert RemovedKeys(order + [k]) == RemovedKeys(order) + [RemovedChange(k)];
    EmitAllSnoc(q, RemovedKeys(order), RemovedChange(k));
  }

  /**
   * The component name and execution id a "draw_motion_plan" command carries: each is
   * taken when present as a string and is "" otherwise, and both are "" when the
   * parameters are not a map.
   */
  function MotionPlanRequest(params: Value): (r: (string, string))
    ensures !IsMap(params) ==> r == ("", "")
    ensures IsMap(params) && Lookup(Entries(params), "component_name").Str? ==> r.0 == Lookup(Entries(params), "component_name").s
    ensures IsMap(params) && !Lookup(Entries(params), "component_name").Str? ==> r.0 == ""
    ensures IsMap(params) && Lookup(Entries(params), "execution_id").Str? ==> r.1 == Lookup(Entries(params), "execution_id").s
    ensures IsMap(params) && !Lookup(Entries(params), "execution_id").Str? ==> r.1 == ""
  {
    if !IsMap(params) then ("", "")
    else
      var m := Entries(params);
      var componentName := if Lookup(m, "component_name").Str? then Lookup(m, "component_name").s else "";
      var executionID := if Lookup(m, "execution_id").Str? then Lookup(m, "execution_id").s else "";
      (componentName, executionID)
  }

  class AsArrowsService {
    const motionService: string
    const color: Color
    const parentFrame: string
    /** `transforms`: raw identity bytes (a Go string of bytes) to stored record. */
    var transforms: map<seq<Byte>, StoredTransform>
    /** The buffered `changeStream` channel, oldest event first. */
    var changeStream: seq<Change>

    ghost predicate Valid()
      reads this
    {
      |changeStream| <= ChangeStreamCapacity
    }

    /** `NewAsArrows` once the configuration is resolved: the resolved settings, an empty store and queue. */
    constructor (settings: Settings)
      ensures Valid()
      ensures motionService == settings.motionService && color == settings.color && parentFrame == settings.parentFrame
      ensures transforms == map[] && changeStream == []
    {
      motionService := settings.motionService;
      color := settings.color;
      parentFrame := settings.parentFrame;
      transforms := map[];
      changeStream := [];
    }

    /** `emitChange`: a non-blocking send; when the queue is full the event is dropped. */
    method EmitChange(c: Change)
      requires Valid()
      modifies this
      ensures Valid()
      ensures transforms == old(transforms)
      ensures changeStream == Emit(old(changeStream), c)
    {
      if |changeStream| < ChangeStreamCapacity {
        changeStream := changeStream + [c];
      }
    }

    /** `GetTransform`: the identity bytes are the key as they are, with no length check. */
    method GetTransform(id: seq<Byte>) returns (r: Result<Transform, Error>)
      ensures id in transforms ==> r == Success(transforms[id].transform)
      ensures id !in transforms ==> r == Failure(TransformNotFound(id))
    {
      if id !in transforms {
        return Failure(TransformNotFound(id));
      }
      return Success(transforms[id].transform);
    }

    /** `ListUUIDs`: the stored identity of every record, in the map's (unspecified) order. */
    method ListUUIDs() returns (uuids: seq<seq<Byte>>, ghost order: seq<seq<Byte>>)
      ensures Enumerates(order, transforms.Keys)
      ensures |uuids| == |order| == |transforms|
      ensures forall i | 0 <= i < |uuids| :: |uuids[i]| == 16 && uuids[i] == Bytes(transforms[order[i]].uuid)
      ensures forall i | 0 <= i < |uuids| :: exists k | k in transforms :: uuids[i] == Bytes(transforms[k].uuid)
      ensures forall k | k in transforms :: Bytes(transforms[k].uuid) in uuids
    {
      uuids := [];
      order := [];
      var remaining := transforms.Keys;
      while remaining != {}
        invariant PartlyEnumerated(order, remaining, transforms.Keys)
        invariant |uuids| == |order|
        invariant forall i | 0 <= i < |order| :: |uuids[i]| == 16 && uuids[i] == Bytes(transforms[order[i]].uuid)
        decreases |remaining|
      {
        var key :| key in remaining;
        EnumerationStep(order, remaining, transforms.Keys, key);
        uuids := uuids + [Bytes(transforms[key].uuid)];
        order := order + [key];
        remaining := remaining - {key};
      }
      EnumerationDone(order, transforms.Keys);
      forall k | k in transforms ensures Bytes(transforms[k].uuid) in uuids {
        var i :| 0 <= i < |order| && order[i] == k;
        assert uuids[i] == Bytes(transforms[k].uuid);
      }
    }

    /** `drawMotionPlan`: a stub that draws nothing and reports zero arrows. */
    method DrawMotionPlan(componentName: string, executionID: string) returns (count: nat)
      ensures count == 0
    {
      count := 0;
    }

    /**
     * `clearAllArrows`: one REMOVED event per key, carrying the key's raw bytes, in the
     * map's (unspecified) order; afterwards the map is empty and the prior count is returned.
     */
    method ClearAllArrows() returns (count: nat, ghost order: seq<seq<Byte>>)
      requires Valid()
      modifies this
      ensures Valid()
      ensures count == |old(transforms)| == |order|
      ensures Enumerates(order, old(transforms).Keys)
      ensures transforms == map[]
      ensures changeStream == EmitAll(old(changeStream), RemovedKeys(order))
    {
      count := |transforms|;
      var remaining := transforms.Keys;
      order := [];
      while remaining != {}
        invariant Valid()
        invariant transforms == old(transforms)
        invariant PartlyEnumerated(order, remaining, transforms.Keys)
        invariant changeStream == EmitAll(old(changeStream), RemovedKeys(order))
        decreases |remaining|
      {
        var uuid :| uuid in remaining;
        RemovedKeysStep(old(changeStream), order, uuid);
        EnumerationStep(order, remaining, transforms.Keys, uuid);
        EmitChange(RemovedChange(uuid));
        order := order + [uuid];
        remaining := remaining - {uuid};
      }
      EnumerationDone(order, transforms.Keys);
      transforms := map[];
    }

    /**
     * `DoCommand`: "draw_motion_plan" (looked at first) always succeeds with zero arrows
     * added; "clear_arrows" replies with the number removed; anything else is unknown.
     */
    method DoCommand(cmd: map<string, Value>) returns (reply: Reply)
      requires Valid()
      modifies this
      ensures Valid()
      ensures "draw_motion_plan" in cmd ==>
        && reply == Succeeded(map["arrows_added" := 0])
        && transforms == old(transforms) && changeStream == old(changeStream)
      ensures "draw_motion_plan" !in cmd && "clear_arrows" in cmd ==>
        && reply == Succeeded(map["arrows_removed" := |old(transforms)|])
        && transforms == map[]
        && exists order :: Enumerates(order, old(transforms).Keys) &&
             changeStream == EmitAll(old(changeStream), RemovedKeys(order))
      ensures "draw_motion_plan" !in cmd && "clear_arrows" !in cmd ==>
        && reply == Unknown("unknown command")
        && transforms == old(transforms) && changeStream == old(changeStream)
    {
      if "draw_motion_plan" in cmd {
        var request := MotionPlanRequest(cmd["draw_motion_plan"]);
        var count := DrawMotionPlan(request.0, request.1);
        return Succeeded(map["arrows_added" := count]);
      }
      if "clear_arrows" in cmd {
        var count, order := ClearAllArrows();
        return Succeeded(map["arrows_removed" := count]);
      }
      return Unknown("unknown command");
    }
  }
}
