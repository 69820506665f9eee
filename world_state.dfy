/**
 * The records the three world-state services store and stream: `commonPB.Transform`,
 * `worldstatestore.TransformChange`, the bounded change queue (a buffered channel of
 * capacity 100 written with a non-blocking send) and the DoCommand reply.
 */
module WorldState {
  import opened GoValues
  import opened Wrappers
  import opened LibPose
  import opened LibColor

  datatype PoseInFrame = PoseInFrame(referenceFrame: string, pose: Pose)

  /** The metadata struct: `{shape: "arrow", color: {r, g, b}}` for arrows, `{color: {r, g, b}}` for meshes. */
  datatype Metadata = Metadata(shape: Option<string>, color: Color)

  /** The mesh geometry produced by the external PLY loader; its content is opaque here. */
  datatype Geometry = Geometry(payload: seq<Byte>)

  /**
   * A transform record. Fields a protobuf message leaves unset are "" or None
   * (REMOVED and UPDATED events carry partial records).
   */
  datatype Transform = Transform(
    referenceFrame: string,
    poseInObserverFrame: Option<PoseInFrame>,
    uuid: seq<Byte>,
    physicalObject: Option<Geometry>,
    metadata: Option<Metadata>)

  function ArrowMetadata(c: Color): Metadata {
    Metadata(Some("arrow"), c)
  }

  datatype ChangeType = Added | Updated | Removed

  datatype Change = Change(changeType: ChangeType, transform: Transform, updatedFields: seq<string>)

  function AddedChange(t: Transform): Change {
    Change(Added, t, [])
  }

  /** A REMOVED event carries a record holding only the identity. */
  function RemovedChange(id: seq<Byte>): Change {
    Change(Removed, Transform("", None, id, None, None), [])
  }

  /** The `updateArrowColor` event: only uuid and metadata set, and "metadata" as the one updated field. */
  function MetadataUpdatedChange(id: seq<Byte>, m: Metadata): Change {
    Change(Updated, Transform("", None, id, None, Some(m)), ["metadata"])
  }

  /** The buffer size of every service's `changeStream` channel. */
  const ChangeStreamCapacity: nat := 100

  /** `emitChange`: a non-blocking send, so a full queue drops the event. */
  function Emit(q: seq<Change>, c: Change): seq<Change> {
    if |q| < ChangeStreamCapacity then q + [c] else q
  }

  /** Emitting a sequence of events one after another. */
  function EmitAll(q: seq<Change>, cs: seq<Change>): seq<Change>
    decreases |cs|
  {
    if cs == [] then q else EmitAll(Emit(q, cs[0]), cs[1..])
  }

  function Min(a: int, b: int): int {
    if a <= b then a else b
  }

  /**
   * The drop-on-full policy as a whole: the queue keeps what it held and gains, in
   * order, as many of the new events as fit; the rest are lost. Nothing already
   * queued is ever displaced and the capacity is never exceeded.
   */
  lemma {:induction false} EmitAllKeepsWhatFits(q: seq<Change>, cs: seq<Change>)
    requires |q| <= ChangeStreamCapacity
    ensures EmitAll(q, cs) == q + cs[..Min(|cs|, ChangeStreamCapacity - |q|)]
    ensures |EmitAll(q, cs)| <= ChangeStreamCapacity
    decreases |cs|
  {
    if cs != [] {
      var q' := Emit(q, cs[0]);
      EmitAllKeepsWhatFits(q', cs[1..]);
      if |q| < ChangeStreamCapacity {
        assert q' == q + [cs[0]];
        assert [cs[0]] + cs[1..][..Min(|cs| - 1, ChangeStreamCapacity - |q'|)] == cs[..Min(|cs|, ChangeStreamCapacity - |q|)];
      } else {
        assert EmitAll(q', cs[1..]) == q;
      }
    }
  }

  /** Emitting one more event after a batch is emitting the longer batch. */
  lemma {:induction false} EmitAllSnoc(q: seq<Change>, cs: seq<Change>, c: Change)
    ensures EmitAll(q, cs + [c]) == Emit(EmitAll(q, cs), c)
    decreases |cs|
  {
    if cs == [] {
      assert [] + [c] == [c];
    } else {
      assert (cs + [c])[0] == cs[0];
      assert (cs + [c])[1..] == cs[1..] + [c];
      EmitAllSnoc(Emit(q, cs[0]), cs[1..], c);
    }
  }

  /** `order` lists every element of `keys` exactly once: a Go map range visits each key once, in no fixed order. */
  ghost predicate Enumerates<K>(order: seq<K>, keys: set<K>) {
    && (forall i, j | 0 <= i < j < |order| :: order[i] != order[j])
    && (forall i | 0 <= i < |order| :: order[i] in keys)
    && (forall k | k in keys :: k in order)
  }

  /**
   * A map range in progress: `order` lists, without repeats, the keys visited so far,
   * and `remaining` holds the keys still to visit.
   */
  ghost predicate PartlyEnumerated<K>(order: seq<K>, remaining: set<K>, keys: set<K>) {
    && remaining <= keys
    && (forall i | 0 <= i < |order| :: order[i] in keys && order[i] !in remaining)
    && (forall i, j | 0 <= i < j < |order| :: order[i] != order[j])
    && (forall k | k in keys && k !in remaining :: k in order)
  }

  lemma EnumerationStep<K>(order: seq<K>, remaining: set<K>, keys: set<K>, k: K)
    requires PartlyEnumerated(order, remaining, keys)
    requires k in remaining
    ensures PartlyEnumerated(order + [k], remaining - {k}, keys)
  {
  }

  /** A finished range has visited every key exactly once. */
  lemma EnumerationDone<K>(order: seq<K>, keys: set<K>)
    requires PartlyEnumerated(order, {}, keys)
    ensures Enumerates(order, keys)
    ensures |order| == |keys|
  {
    EnumerationLength(order, keys);
  }

  /** An enumeration has exactly one entry per key. */
  lemma {:induction false} EnumerationLength<K>(order: seq<K>, keys: set<K>)
    requires Enumerates(order, keys)
    ensures |order| == |keys|
    decreases |order|
  {
    if order != [] {
      var last := order[|order| - 1];
      var rest := order[..|order| - 1];
      assert Enumerates(rest, keys - {last}) by {
        forall k | k in keys - {last} ensures k in rest {
          var i :| 0 <= i < |order| && order[i] == k;
          assert i != |order| - 1;
          assert rest[i] == k;
        }
      }
      EnumerationLength(rest, keys - {last});
    }
  }

  /**
   * What DoCommand returns: `{success: true}` plus the count entries and a nil error;
   * `{success: false, error: msg}` together with that error; or a nil map with an error
   * for an unrecognised command.
   */
  datatype Reply =
    | Succeeded(counts: map<string, int>)
    | Failed(error: string)
    | Unknown(error: string)
}
