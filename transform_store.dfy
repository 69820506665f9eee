/**
 * What the drawarrows and drawmesh services share: a map from `id.String()` to the
 * transform with that identity, the batch upsert `draw` performs on it, and the
 * REMOVED events `clear` emits for it.
 */
module TransformStore {
  import opened GoValues
  import opened Wrappers
  import opened Errors
  import opened LibUUID
  import opened WorldState

  /** Every record sits under the text form of its own 16-byte identity. */
  ghost predicate KeyedByIdentity(m: map<string, Transform>) {
    forall k | k in m :: |m[k].uuid| == 16 && k == String(m[k].uuid)
  }

  predicate HasIdentity(t: Transform) {
    |t.uuid| == 16
  }

  /** The key `draw` stores a record under: `id.String()`. */
  function Key(t: Transform): string
    requires HasIdentity(t)
  {
    String(t.uuid)
  }

  /** Map updates applied in order: a later pair replaces an earlier one with the same key. */
  function UpdateAll(m: map<string, Transform>, kvs: seq<(string, Transform)>): map<string, Transform> {
    if kvs == [] then m else UpdateAll(m, kvs[..|kvs| - 1])[kvs[|kvs| - 1].0 := kvs[|kvs| - 1].1]
  }

  /** Some pair of the batch has key `k`. */
  predicate Mentions(kvs: seq<(string, Transform)>, k: string) {
    exists i | 0 <= i < |kvs| :: kvs[i].0 == k
  }

  /** After the updates, the keys are the old keys and the batch's keys; a key the batch does not mention keeps its value. */
  lemma {:induction false} UpdateAllKeys(m: map<string, Transform>, kvs: seq<(string, Transform)>)
    ensures forall k :: k in UpdateAll(m, kvs) <==> (k in m || Mentions(kvs, k))
    ensures forall k | k in m && !Mentions(kvs, k) :: UpdateAll(m, kvs)[k] == m[k]
  {
    if kvs != [] {
      var init := kvs[..|kvs| - 1];
      UpdateAllKeys(m, init);
      forall k | k != kvs[|kvs| - 1].0
        ensures Mentions(kvs, k) <==> Mentions(init, k)
      {
        if Mentions(init, k) {
          var i :| 0 <= i < |init| && init[i].0 == k;
          assert kvs[i] == init[i];
        }
        if Mentions(kvs, k) {
          var i :| 0 <= i < |kvs| && kvs[i].0 == k;
          assert init[i] == kvs[i];
        }
      }
      assert Mentions(kvs, kvs[|kvs| - 1].0);
    }
  }

  /** The last pair of the batch with a given key decides that key's value. */
  lemma {:induction false} UpdateAllStoresLast(m: map<string, Transform>, kvs: seq<(string, Transform)>, i: int)
    requires 0 <= i < |kvs|
    requires forall j | i < j < |kvs| :: kvs[j].0 != kvs[i].0
    ensures kvs[i].0 in UpdateAll(m, kvs) && UpdateAll(m, kvs)[kvs[i].0] == kvs[i].1
  {
    var n := |kvs| - 1;
    if i < n {
      var init := kvs[..n];
      assert init[i] == kvs[i];
      forall j | i < j < |init| ensures init[j].0 != init[i].0 {
        assert init[j] == kvs[j];
      }
      UpdateAllStoresLast(m, init, i);
    }
  }

  /** The batch as (key, record) pairs. */
  function Keyed(ts: seq<Transform>): (kvs: seq<(string, Transform)>)
    requires forall i | 0 <= i < |ts| :: HasIdentity(ts[i])
    ensures |kvs| == |ts|
    ensures forall i | 0 <= i < |ts| :: kvs[i] == (Key(ts[i]), ts[i])
  {
    seq(|ts|, i requires 0 <= i < |ts| && HasIdentity(ts[i]) => (Key(ts[i]), ts[i]))
  }

  /** Storing a batch one record after another under `id.String()`. */
  function Upsert(m: map<string, Transform>, ts: seq<Transform>): map<string, Transform>
    requires forall i | 0 <= i < |ts| :: HasIdentity(ts[i])
  {
    UpdateAll(m, Keyed(ts))
  }

  /** Storing one more record after a batch is storing the longer batch. */
  lemma UpsertSnoc(m: map<string, Transform>, ts: seq<Transform>, t: Transform)
    requires forall i | 0 <= i < |ts| :: HasIdentity(ts[i])
    requires HasIdentity(t)
    ensures Upsert(m, ts + [t]) == Upsert(m, ts)[Key(t) := t]
  {
    var kvs := Keyed(ts + [t]);
    assert kvs[..|kvs| - 1] == Keyed(ts);
  }

  /** Storing the records of a batch one by one: the step from the first `i` to the first `i + 1`. */
  lemma UpsertPrefixStep(m: map<string, Transform>, ts: seq<Transform>, i: nat)
    requires forall j | 0 <= j < |ts| :: HasIdentity(ts[j])
    requires i < |ts|
    ensures Upsert(m, ts[..i + 1]) == Upsert(m, ts[..i])[Key(ts[i]) := ts[i]]
  {
    assert ts[..i + 1] == ts[..i] + [ts[i]];
    UpsertSnoc(m, ts[..i], ts[i]);
  }

  /** `i` is the last record of the batch with its identity. */
  predicate LastWithIdentity(ts: seq<Transform>, i: int)
    requires forall j | 0 <= j < |ts| :: HasIdentity(ts[j])
  {
    0 <= i < |ts| && forall j | i < j < |ts| :: ts[j].uuid != ts[i].uuid
  }

  /** The last record of the batch with a given identity is the one stored under it. */
  lemma UpsertStoresLast(m: map<string, Transform>, ts: seq<Transform>, i: int)
    requires forall j | 0 <= j < |ts| :: HasIdentity(ts[j])
    requires LastWithIdentity(ts, i)
    ensures Key(ts[i]) in Upsert(m, ts) && Upsert(m, ts)[Key(ts[i])] == ts[i]
  {
    var kvs := Keyed(ts);
    forall j | i < j < |kvs| ensures kvs[j].0 != kvs[i].0 {
      StringInjective(ts[j].uuid, ts[i].uuid);
    }
    UpdateAllStoresLast(m, kvs, i);
  }

  /** Storing one record under its own key keeps the store keyed by identity. */
  lemma StoreKeepsKeyedByIdentity(m: map<string, Transform>, t: Transform)
    requires KeyedByIdentity(m)
    requires HasIdentity(t)
    ensures KeyedByIdentity(m[Key(t) := t])
  {
  }

  /** The upsert keeps the store keyed by identity. */
  lemma {:induction false} UpsertKeyedByIdentity(m: map<string, Transform>, ts: seq<Transform>)
    requires KeyedByIdentity(m)
    requires forall i | 0 <= i < |ts| :: HasIdentity(ts[i])
    ensures KeyedByIdentity(Upsert(m, ts))
  {
    if ts != [] {
      var init := ts[..|ts| - 1];
      UpsertKeyedByIdentity(m, init);
      UpsertSnoc(m, init, ts[|ts| - 1]);
      assert init + [ts[|ts| - 1]] == ts;
      StoreKeepsKeyedByIdentity(Upsert(m, init), ts[|ts| - 1]);
    }
  }

  /** The ADDED events of a batch, in batch order. */
  function AddedChanges(ts: seq<Transform>): (cs: seq<Change>)
    ensures |cs| == |ts|
    ensures forall i | 0 <= i < |ts| :: cs[i] == AddedChange(ts[i])
  {
    seq(|ts|, i requires 0 <= i < |ts| => AddedChange(ts[i]))
  }

  /** Queueing the ADDED events of a batch one by one: the step from the first `i` to the first `i + 1`. */
  lemma AddedPrefixStep(q: seq<Change>, ts: seq<Transform>, i: nat)
    requires i < |ts|
    ensures EmitAll(q, AddedChanges(ts[..i + 1])) == Emit(EmitAll(q, AddedChanges(ts[..i])), AddedChange(ts[i]))
  {
    assert AddedChanges(ts[..i + 1]) == AddedChanges(ts[..i]) + [AddedChange(ts[i])];
    EmitAllSnoc(q, AddedChanges(ts[..i]), AddedChange(ts[i]));
  }

  /** The REMOVED events for the keys in `order`, each carrying the identity of that key's record. */
  function RemovedFor(order: seq<string>, m: map<string, Transform>): (cs: seq<Change>)
    requires forall i | 0 <= i < |order| :: order[i] in m
    ensures |cs| == |order|
    ensures forall i | 0 <= i < |order| :: cs[i] == RemovedChange(m[order[i]].uuid)
  {
    seq(|order|, i requires 0 <= i < |order| => RemovedChange(m[order[i]].uuid))
  }

  /** Queueing the REMOVED events key by key: one more key visited is one more event offered to the queue. */
  lemma RemovedStep(q: seq<Change>, order: seq<string>, m: map<string, Transform>, k: string)
    requires forall i | 0 <= i < |order| :: order[i] in m
    requires k in m
    ensures EmitAll(q, RemovedFor(order + [k], m)) == Emit(EmitAll(q, RemovedFor(order, m)), RemovedChange(m[k].uuid))
  {
    assert RemovedFor(order + [k], m) == RemovedFor(order, m) + [RemovedChange(m[k].uuid)];
    EmitAllSnoc(q, RemovedFor(order, m), RemovedChange(m[k].uuid));
  }

  /** `clear` re-parses each key; in a store keyed by identity that gives back the record's identity. */
  lemma ParseKey(m: map<string, Transform>, k: string)
    requires KeyedByIdentity(m)
    requires k in m
    ensures Parse(k).Success? && Bytes(Parse(k).value) == m[k].uuid
  {
    ParseOfString(m[k].uuid);
  }

  /**
   * `GetTransform`: the identity must be 16 bytes (the `uuid.FromBytes` error otherwise);
   * it is looked up under its text form, and a missing record is "not found", reported
   * with the `uuid.UUID` value.
   */
  function Find(m: map<string, Transform>, id: seq<Byte>): (r: Result<Transform, Error>)
    requires KeyedByIdentity(m)
    ensures |id| != 16 ==> r == Failure(BadUUID(InvalidByteCount(|id|)))
    ensures |id| == 16 ==> (r.Success? <==> exists k | k in m :: m[k].uuid == id)
    ensures |id| == 16 && r.Failure? ==> r.error == UUIDNotFound(id)
    ensures r.Success? ==> r.value.uuid == id && r.value in m.Values
  {
    match UUIDFromBytes(id)
    case Failure(e) => Failure(BadUUID(e))
    case Success(u) =>
      assert u == id by { assert Bytes(u) == id; }
      var key := String(u);
      if key in m then
        assert m[key].uuid == id by { StringInjective(m[key].uuid, u); }
        Success(m[key])
      else
        Failure(UUIDNotFound(u))
  }

  /** After an upsert, looking up an identity of the batch gives the last record with that identity. */
  lemma FindAfterUpsert(m: map<string, Transform>, ts: seq<Transform>, i: int)
    requires KeyedByIdentity(m)
    requires forall j | 0 <= j < |ts| :: HasIdentity(ts[j])
    requires LastWithIdentity(ts, i)
    ensures KeyedByIdentity(Upsert(m, ts))
    ensures Find(Upsert(m, ts), ts[i].uuid) == Success(ts[i])
  {
    UpsertKeyedByIdentity(m, ts);
    UpsertStoresLast(m, ts, i);
  }

  /** After an upsert, an identity the batch does not carry is looked up as before. */
  lemma FindAfterUpsertElsewhere(m: map<string, Transform>, ts: seq<Transform>, id: seq<Byte>)
    requires KeyedByIdentity(m)
    requires forall j | 0 <= j < |ts| :: HasIdentity(ts[j])
    requires forall j | 0 <= j < |ts| :: ts[j].uuid != id
    ensures KeyedByIdentity(Upsert(m, ts))
    ensures Find(Upsert(m, ts), id) == Find(m, id)
  {
    UpsertKeyedByIdentity(m, ts);
    if |id| == 16 {
      var kvs := Keyed(ts);
      UpdateAllKeys(m, kvs);
      var key := String(id);
      if Mentions(kvs, key) {
        var j :| 0 <= j < |kvs| && kvs[j].0 == key;
        StringInjective(ts[j].uuid, id);
        assert false;
      }
    }
  }

  /** After one record is stored under its key, looking up its identity gives it back. */
  lemma FindAfterStore(m: map<string, Transform>, t: Transform)
    requires KeyedByIdentity(m)
    requires HasIdentity(t)
    ensures KeyedByIdentity(m[Key(t) := t])
    ensures Find(m[Key(t) := t], t.uuid) == Success(t)
  {
  }

  /** An empty store finds nothing: a 16-byte identity is "not found". */
  lemma FindInEmpty(id: seq<Byte>)
    requires |id| == 16
    ensures Find(map[], id) == Failure(UUIDNotFound(id))
  {
  }
}
