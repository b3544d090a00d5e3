/**
 * Actor records and the two writes `ActorStore.store` performs
 * (src/ActorStore.js). The actor bucket maps a key to the values stored
 * under it; more than one value is an unresolved set of siblings.
 */
module ActorRecords {
  import opened Wrappers
  import opened Strings

  /**
   * A version clock. The store treats clocks as opaque: either a string or a
   * plain object, whose JSON text is `json`.
   */
  datatype Clock = Text(text: string) | Structured(json: string)

  /** `if (x)` on a clock property. */
  predicate ClockTruthy(c: Option<Clock>) {
    c.Some? && (c.value.Structured? || c.value.text != "")
  }

  /**
   * An actor as stored: `id`, `vector` (the clock it was written at),
   * `ancestor` (the clock it was derived from), `vclock` (the key-value
   * store's own causal context) and the remaining payload properties.
   */
  datatype ActorRecord = ActorRecord(
    id: Option<string>,
    vector: Option<Clock>,
    ancestor: Option<Clock>,
    vclock: Option<string>,
    fields: map<string, string>)

  /** What `bucket.get(key)` yields: a miss (a rejected promise), one record, or siblings. */
  datatype Fetched = NotFound | Single(record: ActorRecord) | Siblings(records: seq<ActorRecord>)

  type Objects = map<string, seq<ActorRecord>>
  type Indexes = map<string, map<string, string>>

  /** `bucket.get(key)`. */
  function Get(objects: Objects, key: string): (r: Fetched)
    ensures r.NotFound? <==> key !in objects || objects[key] == []
    ensures r.Single? <==> key in objects && |objects[key]| == 1
    ensures r.Single? ==> r.record == objects[key][0]
    ensures r.Siblings? ==> r.records == objects[key]
  {
    if key !in objects || objects[key] == [] then NotFound
    else if |objects[key]| == 1 then Single(objects[key][0])
    else Siblings(objects[key])
  }

  /** What string concatenation makes of a clock: a plain object prints as "[object Object]". */
  function Concatenated(c: Clock): string {
    match c
    case Text(t) => t
    case Structured(_) => "[object Object]"
  }

  /** The key of the snapshot `store` writes: `actorId + "-" + actor.vector`. */
  function SnapshotKey(actorId: string, c: Clock): (k: string)
    ensures |k| > |actorId| && k[..|actorId|] == actorId
  {
    actorId + "-" + Concatenated(c)
  }

  /** `clockToId(actorId, clock)` for a single clock: plain objects are serialised with JSON. */
  function ClockToId(actorId: string, c: Clock): (k: string)
    ensures |k| > |actorId| && k[..|actorId|] == actorId && k[|actorId|] == '-'
  {
    actorId + "-" + (match c case Text(t) => t case Structured(j) => j)
  }

  /**
   * The working copy `store` builds from its argument: the id defaults to the
   * actor id, the old `vector` becomes the `ancestor` and the new clock is installed.
   */
  function Versioned(actorId: string, vectorClock: Clock, actor: ActorRecord): (r: ActorRecord)
    ensures r.id == (if Truthy(actor.id) then actor.id else Some(actorId))
    ensures r.ancestor == actor.vector && r.vector == Some(vectorClock)
    ensures r.vclock == actor.vclock && r.fields == actor.fields
  {
    actor.(id := if Truthy(actor.id) then actor.id else Some(actorId),
           ancestor := actor.vector,
           vector := Some(vectorClock))
  }

  /** The current record: the working copy plus the prior record's `vclock`, when there is one. */
  function WithPriorVclock(r: ActorRecord, prior: Fetched): ActorRecord {
    if prior.Single? && Truthy(prior.record.vclock) then r.(vclock := prior.record.vclock) else r
  }

  /** The bucket after `store(actorId, vectorClock, actor)`: a snapshot, then the current record. */
  function StoreObjects(objects: Objects, actorId: string, vectorClock: Clock, actor: ActorRecord): (r: Objects)
    ensures r.Keys == objects.Keys + {SnapshotKey(actorId, vectorClock), actorId}
    ensures r[actorId] == [WithPriorVclock(Versioned(actorId, vectorClock, actor), Get(objects, actorId))]
  {
    var snapshot := Versioned(actorId, vectorClock, actor);
    objects[SnapshotKey(actorId, vectorClock) := [snapshot]]
           [actorId := [WithPriorVclock(snapshot, Get(objects, actorId))]]
  }

  /** The index tags after `store`: the snapshot carries `aggregate_id`, the current record none. */
  function StoreIndexes(indexes: Indexes, actorId: string, vectorClock: Clock): (r: Indexes)
    ensures r.Keys == indexes.Keys + {SnapshotKey(actorId, vectorClock), actorId}
    ensures r[actorId] == map[]
    ensures r[SnapshotKey(actorId, vectorClock)] == map["aggregate_id" := actorId]
  {
    indexes[SnapshotKey(actorId, vectorClock) := map["aggregate_id" := actorId]][actorId := map[]]
  }

  /**
   * `store` writes exactly two keys, the snapshot and the current record, and
   * the two records agree on everything but `vclock`; only the current record
   * takes the prior record's `vclock`, and a missed prior read counts as none.
   */
  lemma StoreWritesTwoRecords(objects: Objects, indexes: Indexes, actorId: string, vectorClock: Clock, actor: ActorRecord)
    ensures var after := StoreObjects(objects, actorId, vectorClock, actor);
            var key := SnapshotKey(actorId, vectorClock);
            && after.Keys == objects.Keys + {key, actorId}
            && (forall k :: k in objects && k != key && k != actorId ==> after[k] == objects[k])
            && after[key] == [Versioned(actorId, vectorClock, actor)]
            && |after[actorId]| == 1
            && after[actorId][0] == after[key][0].(vclock := after[actorId][0].vclock)
            && after[actorId][0].vclock ==
                 (match Get(objects, actorId)
                  case Single(prior) => if Truthy(prior.vclock) then prior.vclock else actor.vclock
                  case _ => actor.vclock)
    ensures var after := StoreIndexes(indexes, actorId, vectorClock);
            var key := SnapshotKey(actorId, vectorClock);
            && after.Keys == indexes.Keys + {key, actorId}
            && (forall k :: k in indexes && k != key && k != actorId ==> after[k] == indexes[k])
            && after[key] == map["aggregate_id" := actorId]
            && after[actorId] == map[]
  {
  }

  /**
   * Two successive stores (the second payload carrying the first clock as its
   * `vector`) leave the current record at the second clock with the first as
   * its ancestor, and both snapshots in place.
   */
  lemma SuccessiveStores(objects: Objects, actorId: string, c1: string, c2: string, p1: ActorRecord, p2: ActorRecord)
    requires c1 != c2
    requires p2.vector == Some(Text(c1))
    ensures var once := StoreObjects(objects, actorId, Text(c1), p1);
            var twice := StoreObjects(once, actorId, Text(c2), p2);
            && |twice[actorId]| == 1 && |twice[actorId + "-" + c2]| == 1 && |twice[actorId + "-" + c1]| == 1
            && twice[actorId][0].vector == Some(Text(c2)) && twice[actorId][0].ancestor == Some(Text(c1))
            && twice[actorId][0].fields == p2.fields
            && twice[actorId + "-" + c2][0].vector == Some(Text(c2))
            && twice[actorId + "-" + c2][0].ancestor == Some(Text(c1))
            && twice[actorId + "-" + c2][0].fields == p2.fields
            && twice[actorId + "-" + c1][0].vector == Some(Text(c1))
            && twice[actorId + "-" + c1][0].ancestor == p1.vector
            && twice[actorId + "-" + c1][0].fields == p1.fields
  {
    assert SnapshotKey(actorId, Text(c1)) == actorId + "-" + c1;
    assert SnapshotKey(actorId, Text(c2)) == actorId + "-" + c2;
    assert (actorId + "-" + c1)[|actorId| + 1..] == c1;
    assert (actorId + "-" + c2)[|actorId| + 1..] == c2;
  }

  /** Every snapshot of a plain-object clock lands on the same key. */
  lemma StructuredSnapshotsShareKey(actorId: string, j1: string, j2: string)
    ensures SnapshotKey(actorId, Structured(j1)) == SnapshotKey(actorId, Structured(j2))
  {
  }

  /** For a string clock, a hop lookup reads the snapshot key `store` writes. */
  lemma TextHopReadsSnapshot(actorId: string, t: string)
    ensures ClockToId(actorId, Text(t)) == SnapshotKey(actorId, Text(t))
  {
  }
}
