/**
 * The actor store itself (src/ActorStore.js): a bucket of actor records with
 * their index tags, the two-record `store`, `fetch`, and `findAncestor` run
 * as rounds of lookups over an ancestry object that it grows in place.
 */
module Actors {
  import opened Wrappers
  import opened Strings
  import opened ActorRecords
  import opened Ancestry
  import opened Properties

  /** The options object of the constructor; only `actorBucket` is read. */
  datatype ActorStoreConfig = ActorStoreConfig(actorBucket: Option<string>)

  /** `config.actorBucket || type.toLowerCase()`, with a missing config read as `{}`. */
  function ActorBucketName(storeType: string, config: Option<ActorStoreConfig>): (r: string)
    ensures config.Some? && Truthy(config.value.actorBucket) ==> r == config.value.actorBucket.value
    ensures !(config.Some? && Truthy(config.value.actorBucket)) ==> r == Lower(storeType)
  {
    if config.Some? && Truthy(config.value.actorBucket) then config.value.actorBucket.value
    else Lower(storeType)
  }

  /**
   * The `_.reduce` over the siblings that seeds the ancestry object
   * (src/ActorStore.js:113-119): each sibling id gets its list, in the order
   * the ids were first set.
   */
  method SeedSiblings(siblings: seq<ActorRecord>) returns (l: Lists, o: seq<string>)
    ensures (l, o) == Seed(siblings)
  {
    l, o := map[], [];
    var i := 0;
    while i < |siblings|
      invariant 0 <= i <= |siblings|
      invariant (l, o) == Seed(siblings[..i])
    {
      var s := siblings[i];
      var k := SiblingKey(s);
      SeedPrefix(siblings, i);
      if k !in l {
        o := o + [k];
      }
      l := l[k := InitialList(s)];
      i := i + 1;
    }
    assert siblings[..|siblings|] == siblings;
  }

  /**
   * The ancestry object of one `findAncestor` call: a list per sibling id,
   * and the order in which its properties are enumerated. Rounds push onto
   * the lists in place.
   */
  class AncestryObject {
    var lists: Lists
    var order: seq<string>

    ghost predicate Valid()
      reads this
    {
      WellFormed(lists, order)
    }

    /**
     * The object seeded by `SeedSiblings`, whose properties are then
     * enumerated in `PropertyOrder` of the order they were set in.
     */
    constructor (siblings: seq<ActorRecord>)
      ensures Valid()
      ensures lists == Seed(siblings).0 && order == PropertyOrder(Seed(siblings).1)
    {
      var l, o := SeedSiblings(siblings);
      PropertyOrderWellFormed(l, o);
      lists := l;
      order := PropertyOrder(o);
    }

    /** `ancestry[siblingId].push(e)`. */
    method Push(siblingId: string, e: Entry)
      requires Valid() && siblingId in lists
      modifies this
      ensures Valid()
      ensures lists == old(lists)[siblingId := old(lists)[siblingId] + [e]]
      ensures order == old(order)
    {
      lists := lists[siblingId := lists[siblingId] + [e]];
    }

    /**
     * `parallel(tasks)`: each `taskFn` fetches its key and pushes the record's
     * ancestor, or 0 for a miss, a root or a sibling set, onto its list.
     */
    method RunRound(objects: Objects, tasks: seq<Task>)
      requires Valid() && forall t :: t in tasks ==> t.siblingId in lists
      modifies this
      ensures Valid()
      ensures lists == RunTasks(objects, old(lists), tasks)
      ensures order == old(order)
    {
      ghost var start := lists;
      var i := 0;
      while i < |tasks|
        invariant 0 <= i <= |tasks|
        invariant Valid() && order == old(order)
        invariant lists == RunTasks(objects, start, tasks[..i])
      {
        RunTasksPrefix(objects, start, tasks, i);
        Push(tasks[i].siblingId, NextEntry(Get(objects, tasks[i].key)));
        i := i + 1;
      }
      assert tasks[..|tasks|] == tasks;
    }

    /**
     * `_findAncestor` over the bucket `objects`, with at most `rounds` rounds
     * left: build the tasks from the open lists, reject when there are none,
     * run them, and either return what `compare` found or go one level up.
     * Over all the rounds, the lists only grow, a closed or empty list is
     * never touched, and no property appears or disappears.
     */
    method Climb(objects: Objects, actorId: string, rounds: nat) returns (r: Walked)
      requires Valid()
      modifies this
      ensures r == Walk(objects, actorId, old(lists), old(order), rounds)
      ensures Valid() && order == old(order)
      ensures Grown(old(lists), lists)
      decreases rounds
    {
      var tasks := Tasks(actorId, lists, order);
      if tasks == [] || rounds == 0 {
        WalkStops(objects, actorId, lists, order, rounds);
        r := if tasks == [] then AllClosed else RoundLimit;
      } else {
        ghost var start := lists;
        RunRound(objects, tasks);
        ClimbRound(objects, actorId, start, order, rounds, lists);
        var commonAncestor := Compare(Values(lists, order));
        if commonAncestor.Some? {
          r := Met(commonAncestor.value);
        } else {
          ghost var next := lists;
          r := Climb(objects, actorId, rounds - 1);
          GrownTransitive(start, next, lists);
        }
      }
    }
  }

  /** One `ActorStore`: its name, the actor bucket's contents and each key's index tags. */
  class ActorStore {
    const name: string
    const bucketName: string
    var objects: Objects
    var indexes: Indexes

    /** `new ActorStore(db, type, config)` over a bucket that already holds `contents`. */
    constructor (storeType: string, config: Option<ActorStoreConfig>, contents: Objects, tags: Indexes)
      ensures name == storeType && bucketName == ActorBucketName(storeType, config)
      ensures objects == contents && indexes == tags
    {
      name := storeType;
      bucketName := ActorBucketName(storeType, config);
      objects := contents;
      indexes := tags;
    }

    /** `fetch(actorId)`: the record, the sibling set, or nothing. */
    function Fetch(actorId: string): (r: Fetched)
      reads this
      ensures r.NotFound? <==> actorId !in objects || objects[actorId] == []
      ensures r.Single? ==> [r.record] == objects[actorId]
      ensures r.Siblings? ==> r.records == objects[actorId] && |r.records| > 1
    {
      Get(objects, actorId)
    }

    /**
     * `store(actorId, vectorClock, actor)`: read the current record, then put
     * the snapshot and the current record. The caller's `actor` is a value and
     * is left as it was.
     */
    method Store(actorId: string, vectorClock: Clock, actor: ActorRecord)
      modifies this
      ensures objects == StoreObjects(old(objects), actorId, vectorClock, actor)
      ensures indexes == StoreIndexes(old(indexes), actorId, vectorClock)
    {
      var working := Versioned(actorId, vectorClock, actor);
      var prior := Fetch(actorId);
      var snapshot := working;
      var snapshotId := SnapshotKey(actorId, vectorClock);
      if prior.Single? && Truthy(prior.record.vclock) {
        working := working.(vclock := prior.record.vclock);
      }
      objects := objects[snapshotId := [snapshot]];
      indexes := indexes[snapshotId := map["aggregate_id" := actorId]];
      objects := objects[actorId := [working]];
      indexes := indexes[actorId := map[]];
    }

    /**
     * `findAncestor(actorId, siblings)`, with at most `maxRounds` rounds of
     * `_findAncestor`: the fast path, then the rounds, then the lookup of the
     * common clock's snapshot.
     */
    method FindAncestor(actorId: string, siblings: seq<ActorRecord>, maxRounds: nat) returns (r: Resolution)
      ensures r == Resolve(objects, actorId, siblings, maxRounds)
    {
      var ancestry := new AncestryObject(siblings);
      var alreadyHaveIt := Compare(Values(ancestry.lists, ancestry.order));
      if alreadyHaveIt.Some? {
        return Resolved(alreadyHaveIt.value, Get(objects, CommonToId(actorId, alreadyHaveIt.value)));
      }
      var walked := ancestry.Climb(objects, actorId, maxRounds);
      match walked
      case Met(common) =>
        r := Resolved(common, Get(objects, CommonToId(actorId, common)));
      case AllClosed =>
        r := NoCommonAncestor;
      case RoundLimit =>
        r := RoundLimitReached;
    }
  }
}
