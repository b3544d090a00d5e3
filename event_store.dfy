/**
 * The event store (src/EventStore.js): one record per event, one record per
 * event pack, the index tags each put carries, and the shaping of the two
 * query results. Ids come from a generator handing out ever larger strings.
 */
module Events {
  import opened Wrappers
  import opened Strings
  import opened Sorting
  import opened IndexQuery
  import opened ActorRecords

  /** An event as the caller passes it: an optional `id` and its other properties. */
  datatype Payload = Payload(id: Option<string>, fields: map<string, string>)

  /** The record `storeEvents` writes for one event. */
  datatype EventDoc = EventDoc(id: string, aggregateId: string, event: Payload)

  /** The record `storeEventPack` writes for one version of an actor. */
  datatype PackDoc = PackDoc(id: string, aggregateId: string, events: seq<Payload>)

  /** The index tags of one put: index name to value. */
  type Tags = map<string, string>

  /** The options object of the constructor. */
  datatype EventStoreConfig = EventStoreConfig(
    eventBucket: Option<string>,
    eventPackBucket: Option<string>,
    eventBucketType: Option<string>)

  // Bucket names

  /** `override || util.format("%s" + suffix, type.toLowerCase())`. */
  function DefaultedName(choice: Option<string>, storeType: string, suffix: string): (r: string)
    ensures Truthy(choice) ==> r == choice.value
    ensures !Truthy(choice) ==> r == Lower(storeType) + suffix
  {
    if Truthy(choice) then choice.value else Lower(storeType) + suffix
  }

  /** The event bucket's name; a missing config is read as `{}`. */
  function EventBucketName(storeType: string, config: Option<EventStoreConfig>): (r: string)
    ensures config.Some? && Truthy(config.value.eventBucket) ==> r == config.value.eventBucket.value
    ensures !(config.Some? && Truthy(config.value.eventBucket)) ==> r == Lower(storeType) + "_events"
  {
    DefaultedName(if config.Some? then config.value.eventBucket else None, storeType, "_events")
  }

  /** The event-pack bucket's name. */
  function EventPackBucketName(storeType: string, config: Option<EventStoreConfig>): (r: string)
    ensures config.Some? && Truthy(config.value.eventPackBucket) ==> r == config.value.eventPackBucket.value
    ensures !(config.Some? && Truthy(config.value.eventPackBucket)) ==> r == Lower(storeType) + "_event_packs"
  {
    DefaultedName(if config.Some? then config.value.eventPackBucket else None, storeType, "_event_packs")
  }

  /** The bucket type both buckets are opened with. */
  function BucketType(config: Option<EventStoreConfig>): (r: string)
    ensures config.Some? && Truthy(config.value.eventBucketType) ==> r == config.value.eventBucketType.value
    ensures !(config.Some? && Truthy(config.value.eventBucketType)) ==> r == "default"
  {
    if config.Some? && Truthy(config.value.eventBucketType) then config.value.eventBucketType.value
    else "default"
  }

  /** With no overrides, the two buckets of a store never share a name. */
  lemma DefaultBucketsDiffer(storeType: string)
    ensures EventBucketName(storeType, None) != EventPackBucketName(storeType, None)
  {
    assert |EventBucketName(storeType, None)| != |EventPackBucketName(storeType, None)|;
  }

  // Records and their index tags

  /** The tags of one event record: its actor, and the actor joined to the record id. */
  function EventTags(aggregateId: string, id: string): (t: Tags)
    ensures t.Keys == {"aggregate_id", "aggregate_event_id"}
    ensures t["aggregate_id"] == aggregateId
    ensures t["aggregate_event_id"] == aggregateId + "-" + id
  {
    map["aggregate_id" := aggregateId, "aggregate_event_id" := aggregateId + "-" + id]
  }

  /** The tags of one pack record: its actor, the actor joined to the version, and to the record id. */
  function PackTags(aggregateId: string, vectorClock: Clock, id: string): (t: Tags)
    ensures t.Keys == {"aggregate_id", "aggregate_clock", "aggregate_pack_id"}
    ensures t["aggregate_id"] == aggregateId
    ensures t["aggregate_clock"] == aggregateId + "-" + Concatenated(vectorClock)
    ensures t["aggregate_pack_id"] == aggregateId + "-" + id
  {
    map["aggregate_id" := aggregateId,
        "aggregate_clock" := aggregateId + "-" + Concatenated(vectorClock),
        "aggregate_pack_id" := aggregateId + "-" + id]
  }

  /** The `n` ids the generator hands out from its `from`-th on. */
  function Drawn(supply: nat -> string, from: nat, n: nat): (r: seq<string>)
    ensures |r| == n
  {
    seq(n, i requires 0 <= i < n => supply(from + i))
  }

  lemma DrawnIndex(supply: nat -> string, from: nat, n: nat)
    ensures forall i :: 0 <= i < n ==> Drawn(supply, from, n)[i] == supply(from + i)
  {
  }

  lemma DrawnSnoc(supply: nat -> string, from: nat, n: nat)
    ensures Drawn(supply, from, n + 1) == Drawn(supply, from, n) + [supply(from + n)]
  {
  }

  predicate Ascending(ids: seq<string>) {
    forall i, j :: 0 <= i < j < |ids| ==> LexLess(ids[i], ids[j])
  }

  /** The `i`-th draw comes before the `j`-th. */
  ghost predicate IdOrder(i: nat, j: nat) {
    i < j
  }

  /**
   * A generator whose every id is larger than the ones before it. A proof
   * that needs the order of two draws names them with `IdOrder`.
   */
  ghost predicate IncreasingSupply(supply: nat -> string) {
    forall i: nat, j: nat {:trigger IdOrder(i, j)} :: IdOrder(i, j) ==> LexLess(supply(i), supply(j))
  }

  lemma DrawnAscending(supply: nat -> string, from: nat, n: nat)
    requires IncreasingSupply(supply)
    ensures Ascending(Drawn(supply, from, n))
  {
    var r := Drawn(supply, from, n);
    DrawnIndex(supply, from, n);
    forall i, j | 0 <= i < j < |r|
      ensures LexLess(r[i], r[j])
    {
      assert r[i] == supply(from + i) && r[j] == supply(from + j);
      assert IdOrder(from + i, from + j);
    }
  }

  /** No id the generator hands out from its `n`-th draw on is already a key. */
  ghost predicate FreshFrom(supply: nat -> string, n: nat, keys: set<string>) {
    forall j: nat {:trigger supply(j)} :: n <= j ==> supply(j) !in keys
  }

  /** The ids drawn from a point the keys are fresh from are new keys. */
  lemma DrawnFresh(supply: nat -> string, from: nat, n: nat, keys: set<string>)
    requires FreshFrom(supply, from, keys)
    ensures forall i :: 0 <= i < n ==> Drawn(supply, from, n)[i] !in keys
  {
    DrawnIndex(supply, from, n);
  }

  /** Once the `n`-th id is drawn and stored, the keys are fresh from the next draw on. */
  lemma FreshStep(supply: nat -> string, n: nat, keys: set<string>)
    requires IncreasingSupply(supply) && FreshFrom(supply, n, keys)
    ensures FreshFrom(supply, n + 1, keys + {supply(n)})
  {
    forall j: nat | n + 1 <= j
      ensures supply(j) !in keys + {supply(n)}
    {
      assert IdOrder(n, j);
      LexLessIrreflexive(supply(n));
    }
  }

  /** Putting the ids drawn from a point the keys are fresh from leaves them fresh from after the last draw. */
  lemma PutAllFresh<V>(supply: nat -> string, from: nat, n: nat, m: map<string, V>, vals: seq<V>)
    requires IncreasingSupply(supply) && FreshFrom(supply, from, m.Keys) && |vals| == n
    ensures FreshFrom(supply, from + n, PutAll(m, Drawn(supply, from, n), vals).Keys)
  {
    var ids := Drawn(supply, from, n);
    DrawnIndex(supply, from, n);
    forall j: nat | from + n <= j
      ensures supply(j) !in PutAll(m, ids, vals).Keys
    {
      if supply(j) in KeySet(ids) {
        var i :| 0 <= i < n && ids[i] == supply(j);
        assert IdOrder(from + i, j);
        LexLessIrreflexive(supply(j));
      }
    }
  }

  /** The records `storeEvents` writes, one per event, in order. */
  function EventDocs(aggregateId: string, evs: seq<Payload>, ids: seq<string>): (r: seq<EventDoc>)
    requires |ids| == |evs|
    ensures |r| == |evs|
  {
    seq(|evs|, i requires 0 <= i < |evs| => EventDoc(ids[i], aggregateId, evs[i]))
  }

  lemma EventDocsIndex(aggregateId: string, evs: seq<Payload>, ids: seq<string>)
    requires |ids| == |evs|
    ensures forall i :: 0 <= i < |evs| ==> EventDocs(aggregateId, evs, ids)[i] == EventDoc(ids[i], aggregateId, evs[i])
  {
  }

  /** The tags of those records, in order. */
  function EventTagsAll(aggregateId: string, ids: seq<string>): (r: seq<Tags>)
    ensures |r| == |ids|
  {
    seq(|ids|, i requires 0 <= i < |ids| => EventTags(aggregateId, ids[i]))
  }

  lemma EventTagsAllIndex(aggregateId: string, ids: seq<string>)
    ensures forall i :: 0 <= i < |ids| ==> EventTagsAll(aggregateId, ids)[i] == EventTags(aggregateId, ids[i])
  {
  }

  /** The keys listed in `keys`. */
  function KeySet(keys: seq<string>): set<string> {
    set k | k in keys
  }

  /** A bucket after the puts of `vals` under `keys`, one after the other. */
  function PutAll<V>(m: map<string, V>, keys: seq<string>, vals: seq<V>): (r: map<string, V>)
    requires |keys| == |vals|
    ensures r.Keys == m.Keys + KeySet(keys)
    decreases |keys|
  {
    if keys == [] then m
    else
      var n := |keys| - 1;
      assert KeySet(keys) == KeySet(keys[..n]) + {keys[n]} by {
        assert keys == keys[..n] + [keys[n]];
      }
      PutAll(m, keys[..n], vals[..n])[keys[n] := vals[n]]
  }

  /** One more put, after the others. */
  lemma PutAllSnoc<V>(m: map<string, V>, keys: seq<string>, vals: seq<V>, k: string, v: V)
    requires |keys| == |vals|
    ensures PutAll(m, keys + [k], vals + [v]) == PutAll(m, keys, vals)[k := v]
  {
    assert (keys + [k])[..|keys|] == keys;
    assert (vals + [v])[..|vals|] == vals;
  }

  /** Puts under distinct keys: each key holds its value, every other key keeps its old one. */
  lemma {:induction false} PutAllContents<V>(m: map<string, V>, keys: seq<string>, vals: seq<V>)
    requires |keys| == |vals|
    requires forall i, j :: 0 <= i < j < |keys| ==> keys[i] != keys[j]
    ensures forall i :: 0 <= i < |keys| ==> PutAll(m, keys, vals)[keys[i]] == vals[i]
    ensures forall k :: k in m && k !in keys ==> PutAll(m, keys, vals)[k] == m[k]
    decreases |keys|
  {
    if keys != [] {
      var n := |keys| - 1;
      var prior := PutAll(m, keys[..n], vals[..n]);
      var r := PutAll(m, keys, vals);
      assert r == prior[keys[n] := vals[n]];
      PutAllContents(m, keys[..n], vals[..n]);
      forall i | 0 <= i < |keys|
        ensures r[keys[i]] == vals[i]
      {
        if i < n {
          assert keys[..n][i] == keys[i] && vals[..n][i] == vals[i];
          assert keys[i] != keys[n];
        }
      }
      forall k | k in m && k !in keys
        ensures r[k] == m[k]
      {
        assert k !in keys[..n];
      }
    }
  }

  // Queries

  /** The value each record carries in index `name`, for the records that have it. */
  function IndexValues(tags: map<string, Tags>, name: string): (values: map<string, string>)
    ensures forall k :: k in values <==> k in tags && name in tags[k]
    ensures forall k :: k in values ==> values[k] == tags[k][name]
  {
    map k | k in tags && name in tags[k] :: tags[k][name]
  }

  /** `results.docs`: the records of the hits, in hit order. */
  function DocsOf<D>(docs: map<string, D>, keys: seq<string>): (r: seq<D>)
    requires forall i :: 0 <= i < |keys| ==> keys[i] in docs
    ensures |r| == |keys|
    ensures forall i :: 0 <= i < |keys| ==> r[i] == docs[keys[i]]
  {
    seq(|keys|, i requires 0 <= i < |keys| => docs[keys[i]])
  }

  function EventId(d: EventDoc): Option<string> {
    Some(d.id)
  }

  function PayloadId(p: Payload): Option<string> {
    p.id
  }

  /** The shaping in `getEventsFor`: drop the first hit, then sort the rest by id. */
  function EventsAfter(hits: seq<EventDoc>): (r: seq<EventDoc>)
    ensures multiset(r) == multiset(if hits == [] then [] else hits[1..])
    ensures |r| == if hits == [] then 0 else |hits| - 1
    ensures Sorted(r, EventId)
  {
    var rest := if hits == [] then [] else hits[1..];
    SortByPermutes(rest, EventId);
    SortBySorted(rest, EventId);
    assert |multiset(SortBy(rest, EventId))| == |rest|;
    SortBy(rest, EventId)
  }

  /** The probe of `getEventsFor`. */
  function EventProbe(aggregateId: string, lastEventId: string): string {
    aggregateId + "-" + lastEventId
  }

  /** The hits of the open-ended range query on `aggregate_event_id`. */
  function EventHits(tags: map<string, Tags>, aggregateId: string, lastEventId: string): (r: seq<string>)
    ensures forall k :: k in r <==> k in tags && "aggregate_event_id" in tags[k] &&
                                    !LexLess(tags[k]["aggregate_event_id"], EventProbe(aggregateId, lastEventId))
  {
    RangeQuery(IndexValues(tags, "aggregate_event_id"), EventProbe(aggregateId, lastEventId))
  }

  /** `getEventsFor(aggregateId, lastEventId)` over the event bucket's records and tags. */
  function EventsSince(docs: map<string, EventDoc>, tags: map<string, Tags>, aggregateId: string, lastEventId: string): (r: seq<EventDoc>)
    requires tags.Keys <= docs.Keys
    ensures Sorted(r, EventId)
  {
    EventsAfter(DocsOf(docs, EventHits(tags, aggregateId, lastEventId)))
  }

  /**
   * What `getEventsFor` returns: the records of every hit but the first, that
   * is every record, of any actor, whose `aggregate_event_id` is at or above
   * the probe, save the lowest one.
   */
  lemma EventsSinceMembers(docs: map<string, EventDoc>, tags: map<string, Tags>, aggregateId: string, lastEventId: string)
    requires tags.Keys <= docs.Keys
    ensures var hits := EventHits(tags, aggregateId, lastEventId);
            multiset(EventsSince(docs, tags, aggregateId, lastEventId)) ==
            multiset(if hits == [] then [] else DocsOf(docs, hits)[1..])
    ensures var hits := EventHits(tags, aggregateId, lastEventId);
            forall i :: 0 < i < |hits| ==> docs[hits[i]] in EventsSince(docs, tags, aggregateId, lastEventId)
  {
    var hits := EventHits(tags, aggregateId, lastEventId);
    var found := DocsOf(docs, hits);
    forall i | 0 < i < |hits|
      ensures docs[hits[i]] in EventsSince(docs, tags, aggregateId, lastEventId)
    {
      assert found[1..][i - 1] == docs[hits[i]];
      assert docs[hits[i]] in multiset(found[1..]);
    }
  }

  /** Among increasing ids, those from the `k`-th on are the ones not below it. */
  lemma AtOrAbove(ids: seq<string>, k: nat, i: nat)
    requires Ascending(ids) && k < |ids| && i < |ids|
    ensures k <= i <==> !LexLess(ids[i], ids[k])
  {
    if i < k {
      assert LexLess(ids[i], ids[k]);
    } else if i == k {
      LexLessIrreflexive(ids[k]);
    } else {
      LexLessAsymmetric(ids[k], ids[i]);
    }
  }

  /** Increasing ids are distinct, so the `i`-th is among those from the `k`-th on exactly when `k <= i`. */
  lemma InSuffix(ids: seq<string>, k: nat, i: nat)
    requires Ascending(ids) && k <= |ids| && i < |ids|
    ensures ids[i] in ids[k..] <==> k <= i
  {
    if k <= i {
      assert ids[k..][i - k] == ids[i];
    } else if ids[i] in ids[k..] {
      var j :| 0 <= j < |ids[k..]| && ids[k..][j] == ids[i];
      assert LexLess(ids[i], ids[k + j]);
      LexLessIrreflexive(ids[i]);
    }
  }

  /**
   * An index whose keys are increasing ids, each carrying its id behind a
   * common prefix: the range query from the `k`-th value hits the ids from
   * the `k`-th on.
   */
  lemma PrefixedRange(values: map<string, string>, prefix: string, ids: seq<string>, k: nat)
    requires Ascending(ids) && k < |ids|
    requires forall x :: x in values <==> x in ids
    requires forall i :: 0 <= i < |ids| ==> values[ids[i]] == prefix + ids[i]
    ensures RangeQuery(values, prefix + ids[k]) == ids[k..]
  {
    var later := ids[k..];
    assert StrictlyOrdered(values, later) by {
      forall i, j | 0 <= i < j < |later|
        ensures Before(values, later[i], later[j])
      {
        assert later[i] == ids[k + i] && later[j] == ids[k + j];
        LexLessCommonPrefix(prefix, later[i], later[j]);
      }
    }
    forall x
      ensures x in later <==> x in values && !LexLess(values[x], prefix + ids[k])
    {
      if x in ids {
        var i :| 0 <= i < |ids| && ids[i] == x;
        LexLessCommonPrefix(prefix, x, ids[k]);
        AtOrAbove(ids, k, i);
        InSuffix(ids, k, i);
      } else {
        assert x !in later;
      }
    }
    RangeQueryIs(values, prefix + ids[k], later);
  }

  /** The `aggregate_event_id` index after one actor's events are stored under distinct ids. */
  lemma StoredEventValues(aggregateId: string, ids: seq<string>)
    requires forall i, j :: 0 <= i < j < |ids| ==> ids[i] != ids[j]
    ensures var values := IndexValues(PutAll(map[], ids, EventTagsAll(aggregateId, ids)), "aggregate_event_id");
            (forall x :: x in values <==> x in ids) &&
            forall i :: 0 <= i < |ids| ==> values[ids[i]] == aggregateId + "-" + ids[i]
  {
    PutAllContents(map[], ids, EventTagsAll(aggregateId, ids));
    EventTagsAllIndex(aggregateId, ids);
  }

  /** The range query after the `k`-th of one actor's increasing event ids hits the ids from the `k`-th on. */
  lemma StoredEventHits(aggregateId: string, ids: seq<string>, k: nat)
    requires Ascending(ids) && k < |ids|
    ensures EventHits(PutAll(map[], ids, EventTagsAll(aggregateId, ids)), aggregateId, ids[k]) == ids[k..]
  {
    forall i, j | 0 <= i < j < |ids|
      ensures ids[i] != ids[j]
    {
      LexLessIrreflexive(ids[i]);
    }
    StoredEventValues(aggregateId, ids);
    var values := IndexValues(PutAll(map[], ids, EventTagsAll(aggregateId, ids)), "aggregate_event_id");
    PrefixedRange(values, aggregateId + "-", ids, k);
  }

  /** The records stored under distinct ids, looked up from the `k`-th id on, are the ones written from the `k`-th event on. */
  lemma StoredEventDocs(aggregateId: string, evs: seq<Payload>, ids: seq<string>, k: nat)
    requires |ids| == |evs| && k < |ids|
    requires forall i, j :: 0 <= i < j < |ids| ==> ids[i] != ids[j]
    ensures var docs := PutAll(map[], ids, EventDocs(aggregateId, evs, ids));
            (forall i :: 0 <= i < |ids[k..]| ==> ids[k..][i] in docs) &&
            DocsOf(docs, ids[k..]) == EventDocs(aggregateId, evs, ids)[k..]
  {
    var docs := PutAll(map[], ids, EventDocs(aggregateId, evs, ids));
    PutAllContents(map[], ids, EventDocs(aggregateId, evs, ids));
    EventDocsIndex(aggregateId, evs, ids);
    assert forall i :: 0 <= i < |ids[k..]| ==> ids[k..][i] == ids[k + i];
  }

  /** Records written in order under increasing ids are in id order. */
  lemma EventDocsSorted(aggregateId: string, evs: seq<Payload>, ids: seq<string>)
    requires |ids| == |evs| && Ascending(ids)
    ensures Sorted(EventDocs(aggregateId, evs, ids), EventId)
  {
    var docs := EventDocs(aggregateId, evs, ids);
    EventDocsIndex(aggregateId, evs, ids);
    forall i | 0 < i < |docs|
      ensures KeyLeq(EventId(docs[i - 1]), EventId(docs[i]))
    {
      LexLessAsymmetric(ids[i - 1], ids[i]);
    }
  }

  /**
   * Events stored for one actor under increasing ids: asking for the events
   * after the `k`-th id yields the records of the later ones, in order (five
   * events asked after the third give two).
   */
  lemma EventsAfterStoredId(aggregateId: string, evs: seq<Payload>, ids: seq<string>, k: nat)
    requires |ids| == |evs| && Ascending(ids) && k < |ids|
    ensures var docs := PutAll(map[], ids, EventDocs(aggregateId, evs, ids));
            var tags := PutAll(map[], ids, EventTagsAll(aggregateId, ids));
            EventsSince(docs, tags, aggregateId, ids[k]) == EventDocs(aggregateId, evs, ids)[k + 1..]
    ensures |EventDocs(aggregateId, evs, ids)[k + 1..]| == |evs| - k - 1
  {
    forall i, j | 0 <= i < j < |ids|
      ensures ids[i] != ids[j]
    {
      LexLessIrreflexive(ids[i]);
    }
    var all := EventDocs(aggregateId, evs, ids);
    StoredEventHits(aggregateId, ids, k);
    StoredEventDocs(aggregateId, evs, ids, k);
    EventDocsSorted(aggregateId, evs, ids);
    assert all[k..][1..] == all[k + 1..];
    SortedSuffix(all, k + 1, EventId);
    SortByKeepsSorted(all[k + 1..], EventId);
  }

  /** The probe of `getEventPackFor`. */
  function PackProbe(aggregateId: string, vectorClock: Clock): string {
    aggregateId + "-" + Concatenated(vectorClock)
  }

  /** `getEventPackFor(aggregateId, vectorClock)`: the first hit's events sorted by id, or a failure when nothing is tagged with that version. */
  function PackFor(docs: map<string, PackDoc>, tags: map<string, Tags>, aggregateId: string, vectorClock: Clock): (r: Option<seq<Payload>>)
    requires tags.Keys <= docs.Keys
    ensures r.None? <==> forall k :: k in tags && "aggregate_clock" in tags[k] ==>
                                       tags[k]["aggregate_clock"] != PackProbe(aggregateId, vectorClock)
    ensures r.Some? ==> Sorted(r.value, PayloadId) &&
                        exists k :: k in tags && "aggregate_clock" in tags[k] &&
                                    tags[k]["aggregate_clock"] == PackProbe(aggregateId, vectorClock) &&
                                    multiset(r.value) == multiset(docs[k].events)
  {
    var hits := ExactQuery(IndexValues(tags, "aggregate_clock"), PackProbe(aggregateId, vectorClock));
    if hits == [] then None
    else
      var events := docs[hits[0]].events;
      SortByPermutes(events, PayloadId);
      SortBySorted(events, PayloadId);
      assert hits[0] in hits;
      Some(SortBy(events, PayloadId))
  }

  /**
   * A pack stored for a version no other record is tagged with comes back
   * from `getEventPackFor` as its events sorted by id: the same events, and
   * the very list when it was already in id order.
   */
  lemma PackRoundTrip(docs: map<string, PackDoc>, tags: map<string, Tags>, id: string,
                      aggregateId: string, vectorClock: Clock, evs: seq<Payload>)
    requires tags.Keys <= docs.Keys
    requires forall k :: k in tags && k != id && "aggregate_clock" in tags[k] ==>
                           tags[k]["aggregate_clock"] != PackProbe(aggregateId, vectorClock)
    ensures var r := PackFor(docs[id := PackDoc(id, aggregateId, evs)], tags[id := PackTags(aggregateId, vectorClock, id)],
                             aggregateId, vectorClock);
            r == Some(SortBy(evs, PayloadId)) && multiset(r.value) == multiset(evs) &&
            (Sorted(evs, PayloadId) ==> r.value == evs)
  {
    var tags' := tags[id := PackTags(aggregateId, vectorClock, id)];
    var probe := PackProbe(aggregateId, vectorClock);
    ExactQuerySingle(IndexValues(tags', "aggregate_clock"), probe, id);
    SortByPermutes(evs, PayloadId);
    if Sorted(evs, PayloadId) {
      SortByKeepsSorted(evs, PayloadId);
    }
  }

  /**
   * Of several packs tagged with one version, `getEventPackFor` takes the one
   * with the lowest id, that is the one stored first.
   */
  lemma PackForOldest(docs: map<string, PackDoc>, tags: map<string, Tags>, aggregateId: string, vectorClock: Clock, id: string)
    requires tags.Keys <= docs.Keys
    requires id in tags && "aggregate_clock" in tags[id] && tags[id]["aggregate_clock"] == PackProbe(aggregateId, vectorClock)
    requires forall k :: k in tags && k != id && "aggregate_clock" in tags[k] ==>
                           tags[k]["aggregate_clock"] == PackProbe(aggregateId, vectorClock) ==> LexLess(id, k)
    ensures PackFor(docs, tags, aggregateId, vectorClock) == Some(SortBy(docs[id].events, PayloadId))
  {
    var hits := ExactQuery(IndexValues(tags, "aggregate_clock"), PackProbe(aggregateId, vectorClock));
    assert id in hits;
    if hits[0] != id {
      var i :| 0 <= i < |hits| && hits[i] == id;
      LexLessAsymmetric(id, hits[0]);
      assert false;
    }
  }

  /** The records and tags of one more event, after the others. */
  lemma EventsSnoc(aggregateId: string, evs: seq<Payload>, ids: seq<string>, id: string)
    requires |ids| < |evs|
    ensures EventDocs(aggregateId, evs[..|ids| + 1], ids + [id]) ==
            EventDocs(aggregateId, evs[..|ids|], ids) + [EventDoc(id, aggregateId, evs[|ids|])]
    ensures EventTagsAll(aggregateId, ids + [id]) == EventTagsAll(aggregateId, ids) + [EventTags(aggregateId, id)]
  {
    EventDocsIndex(aggregateId, evs[..|ids| + 1], ids + [id]);
    EventDocsIndex(aggregateId, evs[..|ids|], ids);
    EventTagsAllIndex(aggregateId, ids + [id]);
    EventTagsAllIndex(aggregateId, ids);
  }

  /**
   * The `_.map` of `storeEvents`: for each event in turn, a new id, its
   * record and its tags, put into the bucket.
   */
  method PutEvents(supply: nat -> string, from: nat, aggregateId: string, evs: seq<Payload>,
                   docs0: map<string, EventDoc>, tags0: map<string, Tags>)
    returns (ids: seq<string>, docs: map<string, EventDoc>, tags: map<string, Tags>)
    requires IncreasingSupply(supply)
    requires tags0.Keys == docs0.Keys
    requires FreshFrom(supply, from, docs0.Keys)
    ensures ids == Drawn(supply, from, |evs|)
    ensures docs == PutAll(docs0, ids, EventDocs(aggregateId, evs, ids))
    ensures tags == PutAll(tags0, ids, EventTagsAll(aggregateId, ids))
    ensures tags.Keys == docs.Keys
    ensures FreshFrom(supply, from + |evs|, docs.Keys)
  {
    docs := docs0;
    tags := tags0;
    ids := [];
    var i := 0;
    while i < |evs|
      invariant 0 <= i <= |evs|
      invariant ids == Drawn(supply, from, i)
      invariant docs == PutAll(docs0, ids, EventDocs(aggregateId, evs[..i], ids))
      invariant tags == PutAll(tags0, ids, EventTagsAll(aggregateId, ids))
      invariant tags.Keys == docs.Keys
    {
      var id := supply(from + i);
      var doc := EventDoc(id, aggregateId, evs[i]);
      EventsSnoc(aggregateId, evs, ids, id);
      PutAllSnoc(docs0, ids, EventDocs(aggregateId, evs[..i], ids), id, doc);
      PutAllSnoc(tags0, ids, EventTagsAll(aggregateId, ids), id, EventTags(aggregateId, id));
      DrawnSnoc(supply, from, i);
      ids := ids + [id];
      docs := docs[id := doc];
      tags := tags[id := EventTags(aggregateId, id)];
      i := i + 1;
    }
    assert evs[..|evs|] == evs;
    PutAllFresh(supply, from, |evs|, docs0, EventDocs(aggregateId, evs, ids));
  }

  // The store

  /**
   * One `EventStore`: the records and tags of its event bucket and of its
   * pack bucket, and the position of the id generator.
   */
  class EventStore {
    const name: string
    const eventBucketName: string
    const eventPackBucketName: string
    const bucketType: string
    /** The `n`-th id the generator hands out. */
    const supply: nat -> string
    var drawn: nat
    var events: map<string, EventDoc>
    var eventTags: map<string, Tags>
    var packs: map<string, PackDoc>
    var packTags: map<string, Tags>

    /** Every record carries tags, and no id the generator has yet to hand out is in use. */
    ghost predicate Valid()
      reads this
    {
      IncreasingSupply(supply) &&
      eventTags.Keys == events.Keys && packTags.Keys == packs.Keys &&
      FreshFrom(supply, drawn, events.Keys) && FreshFrom(supply, drawn, packs.Keys)
    }

    /** `new EventStore(db, type, config)` over buckets holding older records. */
    constructor (storeType: string, config: Option<EventStoreConfig>, ids: nat -> string,
                 eventContents: map<string, EventDoc>, eventContentTags: map<string, Tags>,
                 packContents: map<string, PackDoc>, packContentTags: map<string, Tags>)
      requires IncreasingSupply(ids)
      requires eventContentTags.Keys == eventContents.Keys && packContentTags.Keys == packContents.Keys
      requires FreshFrom(ids, 0, eventContents.Keys) && FreshFrom(ids, 0, packContents.Keys)
      ensures Valid()
      ensures name == storeType
      ensures eventBucketName == EventBucketName(storeType, config)
      ensures eventPackBucketName == EventPackBucketName(storeType, config)
      ensures bucketType == BucketType(config)
      ensures supply == ids && drawn == 0
      ensures events == eventContents && eventTags == eventContentTags
      ensures packs == packContents && packTags == packContentTags
    {
      name := storeType;
      eventBucketName := EventBucketName(storeType, config);
      eventPackBucketName := EventPackBucketName(storeType, config);
      bucketType := BucketType(config);
      supply := ids;
      drawn := 0;
      events := eventContents;
      eventTags := eventContentTags;
      packs := packContents;
      packTags := packContentTags;
    }

    /** `sliver.getId()`. */
    method NextId() returns (id: string)
      requires Valid()
      modifies this
      ensures Valid()
      ensures id == supply(old(drawn)) && drawn == old(drawn) + 1 && LexLess(id, supply(drawn))
      ensures id !in events && id !in packs
      ensures events == old(events) && eventTags == old(eventTags)
      ensures packs == old(packs) && packTags == old(packTags)
    {
      id := supply(drawn);
      assert IdOrder(drawn, drawn + 1);
      drawn := drawn + 1;
    }

    /**
     * `storeEvents(aggregateId, events)`: one put per event, in order, each
     * under a new id; the ids come back in the same order.
     */
    method StoreEvents(aggregateId: string, evs: seq<Payload>) returns (ids: seq<string>)
      requires Valid()
      modifies this
      ensures Valid()
      ensures ids == Drawn(supply, old(drawn), |evs|) && drawn == old(drawn) + |evs|
      ensures forall i :: 0 <= i < |ids| ==> ids[i] !in old(events)
      ensures events == PutAll(old(events), ids, EventDocs(aggregateId, evs, ids))
      ensures eventTags == PutAll(old(eventTags), ids, EventTagsAll(aggregateId, ids))
      ensures packs == old(packs) && packTags == old(packTags)
    {
      var docs, tags;
      ids, docs, tags := PutEvents(supply, drawn, aggregateId, evs, events, eventTags);
      DrawnFresh(supply, drawn, |evs|, events.Keys);
      drawn := drawn + |evs|;
      events := docs;
      eventTags := tags;
    }

    /**
     * `storeEventPack(aggregateId, vectorClock, events)`: one put of a record
     * embedding the events unchanged, under a new id, which comes back.
     */
    method StoreEventPack(aggregateId: string, vectorClock: Clock, evs: seq<Payload>) returns (id: string)
      requires Valid()
      modifies this
      ensures Valid()
      ensures id == supply(old(drawn)) && drawn == old(drawn) + 1 && id !in old(packs)
      ensures packs == old(packs)[id := PackDoc(id, aggregateId, evs)]
      ensures packTags == old(packTags)[id := PackTags(aggregateId, vectorClock, id)]
      ensures events == old(events) && eventTags == old(eventTags)
    {
      ghost var before := drawn;
      id := NextId();
      FreshStep(supply, before, packs.Keys);
      assert packs[id := PackDoc(id, aggregateId, evs)].Keys == packs.Keys + {id};
      packs := packs[id := PackDoc(id, aggregateId, evs)];
      packTags := packTags[id := PackTags(aggregateId, vectorClock, id)];
    }

    /** `getEventsFor(aggregateId, lastEventId)`: stored records in id order. */
    function GetEventsFor(aggregateId: string, lastEventId: string): (r: seq<EventDoc>)
      reads this
      requires Valid()
      ensures r == EventsSince(events, eventTags, aggregateId, lastEventId)
      ensures Sorted(r, EventId)
      ensures forall d :: d in r ==> d in events.Values
    {
      var hits := EventHits(eventTags, aggregateId, lastEventId);
      var found := DocsOf(events, hits);
      assert forall d :: d in multiset(if found == [] then [] else found[1..]) ==> d in events.Values by {
        forall d | d in multiset(if found == [] then [] else found[1..])
          ensures d in events.Values
        {
          var i :| 0 <= i < |found[1..]| && found[1..][i] == d;
          assert d == events[hits[i + 1]];
        }
      }
      EventsSince(events, eventTags, aggregateId, lastEventId)
    }

    /** `getEventPackFor(aggregateId, vectorClock)`; `None` is the rejected promise of an empty result. */
    function GetEventPackFor(aggregateId: string, vectorClock: Clock): (r: Option<seq<Payload>>)
      reads this
      requires Valid()
      ensures r == PackFor(packs, packTags, aggregateId, vectorClock)
      ensures r.Some? ==> Sorted(r.value, PayloadId) &&
                          exists k :: k in packs && multiset(r.value) == multiset(packs[k].events)
    {
      PackFor(packs, packTags, aggregateId, vectorClock)
    }
  }
}
