# consequent-store-riak, modelled in Dafny

This project models the two stores of `consequent-store-riak`. Both keep their records in a key-value bucket with secondary indexes.

- **The actor store** (`src/ActorStore.js`):
  - `store` writes a new version of an actor as two records: a snapshot under `actorId-clock`, and the current record under `actorId`.
  - `fetch` reads a key.
  - `findAncestor` / `_findAncestor` reconcile siblings. They grow an *ancestry object* that maps each sibling id to the clocks seen on its chain. Each round adds one hop to every open list until lodash's intersection of the serialised lists (`compare`) is non-empty.
- **The event store** (`src/EventStore.js`):
  - `storeEvents` writes one record per event. `storeEventPack` writes one record per version.
  - `getEventsFor` shapes an open-ended range query on `aggregate_event_id`: it drops the first hit and sorts the rest by id.
  - `getEventPackFor` takes the first exact hit on `aggregate_clock` and sorts its events by id.
  - The constructor defaults the bucket names.

How the model is laid out:

- A bucket is a `map` from key to value. For actors the value is a sequence of records; more than one record is a sibling set. The index tags are a second `map` from key to index name to value.
- The state that the source changes in place is held in classes:
  - `Actors.ActorStore` holds the actor bucket and its tags.
  - `Actors.AncestryObject` holds the ancestry object that the rounds push onto.
  - `Events.EventStore` holds both event buckets, their tags and the position of the id generator.
- Each method is proved against a function of the old state (`StoreObjects`, `Walk`, `Resolve`, `PutAll`, `EventsSince`, `PackFor`). The promised properties are proved about those functions.

The model's conventions:

- **Clocks** are `Text(t)` or `Structured(json)`. The code treats the two kinds differently in three places:
  - `clockToId` serialises a plain object with JSON;
  - `compare` JSON-serialises every element, so a string clock gains quotes, and its quotes, backslashes and control characters are escaped;
  - `actorId + "-" + actor.vector` prints a plain object as `[object Object]`.
- **The `0`** pushed onto a list is `Entry.Closed`, serialised as `"0"`.
- **Property order.** `_.values` and `_.reduce` visit the ancestry object's properties in `Object.keys` order. Ids that are array indices come first, in ascending numeric order; the other ids follow in the order they were first set (`Properties.PropertyOrder`). The order decides which list lodash's intersection follows, and so the order of the common values joined into the final key.
- **Round bound.** The source puts no bound on the rounds (its comment at `src/ActorStore.js:166-170`). The model takes a round limit `maxRounds` and reports `RoundLimitReached` when it runs out. `WalkMoreRounds` and `ResolveMoreRounds` prove that an outcome reached within a limit stays the same under any larger limit.
- **The id generator** (`sliver.getId()`) is a function `supply: nat -> string` whose draws strictly increase in the lexicographic character order `Strings.LexLess`, which stands for JavaScript's `<`, plus a counter of ids drawn. The store's invariant `Valid()` says that no id still to be drawn is already a key of either bucket.
- **The `"~"` range query** on an index returns every key whose value is not below the probe, ordered by value and then key. The exact query returns every key whose value equals the probe, ordered by key.

Behaviours of the code that the model keeps, and proves:

- **Disjoint roots meet at "0".** For two siblings from unrelated roots, the rounds do not reject with "Common ancestor could not be found" (`src/ActorStore.js:212-215`). Both lists close with `0` in the same round, and `"0"` is then common to all lists. The promise still rejects, but later: in the final `get` of `actorId-0` (`src/ActorStore.js:158-162`), which the model gives as `Resolved(["0"], NotFound)` (`Scenarios.DisjointRootsMeetAtZero`).
- **A root sibling never resolves.** A sibling without an ancestor keeps an empty list, so the search rejects or runs out of rounds (`AncestryProperties.RootSiblingNeverResolves`).
- **A string clock gains quotes in the final lookup.** The final lookup receives the already serialised intersection. A string clock there gains quotes and misses the snapshot key `store` wrote (`Scenarios.QuotedTextClock`). A per-round hop uses the raw clock and reads that key (`ActorRecords.TextHopReadsSnapshot`).
- **Snapshots of plain-object clocks share one key** (`ActorRecords.StructuredSnapshotsShareKey`).
- **`getEventsFor` filters by the probe only, not by actor.** It returns every record, of any actor, whose `aggregate_event_id` is at or above the probe, less the lowest one (`Events.EventsSinceMembers`). For one actor's own increasing ids, asking after the k-th id gives exactly the later events, in order (`Events.EventsAfterStoredId`).
- **`getEventPackFor` keeps the oldest pack.** Of several packs for one version, the one with the lowest id wins (`Events.PackForOldest`). When no pack exists, the result is a failure (`None`), where the code would throw reading `docs[0]`.

## Model

| member | source | states |
|---|---|---|
| Actors.ActorBucketName | src/ActorStore.js:18-20 | the configured `actorBucket` when it is set and not empty; otherwise exactly `Lower` of the store type |
| Actors.ActorStore.constructor | src/ActorStore.js:14-25 | the store keeps its type as its name, takes the defaulted bucket name, and starts from the given bucket contents |
| Actors.ActorStore.Fetch | src/ActorStore.js:33-35 | a miss exactly when the key is absent or holds nothing; the one record when it holds one; all of them, as siblings, when it holds more |
| ActorRecords.Get | src/ActorStore.js:33-35 | `bucket.get`: NotFound, Single or Siblings, exactly according to how many values the key holds |
| ActorRecords.Versioned | src/ActorStore.js:54-61 | the working copy has the caller's id if it is truthy and otherwise the actor id; the old `vector` as `ancestor`; the new clock as `vector`; every other property unchanged |
| ActorRecords.SnapshotKey | src/ActorStore.js:77 | the snapshot key starts with the actor id and is strictly longer |
| ActorRecords.ClockToId | src/ActorStore.js:229-231 | `clockToId` of one clock: the actor id, a dash, then the clock (a plain object as its JSON text) |
| ActorRecords.StoreObjects | src/ActorStore.js:73-89 | the bucket after `store` has the old keys plus the snapshot key and the actor id, and the actor id holds the working copy with the prior single record's truthy `vclock` |
| ActorRecords.StoreIndexes | src/ActorStore.js:76-88 | the tags after `store` have the old keys plus the two written ones: the snapshot tagged with `aggregate_id`, the current record with none |
| ActorRecords.StoreWritesTwoRecords | src/ActorStore.js:63-89 | `store` adds exactly the snapshot key and the actor id and leaves every other key alone. The snapshot is the working copy. The current record differs from it only in `vclock`, which is the prior single record's truthy `vclock` and otherwise the caller's. Only the snapshot is tagged with `aggregate_id` |
| ActorRecords.SuccessiveStores | spec/integration/ActorStore.spec.js:71-116 | storing at "v1" and then at "v2" leaves the current record and the "v2" snapshot at `vector` "v2" with ancestor "v1" and the second payload, and the "v1" snapshot at "v1" with the first payload |
| ActorRecords.StructuredSnapshotsShareKey | src/ActorStore.js:77 | two plain-object clocks give the same snapshot key |
| ActorRecords.TextHopReadsSnapshot | src/ActorStore.js:229-231 | for a string clock, `clockToId` builds exactly the snapshot key `store` writes |
| Actors.ActorStore.Store | src/ActorStore.js:53-91 | the bucket becomes `StoreObjects` of the old bucket and the tags `StoreIndexes` of the old tags; the caller's record is a value and is not changed |
| Ancestry.Seed | src/ActorStore.js:113-119 | the reduce gives a well-formed ancestry object: the order lists each sibling id once, and every sibling's id is a property |
| Ancestry.SeedLists | src/ActorStore.js:113-119 | a sibling's list starts as `[ancestor]` when its ancestor is truthy and empty otherwise; a later sibling with the same id wins |
| Ancestry.SeedUniform | src/ActorStore.js:113-119 | siblings that all start from one list give every property that list |
| Ancestry.SeedPrefix | src/ActorStore.js:113-119 | the reduce over one more sibling sets that sibling's list and adds its id to the order only when the id is new |
| Properties.PropertyOrder | src/ActorStore.js:130 | `Object.keys` enumerates exactly the keys that were set |
| Properties.PropertyOrderIndicesFirst | src/ActorStore.js:130 | array-index keys come before every other key, in ascending numeric order |
| Properties.PropertyOrderKeepsOthers | src/ActorStore.js:130 | the keys that are not array indices keep the order they were first set in |
| Properties.PropertyOrderWithoutIndices | src/ActorStore.js:130 | without array-index keys, the enumeration order is the order the keys were set in |
| Properties.PropertyOrderNoRepeats | src/ActorStore.js:130 | keys set once are enumerated once |
| Ancestry.PropertyOrderWellFormed | src/ActorStore.js:196 | enumerating the ancestry object's properties visits each sibling id exactly once |
| Ancestry.Values | src/ActorStore.js:130 | `_.values(ancestry)`: one list per property, in property order (`ValuesIndex` gives each position) |
| Ancestry.Serialize | src/ActorStore.js:131-133 | `JSON.stringify` of a list element: 0 is "0"; a string clock is `JsonQuote` of its text, which starts with a quote and so is never "0"; a plain object is its JSON text |
| Ancestry.SerializeAll | src/ActorStore.js:130-134 | one serialised text per element, position by position (`SerializeAllIndex`) |
| Ancestry.Intersection | src/ActorStore.js:136 | lodash's `_.intersection`: no more values than the first list has; `IntersectionMeaning` states which |
| Scenarios.NumericIdsFirst | src/ActorStore.js:130 | ids "10", "2", "x" set in that order are enumerated as "2", "10", "x" |
| Actors.SeedSiblings | src/ActorStore.js:113-119 | the loop over the siblings builds exactly `Seed(siblings)`: each id's list and the order the ids were first set in |
| Actors.AncestryObject.constructor | src/ActorStore.js:113-130 | the object holds the lists of `Seed(siblings)`, and its properties are enumerated in `PropertyOrder` of the order they were set in |
| Ancestry.IntersectionMeaning | src/ActorStore.js:136 | lodash's intersection holds exactly the values of the first list found in every other list, each once |
| Ancestry.Compare | src/ActorStore.js:129-141 | a found intersection is never empty |
| Ancestry.CompareMeaning | src/ActorStore.js:129-141 | `compare` is false exactly when no serialised value is in every list; otherwise it returns exactly the values in every list, each once, no more of them than the first list has |
| Ancestry.Tasks | src/ActorStore.js:196-210 | every lookup extends a list of the ancestry object |
| Ancestry.NoTasksWhenAllClosed | src/ActorStore.js:196-215 | a round issues no lookup exactly when no list is open (non-empty, and its last element a truthy clock) |
| Ancestry.NextEntry | src/ActorStore.js:179-190 | what `taskFn` pushes is the fetched record's ancestor when it is truthy; for a miss, a root or a sibling set it pushes 0 |
| Ancestry.RunTasks | src/ActorStore.js:217 | running a round's lookups keeps the same set of sibling ids |
| Ancestry.RoundEffect | src/ActorStore.js:179-210 | in one round every open list grows by exactly the entry for its last clock's record. Empty and closed lists are untouched, and no list appears or disappears |
| Ancestry.RoundGrows | src/ActorStore.js:179-210 | one round leaves the ancestry object `Grown`: the same ids, each list a prefix of its new list, closed and empty lists unchanged |
| Ancestry.GrownTransitive | src/ActorStore.js:224-225 | growth over one round and then over the later rounds is growth over all of them |
| Ancestry.ClimbRound | src/ActorStore.js:196-226 | helper for `Climb`'s proof: after a round the object is well formed and `Grown`, and the search continues as `AfterRound` of the new lists |
| Actors.AncestryObject.Push | src/ActorStore.js:183-188 | the sibling's list gains the entry at its end; the other lists and the order are unchanged |
| Actors.AncestryObject.RunRound | src/ActorStore.js:217 | the loop over the tasks leaves the lists at `RunTasks` of the old lists |
| Ancestry.Walk | src/ActorStore.js:172-227 | the rounds end with non-empty common values, with every list closed, or at the round limit |
| Ancestry.WalkMeets | src/ActorStore.js:217-223 | unfolding helper of `Walk`, used by `Climb`'s proof: a round after which `compare` finds values ends the search with exactly those values |
| Ancestry.WalkStep | src/ActorStore.js:224-225 | unfolding helper of `Walk`, used by `Climb`'s proof: a round that finds nothing hands the search to the next round over the grown lists, one round fewer |
| Ancestry.WalkStops | src/ActorStore.js:212-215 | unfolding helper of `Walk`: with no lookup to issue the search rejects; with lookups but no rounds left it reports the limit |
| Actors.AncestryObject.Climb | src/ActorStore.js:172-227 | the recursive rounds over the object's lists give exactly `Walk` of its old lists; afterwards the object is well formed, its order is unchanged, and its lists have `Grown` from the old ones: the same sibling ids, every list extended at its end, every closed or empty list as it was |
| Ancestry.Resolve | src/ActorStore.js:100-164 | a resolution carries non-empty common values and the record fetched under `actorId-` joined to them |
| Ancestry.CommonToId | src/ActorStore.js:151-160 | the final lookup key: the actor id, a dash and `String` of the common values; for one common value, that value itself |
| Actors.ActorStore.FindAncestor | src/ActorStore.js:100-164 | the fast path, then the rounds, then the final lookup give exactly `Resolve` of the store's bucket |
| AncestryProperties.RejectsWhenNoListOpen | src/ActorStore.js:212-215 | when no list is open the search rejects ("Common ancestor could not be found"), whatever the round limit |
| AncestryProperties.ClosedListsMeetAtZero | src/ActorStore.js:130-136 | once every list ends in 0, `compare` succeeds and "0" is among the common values |
| AncestryProperties.EmptyListNeverMeets | src/ActorStore.js:136-139 | an empty list makes `compare` false |
| AncestryProperties.EmptyListBlocksRound | src/ActorStore.js:196-203 | a round leaves an empty list empty, so `compare` stays false after it |
| AncestryProperties.WalkNeverMeetsWithEmptyList | src/ActorStore.js:172-227 | with an empty list the rounds never find common values |
| AncestryProperties.RootSiblingNeverResolves | src/ActorStore.js:113-119 | siblings including a root version (no ancestor, id not repeated later) never resolve: the search rejects or runs out of rounds |
| AncestryProperties.SharedAncestorResolvesAtOnce | src/ActorStore.js:147-152 | siblings that share one ancestor resolve on the fast path to that ancestor's serialised text and the record under `actorId-` and that text |
| AncestryProperties.WalkMoreRounds | src/ActorStore.js:166-227 | rounds that end within a limit, by meeting or by rejection, end the same way under any larger limit |
| AncestryProperties.AfterRoundMoreRounds | src/ActorStore.js:217-226 | the end of a round that settles within a limit, by the common values or by later rounds, settles the same way under any larger limit |
| AncestryProperties.ResolveMoreRounds | src/ActorStore.js:100-164 | `findAncestor` that settles within a round limit settles the same way under any larger one |
| Strings.Lower | src/ActorStore.js:20 | `toLowerCase` on ASCII letters: keeps the length, turns each upper-case ASCII letter into its lower-case letter (code plus 32), and keeps every other character |
| Strings.LowerIdempotent | src/ActorStore.js:20 | lower-casing twice is lower-casing once |
| Strings.Join | src/ActorStore.js:151 | `String(array)` of a one-element array is that element |
| Strings.Truthy | src/ActorStore.js:20 | `||` on an optional string: defined and not empty |
| Strings.LexLess | src/EventStore.js:65-70 | the string `<` that orders generated ids, index values and `_.sortBy` keys: lexicographic by character, a proper prefix first |
| Strings.LexLessIrreflexive | src/EventStore.js:65-70 | no string is below itself |
| Strings.LexLessTransitive | src/EventStore.js:65-70 | the order is transitive |
| Strings.LexLessTotal | src/EventStore.js:65-70 | any two different strings are ordered one way or the other |
| Strings.LexLessCommonPrefix | src/EventStore.js:70 | a shared prefix, such as `aggregateId-`, does not change how two keys compare |
| Strings.EscapeChar | src/ActorStore.js:132 | `JSON.stringify`'s escape of one character: itself exactly when it is not a quote, a backslash or a control character |
| Strings.Escaped | src/ActorStore.js:132 | every character escaped in turn; never shorter than the text |
| Strings.JsonQuote | src/ActorStore.js:132 | `JSON.stringify` of a string: the escaped text between double quotes |
| Strings.EscapedPlain | src/ActorStore.js:132 | a text without quotes, backslashes or control characters is only put between quotes |
| Strings.EscapedRoundTrip | src/ActorStore.js:132 | reading the escaped text back as `JSON.parse` does gives the original text |
| Strings.JsonQuoteInjective | src/ActorStore.js:130-136 | different string clocks have different serialised texts, so `compare` matches string clocks exactly when they are equal |
| Events.DefaultedName | src/EventStore.js:34-35 | the override when it is truthy; otherwise exactly `Lower` of the type followed by the suffix |
| Events.EventBucketName | src/EventStore.js:34 | the `eventBucket` override when set; otherwise exactly `Lower` of the type followed by `_events` |
| Events.EventPackBucketName | src/EventStore.js:35 | the `eventPackBucket` override when set; otherwise exactly `Lower` of the type followed by `_event_packs` |
| Events.BucketType | src/EventStore.js:37-39 | the configured `eventBucketType` when set, otherwise "default" |
| Events.DefaultBucketsDiffer | src/EventStore.js:34-35 | without overrides the two bucket names differ |
| Scenarios.DefaultCardBuckets | spec/integration/EventStore.spec.js:30-40 | a "card" store created with `{}` uses "card_events"; "Card" gives "card_event_packs" and "CARD" with an empty `actorBucket` gives "card" |
| Scenarios.ConfiguredCardBuckets | spec/behavior/EventStore.spec.js:23-35 | configured `eventBucket`, `eventPackBucket` and `actorBucket` names are used as given |
| Events.EventTags | src/EventStore.js:92-95 | an event record is tagged with exactly `aggregate_id`, the actor, and `aggregate_event_id`, the actor, a dash and the record id |
| Events.PackTags | src/EventStore.js:140-144 | a pack record is tagged with exactly `aggregate_id`, `aggregate_clock` (actor, dash, clock as concatenated) and `aggregate_pack_id` (actor, dash, record id) |
| Events.DrawnAscending | src/EventStore.js:87 | ids drawn one after another are in strictly increasing order |
| Events.DrawnFresh | src/EventStore.js:87 | ids drawn from a point from which the keys are fresh are not keys of the bucket |
| Events.FreshStep | src/EventStore.js:135 | once one id is drawn and stored, no later id collides with the keys |
| Events.PutAllFresh | src/EventStore.js:97 | storing the drawn ids keeps the bucket's keys fresh for every later draw |
| Events.EventDocsIndex | src/EventStore.js:86-90 | the i-th record has the i-th id, the actor id and the i-th event unchanged |
| Events.EventDocs | src/EventStore.js:85-91 | the records of one `storeEvents` call: one per event (`EventDocsIndex` gives each field) |
| Events.PutAllContents | src/EventStore.js:97 | after puts under distinct keys each key holds its own value and every other key its old one |
| Events.PutEvents | src/EventStore.js:85-98 | the loop draws one id per event, in order, and puts exactly the records and tags `EventDocs` and `EventTagsAll` give them; the keys stay fresh for later draws |
| Events.EventsAfter | src/EventStore.js:63-68 | the result holds the hits but the first (the same multiset), one fewer than the hits, sorted by id |
| Events.EventHits | src/EventStore.js:61-70 | the range query hits exactly the records whose `aggregate_event_id` is not below `aggregateId-lastEventId` |
| Events.EventsSince | src/EventStore.js:60-72 | the result is sorted by id |
| Events.EventsSinceMembers | src/EventStore.js:60-72 | the result is, as a multiset, the records of every hit but the first; every later hit's record is in it |
| Events.StoredEventHits | src/EventStore.js:70 | for one actor's increasing event ids, the query after the k-th hits exactly the ids from the k-th on |
| Events.EventsAfterStoredId | src/EventStore.js:60-72 | for one actor's events under increasing ids, asking after the k-th id gives exactly the later events' records in order, one fewer than the later ids |
| Events.PackFor | src/EventStore.js:110-123 | a failure exactly when no record carries the version's `aggregate_clock`; otherwise a matching record's events, sorted by id and the same multiset |
| Events.PackForOldest | src/EventStore.js:114-121 | of several packs tagged with one version, the result is the events of the one with the lowest id, sorted by id |
| Events.PackRoundTrip | src/EventStore.js:110-147 | a pack stored for a version no other record carries comes back as its events sorted by id: the same events, and the very list when it was already in id order |
| IndexQuery.RangeQuery | src/EventStore.js:70 | the hits are exactly the keys whose value is not below the probe, each once, in (value, key) order |
| IndexQuery.RangeQueryIs | src/EventStore.js:70 | any list of exactly those keys in that order is the query's result |
| IndexQuery.ExactQuery | src/EventStore.js:121 | the hits are exactly the keys whose value equals the probe, each once, in key order |
| IndexQuery.ExactQuerySingle | src/EventStore.js:121 | when only one key carries the probe, the hits are that key alone |
| Sorting.SortBy | src/EventStore.js:65-67 | lodash's `_.sortBy` by `id`: as many elements as were given; `SortByPermutes`, `SortBySorted` and `SortByStable` state the rest |
| Sorting.SortByPermutes | src/EventStore.js:65-67 | `_.sortBy` reorders without adding or losing elements (same multiset) |
| Sorting.SortBySorted | src/EventStore.js:65-67 | `_.sortBy` leaves the list in ascending key order, an undefined id last |
| Sorting.SortByStable | src/EventStore.js:116-118 | `_.sortBy` is stable: two elements with equal keys keep their order |
| Sorting.SortByKeepsSorted | src/EventStore.js:116-118 | a list already in key order is left exactly as it is |
| Events.EventStore.constructor | src/EventStore.js:28-51 | the store takes its type as name, the defaulted bucket names and type, the given contents, and the given id generator with nothing drawn yet |
| Events.EventStore.NextId | src/EventStore.js:135 | the next id of the generator, new to both buckets and below every later one; the buckets are unchanged |
| Events.EventStore.StoreEvents | src/EventStore.js:81-101 | one new id per event, in order, none already a key, returned in order; the event bucket and tags gain exactly those records and tags; the pack bucket is unchanged |
| Events.EventStore.StoreEventPack | src/EventStore.js:133-147 | one new id, not yet a pack key; the pack bucket gains exactly one record embedding the events unchanged, with its three tags; the event bucket is unchanged |
| Events.EventStore.GetEventsFor | src/EventStore.js:60-72 | exactly `EventsSince` of the event bucket and its tags: stored records only, sorted by id |
| Events.EventStore.GetEventPackFor | src/EventStore.js:110-123 | exactly `PackFor` of the pack bucket and its tags: when found, a stored pack's events, the same multiset, sorted by id |
| Scenarios.HistoryResolvesToParent | spec/integration/ActorStore.spec.js:119-239 | for the test's seven-version history, siblings N2, N5 and N6 resolve, after two rounds, to N1's clock and the record N1, under any round limit of two or more |
| Scenarios.FindParentInStore | spec/integration/ActorStore.spec.js:211-239 | the same search through an `ActorStore` over that history returns N1 |
| Scenarios.DisjointRootsMeetAtZero | src/ActorStore.js:158-189 | two siblings from unrelated roots meet at the common "0", so the rounds do not reject with "Common ancestor could not be found"; the final lookup of `actorId-0` then misses (`NotFound`) |
| Scenarios.QuotedTextClock | src/ActorStore.js:147-152 | siblings sharing the string ancestor "v1" resolve at once to `"v1"` in quotes; the key looked up differs from the snapshot key of "v1" |
| Scenarios.EscapedQuoteClock | src/ActorStore.js:131-152 | a string clock holding a quote serialises with the quote escaped, and siblings sharing it look up `actorId-` followed by that escaped text |
| Scenarios.StoreTwoVersions | spec/integration/ActorStore.spec.js:71-116 | after two stores the current record, the "v2" snapshot and the "v1" snapshot carry the versions and payloads the test expects |
| Scenarios.FiveEventsAfterThird | spec/integration/EventStore.spec.js:103-146 | five events under increasing ids, asked for after the third id, give exactly the fourth and fifth records |
| Scenarios.EventsAfterThird | spec/integration/EventStore.spec.js:103-146 | through an `EventStore` with empty buckets, storing five events and asking after the third id returns the last two, in order |
| Scenarios.PackBack | src/EventStore.js:110-147 | a pack stored into an empty pack bucket comes back for its version as its events sorted by id, the same multiset |

## Left out

- Riak, riaktive and the `when` promises are not part of this model. Buckets are maps, a rejected promise is a value (`NotFound`, `None`, `NoCommonAncestor`), and `db.bucket` is left out. The bucket prefixing the behaviour tests expect happens inside riaktive.
- Concurrency of `when.all` and `when/parallel`: a round's lookups run one after another. Each touches only its own list, so the order does not change the result.
- `src/index.js` (connection setup and a per-type factory cache) is not part of this model.
- `src/sliver.js` is not part of this model. The id generator is the `supply` function, assumed to hand out strictly increasing ids. For the event store it is a parameter of the constructor, so two stores do not share one generator as the process-wide singleton does.
- Actors.ActorStore.Store: the deep copy (`_.cloneDeep`) has no counterpart, because records are values; the caller's record cannot change.
- Actors.AncestryObject.Climb: the bucket is a parameter, read as the store's bucket at the time of the call. A write racing with the rounds is not modelled.
- Vector-clock semantics: clocks are opaque. A plain-object clock is represented by its JSON text; `JSON.stringify` of an object is not modelled. For a string clock it is modelled (`Strings.JsonQuote`).
- Strings.JsonQuote: strings are sequences of Unicode code points, so the `\uXXXX` escape `JSON.stringify` gives a lone surrogate code unit has no counterpart.
- `findAncestor` builds `siblingIndex` with `_.indexBy` and passes it on, but nothing reads it. It is left out.
- The commented-out sibling selection in `store` does nothing and is left out.
- The event-pack integration test calls `storeEventPack` with two arguments, so its events land in the clock position. The pack scenario uses the three-argument form.
- Events.EventStore.GetEventPackFor: a missing pack is `None`; the code throws a `TypeError` on `docs[0]`.
- Strings.Lower: lower-cases the ASCII letters only. JavaScript's `toLowerCase` also maps other letters ("É" to "é") and can change the length ("İ" becomes two code units). So the default bucket names of `Actors.ActorBucketName` and `Events.DefaultedName` match the code only for ASCII store types, and their length promises hold only there.
- Strings.LexLess: compares Unicode code points. JavaScript's `<` compares UTF-16 code units, so the two orders differ on strings with characters beyond U+FFFF. This affects the id order of the generator, the index queries and `_.sortBy`.
- Structured clocks: `Structured(json)` admits any text. A JSON object always starts with "{", so the model also admits texts no plain object produces, such as "0", which would serialise like the closing `0`.
