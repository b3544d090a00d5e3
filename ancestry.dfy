/**
 * The common-ancestor search of `ActorStore.findAncestor` and
 * `ActorStore._findAncestor` (src/ActorStore.js), as functions of the actor
 * bucket. The ancestry object maps a sibling's id to the clocks seen so far on
 * its chain; each round fetches one more ancestor for every list still open.
 */
module Ancestry {
  import opened Wrappers
  import opened Strings
  import opened ActorRecords
  import opened Properties

  /** One element of an ancestry list: a clock seen on the chain, or the 0 that closes the list. */
  datatype Entry = Seen(clock: Clock) | Closed

  type Lists = map<string, seq<Entry>>

  /** A lookup `_findAncestor` issues: fetch `key` and extend the list of `siblingId`. */
  datatype Task = Task(siblingId: string, key: string)

  /** How the rounds end: with common values, with every list closed, or out of rounds. */
  datatype Walked = Met(common: seq<string>) | AllClosed | RoundLimit

  /** What `findAncestor` settles to. */
  datatype Resolution =
    | Resolved(common: seq<string>, ancestor: Fetched)
    | NoCommonAncestor
    | RoundLimitReached

  /** No value occurs twice: the last one is new, and so on down the prefixes. */
  predicate Distinct(s: seq<string>)
    decreases |s|
  {
    s == [] || (s[|s| - 1] !in s[..|s| - 1] && Distinct(s[..|s| - 1]))
  }

  /** The same, position by position. */
  lemma {:induction false} DistinctIndices(s: seq<string>)
    ensures Distinct(s) <==> forall i, j :: 0 <= i < j < |s| ==> s[i] != s[j]
    decreases |s|
  {
    if s != [] {
      var p := s[..|s| - 1];
      DistinctIndices(p);
      assert forall i :: 0 <= i < |p| ==> p[i] == s[i];
      if Distinct(s) {
        forall i, j | 0 <= i < j < |s|
          ensures s[i] != s[j]
        {
          if j == |s| - 1 {
            assert s[i] in p;
          }
        }
      }
    }
  }

  /** The lists of an ancestry object and the order of its properties. */
  ghost predicate WellFormed(lists: Lists, order: seq<string>) {
    Distinct(order) && forall k :: k in lists <==> k in order
  }

  /** The property name `memo[s.id]` uses; an undefined id becomes "undefined". */
  function SiblingKey(s: ActorRecord): string {
    if s.id.Some? then s.id.value else "undefined"
  }

  /** A sibling's initial list: its ancestor if it has one. */
  function InitialList(s: ActorRecord): seq<Entry> {
    if ClockTruthy(s.ancestor) then [Seen(s.ancestor.value)] else []
  }

  /**
   * The ancestry object the reduce over the siblings builds. A repeated id
   * keeps its first position and the list of its last sibling.
   */
  function Seed(siblings: seq<ActorRecord>): (r: (Lists, seq<string>))
    ensures WellFormed(r.0, r.1)
    ensures forall i :: 0 <= i < |siblings| ==> SiblingKey(siblings[i]) in r.0
    ensures |r.1| <= |siblings|
    decreases |siblings|
  {
    if siblings == [] then (map[], [])
    else
      var prior := Seed(siblings[..|siblings| - 1]);
      var k := SiblingKey(siblings[|siblings| - 1]);
      assert forall i :: 0 <= i < |siblings| - 1 ==> siblings[..|siblings| - 1][i] == siblings[i];
      (prior.0[k := InitialList(siblings[|siblings| - 1])],
       if k in prior.0 then prior.1 else prior.1 + [k])
  }

  /** One more sibling in the reduce: its id takes its list, and joins the order when new. */
  lemma SeedSnoc(siblings: seq<ActorRecord>, s: ActorRecord)
    ensures var prior := Seed(siblings);
            var k := SiblingKey(s);
            Seed(siblings + [s]) == (prior.0[k := InitialList(s)], if k in prior.0 then prior.1 else prior.1 + [k])
  {
    assert (siblings + [s])[..|siblings|] == siblings;
  }

  /** The reduce over the first `i + 1` siblings is the reduce over the first `i`, then one more. */
  lemma SeedPrefix(siblings: seq<ActorRecord>, i: nat)
    requires i < |siblings|
    ensures var prior := Seed(siblings[..i]);
            var k := SiblingKey(siblings[i]);
            Seed(siblings[..i + 1]) == (prior.0[k := InitialList(siblings[i])], if k in prior.0 then prior.1 else prior.1 + [k])
  {
    assert siblings[..i + 1][..i] == siblings[..i];
  }

  /** Each sibling's list starts as `[ancestor]`, or empty when it has none. */
  lemma {:induction false} SeedLists(siblings: seq<ActorRecord>, i: nat)
    requires i < |siblings|
    requires forall j :: i < j < |siblings| ==> SiblingKey(siblings[j]) != SiblingKey(siblings[i])
    ensures Seed(siblings).0[SiblingKey(siblings[i])] == InitialList(siblings[i])
    decreases |siblings|
  {
    if i < |siblings| - 1 {
      var p := siblings[..|siblings| - 1];
      assert p[i] == siblings[i];
      forall j | i < j < |p|
        ensures SiblingKey(p[j]) != SiblingKey(p[i])
      {
        assert p[j] == siblings[j];
      }
      SeedLists(p, i);
    }
  }

  /** Siblings that all start from the same list give every property that list. */
  lemma {:induction false} SeedUniform(siblings: seq<ActorRecord>, l: seq<Entry>)
    requires forall i :: 0 <= i < |siblings| ==> InitialList(siblings[i]) == l
    ensures forall k :: k in Seed(siblings).0 ==> Seed(siblings).0[k] == l
    decreases |siblings|
  {
    if siblings != [] {
      var p := siblings[..|siblings| - 1];
      assert forall i :: 0 <= i < |p| ==> p[i] == siblings[i];
      SeedUniform(p, l);
    }
  }

  /**
   * `_.values` and `_.reduce` visit the properties of the ancestry object in
   * `PropertyOrder` of the order they were set in: still each id once.
   */
  lemma PropertyOrderWellFormed(lists: Lists, order: seq<string>)
    requires WellFormed(lists, order)
    ensures WellFormed(lists, PropertyOrder(order))
  {
    DistinctIndices(order);
    PropertyOrderNoRepeats(order);
    DistinctIndices(PropertyOrder(order));
  }

  /** `JSON.stringify` of a list element: 0, a quoted and escaped string, or an object's JSON text. */
  function Serialize(e: Entry): (r: string)
    ensures e.Closed? ==> r == "0"
    ensures e.Seen? && e.clock.Text? ==> |r| >= 2 && r[0] == '"' && r != "0"
  {
    match e
    case Closed => "0"
    case Seen(Text(t)) => JsonQuote(t)
    case Seen(Structured(j)) => j
  }

  /** `_.map(list, JSON.stringify)`. */
  function SerializeAll(l: seq<Entry>): (r: seq<string>)
    ensures |r| == |l|
    decreases |l|
  {
    if l == [] then [] else SerializeAll(l[..|l| - 1]) + [Serialize(l[|l| - 1])]
  }

  /** Position by position, the serialised list holds the serialised elements. */
  lemma {:induction false} SerializeAllIndex(l: seq<Entry>)
    ensures forall i :: 0 <= i < |l| ==> SerializeAll(l)[i] == Serialize(l[i])
    decreases |l|
  {
    if l != [] {
      var p := l[..|l| - 1];
      SerializeAllIndex(p);
      assert forall i :: 0 <= i < |p| ==> p[i] == l[i];
    }
  }

  /** The serialised lists, in order. */
  function SerializeLists(lists: seq<seq<Entry>>): (r: seq<seq<string>>)
    ensures |r| == |lists|
    decreases |lists|
  {
    if lists == [] then [] else SerializeLists(lists[..|lists| - 1]) + [SerializeAll(lists[|lists| - 1])]
  }

  lemma {:induction false} SerializeListsIndex(lists: seq<seq<Entry>>)
    ensures forall i :: 0 <= i < |lists| ==> SerializeLists(lists)[i] == SerializeAll(lists[i])
    decreases |lists|
  {
    if lists != [] {
      var p := lists[..|lists| - 1];
      SerializeListsIndex(p);
      assert forall i :: 0 <= i < |p| ==> p[i] == lists[i];
    }
  }

  /** `v` is in each of `others`. */
  predicate InAll(v: string, others: seq<seq<string>>)
    decreases |others|
  {
    others == [] || (v in others[|others| - 1] && InAll(v, others[..|others| - 1]))
  }

  lemma {:induction false} InAllIndex(v: string, others: seq<seq<string>>)
    ensures InAll(v, others) <==> forall i :: 0 <= i < |others| ==> v in others[i]
    decreases |others|
  {
    if others != [] {
      var p := others[..|others| - 1];
      InAllIndex(v, p);
      assert forall i :: 0 <= i < |p| ==> p[i] == others[i];
    }
  }

  /** lodash's `_.intersection(first, ...others)`: the values of `first` found in every other list, once each, in order. */
  function Intersection(first: seq<string>, others: seq<seq<string>>): (r: seq<string>)
    ensures |r| <= |first|
    decreases |first|
  {
    if first == [] then []
    else
      var prior := Intersection(first[..|first| - 1], others);
      var v := first[|first| - 1];
      if v !in prior && InAll(v, others) then prior + [v] else prior
  }

  /** The intersection holds exactly the values of `first` that are in every other list, each once. */
  lemma {:induction false} IntersectionMeaning(first: seq<string>, others: seq<seq<string>>)
    ensures forall v :: v in Intersection(first, others) <==> v in first && InAll(v, others)
    ensures Distinct(Intersection(first, others))
    decreases |first|
  {
    if first != [] {
      var p := first[..|first| - 1];
      IntersectionMeaning(p, others);
      assert first == p + [first[|first| - 1]];
    }
  }

  /** `v` occurs in every serialised list (and there is at least one list). */
  predicate InEveryList(v: string, lists: seq<seq<Entry>>) {
    |lists| > 0 && forall i :: 0 <= i < |lists| ==> v in SerializeAll(lists[i])
  }

  /** `compare`: `false` (None) when lodash's intersection of the serialised lists is empty. */
  function Compare(lists: seq<seq<Entry>>): (r: Option<seq<string>>)
    ensures r.Some? ==> r.value != []
  {
    if lists == [] then None
    else
      var serialized := SerializeLists(lists);
      var common := Intersection(serialized[0], serialized[1..]);
      if common == [] then None else Some(common)
  }

  /**
   * What `compare` means: `false` exactly when no serialised value occurs in
   * every list; otherwise the values that do, each once, no more of them than
   * the first list has.
   */
  lemma CompareMeaning(lists: seq<seq<Entry>>)
    ensures Compare(lists).None? <==> forall v :: !InEveryList(v, lists)
    ensures Compare(lists).Some? ==> Distinct(Compare(lists).value) && |Compare(lists).value| <= |lists[0]|
    ensures Compare(lists).Some? ==> forall v :: v in Compare(lists).value <==> InEveryList(v, lists)
  {
    if lists != [] {
      var serialized := SerializeLists(lists);
      SerializeListsIndex(lists);
      var common := Intersection(serialized[0], serialized[1..]);
      IntersectionMeaning(serialized[0], serialized[1..]);
      assert Compare(lists) == if common == [] then None else Some(common);
      forall v
        ensures InAll(v, serialized[1..]) && v in serialized[0] <==> InEveryList(v, lists)
      {
        InAllIndex(v, serialized[1..]);
        if InEveryList(v, lists) {
          forall i | 0 <= i < |serialized[1..]|
            ensures v in serialized[1..][i]
          {
            assert serialized[1..][i] == SerializeAll(lists[i + 1]);
          }
        }
        if InAll(v, serialized[1..]) && v in serialized[0] {
          forall i | 0 <= i < |lists|
            ensures v in SerializeAll(lists[i])
          {
            if i > 0 {
              assert serialized[1..][i - 1] == SerializeAll(lists[i]);
            }
          }
        }
      }
      assert common != [] ==> InEveryList(common[0], lists);
    }
  }

  /** `_.values(ancestry)`: the lists in property order. */
  function Values(lists: Lists, order: seq<string>): (r: seq<seq<Entry>>)
    requires forall k :: k in order ==> k in lists
    ensures |r| == |order|
    decreases |order|
  {
    if order == [] then [] else Values(lists, order[..|order| - 1]) + [lists[order[|order| - 1]]]
  }

  /** Position by position, the values are the lists of the properties in order. */
  lemma {:induction false} ValuesIndex(lists: Lists, order: seq<string>)
    requires forall k :: k in order ==> k in lists
    ensures forall i :: 0 <= i < |order| ==> Values(lists, order)[i] == lists[order[i]]
    decreases |order|
  {
    if order != [] {
      var p := order[..|order| - 1];
      assert forall i :: 0 <= i < |p| ==> p[i] == order[i];
      ValuesIndex(lists, p);
    }
  }

  /** A list is open when its last element is a truthy clock: not empty and not closed with 0. */
  predicate IsOpen(list: seq<Entry>) {
    list != [] && list[|list| - 1].Seen? && ClockTruthy(Some(list[|list| - 1].clock))
  }

  function LastClock(list: seq<Entry>): Clock
    requires IsOpen(list)
  {
    list[|list| - 1].clock
  }

  /** The `tasks` reduce: one lookup of `clockToId(actorId, last)` per open list, in property order. */
  function Tasks(actorId: string, lists: Lists, order: seq<string>): (r: seq<Task>)
    ensures forall t :: t in r ==> t.siblingId in lists
    decreases |order|
  {
    if order == [] then []
    else
      var prior := Tasks(actorId, lists, order[..|order| - 1]);
      var k := order[|order| - 1];
      if k in lists && IsOpen(lists[k]) then prior + [Task(k, ClockToId(actorId, LastClock(lists[k])))]
      else prior
  }

  /** What `taskFn` pushes for a fetched record: its ancestor, or 0 for a root, a miss or a sibling set. */
  function NextEntry(f: Fetched): (e: Entry)
    ensures e.Seen? ==> ClockTruthy(Some(e.clock))
  {
    if f.Single? && ClockTruthy(f.record.ancestor) then Seen(f.record.ancestor.value) else Closed
  }

  /** Running the tasks of one round, one after another. */
  function RunTasks(objects: Objects, lists: Lists, tasks: seq<Task>): (r: Lists)
    requires forall t :: t in tasks ==> t.siblingId in lists
    ensures r.Keys == lists.Keys
    decreases |tasks|
  {
    if tasks == [] then lists
    else
      var t := tasks[|tasks| - 1];
      assert forall u :: u in tasks[..|tasks| - 1] ==> u in tasks;
      var prior := RunTasks(objects, lists, tasks[..|tasks| - 1]);
      prior[t.siblingId := prior[t.siblingId] + [NextEntry(Get(objects, t.key))]]
  }

  /** The list of `k` after a round over the properties in `order`. */
  function Extended(objects: Objects, actorId: string, lists: Lists, order: seq<string>, k: string): seq<Entry>
    requires k in lists
  {
    if k in order && IsOpen(lists[k])
    then lists[k] + [NextEntry(Get(objects, ClockToId(actorId, LastClock(lists[k]))))]
    else lists[k]
  }

  lemma RunTasksSnoc(objects: Objects, lists: Lists, tasks: seq<Task>, t: Task)
    requires forall u :: u in tasks + [t] ==> u.siblingId in lists
    ensures var before := RunTasks(objects, lists, tasks);
            RunTasks(objects, lists, tasks + [t]) == before[t.siblingId := before[t.siblingId] + [NextEntry(Get(objects, t.key))]]
  {
    assert (tasks + [t])[..|tasks|] == tasks;
  }

  /** The tasks up to the `i`-th, run as a prefix and then the `i`-th. */
  lemma RunTasksPrefix(objects: Objects, lists: Lists, tasks: seq<Task>, i: nat)
    requires i < |tasks| && forall u :: u in tasks ==> u.siblingId in lists
    ensures tasks[i].siblingId in RunTasks(objects, lists, tasks[..i])
    ensures var before := RunTasks(objects, lists, tasks[..i]);
            RunTasks(objects, lists, tasks[..i + 1]) ==
            before[tasks[i].siblingId := before[tasks[i].siblingId] + [NextEntry(Get(objects, tasks[i].key))]]
  {
    assert tasks[..i + 1] == tasks[..i] + [tasks[i]];
    assert tasks[i] in tasks;
    RunTasksSnoc(objects, lists, tasks[..i], tasks[i]);
  }

  lemma LastNotInPrefix(order: seq<string>)
    requires Distinct(order) && order != []
    ensures Distinct(order[..|order| - 1])
    ensures order[|order| - 1] !in order[..|order| - 1]
    ensures forall k :: k in order <==> k in order[..|order| - 1] || k == order[|order| - 1]
  {
    var o := order[..|order| - 1];
    assert order == o + [order[|order| - 1]];
  }

  /** The last property of `order` is open: the round over `order` is the round over the others, then its lookup. */
  lemma RoundOverOpenLast(objects: Objects, actorId: string, lists: Lists, order: seq<string>)
    requires Distinct(order) && order != [] && forall k :: k in order ==> k in lists
    requires IsOpen(lists[order[|order| - 1]])
    requires var o := order[..|order| - 1];
             var before := RunTasks(objects, lists, Tasks(actorId, lists, o));
             forall k :: k in lists ==> before[k] == Extended(objects, actorId, lists, o, k)
    ensures var next := RunTasks(objects, lists, Tasks(actorId, lists, order));
            forall k :: k in lists ==> next[k] == Extended(objects, actorId, lists, order, k)
  {
    var o := order[..|order| - 1];
    var last := order[|order| - 1];
    LastNotInPrefix(order);
    var prior := Tasks(actorId, lists, o);
    var before := RunTasks(objects, lists, prior);
    var t := Task(last, ClockToId(actorId, LastClock(lists[last])));
    assert Tasks(actorId, lists, order) == prior + [t];
    RunTasksSnoc(objects, lists, prior, t);
    assert before[last] == lists[last];
    forall k | k in lists
      ensures before[last := before[last] + [NextEntry(Get(objects, t.key))]][k] == Extended(objects, actorId, lists, order, k)
    {
      if k != last {
        assert before[k] == Extended(objects, actorId, lists, o, k);
      }
    }
  }

  /** The last property of `order` is not open: the round over `order` is the round over the others. */
  lemma RoundOverClosedLast(objects: Objects, actorId: string, lists: Lists, order: seq<string>)
    requires Distinct(order) && order != [] && forall k :: k in order ==> k in lists
    requires !IsOpen(lists[order[|order| - 1]])
    requires var o := order[..|order| - 1];
             var before := RunTasks(objects, lists, Tasks(actorId, lists, o));
             forall k :: k in lists ==> before[k] == Extended(objects, actorId, lists, o, k)
    ensures var next := RunTasks(objects, lists, Tasks(actorId, lists, order));
            forall k :: k in lists ==> next[k] == Extended(objects, actorId, lists, order, k)
  {
    var o := order[..|order| - 1];
    LastNotInPrefix(order);
    var before := RunTasks(objects, lists, Tasks(actorId, lists, o));
    assert Tasks(actorId, lists, order) == Tasks(actorId, lists, o);
    forall k | k in lists
      ensures before[k] == Extended(objects, actorId, lists, order, k)
    {
      assert before[k] == Extended(objects, actorId, lists, o, k);
    }
  }

  lemma {:induction false} RoundOver(objects: Objects, actorId: string, lists: Lists, order: seq<string>)
    requires Distinct(order) && forall k :: k in order ==> k in lists
    ensures var next := RunTasks(objects, lists, Tasks(actorId, lists, order));
            forall k :: k in lists ==> next[k] == Extended(objects, actorId, lists, order, k)
    decreases |order|
  {
    if order != [] {
      LastNotInPrefix(order);
      RoundOver(objects, actorId, lists, order[..|order| - 1]);
      if IsOpen(lists[order[|order| - 1]]) {
        RoundOverOpenLast(objects, actorId, lists, order);
      } else {
        RoundOverClosedLast(objects, actorId, lists, order);
      }
    }
  }

  /**
   * One round of `_findAncestor`: every open list grows by exactly the fetched
   * record's ancestor (or 0); empty and closed lists are left alone; no list
   * appears or disappears.
   */
  lemma RoundEffect(objects: Objects, actorId: string, lists: Lists, order: seq<string>)
    requires WellFormed(lists, order)
    ensures var next := RunTasks(objects, lists, Tasks(actorId, lists, order));
            && next.Keys == lists.Keys
            && (forall k :: k in lists && IsOpen(lists[k]) ==>
                  next[k] == lists[k] + [NextEntry(Get(objects, ClockToId(actorId, LastClock(lists[k]))))])
            && (forall k :: k in lists && !IsOpen(lists[k]) ==> next[k] == lists[k])
  {
    RoundOver(objects, actorId, lists, order);
  }

  /**
   * `after` is `before` grown by rounds: the same properties, every list
   * extended at its end, and a closed or empty list left as it was.
   */
  predicate Grown(before: Lists, after: Lists) {
    && after.Keys == before.Keys
    && (forall k :: k in before ==> before[k] <= after[k])
    && (forall k :: k in before && !IsOpen(before[k]) ==> after[k] == before[k])
  }

  /** A round grows the ancestry object. */
  lemma RoundGrows(objects: Objects, actorId: string, lists: Lists, order: seq<string>)
    requires WellFormed(lists, order)
    ensures Grown(lists, RunTasks(objects, lists, Tasks(actorId, lists, order)))
  {
    RoundEffect(objects, actorId, lists, order);
  }

  /** Growing twice is growing. */
  lemma GrownTransitive(a: Lists, b: Lists, c: Lists)
    requires Grown(a, b) && Grown(b, c)
    ensures Grown(a, c)
  {
    forall k | k in a
      ensures a[k] <= c[k]
    {
      assert a[k] == b[k][..|a[k]|];
      assert b[k] == c[k][..|b[k]|];
      assert a[k] == c[k][..|a[k]|];
    }
  }

  /** A round issues no lookup exactly when no list is open. */
  lemma {:induction false} NoTasksWhenAllClosed(actorId: string, lists: Lists, order: seq<string>)
    requires forall k :: k in order ==> k in lists
    ensures Tasks(actorId, lists, order) == [] <==> forall k :: k in order ==> !IsOpen(lists[k])
    decreases |order|
  {
    if order != [] {
      NoTasksWhenAllClosed(actorId, lists, order[..|order| - 1]);
      assert order == order[..|order| - 1] + [order[|order| - 1]];
    }
  }

  /** The rounds of `_findAncestor`, at most `rounds` of them. */
  function Walk(objects: Objects, actorId: string, lists: Lists, order: seq<string>, rounds: nat): (r: Walked)
    requires WellFormed(lists, order)
    ensures r.Met? ==> r.common != []
    decreases rounds, 1
  {
    var tasks := Tasks(actorId, lists, order);
    if tasks == [] then AllClosed
    else if rounds == 0 then RoundLimit
    else AfterRound(objects, actorId, RunTasks(objects, lists, tasks), order, rounds)
  }

  /** The end of a round: `compare`, then either the common values or the next round. */
  function AfterRound(objects: Objects, actorId: string, next: Lists, order: seq<string>, rounds: nat): (r: Walked)
    requires WellFormed(next, order) && rounds > 0
    ensures r.Met? ==> r.common != []
    decreases rounds, 0
  {
    match Compare(Values(next, order))
    case Some(common) => Met(common)
    case None => Walk(objects, actorId, next, order, rounds - 1)
  }

  /** A round of `_findAncestor` after which `compare` finds common values ends the search with them. */
  lemma WalkMeets(objects: Objects, actorId: string, lists: Lists, order: seq<string>, rounds: nat, next: Lists)
    requires WellFormed(lists, order) && rounds > 0 && Tasks(actorId, lists, order) != []
    requires next == RunTasks(objects, lists, Tasks(actorId, lists, order))
    requires Compare(Values(next, order)).Some?
    ensures Walk(objects, actorId, lists, order, rounds) == Met(Compare(Values(next, order)).value)
  {
  }

  /** A round of `_findAncestor` that finds nothing common leaves the rest of the search to the next round. */
  lemma WalkStep(objects: Objects, actorId: string, lists: Lists, order: seq<string>, rounds: nat, next: Lists)
    requires WellFormed(lists, order) && rounds > 0 && Tasks(actorId, lists, order) != []
    requires next == RunTasks(objects, lists, Tasks(actorId, lists, order))
    requires Compare(Values(next, order)).None?
    ensures WellFormed(next, order)
    ensures Walk(objects, actorId, lists, order, rounds) == Walk(objects, actorId, next, order, rounds - 1)
  {
  }

  /** One round of `_findAncestor` as `Climb` runs it: the lists grow, and the search ends or goes on from them. */
  lemma ClimbRound(objects: Objects, actorId: string, lists: Lists, order: seq<string>, rounds: nat, next: Lists)
    requires WellFormed(lists, order) && rounds > 0 && Tasks(actorId, lists, order) != []
    requires next == RunTasks(objects, lists, Tasks(actorId, lists, order))
    ensures WellFormed(next, order) && Grown(lists, next)
    ensures Walk(objects, actorId, lists, order, rounds) == AfterRound(objects, actorId, next, order, rounds)
  {
    RoundGrows(objects, actorId, lists, order);
  }

  /** Without lookups to do, or without rounds left, the search stops: it rejects, or reports the round limit. */
  lemma WalkStops(objects: Objects, actorId: string, lists: Lists, order: seq<string>, rounds: nat)
    requires WellFormed(lists, order)
    requires Tasks(actorId, lists, order) == [] || rounds == 0
    ensures Walk(objects, actorId, lists, order, rounds) == if Tasks(actorId, lists, order) == [] then AllClosed else RoundLimit
  {
  }

  /** `clockToId(actorId, common)` for the array `compare` returns: `String(array)` joins it with ",". */
  function CommonToId(actorId: string, common: seq<string>): (k: string)
    ensures |k| > |actorId| && k[..|actorId|] == actorId && k[|actorId|] == '-'
    ensures |common| == 1 ==> k == actorId + "-" + common[0]
  {
    actorId + "-" + Join(common, ",")
  }

  /** `findAncestor(actorId, siblings)` allowed at most `maxRounds` rounds of lookups. */
  function Resolve(objects: Objects, actorId: string, siblings: seq<ActorRecord>, maxRounds: nat): (r: Resolution)
    ensures r.Resolved? ==> r.common != [] && r.ancestor == Get(objects, CommonToId(actorId, r.common))
  {
    var seeded := Seed(siblings);
    var keys := PropertyOrder(seeded.1);
    PropertyOrderWellFormed(seeded.0, seeded.1);
    match Compare(Values(seeded.0, keys))
    case Some(common) => Resolved(common, Get(objects, CommonToId(actorId, common)))
    case None =>
      match Walk(objects, actorId, seeded.0, keys, maxRounds)
      case Met(common) => Resolved(common, Get(objects, CommonToId(actorId, common)))
      case AllClosed => NoCommonAncestor
      case RoundLimit => RoundLimitReached
  }
}

module AncestryProperties {
  import opened Wrappers
  import opened Strings
  import opened ActorRecords
  import opened Properties
  import opened Ancestry

  /** When no list is open the search rejects ("Common ancestor could not be found") without a lookup. */
  lemma RejectsWhenNoListOpen(objects: Objects, actorId: string, lists: Lists, order: seq<string>, rounds: nat)
    requires WellFormed(lists, order)
    requires forall k :: k in order ==> !IsOpen(lists[k])
    ensures Walk(objects, actorId, lists, order, rounds) == AllClosed
  {
    NoTasksWhenAllClosed(actorId, lists, order);
  }

  /**
   * Once every list has been closed with 0, the serialised "0" is common to
   * all of them, so `compare` reports it as the common ancestor.
   */
  lemma ClosedListsMeetAtZero(lists: seq<seq<Entry>>)
    requires |lists| > 0
    requires forall i :: 0 <= i < |lists| ==> lists[i] != [] && lists[i][|lists[i]| - 1] == Closed
    ensures Compare(lists).Some? && "0" in Compare(lists).value
  {
    CompareMeaning(lists);
    forall i | 0 <= i < |lists|
      ensures "0" in SerializeAll(lists[i])
    {
      assert SerializeAll(lists[i])[|lists[i]| - 1] == "0";
    }
    assert InEveryList("0", lists);
  }

  /** An empty list (a sibling without an ancestor) has nothing in common with anything. */
  lemma EmptyListNeverMeets(lists: seq<seq<Entry>>, i: nat)
    requires i < |lists| && lists[i] == []
    ensures Compare(lists).None?
  {
    CompareMeaning(lists);
    forall v
      ensures !InEveryList(v, lists)
    {
      assert SerializeAll(lists[i]) == [];
    }
  }

  /** A round leaves an empty list empty, so `compare` finds nothing after it. */
  lemma EmptyListBlocksRound(objects: Objects, actorId: string, lists: Lists, order: seq<string>, k: string)
    requires WellFormed(lists, order) && k in lists && lists[k] == []
    ensures var next := RunTasks(objects, lists, Tasks(actorId, lists, order));
            next[k] == [] && Compare(Values(next, order)).None?
  {
    var next := RunTasks(objects, lists, Tasks(actorId, lists, order));
    RoundEffect(objects, actorId, lists, order);
    assert next[k] == [];
    var i :| 0 <= i < |order| && order[i] == k;
    ValuesIndex(next, order);
    EmptyListNeverMeets(Values(next, order), i);
  }

  /** The round after which the search with an empty list goes on, with the list still empty. */
  lemma EmptyListRound(objects: Objects, actorId: string, lists: Lists, order: seq<string>, rounds: nat, k: string)
    returns (next: Lists)
    requires WellFormed(lists, order) && k in lists && lists[k] == []
    requires Tasks(actorId, lists, order) != [] && rounds > 0
    ensures WellFormed(next, order) && k in next && next[k] == []
    ensures Walk(objects, actorId, lists, order, rounds) == Walk(objects, actorId, next, order, rounds - 1)
  {
    next := RunTasks(objects, lists, Tasks(actorId, lists, order));
    EmptyListBlocksRound(objects, actorId, lists, order, k);
    WalkStep(objects, actorId, lists, order, rounds, next);
  }

  lemma {:induction false} WalkNeverMeetsWithEmptyList(objects: Objects, actorId: string, lists: Lists, order: seq<string>, rounds: nat, k: string)
    requires WellFormed(lists, order) && k in lists && lists[k] == []
    ensures !Walk(objects, actorId, lists, order, rounds).Met?
    decreases rounds
  {
    if Tasks(actorId, lists, order) != [] && rounds > 0 {
      var next := EmptyListRound(objects, actorId, lists, order, rounds, k);
      WalkNeverMeetsWithEmptyList(objects, actorId, next, order, rounds - 1, k);
    } else {
      WalkStops(objects, actorId, lists, order, rounds);
    }
  }

  /**
   * A search that ends within `rounds` rounds (common values found, or every
   * list closed) ends the same way with any larger round limit.
   */
  lemma {:induction false} WalkMoreRounds(objects: Objects, actorId: string, lists: Lists, order: seq<string>, rounds: nat, more: nat)
    requires WellFormed(lists, order) && rounds <= more
    requires !Walk(objects, actorId, lists, order, rounds).RoundLimit?
    ensures Walk(objects, actorId, lists, order, more) == Walk(objects, actorId, lists, order, rounds)
    decreases rounds, 1
  {
    var tasks := Tasks(actorId, lists, order);
    if tasks != [] && rounds > 0 {
      AfterRoundMoreRounds(objects, actorId, RunTasks(objects, lists, tasks), order, rounds, more);
    }
  }

  /** The end of a round that settles within `rounds` rounds settles the same way with more. */
  lemma {:induction false} AfterRoundMoreRounds(objects: Objects, actorId: string, next: Lists, order: seq<string>, rounds: nat, more: nat)
    requires WellFormed(next, order) && 0 < rounds <= more
    requires !AfterRound(objects, actorId, next, order, rounds).RoundLimit?
    ensures AfterRound(objects, actorId, next, order, more) == AfterRound(objects, actorId, next, order, rounds)
    decreases rounds, 0
  {
    if Compare(Values(next, order)).None? {
      WalkMoreRounds(objects, actorId, next, order, rounds - 1, more - 1);
    }
  }

  /** `findAncestor` that settles within `maxRounds` rounds settles the same way with more. */
  lemma ResolveMoreRounds(objects: Objects, actorId: string, siblings: seq<ActorRecord>, maxRounds: nat, more: nat)
    requires maxRounds <= more
    requires !Resolve(objects, actorId, siblings, maxRounds).RoundLimitReached?
    ensures Resolve(objects, actorId, siblings, more) == Resolve(objects, actorId, siblings, maxRounds)
  {
    var seeded := Seed(siblings);
    var keys := PropertyOrder(seeded.1);
    PropertyOrderWellFormed(seeded.0, seeded.1);
    if Compare(Values(seeded.0, keys)).None? {
      WalkMoreRounds(objects, actorId, seeded.0, keys, maxRounds, more);
    }
  }

  /**
   * A sibling that is a root version (no ancestor) keeps an empty list for
   * ever, so `findAncestor` never resolves siblings that include one: it
   * rejects or runs out of rounds.
   */
  lemma RootSiblingNeverResolves(objects: Objects, actorId: string, siblings: seq<ActorRecord>, maxRounds: nat, i: nat)
    requires i < |siblings| && !ClockTruthy(siblings[i].ancestor)
    requires forall j :: i < j < |siblings| ==> SiblingKey(siblings[j]) != SiblingKey(siblings[i])
    ensures !Resolve(objects, actorId, siblings, maxRounds).Resolved?
  {
    var seeded := Seed(siblings);
    var k := SiblingKey(siblings[i]);
    SeedLists(siblings, i);
    assert seeded.0[k] == [];
    var keys := PropertyOrder(seeded.1);
    PropertyOrderWellFormed(seeded.0, seeded.1);
    var idx :| 0 <= idx < |keys| && keys[idx] == k;
    ValuesIndex(seeded.0, keys);
    EmptyListNeverMeets(Values(seeded.0, keys), idx);
    WalkNeverMeetsWithEmptyList(objects, actorId, seeded.0, keys, maxRounds, k);
  }

  /** The fast path: siblings whose own ancestors already agree resolve without any round. */
  lemma SharedAncestorResolvesAtOnce(objects: Objects, actorId: string, siblings: seq<ActorRecord>, c: Clock, maxRounds: nat)
    requires |siblings| > 0 && ClockTruthy(Some(c))
    requires forall i :: 0 <= i < |siblings| ==> siblings[i].ancestor == Some(c)
    ensures Resolve(objects, actorId, siblings, maxRounds)
              == Resolved([Serialize(Seen(c))], Get(objects, actorId + "-" + Serialize(Seen(c))))
  {
    var seeded := Seed(siblings);
    var keys := PropertyOrder(seeded.1);
    PropertyOrderWellFormed(seeded.0, seeded.1);
    var lists := Values(seeded.0, keys);
    SeedUniform(siblings, [Seen(c)]);
    ValuesIndex(seeded.0, keys);
    assert SiblingKey(siblings[0]) in keys;
    forall j | 0 <= j < |lists|
      ensures Serialize(Seen(c)) in SerializeAll(lists[j])
    {
      assert SerializeAll(lists[j]) == [Serialize(Seen(c))];
    }
    assert InEveryList(Serialize(Seen(c)), lists);
    assert lists[0] == [Seen(c)];
    CompareMeaning(lists);
    var common := Compare(lists).value;
    assert |common| == 1 && common[0] in common;
    assert common == [Serialize(Seen(c))];
    assert CommonToId(actorId, common) == actorId + "-" + Serialize(Seen(c));
  }
}
