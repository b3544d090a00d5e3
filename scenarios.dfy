/**
 * Concrete histories from the repository's own tests, replayed on the model:
 * the ancestor search over a seven-version history, disjoint roots, a string
 * clock on the fast path, and the event store's queries after stores.
 */
module Scenarios {
  import opened Wrappers
  import opened Strings
  import opened Sorting
  import opened ActorRecords
  import opened Ancestry
  import opened AncestryProperties
  import opened Actors
  import opened Events
  import opened Properties

  // The history of spec/integration/ActorStore.spec.js: N0 is the root, N1 its
  // child, N2 and N3 children of N1, N4 a child of N3, and N5 and N6 children of
  // N4. Each clock is a `vectorclock` object, `Jn` its JSON text; each record's
  // key, and its id, is the actor id, a dash and that text (`Kn`). The test's
  // generated actor id is "board" here.

  const Actor := "board"

  const J0 := "{\"clock\":{\"A\":1}}"
  const J1 := "{\"clock\":{\"A\":2}}"
  const J2 := "{\"clock\":{\"A\":3}}"
  const J3 := "{\"clock\":{\"A\":2,\"B\":1}}"
  const J4 := "{\"clock\":{\"A\":2,\"B\":2}}"
  const J5 := "{\"clock\":{\"A\":2,\"B\":3}}"
  const J6 := "{\"clock\":{\"A\":2,\"B\":2,\"C\":1}}"

  const K0 := Actor + "-" + J0
  const K1 := Actor + "-" + J1
  const K2 := Actor + "-" + J2
  const K3 := Actor + "-" + J3
  const K4 := Actor + "-" + J4
  const K5 := Actor + "-" + J5
  const K6 := Actor + "-" + J6

  /** Keys built from different clock texts differ. */
  lemma KeyInjective(x: string, y: string)
    requires x != y
    ensures Actor + "-" + x != Actor + "-" + y
  {
    assert (Actor + "-" + x)[6..] == x && (Actor + "-" + y)[6..] == y;
  }

  /** The seven records of the history have seven different keys. */
  lemma HistoryKeys()
    ensures K0 != K1 && K0 != K2 && K0 != K3 && K0 != K4 && K0 != K5 && K0 != K6
    ensures K1 != K2 && K1 != K3 && K1 != K4 && K1 != K5 && K1 != K6
    ensures K2 != K3 && K2 != K4 && K2 != K5 && K2 != K6
    ensures K3 != K4 && K3 != K5 && K3 != K6
    ensures K4 != K5 && K4 != K6
    ensures K5 != K6
  {
    KeyInjective(J0, J1); KeyInjective(J0, J2); KeyInjective(J0, J3); KeyInjective(J0, J4); KeyInjective(J0, J5); KeyInjective(J0, J6);
    KeyInjective(J1, J2); KeyInjective(J1, J3); KeyInjective(J1, J4); KeyInjective(J1, J5); KeyInjective(J1, J6);
    KeyInjective(J2, J3); KeyInjective(J2, J4); KeyInjective(J2, J5); KeyInjective(J2, J6);
    KeyInjective(J3, J4); KeyInjective(J3, J5); KeyInjective(J3, J6);
    KeyInjective(J4, J5); KeyInjective(J4, J6);
    KeyInjective(J5, J6);
  }

  function Node(key: string, json: string, ancestor: Option<Clock>): ActorRecord {
    ActorRecord(Some(key), Some(Structured(json)), ancestor, None, map[])
  }

  const N0 := Node(K0, J0, None)
  const N1 := Node(K1, J1, Some(Structured(J0)))
  const N2 := Node(K2, J2, Some(Structured(J1)))
  const N3 := Node(K3, J3, Some(Structured(J1)))
  const N4 := Node(K4, J4, Some(Structured(J3)))
  const N5 := Node(K5, J5, Some(Structured(J4)))
  const N6 := Node(K6, J6, Some(Structured(J4)))

  const History: Objects :=
    map[K0 := [N0], K1 := [N1], K2 := [N2], K3 := [N3], K4 := [N4], K5 := [N5], K6 := [N6]]

  /** The reduce over two siblings with different ids. */
  lemma SeedTwo(x: ActorRecord, y: ActorRecord)
    requires SiblingKey(x) != SiblingKey(y)
    ensures Seed([x, y]) ==
            (map[SiblingKey(x) := InitialList(x), SiblingKey(y) := InitialList(y)], [SiblingKey(x), SiblingKey(y)])
  {
    var kx, ky := SiblingKey(x), SiblingKey(y);
    SeedSnoc([], x);
    assert [] + [x] == [x];
    assert Seed([x]) == (map[kx := InitialList(x)], [kx]);
    SeedSnoc([x], y);
    assert [x] + [y] == [x, y];
    assert ky !in map[kx := InitialList(x)];
    assert Seed([x, y]).1 == [kx, ky];
    assert Seed([x, y]).0 == map[kx := InitialList(x), ky := InitialList(y)];
  }

  /** The reduce over three siblings with different ids. */
  lemma SeedThree(x: ActorRecord, y: ActorRecord, z: ActorRecord)
    requires SiblingKey(x) != SiblingKey(y) && SiblingKey(x) != SiblingKey(z) && SiblingKey(y) != SiblingKey(z)
    ensures Seed([x, y, z]) ==
            (map[SiblingKey(x) := InitialList(x), SiblingKey(y) := InitialList(y), SiblingKey(z) := InitialList(z)],
             [SiblingKey(x), SiblingKey(y), SiblingKey(z)])
  {
    var kx, ky, kz := SiblingKey(x), SiblingKey(y), SiblingKey(z);
    SeedTwo(x, y);
    SeedSnoc([x, y], z);
    assert [x, y] + [z] == [x, y, z];
    assert kz !in map[kx := InitialList(x), ky := InitialList(y)];
    assert Seed([x, y, z]).1 == [kx, ky, kz];
    assert Seed([x, y, z]).0 == map[kx := InitialList(x), ky := InitialList(y), kz := InitialList(z)];
  }

  /** The ancestry object after the reduce over N2, N5 and N6. */
  lemma HistorySeed()
    ensures Seed([N2, N5, N6]) == (map[K2 := A0, K5 := B0, K6 := B0], [K2, K5, K6])
  {
    HistoryKeys();
    SeedThree(N2, N5, N6);
  }

  /** The records the rounds fetch. */
  lemma HistoryGets()
    ensures Get(History, K0) == Single(N0) && Get(History, K1) == Single(N1)
    ensures Get(History, K3) == Single(N3) && Get(History, K4) == Single(N4)
  {
    HistoryKeys();
  }

  /** Three lists, under the keys of N2, N5 and N6, in that order. */
  lemma ThreeLists(a: seq<Entry>, b: seq<Entry>, c: seq<Entry>)
    ensures K2 != K5 && K2 != K6 && K5 != K6
    ensures WellFormed(map[K2 := a, K5 := b, K6 := c], [K2, K5, K6])
    ensures Values(map[K2 := a, K5 := b, K6 := c], [K2, K5, K6]) == [a, b, c]
  {
    var lists := map[K2 := a, K5 := b, K6 := c];
    HistoryKeys();
    DistinctIndices([K2, K5, K6]);
    assert [K2, K5, K6][..2] == [K2, K5];
    assert [K2, K5][..1] == [K2];
    assert Values(lists, [K2]) == [a];
    assert Values(lists, [K2, K5]) == [a, b];
  }

  /** A round over three open lists extends each by its fetched ancestor, list by list. */
  lemma ThreeListEntries(objects: Objects, a: seq<Entry>, b: seq<Entry>, c: seq<Entry>)
    requires IsOpen(a) && IsOpen(b) && IsOpen(c)
    ensures var lists := map[K2 := a, K5 := b, K6 := c];
            var next := RunTasks(objects, lists, Tasks(Actor, lists, [K2, K5, K6]));
            && Tasks(Actor, lists, [K2, K5, K6]) != []
            && next.Keys == {K2, K5, K6}
            && next[K2] == a + [NextEntry(Get(objects, ClockToId(Actor, LastClock(a))))]
            && next[K5] == b + [NextEntry(Get(objects, ClockToId(Actor, LastClock(b))))]
            && next[K6] == c + [NextEntry(Get(objects, ClockToId(Actor, LastClock(c))))]
  {
    var lists := map[K2 := a, K5 := b, K6 := c];
    var order := [K2, K5, K6];
    ThreeLists(a, b, c);
    NoTasksWhenAllClosed(Actor, lists, order);
    assert K2 in order;
    RoundEffect(objects, Actor, lists, order);
  }

  /**
   * A round over three open lists extends each by what its lookup brings
   * back: `ea`, `eb` and `ec`.
   */
  lemma ThreeListRound(objects: Objects, a: seq<Entry>, b: seq<Entry>, c: seq<Entry>, ea: Entry, eb: Entry, ec: Entry)
    requires IsOpen(a) && IsOpen(b) && IsOpen(c)
    requires ea == NextEntry(Get(objects, ClockToId(Actor, LastClock(a))))
    requires eb == NextEntry(Get(objects, ClockToId(Actor, LastClock(b))))
    requires ec == NextEntry(Get(objects, ClockToId(Actor, LastClock(c))))
    ensures var lists := map[K2 := a, K5 := b, K6 := c];
            Tasks(Actor, lists, [K2, K5, K6]) != [] &&
            RunTasks(objects, lists, Tasks(Actor, lists, [K2, K5, K6])) == map[K2 := a + [ea], K5 := b + [eb], K6 := c + [ec]]
  {
    ThreeListEntries(objects, a, b, c);
  }

  /** A value is in each of the lists `[a, b, b]` when it is in `a` and in `b`. */
  lemma CommonOfThree(a: seq<Entry>, b: seq<Entry>)
    ensures forall w :: InEveryList(w, [a, b, b]) <==> w in SerializeAll(a) && w in SerializeAll(b)
  {
    var lists := [a, b, b];
    assert lists[0] == a && lists[1] == b && lists[2] == b;
  }

  /** A value is in each of the lists `[a, b]` when it is in `a` and in `b`. */
  lemma CommonOfTwo(a: seq<Entry>, b: seq<Entry>)
    ensures forall w :: InEveryList(w, [a, b]) <==> w in SerializeAll(a) && w in SerializeAll(b)
  {
    var lists := [a, b];
    assert lists[0] == a && lists[1] == b;
  }

  /** The serialised text of a list that grows by one element. */
  lemma SerializeSnoc(l: seq<Entry>, e: Entry)
    ensures SerializeAll([e]) == [Serialize(e)]
    ensures SerializeAll(l + [e]) == SerializeAll(l) + [Serialize(e)]
  {
    assert (l + [e])[..|l|] == l;
    assert [e][..0] == [];
  }

  /** `compare` over lists that have exactly one serialised value in common. */
  lemma CompareOne(lists: seq<seq<Entry>>, v: string)
    requires InEveryList(v, lists)
    requires forall w :: InEveryList(w, lists) ==> w == v
    ensures Compare(lists) == Some([v])
  {
    CompareMeaning(lists);
    assert Compare(lists).Some?;
    var common := Compare(lists).value;
    DistinctCount(common);
    assert (set x | x in common) == {v};
    assert |common| == 1;
    assert common == [common[0]] && common[0] in common;
  }

  /** A list without repeats holds as many values as it has elements. */
  lemma {:induction false} DistinctCount(s: seq<string>)
    requires Distinct(s)
    ensures |(set x | x in s)| == |s|
    decreases |s|
  {
    if s != [] {
      var p := s[..|s| - 1];
      DistinctCount(p);
      assert s == p + [s[|s| - 1]];
      assert (set x | x in s) == (set x | x in p) + {s[|s| - 1]};
    }
  }

  // The lists of the history before the first round, after it, and after the
  // second: N2's list, and the list N5 and N6 share.

  const A0 := [Seen(Structured(J1))]
  const B0 := [Seen(Structured(J4))]
  const A1 := A0 + [Seen(Structured(J0))]
  const B1 := B0 + [Seen(Structured(J3))]
  const A2 := A1 + [Closed]
  const B2 := B1 + [Seen(Structured(J1))]

  /** The serialised lists of the history. */
  lemma HistoryText()
    ensures SerializeAll(A0) == [J1] && SerializeAll(B0) == [J4]
    ensures SerializeAll(A1) == [J1] + [J0] && SerializeAll(B1) == [J4] + [J3]
    ensures SerializeAll(A2) == [J1] + [J0] + ["0"] && SerializeAll(B2) == [J4] + [J3] + [J1]
  {
    SerializeSnoc([], Seen(Structured(J1)));
    SerializeSnoc([], Seen(Structured(J4)));
    SerializeSnoc(A0, Seen(Structured(J0)));
    SerializeSnoc(B0, Seen(Structured(J3)));
    SerializeSnoc(A1, Closed);
    SerializeSnoc(B1, Seen(Structured(J1)));
  }

  /** N1's clock and N4's have nothing in common, nor their parents' clocks. */
  lemma HistoryApart()
    ensures Compare([A0, B0, B0]).None? && Compare([A1, B1, B1]).None?
  {
    HistoryText();
    CompareMeaning([A0, B0, B0]);
    CompareMeaning([A1, B1, B1]);
    CommonOfThree(A0, B0);
    CommonOfThree(A1, B1);
  }

  /** After the second round every list holds N1's clock, and nothing else is common. */
  lemma HistoryMeets()
    ensures Compare([A2, B2, B2]) == Some([J1])
  {
    HistoryText();
    CommonOfThree(A2, B2);
    assert SerializeAll(A2)[0] == J1 && SerializeAll(B2)[2] == J1;
    CompareOne([A2, B2, B2], J1);
  }

  /** The first round fetches N1 and N4, whose ancestors are N0's and N3's clocks. */
  lemma HistoryRoundOne()
    ensures var l0 := map[K2 := A0, K5 := B0, K6 := B0];
            Tasks(Actor, l0, [K2, K5, K6]) != [] &&
            RunTasks(History, l0, Tasks(Actor, l0, [K2, K5, K6])) == map[K2 := A1, K5 := B1, K6 := B1]
  {
    HistoryGets();
    assert NextEntry(Single(N1)) == Seen(Structured(J0)) && NextEntry(Single(N4)) == Seen(Structured(J3));
    ThreeListRound(History, A0, B0, B0, Seen(Structured(J0)), Seen(Structured(J3)), Seen(Structured(J3)));
  }

  /** The second round fetches N0, a root, and N3, whose ancestor is N1's clock. */
  lemma HistoryRoundTwo()
    ensures var l1 := map[K2 := A1, K5 := B1, K6 := B1];
            Tasks(Actor, l1, [K2, K5, K6]) != [] &&
            RunTasks(History, l1, Tasks(Actor, l1, [K2, K5, K6])) == map[K2 := A2, K5 := B2, K6 := B2]
  {
    HistoryGets();
    assert NextEntry(Single(N0)) == Closed && NextEntry(Single(N3)) == Seen(Structured(J1));
    ThreeListRound(History, A1, B1, B1, Closed, Seen(Structured(J1)), Seen(Structured(J1)));
  }

  /** From the seeded lists, two rounds of lookups meet at N1's clock. */
  lemma HistoryWalk(maxRounds: nat)
    requires maxRounds >= 2
    ensures WellFormed(map[K2 := A0, K5 := B0, K6 := B0], [K2, K5, K6]) &&
            Walk(History, Actor, map[K2 := A0, K5 := B0, K6 := B0], [K2, K5, K6], maxRounds) == Met([J1])
  {
    var order := [K2, K5, K6];
    var l0 := map[K2 := A0, K5 := B0, K6 := B0];
    var l1 := map[K2 := A1, K5 := B1, K6 := B1];
    var l2 := map[K2 := A2, K5 := B2, K6 := B2];
    ThreeLists(A0, B0, B0);
    ThreeLists(A1, B1, B1);
    ThreeLists(A2, B2, B2);
    HistoryApart();
    HistoryMeets();
    HistoryRoundOne();
    HistoryRoundTwo();
    WalkStep(History, Actor, l0, order, maxRounds, l1);
    WalkMeets(History, Actor, l1, order, maxRounds - 1, l2);
  }

  /** A key of the actor starts with a letter, so it is no array index. */
  lemma ActorKeyNotIndex(x: string)
    ensures !IsArrayIndex(Actor + "-" + x)
  {
    assert (Actor + "-" + x)[0] == 'b';
  }

  /** The siblings' ids are enumerated in the order they were set. */
  lemma SiblingOrder()
    ensures PropertyOrder([K2, K5, K6]) == [K2, K5, K6]
    ensures PropertyOrder([K2, K5]) == [K2, K5]
  {
    ActorKeyNotIndex(J2);
    ActorKeyNotIndex(J5);
    ActorKeyNotIndex(J6);
    PropertyOrderWithoutIndices([K2, K5, K6]);
    PropertyOrderWithoutIndices([K2, K5]);
  }

  /** Ids that are array indices are enumerated in numeric order, whatever order they were set in. */
  lemma NumericIdsFirst()
    ensures PropertyOrder(["10", "2", "x"]) == ["2", "10", "x"]
  {
    assert DecimalValue("1") == 1 && DecimalValue("10") == 10 && DecimalValue("2") == 2;
    assert IsArrayIndex("10") && IsArrayIndex("2") && !IsArrayIndex("x");
    assert IndexKeys(["x"]) == [] && OtherKeys(["x"]) == ["x"];
    assert IndexKeys(["2", "x"]) == ["2"] && OtherKeys(["2", "x"]) == ["x"];
    assert InsertIndex("10", ["2"]) == ["2", "10"];
    assert OtherKeys(["10", "2", "x"]) == ["x"];
  }

  /**
   * `findAncestor(actorId, [N2, N5, N6])` resolves to N1, the parent of the
   * two branches, after two rounds of lookups.
   */
  lemma HistoryResolvesToParent(maxRounds: nat)
    requires maxRounds >= 2
    ensures Resolve(History, Actor, [N2, N5, N6], maxRounds) == Resolved([J1], Single(N1))
  {
    HistorySeed();
    SiblingOrder();
    ThreeLists(A0, B0, B0);
    HistoryApart();
    HistoryWalk(maxRounds);
    HistoryGets();
    assert CommonToId(Actor, [J1]) == ClockToId(Actor, Structured(J1));
  }

  /** The same search through the store object, over a bucket holding the history. */
  method FindParentInStore() returns (r: Resolution)
    ensures r == Resolved([J1], Single(N1))
  {
    var store := new ActorStore("boards", None, History, map[]);
    r := store.FindAncestor(Actor, [N2, N5, N6], 2);
    HistoryResolvesToParent(2);
  }

  /** Two lists, under the keys of N2 and N5, in that order. */
  lemma TwoLists(a: seq<Entry>, b: seq<Entry>)
    ensures K2 != K5
    ensures WellFormed(map[K2 := a, K5 := b], [K2, K5])
    ensures Values(map[K2 := a, K5 := b], [K2, K5]) == [a, b]
  {
    HistoryKeys();
    DistinctIndices([K2, K5]);
    assert [K2, K5][..1] == [K2];
  }

  /** A round over two open lists extends each by what its lookup brings back. */
  lemma TwoListRound(objects: Objects, a: seq<Entry>, b: seq<Entry>, ea: Entry, eb: Entry)
    requires IsOpen(a) && IsOpen(b)
    requires ea == NextEntry(Get(objects, ClockToId(Actor, LastClock(a))))
    requires eb == NextEntry(Get(objects, ClockToId(Actor, LastClock(b))))
    ensures var lists := map[K2 := a, K5 := b];
            Tasks(Actor, lists, [K2, K5]) != [] &&
            RunTasks(objects, lists, Tasks(Actor, lists, [K2, K5])) == map[K2 := a + [ea], K5 := b + [eb]]
  {
    var lists := map[K2 := a, K5 := b];
    TwoLists(a, b);
    NoTasksWhenAllClosed(Actor, lists, [K2, K5]);
    assert K2 in [K2, K5];
    RoundEffect(objects, Actor, lists, [K2, K5]);
  }

  // Two roots, one with N0's clock and R3 with N3's, a child of each, and
  // the lists of the two children before and after the one round.

  const R3 := Node(K3, J3, None)
  const Roots: Objects := map[K0 := [N0], K3 := [R3]]
  const C2 := Node(K2, J2, Some(Structured(J0)))
  const C5 := Node(K5, J5, Some(Structured(J3)))

  const D0 := [Seen(Structured(J0))]
  const E0 := [Seen(Structured(J3))]
  const D1 := D0 + [Closed]
  const E1 := E0 + [Closed]

  /** The serialised lists of the two children. */
  lemma RootsText()
    ensures SerializeAll(D0) == [J0] && SerializeAll(E0) == [J3]
    ensures SerializeAll(D1) == [J0] + ["0"] && SerializeAll(E1) == [J3] + ["0"]
  {
    SerializeSnoc([], Seen(Structured(J0)));
    SerializeSnoc([], Seen(Structured(J3)));
    SerializeSnoc(D0, Closed);
    SerializeSnoc(E0, Closed);
  }

  /** The two roots' clocks differ; after the round both lists end in "0", and only that is common. */
  lemma RootsCompare()
    ensures Compare([D0, E0]).None? && Compare([D1, E1]) == Some(["0"])
  {
    RootsText();
    CompareMeaning([D0, E0]);
    CommonOfTwo(D0, E0);
    CommonOfTwo(D1, E1);
    assert SerializeAll(D1)[1] == "0" && SerializeAll(E1)[1] == "0";
    CompareOne([D1, E1], "0");
  }

  /** The round over the two children reaches the two roots and closes both lists. */
  lemma RootsRound()
    ensures var l0 := map[K2 := D0, K5 := E0];
            Tasks(Actor, l0, [K2, K5]) != [] &&
            RunTasks(Roots, l0, Tasks(Actor, l0, [K2, K5])) == map[K2 := D1, K5 := E1]
  {
    HistoryKeys();
    assert Get(Roots, K0) == Single(N0) && Get(Roots, K3) == Single(R3);
    assert NextEntry(Single(N0)) == Closed && NextEntry(Single(R3)) == Closed;
    TwoListRound(Roots, D0, E0, Closed, Closed);
  }

  /** The key built from the common "0" names no record of the bucket. */
  lemma ZeroKey()
    ensures CommonToId(Actor, ["0"]) == Actor + "-" + "0" && Get(Roots, Actor + "-" + "0") == NotFound
  {
    assert Join(["0"], ",") == "0";
    KeyInjective("0", J0);
    KeyInjective("0", J3);
  }

  /**
   * Two siblings from unrelated roots: both lists close with 0 in the first
   * round and "0" is then common, so the rounds do not reject with "Common
   * ancestor could not be found"; the final lookup of the key ending in "-0"
   * misses instead.
   */
  lemma DisjointRootsMeetAtZero(maxRounds: nat)
    requires maxRounds >= 1
    ensures Resolve(Roots, Actor, [C2, C5], maxRounds) == Resolved(["0"], NotFound)
  {
    var l0 := map[K2 := D0, K5 := E0];
    var l1 := map[K2 := D1, K5 := E1];
    HistoryKeys();
    SeedTwo(C2, C5);
    SiblingOrder();
    TwoLists(D0, E0);
    TwoLists(D1, E1);
    RootsCompare();
    RootsRound();
    WalkMeets(Roots, Actor, l0, [K2, K5], maxRounds, l1);
    ZeroKey();
  }

  /**
   * Siblings whose ancestor is the same string clock resolve at once, but the
   * lookup goes to the key with the clock in quotes, not to the snapshot key
   * `store` wrote for that clock.
   */
  lemma QuotedTextClock(objects: Objects, s1: ActorRecord, s2: ActorRecord, maxRounds: nat)
    requires s1.ancestor == Some(Text("v1")) && s2.ancestor == Some(Text("v1"))
    ensures Resolve(objects, Actor, [s1, s2], maxRounds) == Resolved(["\"v1\""], Get(objects, Actor + "-\"v1\""))
    ensures Actor + "-\"v1\"" != SnapshotKey(Actor, Text("v1"))
  {
    SharedAncestorResolvesAtOnce(objects, Actor, [s1, s2], Text("v1"), maxRounds);
    QuotedKey();
  }

  /** The key built from the serialised "v1" has a quote where the snapshot key has the clock. */
  lemma QuotedKey()
    ensures Serialize(Seen(Text("v1"))) == "\"v1\""
    ensures Actor + "-" + Serialize(Seen(Text("v1"))) == Actor + "-\"v1\""
    ensures Actor + "-\"v1\"" != SnapshotKey(Actor, Text("v1"))
  {
    assert Serialize(Seen(Text("v1"))) == "\"v1\"";
    assert (Actor + "-\"v1\"")[|Actor| + 1] == '"';
    assert SnapshotKey(Actor, Text("v1"))[|Actor| + 1] == 'v';
  }

  /**
   * A string clock holding a quote: `compare` serialises it with the quote
   * escaped, and the final lookup uses that text.
   */
  lemma EscapedQuoteClock(objects: Objects, s1: ActorRecord, s2: ActorRecord, maxRounds: nat)
    requires s1.ancestor == Some(Text(QuoteClock)) && s2.ancestor == Some(Text(QuoteClock))
    ensures Serialize(Seen(Text(QuoteClock))) == QuoteClockJson
    ensures Resolve(objects, Actor, [s1, s2], maxRounds) == Resolved([QuoteClockJson], Get(objects, Actor + "-" + QuoteClockJson))
  {
    QuoteClockText();
    SharedAncestorResolvesAtOnce(objects, Actor, [s1, s2], Text(QuoteClock), maxRounds);
  }

  const QuoteClock := "a\"b"
  const QuoteClockJson := "\"a\\\"b\""

  /** The quote inside the clock is escaped with a backslash. */
  lemma QuoteClockText()
    ensures Serialize(Seen(Text(QuoteClock))) == QuoteClockJson
  {
    assert Escaped("b") == "b";
    assert Escaped("\"b") == "\\\"" + Escaped("b");
    assert QuoteClock[1..] == "\"b";
    assert Escaped(QuoteClock) == "a\\\"b";
  }

  /**
   * The board test of spec/integration/ActorStore.spec.js: two stores, at "v1"
   * and then at "v2", leave the current record and both snapshots.
   */
  method StoreTwoVersions(version1: ActorRecord, version2: ActorRecord) returns (current: Fetched, latest: Fetched, previous: Fetched)
    requires version2.vector == Some(Text("v1"))
    ensures current.Single? && current.record.vector == Some(Text("v2")) && current.record.ancestor == Some(Text("v1"))
    ensures current.record.fields == version2.fields
    ensures latest.Single? && latest.record.vector == Some(Text("v2")) && latest.record.fields == version2.fields
    ensures previous.Single? && previous.record.vector == Some(Text("v1")) && previous.record.fields == version1.fields
  {
    var store := new ActorStore("boards", None, map[], map[]);
    store.Store(Actor, Text("v1"), version1);
    store.Store(Actor, Text("v2"), version2);
    SuccessiveStores(map[], Actor, "v1", "v2", version1, version2);
    current := store.Fetch(Actor);
    latest := store.Fetch(Actor + "-" + "v2");
    previous := store.Fetch(Actor + "-" + "v1");
  }

  /** The records of the last two of five events. */
  lemma LastTwoDocs(evs: seq<Payload>, ids: seq<string>)
    requires |ids| == |evs| == 5
    ensures EventDocs(Actor, evs, ids)[3..] == [EventDoc(ids[3], Actor, evs[3]), EventDoc(ids[4], Actor, evs[4])]
  {
    EventDocsIndex(Actor, evs, ids);
  }

  /** Five events stored for one actor under ascending ids, asked for after the third. */
  lemma FiveEventsAfterThird(evs: seq<Payload>, ids: seq<string>)
    requires |ids| == |evs| == 5 && Ascending(ids)
    ensures EventsSince(PutAll(map[], ids, EventDocs(Actor, evs, ids)), PutAll(map[], ids, EventTagsAll(Actor, ids)), Actor, ids[2])
              == [EventDoc(ids[3], Actor, evs[3]), EventDoc(ids[4], Actor, evs[4])]
  {
    EventsAfterStoredId(Actor, evs, ids, 2);
    LastTwoDocs(evs, ids);
  }

  /**
   * spec/integration/EventStore.spec.js: five events stored for one actor,
   * then asked for after the third id, give the last two, in order.
   */
  method EventsAfterThird(supply: nat -> string, evs: seq<Payload>) returns (r: seq<EventDoc>)
    requires IncreasingSupply(supply) && |evs| == 5
    ensures r == [EventDoc(supply(3), Actor, evs[3]), EventDoc(supply(4), Actor, evs[4])]
  {
    var store := new EventStore("board", None, supply, map[], map[], map[], map[]);
    var ids := store.StoreEvents(Actor, evs);
    DrawnAscending(supply, 0, 5);
    DrawnIndex(supply, 0, 5);
    FiveEventsAfterThird(evs, ids);
    r := store.GetEventsFor(Actor, ids[2]);
  }

  /** A pack stored into an empty pack bucket comes back for its version, its events sorted by id. */
  method PackBack(supply: nat -> string, vectorClock: Clock, evs: seq<Payload>) returns (r: Option<seq<Payload>>)
    requires IncreasingSupply(supply)
    ensures r == Some(SortBy(evs, PayloadId)) && multiset(r.value) == multiset(evs)
  {
    var store := new EventStore("board", None, supply, map[], map[], map[], map[]);
    var id := store.StoreEventPack(Actor, vectorClock, evs);
    PackRoundTrip(map[], map[], id, Actor, vectorClock, evs);
    r := store.GetEventPackFor(Actor, vectorClock);
  }

  /**
   * spec/integration/EventStore.spec.js: a "card" store created with `{}`
   * reads and writes the buckets "card_events" and "card_event_packs"; a
   * mixed-case type is lower-cased the same way.
   */
  lemma DefaultCardBuckets()
    ensures EventBucketName("card", Some(EventStoreConfig(None, None, None))) == "card_events"
    ensures EventPackBucketName("Card", None) == "card_event_packs"
    ensures ActorBucketName("CARD", Some(ActorStoreConfig(Some("")))) == "card"
  {
    assert Lower("Card") == "card";
    assert Lower("CARD") == "card";
  }

  /**
   * spec/behavior/EventStore.spec.js and spec/behavior/ActorStore.spec.js:
   * configured bucket names are used as given, before the prefix is added.
   */
  lemma ConfiguredCardBuckets()
    ensures EventBucketName("card", Some(EventStoreConfig(Some("eventsgohere"), Some("packsofevents"), None))) == "eventsgohere"
    ensures EventPackBucketName("card", Some(EventStoreConfig(Some("eventsgohere"), Some("packsofevents"), None))) == "packsofevents"
    ensures ActorBucketName("card", Some(ActorStoreConfig(Some("actorsgohere")))) == "actorsgohere"
  {
  }
}
