/**
 * Secondary-index queries of the key-value store, as the two stores consume them.
 * `values` maps an object key to the value it carries in one index. Hits come back
 * ordered by index value and then by object key.
 */
module IndexQuery {
  import opened Strings

  /** `a` comes before `b` among the hits of an index query. */
  predicate Before(values: map<string, string>, a: string, b: string) {
    a in values && b in values &&
    (LexLess(values[a], values[b]) || (values[a] == values[b] && LexLess(a, b)))
  }

  lemma BeforeIrreflexive(values: map<string, string>, a: string)
    ensures !Before(values, a, a)
  {
    LexLessIrreflexive(a);
    if a in values {
      LexLessIrreflexive(values[a]);
    }
  }

  lemma BeforeTransitive(values: map<string, string>, a: string, b: string, c: string)
    requires Before(values, a, b) && Before(values, b, c)
    ensures Before(values, a, c)
  {
    if LexLess(values[a], values[b]) && LexLess(values[b], values[c]) {
      LexLessTransitive(values[a], values[b], values[c]);
    } else if values[a] == values[b] && values[b] == values[c] {
      LexLessTransitive(a, b, c);
    }
  }

  lemma BeforeAsymmetric(values: map<string, string>, a: string, b: string)
    requires Before(values, a, b)
    ensures !Before(values, b, a)
  {
    if Before(values, b, a) {
      BeforeTransitive(values, a, b, a);
      BeforeIrreflexive(values, a);
    }
  }

  lemma BeforeTotal(values: map<string, string>, a: string, b: string)
    requires a in values && b in values && a != b
    ensures Before(values, a, b) || Before(values, b, a)
  {
    LexLessTotal(values[a], values[b]);
    LexLessTotal(a, b);
  }

  predicate IsLeast(values: map<string, string>, keys: set<string>, m: string) {
    m in keys && forall k :: k in keys && k != m ==> Before(values, m, k)
  }

  lemma LeastUnique(values: map<string, string>, keys: set<string>)
    ensures forall a, b :: IsLeast(values, keys, a) && IsLeast(values, keys, b) ==> a == b
  {
    forall a, b | IsLeast(values, keys, a) && IsLeast(values, keys, b)
      ensures a == b
    {
      if a != b {
        BeforeAsymmetric(values, a, b);
      }
    }
  }

  lemma {:induction false} LeastExists(values: map<string, string>, keys: set<string>)
    requires keys != {} && keys <= values.Keys
    ensures exists m :: m in keys && IsLeast(values, keys, m)
    decreases |keys|
  {
    var x :| x in keys;
    if keys == {x} {
      assert IsLeast(values, keys, x);
    } else {
      var rest := keys - {x};
      LeastExists(values, rest);
      var m :| m in rest && IsLeast(values, rest, m);
      BeforeTotal(values, x, m);
      if Before(values, x, m) {
        forall k | k in keys && k != x
          ensures Before(values, x, k)
        {
          if k != m {
            BeforeTransitive(values, x, m, k);
          }
        }
        assert IsLeast(values, keys, x);
      } else {
        assert IsLeast(values, keys, m);
      }
    }
  }

  /** The first hit among `keys`. */
  function Least(values: map<string, string>, keys: set<string>): (m: string)
    requires keys != {} && keys <= values.Keys
    ensures IsLeast(values, keys, m)
  {
    LeastExists(values, keys);
    LeastUnique(values, keys);
    var m :| m in keys && IsLeast(values, keys, m);
    m
  }

  predicate StrictlyOrdered(values: map<string, string>, s: seq<string>) {
    forall i, j :: 0 <= i < j < |s| ==> Before(values, s[i], s[j])
  }

  /** The keys in the order the store returns them. */
  function SortedHits(values: map<string, string>, keys: set<string>): (r: seq<string>)
    requires keys <= values.Keys
    ensures forall k :: k in r <==> k in keys
    ensures StrictlyOrdered(values, r)
    decreases |keys|
  {
    if keys == {} then []
    else
      var m := Least(values, keys);
      [m] + SortedHits(values, keys - {m})
  }

  /** Whatever lists exactly `keys` in the store's order is the query's answer. */
  lemma {:induction false} SortedHitsUnique(values: map<string, string>, keys: set<string>, s: seq<string>)
    requires keys <= values.Keys
    requires StrictlyOrdered(values, s)
    requires forall k :: k in s <==> k in keys
    ensures SortedHits(values, keys) == s
    decreases |s|
  {
    if s == [] {
      assert keys == {};
    } else {
      assert s[0] in keys;
      forall k | k in keys && k != s[0]
        ensures Before(values, s[0], k)
      {
        var j :| 0 <= j < |s| && s[j] == k;
      }
      assert IsLeast(values, keys, s[0]);
      LeastUnique(values, keys);
      assert Least(values, keys) == s[0];
      var rest := keys - {s[0]};
      forall k
        ensures k in s[1..] <==> k in rest
      {
        if k in s[1..] {
          var j :| 1 <= j < |s| && s[j] == k;
          if k == s[0] {
            BeforeIrreflexive(values, s[0]);
          }
        }
        if k in rest {
          var j :| 0 <= j < |s| && s[j] == k;
          assert j != 0;
          assert s[1..][j - 1] == k;
        }
      }
      SortedHitsUnique(values, rest, s[1..]);
    }
  }

  /** A range query starting at `probe` and open above (the `"~"` operator). */
  function RangeQuery(values: map<string, string>, probe: string): (r: seq<string>)
    ensures forall k :: k in r <==> k in values && !LexLess(values[k], probe)
    ensures StrictlyOrdered(values, r)
  {
    SortedHits(values, set k | k in values && !LexLess(values[k], probe))
  }

  /** A sequence in the store's order holding exactly the keys at or above `probe` is the range query's answer. */
  lemma RangeQueryIs(values: map<string, string>, probe: string, s: seq<string>)
    requires StrictlyOrdered(values, s)
    requires forall k :: k in s <==> k in values && !LexLess(values[k], probe)
    ensures RangeQuery(values, probe) == s
  {
    SortedHitsUnique(values, (set k | k in values && !LexLess(values[k], probe)), s);
  }

  /** An exact-match query on `probe`: the hits come back in key order. */
  function ExactQuery(values: map<string, string>, probe: string): (r: seq<string>)
    ensures forall k :: k in r <==> k in values && values[k] == probe
    ensures forall i, j :: 0 <= i < j < |r| ==> LexLess(r[i], r[j])
  {
    LexLessIrreflexive(probe);
    SortedHits(values, set k | k in values && values[k] == probe)
  }

  /** When `id` is the only key carrying `probe`, the exact-match query hits just `id`. */
  lemma ExactQuerySingle(values: map<string, string>, probe: string, id: string)
    requires id in values && values[id] == probe
    requires forall k :: k in values && values[k] == probe ==> k == id
    ensures ExactQuery(values, probe) == [id]
  {
    SortedHitsUnique(values, (set k | k in values && values[k] == probe), [id]);
  }
}
