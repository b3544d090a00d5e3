/**
 * The order in which JavaScript enumerates the own properties of a plain
 * object (`Object.keys`, and so `_.values` and `_.reduce` over an object):
 * the array-index keys first, in ascending numeric order, then the other
 * string keys in the order they were first set (the OrdinaryOwnPropertyKeys
 * operation of ECMA-262).
 */
module Properties {
  predicate IsDigit(c: char) {
    '0' <= c <= '9'
  }

  function DigitValue(c: char): nat {
    if IsDigit(c) then c as int - '0' as int else 0
  }

  /** The number a string of decimal digits denotes. */
  function DecimalValue(s: string): nat
    decreases |s|
  {
    if s == [] then 0 else DecimalValue(s[..|s| - 1]) * 10 + DigitValue(s[|s| - 1])
  }

  /** An array index: the canonical decimal form of an integer below 2^32 - 1. */
  predicate IsArrayIndex(k: string) {
    && |k| > 0
    && (forall i :: 0 <= i < |k| ==> IsDigit(k[i]))
    && (k[0] != '0' || |k| == 1)
    && DecimalValue(k) < 0xFFFF_FFFF
  }

  /** No key occurs twice. */
  predicate NoRepeats(s: seq<string>) {
    forall i, j :: 0 <= i < j < |s| ==> s[i] != s[j]
  }

  /** Keys in ascending numeric order. */
  predicate NumericallySorted(s: seq<string>) {
    forall i, j :: 0 <= i < j < |s| ==> DecimalValue(s[i]) <= DecimalValue(s[j])
  }

  /** `x` inserted into keys in ascending numeric order, before the first key not below it. */
  function InsertIndex(x: string, s: seq<string>): seq<string> {
    if s == [] || DecimalValue(x) <= DecimalValue(s[0]) then [x] + s
    else [s[0]] + InsertIndex(x, s[1..])
  }

  lemma {:induction false} InsertIndexFacts(x: string, s: seq<string>)
    ensures var r := InsertIndex(x, s);
            && (forall k :: k in r <==> k == x || k in s)
            && (r[0] == x || (s != [] && r[0] == s[0]))
            && (NumericallySorted(s) ==> NumericallySorted(r))
            && (NoRepeats(s) && x !in s ==> NoRepeats(r))
  {
    if s != [] && DecimalValue(x) > DecimalValue(s[0]) {
      InsertIndexFacts(x, s[1..]);
      assert s[0] !in s[1..] <== NoRepeats(s);
    }
  }

  /** The array-index keys of `keys`, in ascending numeric order. */
  function IndexKeys(keys: seq<string>): seq<string> {
    if keys == [] then []
    else if IsArrayIndex(keys[0]) then InsertIndex(keys[0], IndexKeys(keys[1..]))
    else IndexKeys(keys[1..])
  }

  lemma {:induction false} IndexKeysFacts(keys: seq<string>)
    ensures var r := IndexKeys(keys);
            && (forall k :: k in r <==> k in keys && IsArrayIndex(k))
            && NumericallySorted(r)
            && (NoRepeats(keys) ==> NoRepeats(r))
  {
    if keys != [] {
      assert NoRepeats(keys) ==> NoRepeats(keys[1..]) && keys[0] !in keys[1..];
      IndexKeysFacts(keys[1..]);
      if IsArrayIndex(keys[0]) {
        InsertIndexFacts(keys[0], IndexKeys(keys[1..]));
      }
    }
  }

  /** The other keys of `keys`, in the order given. */
  function OtherKeys(keys: seq<string>): seq<string> {
    if keys == [] then []
    else (if IsArrayIndex(keys[0]) then [] else [keys[0]]) + OtherKeys(keys[1..])
  }

  lemma {:induction false} OtherKeysFacts(keys: seq<string>)
    ensures var r := OtherKeys(keys);
            && (forall k :: k in r <==> k in keys && !IsArrayIndex(k))
            && (NoRepeats(keys) ==> NoRepeats(r))
  {
    if keys != [] {
      assert NoRepeats(keys) ==> NoRepeats(keys[1..]) && keys[0] !in keys[1..];
      OtherKeysFacts(keys[1..]);
    }
  }

  /** Without array indices there is nothing to move. */
  lemma {:induction false} NoIndexKeys(keys: seq<string>)
    requires forall i :: 0 <= i < |keys| ==> !IsArrayIndex(keys[i])
    ensures IndexKeys(keys) == [] && OtherKeys(keys) == keys
  {
    if keys != [] {
      NoIndexKeys(keys[1..]);
    }
  }

  /** Dropping the array indices from keys that are array indices leaves nothing. */
  lemma {:induction false} OtherKeysOfIndexKeys(s: seq<string>)
    requires forall i :: 0 <= i < |s| ==> IsArrayIndex(s[i])
    ensures OtherKeys(s) == []
  {
    if s != [] {
      OtherKeysOfIndexKeys(s[1..]);
    }
  }

  /** The other keys of a concatenation are those of each part, in turn. */
  lemma {:induction false} OtherKeysAppend(a: seq<string>, b: seq<string>)
    ensures OtherKeys(a + b) == OtherKeys(a) + OtherKeys(b)
  {
    if a != [] {
      assert (a + b)[0] == a[0] && (a + b)[1..] == a[1..] + b;
      OtherKeysAppend(a[1..], b);
    } else {
      assert a + b == b;
    }
  }

  lemma {:induction false} OtherKeysIdempotent(keys: seq<string>)
    ensures OtherKeys(OtherKeys(keys)) == OtherKeys(keys)
  {
    var r := OtherKeys(keys);
    OtherKeysFacts(keys);
    assert forall i :: 0 <= i < |r| ==> r[i] in r;
    NoIndexKeys(r);
  }

  /** `Object.keys` of an object whose properties were first set in the order `keys`. */
  function PropertyOrder(keys: seq<string>): (r: seq<string>)
    ensures forall k :: k in r <==> k in keys
  {
    IndexKeysFacts(keys);
    OtherKeysFacts(keys);
    IndexKeys(keys) + OtherKeys(keys)
  }

  /** The array indices come first, in ascending numeric order. */
  lemma PropertyOrderIndicesFirst(keys: seq<string>)
    ensures var r := PropertyOrder(keys);
            forall i, j :: 0 <= i < j < |r| && IsArrayIndex(r[j]) ==>
              IsArrayIndex(r[i]) && DecimalValue(r[i]) <= DecimalValue(r[j])
  {
    var ix := IndexKeys(keys);
    var ot := OtherKeys(keys);
    IndexKeysFacts(keys);
    OtherKeysFacts(keys);
    assert forall i :: 0 <= i < |ix| ==> ix[i] in ix;
    assert forall i :: 0 <= i < |ot| ==> ot[i] in ot;
  }

  /** Without array indices, properties are enumerated in the order they were set. */
  lemma PropertyOrderWithoutIndices(keys: seq<string>)
    requires forall i :: 0 <= i < |keys| ==> !IsArrayIndex(keys[i])
    ensures PropertyOrder(keys) == keys
  {
    NoIndexKeys(keys);
  }

  /** The keys that are not array indices keep the order in which they were first set. */
  lemma PropertyOrderKeepsOthers(keys: seq<string>)
    ensures OtherKeys(PropertyOrder(keys)) == OtherKeys(keys)
  {
    var ix := IndexKeys(keys);
    IndexKeysFacts(keys);
    assert forall i :: 0 <= i < |ix| ==> ix[i] in ix;
    OtherKeysOfIndexKeys(ix);
    OtherKeysAppend(ix, OtherKeys(keys));
    OtherKeysIdempotent(keys);
  }

  /** Enumeration lists every key once when it was set once. */
  lemma PropertyOrderNoRepeats(keys: seq<string>)
    requires NoRepeats(keys)
    ensures NoRepeats(PropertyOrder(keys))
  {
    var ix := IndexKeys(keys);
    var ot := OtherKeys(keys);
    IndexKeysFacts(keys);
    OtherKeysFacts(keys);
    var r := ix + ot;
    forall i, j | 0 <= i < j < |r|
      ensures r[i] != r[j]
    {
      if i < |ix| && j >= |ix| {
        assert r[i] in ix && r[j] in ot;
      }
    }
  }
}
