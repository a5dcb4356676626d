/** A plain JavaScript object with string keys and string values, as the
    filter panel keeps its checked indicators: entries in insertion order,
    each key at most once. `{ ...d, [k]: v }` overwrites an existing key in
    place or adds it at the end; filtering `Object.entries` removes one key. */
module JsObjects {
  import opened Wrappers

  type Entries = seq<(string, string)>

  predicate UniqueKeys(d: Entries) {
    forall i, j :: 0 <= i < j < |d| ==> d[i].0 != d[j].0
  }

  /** `Object.hasOwn(d, key)`. */
  predicate Has(d: Entries, key: string) {
    exists i :: 0 <= i < |d| && d[i].0 == key
  }

  function KeySet(d: Entries): set<string> {
    set i | 0 <= i < |d| :: d[i].0
  }

  function Lookup(d: Entries, key: string): (r: Option<string>)
    ensures r.Some? ==> Has(d, key)
  {
    if d == [] then None
    else if d[0].0 == key then Some(d[0].1)
    else
      HasCons(d, key);
      Lookup(d[1..], key)
  }

  lemma HasCons(d: Entries, key: string)
    requires d != []
    ensures Has(d, key) <==> d[0].0 == key || Has(d[1..], key)
  {
    if Has(d[1..], key) {
      var i :| 0 <= i < |d[1..]| && d[1..][i].0 == key;
      assert d[i + 1].0 == key;
    }
    if Has(d, key) && d[0].0 != key {
      var i :| 0 <= i < |d| && d[i].0 == key;
      assert d[1..][i - 1].0 == key;
    }
  }

  /** The first index holding `key`, for a key that is present. */
  function FindIn(d: Entries, key: string): (i: nat)
    requires Has(d, key)
    ensures i < |d| && d[i].0 == key
  {
    HasCons(d, key);
    if d[0].0 == key then 0 else 1 + FindIn(d[1..], key)
  }

  /** `{ ...d, [key]: value }`. */
  function Put(d: Entries, key: string, value: string): (r: Entries)
    ensures |r| == if Has(d, key) then |d| else |d| + 1
  {
    if d == [] then [(key, value)]
    else if d[0].0 == key then [(key, value)] + d[1..]
    else
      HasCons(d, key);
      [d[0]] + Put(d[1..], key, value)
  }

  /** `Object.fromEntries(Object.entries(d).filter(([k]) => k !== key))`. */
  function Remove(d: Entries, key: string): (r: Entries)
    ensures |r| <= |d|
  {
    if d == [] then [] else (if d[0].0 == key then [] else [d[0]]) + Remove(d[1..], key)
  }

  lemma {:induction false} PutKeys(d: Entries, key: string, value: string)
    ensures KeySet(Put(d, key, value)) == KeySet(d) + {key}
  {
    if d != [] {
      var r := Put(d, key, value);
      KeySetCons(d);
      KeySetCons(r);
      if d[0].0 != key {
        PutKeys(d[1..], key, value);
        assert r[0] == d[0] && r[1..] == Put(d[1..], key, value);
      } else {
        assert r[0] == (key, value) && r[1..] == d[1..];
      }
    } else {
      var r := Put(d, key, value);
      KeySetCons(r);
      assert r[1..] == [] && KeySet(r[1..]) == {};
    }
  }

  lemma KeySetCons(d: Entries)
    requires d != []
    ensures KeySet(d) == {d[0].0} + KeySet(d[1..])
  {
    forall k ensures k in KeySet(d) <==> k in {d[0].0} + KeySet(d[1..]) {
      if k in KeySet(d) {
        var i :| 0 <= i < |d| && d[i].0 == k;
        if i > 0 { assert d[1..][i - 1].0 == k; }
      }
      if k in KeySet(d[1..]) {
        var i :| 0 <= i < |d[1..]| && d[1..][i].0 == k;
        assert d[i + 1].0 == k;
      }
    }
  }

  lemma HasIsKeySet(d: Entries, key: string)
    ensures Has(d, key) <==> key in KeySet(d)
  {
  }

  lemma {:induction false} RemoveKeys(d: Entries, key: string)
    ensures KeySet(Remove(d, key)) == KeySet(d) - {key}
  {
    if d != [] {
      RemoveKeys(d[1..], key);
      KeySetCons(d);
      var rest := Remove(d[1..], key);
      if d[0].0 == key {
        assert Remove(d, key) == rest;
      } else {
        assert Remove(d, key) == [d[0]] + rest;
        KeySetCons([d[0]] + rest);
        assert ([d[0]] + rest)[1..] == rest;
      }
    }
  }

  /** With unique keys, the number of entries is the number of keys. */
  lemma {:induction false} UniqueKeysCount(d: Entries)
    requires UniqueKeys(d)
    ensures |KeySet(d)| == |d|
  {
    if d != [] {
      KeySetCons(d);
      UniqueKeysCount(d[1..]);
    }
  }

  lemma {:induction false} PutUnique(d: Entries, key: string, value: string)
    requires UniqueKeys(d)
    ensures UniqueKeys(Put(d, key, value))
  {
    if d != [] && d[0].0 != key {
      PutUnique(d[1..], key, value);
      PutKeys(d[1..], key, value);
      KeySetCons(d);
      var r := Put(d, key, value);
      var rest := Put(d[1..], key, value);
      assert r == [d[0]] + rest;
      forall i, j | 0 <= i < j < |r| ensures r[i].0 != r[j].0 {
        if i == 0 {
          assert r[j].0 == rest[j - 1].0 && rest[j - 1].0 in KeySet(rest);
        }
      }
    } else if d != [] {
      var r := Put(d, key, value);
      forall i, j | 0 <= i < j < |r| ensures r[i].0 != r[j].0 {
        assert r[j] == d[j];
        if i > 0 { assert r[i] == d[i]; }
      }
    }
  }

  lemma {:induction false} RemoveUnique(d: Entries, key: string)
    requires UniqueKeys(d)
    ensures UniqueKeys(Remove(d, key))
  {
    if d != [] {
      RemoveUnique(d[1..], key);
      RemoveKeys(d[1..], key);
      KeySetCons(d);
      var rest := Remove(d[1..], key);
      var r := Remove(d, key);
      if d[0].0 != key {
        assert r == [d[0]] + rest;
        forall i, j | 0 <= i < j < |r| ensures r[i].0 != r[j].0 {
          if i == 0 {
            assert r[j].0 == rest[j - 1].0 && rest[j - 1].0 in KeySet(rest);
          }
        }
      } else {
        assert r == rest;
      }
    }
  }

  /** With unique keys, unchecking a present key drops exactly one entry. */
  lemma RemoveSize(d: Entries, key: string)
    requires UniqueKeys(d)
    ensures |Remove(d, key)| == if Has(d, key) then |d| - 1 else |d|
  {
    RemoveKeys(d, key);
    RemoveUnique(d, key);
    UniqueKeysCount(d);
    UniqueKeysCount(Remove(d, key));
    HasIsKeySet(d, key);
  }

  lemma {:induction false} RemoveAbsent(d: Entries, key: string)
    requires !Has(d, key)
    ensures Remove(d, key) == d
  {
    if d != [] {
      HasCons(d, key);
      RemoveAbsent(d[1..], key);
    }
  }

  /** Checking an unchecked box and unchecking it again restores the object. */
  lemma {:induction false} RemovePutAbsent(d: Entries, key: string, value: string)
    requires !Has(d, key)
    ensures Remove(Put(d, key, value), key) == d
  {
    if d == [] {
    } else {
      assert d[0].0 != key;
      HasCons(d, key);
      RemovePutAbsent(d[1..], key, value);
      var rest := Put(d[1..], key, value);
      assert Put(d, key, value) == [d[0]] + rest;
      assert ([d[0]] + rest)[0] == d[0] && ([d[0]] + rest)[1..] == rest;
    }
  }

  /** After `{ ...d, [key]: value }`, `key` holds `value` and the other keys keep theirs. */
  lemma {:induction false} PutLookup(d: Entries, key: string, value: string, other: string)
    ensures Lookup(Put(d, key, value), other) == if other == key then Some(value) else Lookup(d, other)
  {
    if d != [] && d[0].0 != key {
      PutLookup(d[1..], key, value, other);
      var rest := Put(d[1..], key, value);
      assert Put(d, key, value) == [d[0]] + rest;
      assert ([d[0]] + rest)[0] == d[0] && ([d[0]] + rest)[1..] == rest;
    } else if d != [] {
      var r := Put(d, key, value);
      assert r[0] == (key, value) && r[1..] == d[1..];
      if other != key {
        assert Lookup(r, other) == Lookup(d[1..], other);
      }
    }
  }

  /** After removing `key` it has no value and the other keys keep theirs. */
  lemma {:induction false} RemoveLookup(d: Entries, key: string, other: string)
    ensures Lookup(Remove(d, key), other) == if other == key then None else Lookup(d, other)
  {
    if d != [] {
      RemoveLookup(d[1..], key, other);
      var rest := Remove(d[1..], key);
      if d[0].0 != key {
        assert Remove(d, key) == [d[0]] + rest;
        assert ([d[0]] + rest)[0] == d[0] && ([d[0]] + rest)[1..] == rest;
      } else {
        assert Remove(d, key) == rest;
      }
    }
  }

  lemma LookupHas(d: Entries, key: string)
    ensures Lookup(d, key).Some? <==> Has(d, key)
  {
    if Has(d, key) {
      LookupFound(d, key, FindIn(d, key));
    }
  }

  lemma {:induction false} LookupFound(d: Entries, key: string, i: nat)
    requires i < |d| && d[i].0 == key
    ensures Lookup(d, key).Some?
  {
    if d[0].0 != key {
      LookupFound(d[1..], key, i - 1);
    }
  }
}
