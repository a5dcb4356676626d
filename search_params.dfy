/** The query-string multimap of section 6.2 of the WHATWG URL Standard
    (`URLSearchParams`): an ordered list of name/value pairs in which a name
    may repeat. `get` returns the first value, `getAll` every value in order,
    `delete` removes every pair with a name, `append` adds a pair at the end,
    and `set` replaces the value of the first pair with that name and removes
    the others, or appends when there is none. Serialisation (`toString`) is
    left abstract: a query is identified with its list of pairs. */
module SearchParams {
  import opened Wrappers

  type Pairs = seq<(string, string)>

  predicate HasName(q: Pairs, name: string) {
    exists i :: 0 <= i < |q| && q[i].0 == name
  }

  lemma HasNameTail(q: Pairs, name: string)
    requires q != []
    ensures HasName(q, name) <==> q[0].0 == name || HasName(q[1..], name)
  {
    if HasName(q[1..], name) {
      var i :| 0 <= i < |q[1..]| && q[1..][i].0 == name;
      assert q[i + 1].0 == name;
    }
    if HasName(q, name) && q[0].0 != name {
      var i :| 0 <= i < |q| && q[i].0 == name;
      assert q[1..][i - 1].0 == name;
    }
  }

  /** `get(name)`: the value of the first pair with that name, `null` when there is none. */
  function Get(q: Pairs, name: string): (r: Option<string>)
    ensures r.Some? <==> HasName(q, name)
  {
    if q == [] then None
    else if q[0].0 == name then Some(q[0].1)
    else
      HasNameTail(q, name);
      Get(q[1..], name)
  }

  /** `getAll(name)`: the values of every pair with that name, in list order. */
  function GetAll(q: Pairs, name: string): (r: seq<string>)
    ensures |r| <= |q|
  {
    if q == [] then [] else (if q[0].0 == name then [q[0].1] else []) + GetAll(q[1..], name)
  }

  /** `delete(name)`. */
  function DeleteName(q: Pairs, name: string): (r: Pairs)
    ensures |r| <= |q|
  {
    if q == [] then [] else (if q[0].0 == name then [] else [q[0]]) + DeleteName(q[1..], name)
  }

  /** `append(name, value)`. */
  function AppendPair(q: Pairs, name: string, value: string): (r: Pairs)
    ensures |r| == |q| + 1
  {
    q + [(name, value)]
  }

  /** `set(name, value)`: the first pair with that name takes the new value and
      the later ones go; with no such pair, the new pair goes at the end. */
  function SetValue(q: Pairs, name: string, value: string): (r: Pairs)
    ensures |r| <= |q| + 1
  {
    if q == [] then [(name, value)]
    else if q[0].0 == name then [(name, value)] + DeleteName(q[1..], name)
    else [q[0]] + SetValue(q[1..], name, value)
  }

  /** The pairs `(name, v)` for each `v` of `values`, in order. */
  function AsPairs(name: string, values: seq<string>): (r: Pairs)
    ensures |r| == |values|
  {
    if values == [] then [] else [(name, values[0])] + AsPairs(name, values[1..])
  }

  // ---- laws relating the operations to `get` and `getAll` ----

  lemma {:induction false} GetAllConcat(a: Pairs, b: Pairs, name: string)
    ensures GetAll(a + b, name) == GetAll(a, name) + GetAll(b, name)
  {
    if a == [] {
      assert a + b == b;
    } else {
      assert (a + b)[0] == a[0] && (a + b)[1..] == a[1..] + b;
      GetAllConcat(a[1..], b, name);
    }
  }

  /** `get` is the first element of `getAll`. */
  lemma {:induction false} GetIsFirstOfGetAll(q: Pairs, name: string)
    ensures Get(q, name) == if GetAll(q, name) == [] then None else Some(GetAll(q, name)[0])
  {
    if q != [] && q[0].0 != name {
      GetIsFirstOfGetAll(q[1..], name);
    }
  }

  /** After `delete(name)` no value is left under `name`, and every other name keeps its values. */
  lemma {:induction false} GetAllDelete(q: Pairs, name: string, other: string)
    ensures GetAll(DeleteName(q, name), other) == if other == name then [] else GetAll(q, other)
  {
    if q != [] {
      var head := if q[0].0 == name then [] else [q[0]];
      GetAllConcat(head, DeleteName(q[1..], name), other);
      GetAllDelete(q[1..], name, other);
    }
  }

  /** `append` adds one value at the end of the values of its name and nothing else. */
  lemma GetAllAppend(q: Pairs, name: string, value: string, other: string)
    ensures GetAll(AppendPair(q, name, value), other)
         == GetAll(q, other) + (if other == name then [value] else [])
  {
    GetAllConcat(q, [(name, value)], other);
  }

  /** After `set(name, value)`, `name` has exactly the one value and every other name keeps its values. */
  lemma {:induction false} GetAllSet(q: Pairs, name: string, value: string, other: string)
    ensures GetAll(SetValue(q, name, value), other) == if other == name then [value] else GetAll(q, other)
  {
    if q == [] {
    } else if q[0].0 == name {
      GetAllConcat([(name, value)], DeleteName(q[1..], name), other);
      GetAllDelete(q[1..], name, other);
    } else {
      GetAllConcat([q[0]], SetValue(q[1..], name, value), other);
      GetAllSet(q[1..], name, value, other);
    }
  }

  lemma {:induction false} GetAllAsPairs(name: string, values: seq<string>, other: string)
    ensures GetAll(AsPairs(name, values), other) == if other == name then values else []
  {
    if values != [] {
      GetAllConcat([(name, values[0])], AsPairs(name, values[1..]), other);
      GetAllAsPairs(name, values[1..], other);
    }
  }

  lemma {:induction false} AsPairsSnoc(name: string, values: seq<string>, v: string)
    ensures AsPairs(name, values + [v]) == AsPairs(name, values) + [(name, v)]
  {
    if values != [] {
      assert (values + [v])[1..] == values[1..] + [v];
      AsPairsSnoc(name, values[1..], v);
    } else {
      assert values + [v] == [v];
    }
  }

  // ---- laws about repeated `set` on the same list ----

  lemma {:induction false} DeleteNameNoName(q: Pairs, name: string)
    requires !HasName(q, name)
    ensures DeleteName(q, name) == q
  {
    if q != [] {
      HasNameTail(q, name);
      DeleteNameNoName(q[1..], name);
    }
  }

  lemma {:induction false} DeleteNameRemovesName(q: Pairs, name: string)
    ensures !HasName(DeleteName(q, name), name)
  {
    if q != [] {
      DeleteNameRemovesName(q[1..], name);
      var head := if q[0].0 == name then [] else [q[0]];
      var d := head + DeleteName(q[1..], name);
      if HasName(d, name) {
        var i :| 0 <= i < |d| && d[i].0 == name;
        if i >= |head| {
          assert DeleteName(q[1..], name)[i - |head|].0 == name;
        }
      }
    }
  }

  lemma DeleteNameTwice(q: Pairs, name: string)
    ensures DeleteName(DeleteName(q, name), name) == DeleteName(q, name)
  {
    DeleteNameRemovesName(q, name);
    DeleteNameNoName(DeleteName(q, name), name);
  }

  lemma {:induction false} DeleteNameConcat(a: Pairs, b: Pairs, name: string)
    ensures DeleteName(a + b, name) == DeleteName(a, name) + DeleteName(b, name)
  {
    if a == [] {
      assert a + b == b;
    } else {
      assert (a + b)[0] == a[0] && (a + b)[1..] == a[1..] + b;
      DeleteNameConcat(a[1..], b, name);
    }
  }

  /** Deleting one name and setting another commute. */
  lemma {:induction false} DeleteNameSetCommute(q: Pairs, name: string, other: string, value: string)
    requires other != name
    ensures DeleteName(SetValue(q, other, value), name) == SetValue(DeleteName(q, name), other, value)
  {
    if q == [] {
    } else if q[0].0 == other {
      DeleteNameConcat([(other, value)], DeleteName(q[1..], other), name);
      DeleteNameCommute(q[1..], name, other);
    } else {
      DeleteNameConcat([q[0]], SetValue(q[1..], other, value), name);
      DeleteNameSetCommute(q[1..], name, other, value);
      var rest := DeleteName(q[1..], name);
      if q[0].0 == name {
        assert DeleteName(q, name) == rest;
      } else {
        var d := [q[0]] + rest;
        assert DeleteName(q, name) == d && d[0] == q[0] && d[1..] == rest;
      }
    }
  }

  lemma {:induction false} DeleteNameCommute(q: Pairs, a: string, b: string)
    ensures DeleteName(DeleteName(q, a), b) == DeleteName(DeleteName(q, b), a)
  {
    if q != [] {
      var ha := if q[0].0 == a then [] else [q[0]];
      var hb := if q[0].0 == b then [] else [q[0]];
      DeleteNameConcat(ha, DeleteName(q[1..], a), b);
      DeleteNameConcat(hb, DeleteName(q[1..], b), a);
      DeleteNameCommute(q[1..], a, b);
    }
  }

  /** A second `set` of the same name overrides the first. */
  lemma {:induction false} SetValueTwice(q: Pairs, name: string, v1: string, v2: string)
    ensures SetValue(SetValue(q, name, v1), name, v2) == SetValue(q, name, v2)
  {
    if q == [] {
    } else if q[0].0 == name {
      DeleteNameTwice(q[1..], name);
    } else {
      SetValueTwice(q[1..], name, v1, v2);
    }
  }

  /** When `name` is already present, setting it and setting another name commute. */
  lemma {:induction false} SetValueCommute(q: Pairs, name: string, v: string, other: string, w: string)
    requires HasName(q, name) && other != name
    ensures SetValue(SetValue(q, other, w), name, v) == SetValue(SetValue(q, name, v), other, w)
  {
    if q[0].0 == name {
      DeleteNameSetCommute(q[1..], name, other, w);
    } else if q[0].0 == other {
      HasNameTail(q, name);
      SetValueDeleteOther(q[1..], name, v, other);
    } else {
      HasNameTail(q, name);
      SetValueCommute(q[1..], name, v, other, w);
    }
  }

  lemma {:induction false} SetValueDeleteOther(q: Pairs, name: string, v: string, other: string)
    requires HasName(q, name) && other != name
    ensures DeleteName(SetValue(q, name, v), other) == SetValue(DeleteName(q, other), name, v)
  {
    DeleteNameSetCommute(q, other, name, v);
  }

  /** `set` leaves `name` present. */
  lemma SetValueHasName(q: Pairs, name: string, value: string)
    ensures HasName(SetValue(q, name, value), name)
  {
    GetAllSet(q, name, value, name);
    GetIsFirstOfGetAll(SetValue(q, name, value), name);
  }

  /** The mutable query object that the components share and edit in place. */
  class Query {
    var pairs: Pairs

    constructor (init: Pairs)
      ensures pairs == init
    {
      pairs := init;
    }

    method Set(name: string, value: string)
      modifies this
      ensures pairs == SetValue(old(pairs), name, value)
    {
      pairs := SetValue(pairs, name, value);
    }

    method Delete(name: string)
      modifies this
      ensures pairs == DeleteName(old(pairs), name)
    {
      pairs := DeleteName(pairs, name);
    }

    method Append(name: string, value: string)
      modifies this
      ensures pairs == AppendPair(old(pairs), name, value)
    {
      pairs := AppendPair(pairs, name, value);
    }
  }
}
