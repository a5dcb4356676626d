/** Membership toggling on ordered lists, as written with
    `includes` / `filter` / append in the components: the same rule edits the
    `indicators` query values in the search hook and the selected identity
    labels of the profile form. */
module Seqs {

  /** `s.filter((y) => y !== x)`: every occurrence of `x` dropped, the rest kept in order. */
  function RemoveAll<T(==)>(s: seq<T>, x: T): (r: seq<T>)
    ensures x !in r
    ensures |r| <= |s|
    ensures forall y :: y in r ==> y in s
    ensures forall i :: 0 <= i < |s| && s[i] != x ==> s[i] in r
  {
    if s == [] then [] else (if s[0] == x then [] else [s[0]]) + RemoveAll(s[1..], x)
  }

  /** Remove `x` everywhere when it is present, otherwise append it at the end. */
  function Toggle<T(==)>(s: seq<T>, x: T): (r: seq<T>)
    ensures x in r <==> x !in s
    ensures |r| <= |s| + 1
  {
    if x in s then RemoveAll(s, x) else s + [x]
  }

  lemma {:induction false} RemoveAllAppend<T>(s: seq<T>, t: seq<T>, x: T)
    ensures RemoveAll(s + t, x) == RemoveAll(s, x) + RemoveAll(t, x)
  {
    if s == [] {
      assert s + t == t;
    } else {
      var head := if s[0] == x then [] else [s[0]];
      assert (s + t)[0] == s[0] && (s + t)[1..] == s[1..] + t;
      calc {
        RemoveAll(s + t, x);
        head + RemoveAll(s[1..] + t, x);
        { RemoveAllAppend(s[1..], t, x); }
        head + (RemoveAll(s[1..], x) + RemoveAll(t, x));
        (head + RemoveAll(s[1..], x)) + RemoveAll(t, x);
        RemoveAll(s, x) + RemoveAll(t, x);
      }
    }
  }

  lemma {:induction false} RemoveAllAbsent<T>(s: seq<T>, x: T)
    requires x !in s
    ensures RemoveAll(s, x) == s
  {
    if s != [] {
      RemoveAllAbsent(s[1..], x);
    }
  }

  /** Removing one element at a time, left to right, builds `RemoveAll` prefix by prefix. */
  lemma RemoveAllSnoc<T>(s: seq<T>, i: nat, x: T)
    requires i < |s|
    ensures RemoveAll(s[..i + 1], x) == RemoveAll(s[..i], x) + (if s[i] == x then [] else [s[i]])
  {
    assert s[..i + 1] == s[..i] + [s[i]];
    RemoveAllAppend(s[..i], [s[i]], x);
  }

  /** Toggling an absent element twice gives back the original list. */
  lemma ToggleTwiceAbsent<T>(s: seq<T>, x: T)
    requires x !in s
    ensures Toggle(s, x) == s + [x]
    ensures Toggle(Toggle(s, x), x) == s
  {
    RemoveAllAppend(s, [x], x);
    RemoveAllAbsent(s, x);
  }

  /** Toggling a present element removes it; toggling again puts one copy at the end. */
  lemma ToggleTwicePresent<T>(s: seq<T>, x: T)
    requires x in s
    ensures x !in Toggle(s, x)
    ensures Toggle(Toggle(s, x), x) == RemoveAll(s, x) + [x]
  {
  }

  /** After a toggle, `x` is a member exactly when it was not one before,
      and every other element keeps its membership. */
  lemma ToggleMembership<T>(s: seq<T>, x: T, y: T)
    ensures y in Toggle(s, x) <==> (if y == x then x !in s else y in s)
  {
    if y != x && y in s {
      var i :| 0 <= i < |s| && s[i] == y;
    }
  }
}
