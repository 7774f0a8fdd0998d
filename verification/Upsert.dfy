/** Replacing the first matching element of a slice, or appending. */
module Upsert {
  /** The first index with a match, or the length (slices.IndexFunc, which answers -1). */
  function IndexOf<T>(s: seq<T>, matches: T -> bool): (i: nat)
    ensures i <= |s| && (i < |s| ==> matches(s[i]))
    ensures forall k :: 0 <= k < i ==> !matches(s[k])
  {
    if s == [] then 0 else if matches(s[0]) then 0 else 1 + IndexOf(s[1..], matches)
  }

  /** An index that has what the search looks for is the one it finds. */
  lemma IsIndexOf<T>(s: seq<T>, matches: T -> bool, i: nat)
    requires i <= |s| && (i < |s| ==> matches(s[i]))
    requires forall k :: 0 <= k < i ==> !matches(s[k])
    ensures IndexOf(s, matches) == i
  {
  }

  lemma ReplaceKeepsIndex<T>(s: seq<T>, i: nat, x: T, matches: T -> bool)
    requires i < |s| && (matches(x) <==> matches(s[i]))
    ensures IndexOf(s[i := x], matches) == IndexOf(s, matches)
  {
    IsIndexOf(s[i := x], matches, IndexOf(s, matches));
  }

  method FindIndex<T>(s: seq<T>, matches: T -> bool) returns (i: nat)
    ensures i == IndexOf(s, matches)
  {
    i := 0;
    while i < |s| && !matches(s[i])
      invariant i <= |s|
      invariant forall k :: 0 <= k < i ==> !matches(s[k])
    {
      i := i + 1;
    }
    IsIndexOf(s, matches, i);
  }

  function Put<T>(s: seq<T>, matches: T -> bool, x: T): seq<T> {
    var i := IndexOf(s, matches);
    if i == |s| then s + [x] else s[i := x]
  }

  predicate Has<T>(s: seq<T>, matches: T -> bool) {
    IndexOf(s, matches) < |s|
  }

  /** `x` is the first match. */
  predicate FirstIs<T(==)>(s: seq<T>, matches: T -> bool, x: T) {
    var i := IndexOf(s, matches);
    i < |s| && s[i] == x
  }

  lemma PutIsFirst<T>(s: seq<T>, matches: T -> bool, x: T)
    requires matches(x)
    ensures FirstIs(Put(s, matches, x), matches, x)
  {
    IsIndexOf(Put(s, matches, x), matches, IndexOf(s, matches));
  }

  /** The second of two values put for the same key is all that is left. */
  lemma PutOverwrites<T>(s: seq<T>, matches: T -> bool, x: T, y: T)
    requires matches(x) && matches(y)
    ensures Put(Put(s, matches, x), matches, y) == Put(s, matches, y)
  {
    IsIndexOf(Put(s, matches, x), matches, IndexOf(s, matches));
  }

  predicate Exclusive<T>(a: T -> bool, b: T -> bool, x: T, y: T) {
    a(x) && b(y) && !a(y) && !b(x)
  }

  /** Values put for different keys do not disturb each other. */
  lemma PutKeeps<T>(s: seq<T>, a: T -> bool, b: T -> bool, x: T, y: T)
    requires Exclusive(a, b, x, y) && (forall t :: t in s ==> !(a(t) && b(t)))
    ensures Has(s, a) ==> Has(Put(s, b, y), a)
    ensures Has(s, a) ==> IndexOf(Put(s, b, y), a) == IndexOf(s, a)
    ensures forall t :: t in Put(s, b, y) ==> !(a(t) && b(t))
  {
    var i, r := IndexOf(s, a), Put(s, b, y);
    if i < |s| {
      assert s[i] in s;
      IsIndexOf(r, a, i);
    }
  }

  /** Keys of which one is already there can be put in either order. */
  lemma PutsCommute<T>(s: seq<T>, a: T -> bool, b: T -> bool, x: T, y: T)
    requires Exclusive(a, b, x, y) && Has(s, a) && (forall t :: t in s ==> !(a(t) && b(t)))
    ensures Put(Put(s, b, y), a, x) == Put(Put(s, a, x), b, y)
  {
    var i, j := IndexOf(s, a), IndexOf(s, b);
    PutKeeps(s, a, b, x, y);
    var r := s[i := x];
    assert s[i] in s;
    assert Put(s, a, x) == r;
    IsIndexOf(r, b, j);
  }

  /** Without one of them there the order of the keys shows. */
  lemma PutsDoNotCommute()
    ensures var a, b := (n: int) => n == 1, (n: int) => n == 2;
            Put(Put([], b, 2), a, 1) != Put(Put([], a, 1), b, 2)
  {
    var a, b := (n: int) => n == 1, (n: int) => n == 2;
    var empty: seq<int> := [];
    assert Put(empty, b, 2) == [2] && Put(empty, a, 1) == [1];
    IsIndexOf([2], a, 1);
    IsIndexOf([1], b, 1);
    assert Put(Put(empty, b, 2), a, 1)[0] == 2;
    assert Put(Put(empty, a, 1), b, 2)[0] == 1;
  }
}
