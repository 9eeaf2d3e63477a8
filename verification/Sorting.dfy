/** Stable sorting by an integer key, as `Array.prototype.sort` with a difference comparator and
    Python's `sorted` with a key do it. */
module Sorting {
  function Insert<T>(key: T -> int, x: T, s: seq<T>): seq<T> {
    if s == [] || key(x) <= key(s[0]) then [x] + s else [s[0]] + Insert(key, x, s[1..])
  }

  function SortBy<T>(key: T -> int, s: seq<T>): seq<T> {
    if s == [] then [] else Insert(key, s[0], SortBy(key, s[1..]))
  }

  ghost predicate Ascending<T>(key: T -> int, s: seq<T>) {
    forall i, j | 0 <= i < j < |s| :: key(s[i]) <= key(s[j])
  }

  /** The elements with the given key, in order. */
  function Ties<T>(key: T -> int, k: int, s: seq<T>): seq<T> {
    if s == [] then [] else (if key(s[0]) == k then [s[0]] else []) + Ties(key, k, s[1..])
  }

  lemma {:induction false} InsertAdds<T>(key: T -> int, x: T, s: seq<T>)
    ensures multiset(Insert(key, x, s)) == multiset{x} + multiset(s)
  {
    if s != [] && key(x) > key(s[0]) {
      InsertAdds(key, x, s[1..]);
      assert s == [s[0]] + s[1..];
    }
  }

  lemma {:induction false} InsertBounds<T>(key: T -> int, x: T, s: seq<T>, low: int)
    requires low <= key(x) && forall y | y in s :: low <= key(y)
    ensures forall y | y in Insert(key, x, s) :: low <= key(y)
  {
    if s != [] && key(x) > key(s[0]) {
      InsertBounds(key, x, s[1..], low);
    }
  }

  lemma {:induction false} InsertAscends<T>(key: T -> int, x: T, s: seq<T>)
    requires Ascending(key, s)
    ensures Ascending(key, Insert(key, x, s))
  {
    if s != [] && key(x) > key(s[0]) {
      var rest := Insert(key, x, s[1..]);
      InsertAscends(key, x, s[1..]);
      InsertBounds(key, x, s[1..], key(s[0]));
      assert forall j | 0 <= j < |rest| :: rest[j] in rest;
    }
  }

  /** Elements with different keys do not both have key `k`. */
  lemma TiesOutOfOrder<T>(key: T -> int, x: T, y: T, k: int, rest: seq<T>)
    requires key(x) != key(y)
    ensures var a, b := if key(x) == k then [x] else [], if key(y) == k then [y] else [];
      b + (a + rest) == a + (b + rest)
  {
    assert [] + rest == rest;
  }

  lemma {:induction false} InsertTies<T>(key: T -> int, x: T, s: seq<T>, k: int)
    ensures Ties(key, k, Insert(key, x, s)) == (if key(x) == k then [x] else []) + Ties(key, k, s)
  {
    if s == [] || key(x) <= key(s[0]) {
      assert ([x] + s)[1..] == s;
    } else {
      var rest := Insert(key, x, s[1..]);
      assert ([s[0]] + rest)[1..] == rest;
      InsertTies(key, x, s[1..], k);
      TiesOutOfOrder(key, x, s[0], k, Ties(key, k, s[1..]));
    }
  }

  /** The result is ascending, a rearrangement, and keeps the order of elements with equal keys. */
  lemma {:induction false} SortByMeaning<T>(key: T -> int, s: seq<T>, k: int)
    ensures Ascending(key, SortBy(key, s)) && multiset(SortBy(key, s)) == multiset(s)
    ensures Ties(key, k, SortBy(key, s)) == Ties(key, k, s)
  {
    if s != [] {
      SortByMeaning(key, s[1..], k);
      InsertAdds(key, s[0], SortBy(key, s[1..]));
      InsertAscends(key, s[0], SortBy(key, s[1..]));
      InsertTies(key, s[0], SortBy(key, s[1..]), k);
      assert s == [s[0]] + s[1..];
    }
  }

  lemma {:induction false} SortedStays<T>(key: T -> int, s: seq<T>)
    requires Ascending(key, s)
    ensures SortBy(key, s) == s
  {
    if s != [] {
      SortedStays(key, s[1..]);
    }
  }

  lemma SortIsIdempotent<T>(key: T -> int, s: seq<T>)
    ensures SortBy(key, SortBy(key, s)) == SortBy(key, s)
  {
    SortByMeaning(key, s, 0);
    SortedStays(key, SortBy(key, s));
  }
}
