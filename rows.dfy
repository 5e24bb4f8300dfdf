/**
  Relational queries over the rows of a table, as the database evaluates
  them: a scan yields the rows in no particular order, `where` keeps the
  rows whose condition is true, and `order(... desc)` sorts by a key,
  largest first, leaving the order of ties to the database.
 */
module Rows {

  /** The rows a `where` scope selects: each row the condition accepts, as often as it occurs. */
  function Where<T(==,!new)>(rows: seq<T>, cond: T -> bool): (r: seq<T>)
    ensures forall x :: multiset(r)[x] == if cond(x) then multiset(rows)[x] else 0
  {
    if rows == [] then []
    else
      assert rows == [rows[0]] + rows[1..];
      var rest := Where(rows[1..], cond);
      if cond(rows[0]) then [rows[0]] + rest else rest
  }

  predicate SortedByDesc<T>(s: seq<T>, key: T -> int)
  {
    forall i, j :: 0 <= i < j < |s| ==> key(s[i]) >= key(s[j])
  }

  /** Puts `x` in front of the first element whose key is at most its own. */
  function InsertByDesc<T(==,!new)>(x: T, s: seq<T>, key: T -> int): (r: seq<T>)
    requires SortedByDesc(s, key)
    ensures multiset(r) == multiset(s) + multiset{x}
    ensures SortedByDesc(r, key)
  {
    if s == [] || key(x) >= key(s[0]) then [x] + s
    else
      var rest := InsertByDesc(x, s[1..], key);
      ConsSorted(s, rest, x, key);
      [s[0]] + rest
  }

  /** Putting the head of a sorted sequence back in front keeps the order when the rest gained only smaller keys. */
  lemma ConsSorted<T(!new)>(s: seq<T>, rest: seq<T>, x: T, key: T -> int)
    requires s != [] && SortedByDesc(s, key) && key(x) < key(s[0])
    requires SortedByDesc(rest, key) && multiset(rest) == multiset(s[1..]) + multiset{x}
    ensures multiset([s[0]] + rest) == multiset(s) + multiset{x}
    ensures SortedByDesc([s[0]] + rest, key)
  {
    assert s == [s[0]] + s[1..];
    forall j | 0 <= j < |rest|
      ensures key(s[0]) >= key(rest[j])
    {
      assert rest[j] in multiset(rest);
      if rest[j] != x {
        assert rest[j] in multiset(s[1..]);
        var k :| 0 <= k < |s[1..]| && s[1..][k] == rest[j];
        assert s[k + 1] == rest[j];
      }
    }
    var r := [s[0]] + rest;
    forall i, j | 0 <= i < j < |r|
      ensures key(r[i]) >= key(r[j])
    {
      if i == 0 {
        assert r[j] == rest[j - 1];
      } else {
        assert r[i] == rest[i - 1] && r[j] == rest[j - 1];
      }
    }
  }

  /** `ORDER BY key DESC`: a permutation of the rows, largest key first. */
  function SortByDesc<T(==,!new)>(s: seq<T>, key: T -> int): (r: seq<T>)
    ensures multiset(r) == multiset(s)
    ensures SortedByDesc(r, key)
  {
    if s == [] then []
    else
      assert s == [s[0]] + s[1..];
      InsertByDesc(s[0], SortByDesc(s[1..], key), key)
  }
}
