/** Sorting by an integer key.  The ingestion code sorts twice with library
    calls (`list.sort` on the day folders and `DataFrame.sort_index` on the
    assembled rows); both are modelled by this insertion sort, and what the
    model relies on is only that the output is ordered by the key and is a
    permutation of the input. */
module Sorting {

  ghost predicate SortedBy<T>(s: seq<T>, key: T -> int)
  {
    forall i, j :: 0 <= i < j < |s| ==> key(s[i]) <= key(s[j])
  }

  /** A key no larger than every key of a sorted sequence keeps it sorted
      when put in front. */
  lemma ConsSorted<T>(h: T, s: seq<T>, key: T -> int)
    requires SortedBy(s, key) && forall k :: 0 <= k < |s| ==> key(h) <= key(s[k])
    ensures SortedBy([h] + s, key)
  {
    var r := [h] + s;
    forall i, j | 0 <= i < j < |r| ensures key(r[i]) <= key(r[j]) {
      assert r[j] == s[j - 1];
      if i > 0 {
        assert r[i] == s[i - 1];
      }
    }
  }

  /** After inserting `x` into the tail of a sorted sequence whose head has
      a smaller key than `x`, the head's key is still a lower bound. */
  lemma HeadBound<T>(s: seq<T>, x: T, rest: seq<T>, key: T -> int)
    requires SortedBy(s, key) && s != [] && key(s[0]) < key(x)
    requires multiset(rest) == multiset(s[1..]) + multiset{x}
    ensures forall k :: 0 <= k < |rest| ==> key(s[0]) <= key(rest[k])
  {
    forall k | 0 <= k < |rest| ensures key(s[0]) <= key(rest[k]) {
      assert rest[k] in multiset(rest);
      if rest[k] != x {
        assert rest[k] in multiset(s[1..]);
        var m :| 0 <= m < |s[1..]| && s[1..][m] == rest[k];
        assert s[m + 1] == rest[k];
      }
    }
  }

  /** Places `x` before the first element with a larger key. */
  function Insert<T>(x: T, s: seq<T>, key: T -> int): (r: seq<T>)
    requires SortedBy(s, key)
    ensures SortedBy(r, key)
    ensures multiset(r) == multiset(s) + multiset{x}
    ensures |r| == |s| + 1
  {
    if s == [] then [x]
    else if key(x) <= key(s[0]) then
      ConsSorted(x, s, key);
      [x] + s
    else
      var rest := Insert(x, s[1..], key);
      HeadBound(s, x, rest, key);
      ConsSorted(s[0], rest, key);
      assert s == [s[0]] + s[1..];
      [s[0]] + rest
  }

  function SortBy<T>(s: seq<T>, key: T -> int): (r: seq<T>)
    ensures SortedBy(r, key)
    ensures multiset(r) == multiset(s)
    ensures |r| == |s|
  {
    if s == [] then []
    else
      assert s == [s[0]] + s[1..];
      Insert(s[0], SortBy(s[1..], key), key)
  }

  /** Sorting a non-empty sequence inserts its head into its sorted tail. */
  lemma SortByCons<T>(s: seq<T>, key: T -> int)
    requires s != []
    ensures SortedBy(SortBy(s[1..], key), key)
    ensures SortBy(s, key) == Insert(s[0], SortBy(s[1..], key), key)
  {
  }

  /** An element no larger than the head goes in front. */
  lemma InsertFront<T>(x: T, s: seq<T>, key: T -> int)
    requires SortedBy(s, key) && s != [] && key(x) <= key(s[0])
    ensures Insert(x, s, key) == [x] + s
  {
  }

  /** An element larger than a single element goes after it. */
  lemma InsertAfterOne<T>(x: T, y: T, key: T -> int)
    requires key(y) < key(x)
    ensures SortedBy([y], key)
    ensures Insert(x, [y], key) == [y, x]
  {
    assert [y][1..] == [];
  }

  /** Three elements whose middle key is the largest sort to first, last,
      middle. */
  lemma SortThreeBy<T>(a: T, b: T, c: T, key: T -> int)
    requires key(a) < key(c) < key(b)
    ensures SortBy([a, b, c], key) == [a, c, b]
  {
    var all := [a, b, c];
    var tail := all[1..];
    var last := tail[1..];
    assert tail == [b, c];
    assert last == [c];
    assert last[1..] == [];
    SortByCons(last, key);
    assert SortBy(last, key) == [c];
    SortByCons(tail, key);
    InsertAfterOne(b, c, key);
    assert SortBy(tail, key) == [c, b];
    SortByCons(all, key);
    InsertFront(a, [c, b], key);
    assert SortBy(all, key) == [a] + [c, b];
  }

  /** Sorting neither adds nor drops an element. */
  lemma SortByMembers<T>(s: seq<T>, key: T -> int)
    ensures forall x :: x in SortBy(s, key) <==> x in s
  {
    forall x ensures x in SortBy(s, key) <==> x in s {
      assert x in SortBy(s, key) <==> x in multiset(SortBy(s, key));
    }
  }
}
