/** What the query builder does to a table's rows, on sequences: `where`
    (filter), `orderBy` (a sort on one integer column, ascending or
    descending, ties in no particular order) and `limit`/`offset` (a page). */
module Rows {

  /** `where p`: the rows satisfying `p`, in stored order. */
  function Filter<T>(s: seq<T>, p: T -> bool): (r: seq<T>)
    ensures |r| <= |s|
    ensures forall i :: 0 <= i < |r| ==> r[i] in s && p(r[i])
    ensures forall i :: 0 <= i < |s| && p(s[i]) ==> s[i] in r
    decreases |s|
  {
    if s == [] then []
    else if p(s[0]) then [s[0]] + Filter(s[1..], p)
    else Filter(s[1..], p)
  }

  /** Filtering distributes over concatenation, so the stored order of the
      rows that pass is kept. */
  lemma {:induction false} FilterAppend<T>(a: seq<T>, b: seq<T>, p: T -> bool)
    ensures Filter(a + b, p) == Filter(a, p) + Filter(b, p)
    decreases |a|
  {
    if a == [] {
      assert a + b == b;
    } else {
      var ab := a + b;
      assert ab != [] && ab[0] == a[0] && ab[1..] == a[1..] + b;
      FilterAppend(a[1..], b, p);
      if p(a[0]) {
        calc {
          Filter(ab, p);
          [a[0]] + Filter(a[1..] + b, p);
          [a[0]] + (Filter(a[1..], p) + Filter(b, p));
          ([a[0]] + Filter(a[1..], p)) + Filter(b, p);
          Filter(a, p) + Filter(b, p);
        }
      } else {
        calc {
          Filter(ab, p);
          Filter(a[1..] + b, p);
          Filter(a[1..], p) + Filter(b, p);
          Filter(a, p) + Filter(b, p);
        }
      }
    }
  }

  /** A condition every row passes keeps the whole table. */
  lemma {:induction false} FilterAll<T>(s: seq<T>, p: T -> bool)
    requires forall i :: 0 <= i < |s| ==> p(s[i])
    ensures Filter(s, p) == s
    decreases |s|
  {
    if s != [] {
      FilterAll(s[1..], p);
      assert s == [s[0]] + s[1..];
    }
  }

  /** A condition no row passes keeps nothing. */
  lemma FilterNone<T>(s: seq<T>, p: T -> bool)
    requires forall i :: 0 <= i < |s| ==> !p(s[i])
    ensures Filter(s, p) == []
  {
    var r := Filter(s, p);
    if r != [] {
      var k :| 0 <= k < |s| && s[k] == r[0];
      assert false;
    }
  }

  /** Appending a block of passing rows after rows none of which pass:
      the block is what is selected. */
  lemma FilterOwnBlock<T>(prev: seq<T>, block: seq<T>, p: T -> bool)
    requires Filter(prev, p) == []
    requires forall i :: 0 <= i < |block| ==> p(block[i])
    ensures Filter(prev + block, p) == block
  {
    FilterAppend(prev, block, p);
    FilterAll(block, p);
    assert [] + block == block;
  }

  /** Appending a block of rows none of which pass selects nothing more. */
  lemma FilterOtherBlock<T>(prev: seq<T>, block: seq<T>, p: T -> bool)
    requires forall i :: 0 <= i < |block| ==> !p(block[i])
    ensures Filter(prev + block, p) == Filter(prev, p)
  {
    FilterAppend(prev, block, p);
    FilterNone(block, p);
    assert Filter(prev, p) + [] == Filter(prev, p);
  }

  /** A block of passing rows between rows none of which pass is exactly
      what is selected. */
  lemma FilterMiddleBlock<T>(before: seq<T>, block: seq<T>, after: seq<T>, p: T -> bool)
    requires forall i :: 0 <= i < |before| ==> !p(before[i])
    requires forall i :: 0 <= i < |block| ==> p(block[i])
    requires forall i :: 0 <= i < |after| ==> !p(after[i])
    ensures Filter(before + block + after, p) == block
  {
    FilterNone(before, p);
    FilterOwnBlock(before, block, p);
    FilterOtherBlock(before + block, after, p);
  }

  /** Filtering keeps each passing row as often as it occurs. */
  lemma {:induction false} FilterMultiset<T>(s: seq<T>, p: T -> bool, x: T)
    ensures multiset(Filter(s, p))[x] == if p(x) then multiset(s)[x] else 0
    decreases |s|
  {
    if s != [] {
      FilterMultiset(s[1..], p, x);
      assert s == [s[0]] + s[1..];
    }
  }

  ghost predicate DistinctKeys<T>(s: seq<T>, key: T -> int) {
    forall i, j :: 0 <= i < j < |s| ==> key(s[i]) != key(s[j])
  }

  /** Keys grow strictly along the sequence, as serial ids do in stored order. */
  ghost predicate Increasing<T>(s: seq<T>, key: T -> int) {
    forall i, j :: 0 <= i < j < |s| ==> key(s[i]) < key(s[j])
  }

  lemma IncreasingTail<T>(s: seq<T>, key: T -> int)
    requires s != [] && Increasing(s, key)
    ensures Increasing(s[1..], key)
  {
    var tail := s[1..];
    forall i, j | 0 <= i < j < |tail| ensures key(tail[i]) < key(tail[j]) {
      assert tail[i] == s[i + 1] && tail[j] == s[j + 1];
    }
  }

  lemma IncreasingCons<T>(x: T, rest: seq<T>, key: T -> int)
    requires Increasing(rest, key)
    requires forall m :: 0 <= m < |rest| ==> key(x) < key(rest[m])
    ensures Increasing([x] + rest, key)
  {
    var r := [x] + rest;
    forall i, j | 0 <= i < j < |r| ensures key(r[i]) < key(r[j]) {
      assert r[j] == rest[j - 1];
      if i > 0 {
        assert r[i] == rest[i - 1];
      }
    }
  }

  /** `where` keeps stored order, so keys that grow along the table grow
      along the result. */
  lemma {:induction false} FilterIncreasing<T>(s: seq<T>, p: T -> bool, key: T -> int)
    requires Increasing(s, key)
    ensures Increasing(Filter(s, p), key)
    decreases |s|
  {
    if s != [] {
      IncreasingTail(s, key);
      FilterIncreasing(s[1..], p, key);
      if p(s[0]) {
        var rest := Filter(s[1..], p);
        forall m | 0 <= m < |rest| ensures key(s[0]) < key(rest[m]) {
          var k :| 0 <= k < |s[1..]| && s[1..][k] == rest[m];
          assert s[k + 1] == rest[m];
        }
        IncreasingCons(s[0], rest, key);
      }
    }
  }

  lemma DistinctTail<T>(s: seq<T>, key: T -> int)
    requires s != [] && DistinctKeys(s, key)
    ensures DistinctKeys(s[1..], key)
  {
    var tail := s[1..];
    forall i, j | 0 <= i < j < |tail| ensures key(tail[i]) != key(tail[j]) {
      assert tail[i] == s[i + 1] && tail[j] == s[j + 1];
    }
  }

  lemma DistinctCons<T>(x: T, rest: seq<T>, key: T -> int)
    requires DistinctKeys(rest, key)
    requires forall m :: 0 <= m < |rest| ==> key(x) != key(rest[m])
    ensures DistinctKeys([x] + rest, key)
  {
    var r := [x] + rest;
    forall i, j | 0 <= i < j < |r| ensures key(r[i]) != key(r[j]) {
      assert r[j] == rest[j - 1];
      if i > 0 {
        assert r[i] == rest[i - 1];
      }
    }
  }

  /** `where` keeps pairwise distinct keys distinct. */
  lemma {:induction false} FilterDistinct<T>(s: seq<T>, p: T -> bool, key: T -> int)
    requires DistinctKeys(s, key)
    ensures DistinctKeys(Filter(s, p), key)
    decreases |s|
  {
    if s != [] {
      DistinctTail(s, key);
      FilterDistinct(s[1..], p, key);
      if p(s[0]) {
        var rest := Filter(s[1..], p);
        forall m | 0 <= m < |rest| ensures key(s[0]) != key(rest[m]) {
          var k :| 0 <= k < |s[1..]| && s[1..][k] == rest[m];
          assert s[k + 1] == rest[m];
        }
        DistinctCons(s[0], rest, key);
      }
    }
  }

  /** `x` may come before `y` in an `orderBy` on `key`. */
  predicate Precedes<T>(key: T -> int, descending: bool, x: T, y: T) {
    if descending then key(x) >= key(y) else key(x) <= key(y)
  }

  ghost predicate Ordered<T>(s: seq<T>, key: T -> int, descending: bool) {
    forall i, j :: 0 <= i < j < |s| ==> Precedes(key, descending, s[i], s[j])
  }

  /** `v` is a possible answer of `orderBy` on the rows `s`: the same rows,
      in order. The database leaves the order of equal keys open, so there
      may be several such `v`. */
  ghost predicate SortedPermutation<T>(v: seq<T>, s: seq<T>, key: T -> int, descending: bool) {
    multiset(v) == multiset(s) && Ordered(v, key, descending)
  }

  /** Puts `x` into an ordered sequence, before the first row it may precede. */
  function Insert<T>(x: T, s: seq<T>, key: T -> int, descending: bool): (r: seq<T>)
    ensures multiset(r) == multiset(s) + multiset{x}
    decreases |s|
  {
    if s == [] then [x]
    else if Precedes(key, descending, x, s[0]) then [x] + s
    else
      assert s == [s[0]] + s[1..];
      [s[0]] + Insert(x, s[1..], key, descending)
  }

  lemma {:induction false} InsertOrdered<T>(x: T, s: seq<T>, key: T -> int, descending: bool)
    requires Ordered(s, key, descending)
    ensures Ordered(Insert(x, s, key, descending), key, descending)
    decreases |s|
  {
    if s != [] && !Precedes(key, descending, x, s[0]) {
      var rest := Insert(x, s[1..], key, descending);
      InsertOrdered(x, s[1..], key, descending);
      forall j | 0 <= j < |rest| ensures Precedes(key, descending, s[0], rest[j]) {
        assert rest[j] in multiset(rest);
        if rest[j] != x {
          assert rest[j] in multiset(s[1..]);
          var k :| 0 <= k < |s[1..]| && s[1..][k] == rest[j];
          assert s[k + 1] == rest[j];
        }
      }
      var r := [s[0]] + rest;
      forall i, j | 0 <= i < j < |r| ensures Precedes(key, descending, r[i], r[j]) {
        if i > 0 {
          assert r[i] == rest[i - 1] && r[j] == rest[j - 1];
        } else {
          assert r[j] == rest[j - 1];
        }
      }
    }
  }

  /** An insertion sort: one of the orders `orderBy` may produce. */
  function Sort<T>(s: seq<T>, key: T -> int, descending: bool): (r: seq<T>)
    ensures SortedPermutation(r, s, key, descending)
    decreases |s|
  {
    if s == [] then []
    else
      assert s == [s[0]] + s[1..];
      InsertOrdered(s[0], Sort(s[1..], key, descending), key, descending);
      Insert(s[0], Sort(s[1..], key, descending), key, descending)
  }

  /** `limit`/`offset`: at most `limit` rows, starting at position `offset`. */
  function Page<T>(s: seq<T>, offset: nat, limit: nat): (r: seq<T>)
    ensures |r| <= limit
    ensures offset <= |s| ==> |r| == if |s| - offset < limit then |s| - offset else limit
    ensures forall i :: 0 <= i < |r| ==> offset + i < |s| && r[i] == s[offset + i]
  {
    if offset >= |s| then []
    else if |s| - offset < limit then s[offset..]
    else s[offset..offset + limit]
  }

  lemma PageOrdered<T>(s: seq<T>, offset: nat, limit: nat, key: T -> int, descending: bool)
    requires Ordered(s, key, descending)
    ensures Ordered(Page(s, offset, limit), key, descending)
  {
    var r := Page(s, offset, limit);
    forall i, j | 0 <= i < j < |r| ensures Precedes(key, descending, r[i], r[j]) {
      assert r[i] == s[offset + i] && r[j] == s[offset + j];
    }
  }

  lemma PageElements<T>(s: seq<T>, offset: nat, limit: nat, x: T)
    requires x in Page(s, offset, limit)
    ensures x in s
  {
    var r := Page(s, offset, limit);
    var i :| 0 <= i < |r| && r[i] == x;
    assert s[offset + i] == x;
  }

  /** Two positions holding the same value make its count at least two. */
  lemma TwoPositionsCount<T>(s: seq<T>, i: int, j: int)
    requires 0 <= i < j < |s| && s[i] == s[j]
    ensures multiset(s)[s[i]] >= 2
  {
    assert s == s[..j] + s[j..];
    assert s[i] in s[..j];
    assert s[j] in s[j..];
    assert multiset(s) == multiset(s[..j]) + multiset(s[j..]);
  }

  /** A value counted at least twice sits at two positions. */
  lemma {:induction false} CountTwoPositions<T>(s: seq<T>, x: T) returns (i: int, j: int)
    requires multiset(s)[x] >= 2
    ensures 0 <= i < j < |s| && s[i] == x && s[j] == x
    decreases |s|
  {
    assert s == [s[0]] + s[1..];
    if s[0] == x {
      assert x in multiset(s[1..]);
      var k :| 0 <= k < |s[1..]| && s[1..][k] == x;
      i, j := 0, k + 1;
    } else {
      var i', j' := CountTwoPositions(s[1..], x);
      i, j := i' + 1, j' + 1;
    }
  }

  /** Reordering rows keeps their keys pairwise distinct. */
  lemma DistinctKeysPermutation<T>(s: seq<T>, v: seq<T>, key: T -> int)
    requires multiset(v) == multiset(s) && DistinctKeys(s, key)
    ensures DistinctKeys(v, key)
  {
    forall i, j | 0 <= i < j < |v| ensures key(v[i]) != key(v[j]) {
      if v[i] == v[j] {
        TwoPositionsCount(v, i, j);
        var a, b := CountTwoPositions(s, v[i]);
        assert false;
      } else {
        assert v[i] in multiset(s);
        var a :| 0 <= a < |s| && s[a] == v[i];
        assert v[j] in multiset(s);
        var b :| 0 <= b < |s| && s[b] == v[j];
        assert a != b;
      }
    }
  }

  /** Two orderings of the same rows, one with distinct keys, start with
      the same row. */
  lemma OrderedPermutationsSameHead<T>(v1: seq<T>, v2: seq<T>, key: T -> int, descending: bool)
    requires multiset(v1) == multiset(v2) && v1 != []
    requires Ordered(v1, key, descending) && Ordered(v2, key, descending) && DistinctKeys(v1, key)
    ensures v2 != [] && v1[0] == v2[0]
  {
    assert v1[0] in multiset(v2);
    var k :| 0 <= k < |v2| && v2[k] == v1[0];
    assert v2[0] in multiset(v1);
    var m :| 0 <= m < |v1| && v1[m] == v2[0];
    if m != 0 {
      assert false;
    }
  }

  lemma OrderedTail<T>(s: seq<T>, key: T -> int, descending: bool)
    requires s != [] && Ordered(s, key, descending)
    ensures Ordered(s[1..], key, descending)
  {
    var tail := s[1..];
    forall i, j | 0 <= i < j < |tail| ensures Precedes(key, descending, tail[i], tail[j]) {
      assert tail[i] == s[i + 1] && tail[j] == s[j + 1];
    }
  }

  /** Two permutations of each other that start alike continue alike. */
  lemma PermutationTails<T>(v1: seq<T>, v2: seq<T>)
    requires v1 != [] && v2 != [] && v1[0] == v2[0] && multiset(v1) == multiset(v2)
    ensures multiset(v1[1..]) == multiset(v2[1..])
  {
    assert v1 == [v1[0]] + v1[1..] && v2 == [v2[0]] + v2[1..];
    assert multiset(v1) == multiset{v1[0]} + multiset(v1[1..]);
    assert multiset(v2) == multiset{v2[0]} + multiset(v2[1..]);
    assert multiset(v1[1..]) == multiset(v1) - multiset{v1[0]} == multiset(v2[1..]);
  }

  lemma {:induction false} OrderedPermutationsEqual<T>(v1: seq<T>, v2: seq<T>, key: T -> int, descending: bool)
    requires multiset(v1) == multiset(v2)
    requires Ordered(v1, key, descending) && Ordered(v2, key, descending) && DistinctKeys(v1, key)
    ensures v1 == v2
    decreases |v1|
  {
    if v1 != [] {
      OrderedPermutationsSameHead(v1, v2, key, descending);
      PermutationTails(v1, v2);
      OrderedTail(v1, key, descending);
      OrderedTail(v2, key, descending);
      DistinctTail(v1, key);
      OrderedPermutationsEqual(v1[1..], v2[1..], key, descending);
      assert v1 == [v1[0]] + v1[1..] && v2 == [v2[0]] + v2[1..];
    }
  }

  /** With pairwise distinct keys there is only one possible order: every
      execution of the query returns the rows in the same sequence. */
  lemma SortedPermutationUnique<T>(v1: seq<T>, v2: seq<T>, s: seq<T>, key: T -> int, descending: bool)
    requires SortedPermutation(v1, s, key, descending) && SortedPermutation(v2, s, key, descending)
    requires DistinctKeys(s, key)
    ensures v1 == v2
  {
    DistinctKeysPermutation(s, v1, key);
    OrderedPermutationsEqual(v1, v2, key, descending);
  }

  /** Pages over non-overlapping position ranges of a sequence with
      distinct keys hold no common row. */
  lemma PagesDisjoint<T>(v: seq<T>, key: T -> int, o1: nat, l1: nat, o2: nat, l2: nat)
    requires DistinctKeys(v, key) && o1 + l1 <= o2
    ensures forall x, y :: x in Page(v, o1, l1) && y in Page(v, o2, l2) ==> key(x) != key(y)
  {
    var p1, p2 := Page(v, o1, l1), Page(v, o2, l2);
    forall x, y | x in p1 && y in p2 ensures key(x) != key(y) {
      var i :| 0 <= i < |p1| && p1[i] == x;
      var j :| 0 <= j < |p2| && p2[j] == y;
      assert v[o1 + i] == x && v[o2 + j] == y;
    }
  }

  /** `where p orderBy key desc limit offset`: one page of the passing rows,
      newest first. It is the `[offset, offset + limit)` slice of one of the
      orders the database may choose, the one `Sort` yields. */
  function SortedPage<T>(rows: seq<T>, p: T -> bool, key: T -> int, offset: nat, limit: nat): (r: seq<T>)
    ensures |r| <= limit
    ensures forall i :: 0 <= i < |r| ==> r[i] in rows && p(r[i])
    ensures Ordered(r, key, true)
    ensures var v := Sort(Filter(rows, p), key, true); SortedPermutation(v, Filter(rows, p), key, true) && r == Page(v, offset, limit)
  {
    var v := Sort(Filter(rows, p), key, true);
    PageOrdered(v, offset, limit, key, true);
    forall i | 0 <= i < |Page(v, offset, limit)|
      ensures Page(v, offset, limit)[i] in rows && p(Page(v, offset, limit)[i])
    {
      var x := Page(v, offset, limit)[i];
      PageElements(v, offset, limit, x);
      assert x in multiset(Filter(rows, p));
      var k :| 0 <= k < |Filter(rows, p)| && Filter(rows, p)[k] == x;
    }
    Page(v, offset, limit)
  }

  /** When the passing rows have distinct keys the order is determined, so
      every execution of the query returns this very page. */
  lemma SortedPageDetermined<T>(rows: seq<T>, p: T -> bool, key: T -> int, offset: nat, limit: nat, v: seq<T>)
    requires DistinctKeys(Filter(rows, p), key)
    requires SortedPermutation(v, Filter(rows, p), key, true)
    ensures SortedPage(rows, p, key, offset, limit) == Page(v, offset, limit)
  {
    SortedPermutationUnique(v, Sort(Filter(rows, p), key, true), Filter(rows, p), key, true);
  }

  /** Pages of the query at non-overlapping offsets, taken from the same
      order, return no common row identity when the rows carry distinct
      identities, whether or not sort keys tie. */
  lemma SortedPagesDisjoint<T>(rows: seq<T>, p: T -> bool, key: T -> int, id: T -> int,
                               o1: nat, l1: nat, o2: nat, l2: nat)
    requires DistinctKeys(rows, id) && o1 + l1 <= o2
    ensures forall x, y :: x in SortedPage(rows, p, key, o1, l1) && y in SortedPage(rows, p, key, o2, l2) ==> id(x) != id(y)
  {
    var f := Filter(rows, p);
    var v := Sort(f, key, true);
    FilterDistinct(rows, p, id);
    DistinctKeysPermutation(f, v, id);
    PagesDisjoint(v, id, o1, l1, o2, l2);
  }
}
