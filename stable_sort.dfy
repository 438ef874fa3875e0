/**
 * Python's `sorted(xs, key=key, reverse=True)`: a descending sort that is
 * stable, so that elements with equal keys keep their relative order.
 */
module StableSort {

  /** Keys never increase along `s`. */
  predicate SortedDesc<T>(s: seq<T>, key: T -> real) {
    forall i, j :: 0 <= i < j < |s| ==> key(s[i]) >= key(s[j])
  }

  /** Inserts `x` after every element whose key is at least `key(x)`. */
  function Insert<T(==)>(sorted: seq<T>, x: T, key: T -> real): (r: seq<T>)
    ensures |r| == |sorted| + 1
  {
    if sorted == [] then [x]
    else if key(sorted[0]) < key(x) then [x] + sorted
    else [sorted[0]] + Insert(sorted[1..], x, key)
  }

  lemma {:induction false} InsertMultiset<T>(sorted: seq<T>, x: T, key: T -> real)
    ensures multiset(Insert(sorted, x, key)) == multiset(sorted) + multiset{x}
  {
    if sorted != [] && key(sorted[0]) >= key(x) {
      InsertMultiset(sorted[1..], x, key);
      assert sorted == [sorted[0]] + sorted[1..];
    }
  }

  lemma {:induction false} InsertSorted<T>(sorted: seq<T>, x: T, key: T -> real)
    requires SortedDesc(sorted, key)
    ensures SortedDesc(Insert(sorted, x, key), key)
  {
    if sorted != [] && key(sorted[0]) >= key(x) {
      var rest := sorted[1..];
      InsertSorted(rest, x, key);
      var ins := Insert(rest, x, key);
      assert sorted == [sorted[0]] + rest;
      InsertMultiset(rest, x, key);
      forall i | 0 <= i < |ins| ensures key(sorted[0]) >= key(ins[i]) {
        assert ins[i] in multiset(ins);
        assert ins[i] in multiset(rest) || ins[i] == x;
      }
    }
  }

  /** `sorted(s, key=key, reverse=True)`. */
  function SortDesc<T(==)>(s: seq<T>, key: T -> real): (r: seq<T>)
    ensures |r| == |s|
    ensures multiset(r) == multiset(s)
    ensures SortedDesc(r, key)
  {
    if s == [] then []
    else
      var front := SortDesc(s[..|s| - 1], key);
      assert s == s[..|s| - 1] + [s[|s| - 1]];
      InsertSorted(front, s[|s| - 1], key);
      InsertMultiset(front, s[|s| - 1], key);
      Insert(front, s[|s| - 1], key)
  }

  /** The elements of `s` whose key is `k`, in their order in `s`. */
  function WithKey<T>(s: seq<T>, key: T -> real, k: real): seq<T> {
    if s == [] then []
    else (if key(s[0]) == k then [s[0]] else []) + WithKey(s[1..], key, k)
  }

  lemma WithKeyCons<T>(y: T, s: seq<T>, key: T -> real, k: real)
    ensures WithKey([y] + s, key, k) == (if key(y) == k then [y] else []) + WithKey(s, key, k)
  {
    assert ([y] + s)[0] == y;
    assert ([y] + s)[1..] == s;
  }

  lemma {:induction false} WithKeyAppend<T>(a: seq<T>, b: seq<T>, key: T -> real, k: real)
    ensures WithKey(a + b, key, k) == WithKey(a, key, k) + WithKey(b, key, k)
  {
    if a == [] {
      assert a + b == b;
    } else {
      assert a == [a[0]] + a[1..];
      assert a + b == [a[0]] + (a[1..] + b);
      WithKeyCons(a[0], a[1..] + b, key, k);
      WithKeyCons(a[0], a[1..], key, k);
      WithKeyAppend(a[1..], b, key, k);
    }
  }

  lemma {:induction false} WithKeyNone<T>(s: seq<T>, key: T -> real, k: real)
    requires forall i :: 0 <= i < |s| ==> key(s[i]) != k
    ensures WithKey(s, key, k) == []
  {
    if s != [] {
      WithKeyNone(s[1..], key, k);
    }
  }

  lemma {:induction false} WithKeyInsert<T>(sorted: seq<T>, x: T, key: T -> real, k: real)
    requires SortedDesc(sorted, key)
    ensures WithKey(Insert(sorted, x, key), key, k)
         == WithKey(sorted, key, k) + (if key(x) == k then [x] else [])
  {
    if sorted == [] {
      assert Insert(sorted, x, key) == [x] + [];
      WithKeyCons(x, [], key, k);
    } else if key(sorted[0]) < key(x) {
      WithKeyInsertFront(sorted, x, key, k);
    } else {
      var s0, rest := sorted[0], sorted[1..];
      assert SortedDesc(rest, key) by {
        forall i, j | 0 <= i < j < |rest| ensures key(rest[i]) >= key(rest[j]) {
          assert rest[i] == sorted[i + 1] && rest[j] == sorted[j + 1];
        }
      }
      WithKeyInsert(rest, x, key, k);
      WithKeyInsertAfter(sorted, x, key, k);
    }
  }

  /** The case where `x` goes in front: no element of `sorted` has its key. */
  lemma WithKeyInsertFront<T>(sorted: seq<T>, x: T, key: T -> real, k: real)
    requires SortedDesc(sorted, key) && sorted != [] && key(sorted[0]) < key(x)
    ensures WithKey(Insert(sorted, x, key), key, k)
         == WithKey(sorted, key, k) + (if key(x) == k then [x] else [])
  {
    assert Insert(sorted, x, key) == [x] + sorted;
    WithKeyCons(x, sorted, key, k);
    if key(x) == k {
      forall i | 0 <= i < |sorted| ensures key(sorted[i]) != k {
        assert i == 0 || key(sorted[0]) >= key(sorted[i]);
      }
      WithKeyNone(sorted, key, k);
    }
  }

  /** The case where `x` goes after the head of `sorted`. */
  lemma WithKeyInsertAfter<T>(sorted: seq<T>, x: T, key: T -> real, k: real)
    requires sorted != [] && key(sorted[0]) >= key(x)
    requires WithKey(Insert(sorted[1..], x, key), key, k)
          == WithKey(sorted[1..], key, k) + (if key(x) == k then [x] else [])
    ensures WithKey(Insert(sorted, x, key), key, k)
         == WithKey(sorted, key, k) + (if key(x) == k then [x] else [])
  {
    var ins := Insert(sorted[1..], x, key);
    assert Insert(sorted, x, key) == [sorted[0]] + ins;
    WithKeyCons(sorted[0], ins, key, k);
  }

  /**
   * Stability: for every key value, the elements with that key come out in
   * the order they went in.
   */
  lemma {:induction false} SortDescStable<T>(s: seq<T>, key: T -> real, k: real)
    ensures WithKey(SortDesc(s, key), key, k) == WithKey(s, key, k)
  {
    if s != [] {
      var front, x := s[..|s| - 1], s[|s| - 1];
      assert s == front + [x];
      assert SortDesc(s, key) == Insert(SortDesc(front, key), x, key);
      SortDescStable(front, key, k);
      WithKeyInsert(SortDesc(front, key), x, key, k);
      WithKeyAppend(front, [x], key, k);
      WithKeyCons(x, [], key, k);
      assert [x] + [] == [x];
    }
  }

  lemma {:induction false} WithKeyMember<T>(s: seq<T>, key: T -> real, k: real)
    requires WithKey(s, key, k) != []
    ensures exists i :: 0 <= i < |s| && key(s[i]) == k
  {
    if key(s[0]) != k {
      WithKeyMember(s[1..], key, k);
      var i :| 0 <= i < |s[1..]| && key(s[1..][i]) == k;
      assert key(s[i + 1]) == k;
    }
  }

  lemma WithKeyHead<T>(s: seq<T>, key: T -> real)
    requires s != []
    ensures WithKey(s, key, key(s[0])) != [] && WithKey(s, key, key(s[0]))[0] == s[0]
  {
  }

  /** In a descending sequence the first key is at least every key that occurs. */
  lemma SortedHeadMax<T>(s: seq<T>, key: T -> real, k: real)
    requires SortedDesc(s, key) && WithKey(s, key, k) != []
    ensures s != [] && key(s[0]) >= k
  {
    WithKeyMember(s, key, k);
    var i :| 0 <= i < |s| && key(s[i]) == k;
    assert i == 0 || key(s[0]) >= key(s[i]);
  }

  lemma WithKeyTail<T>(t: seq<T>, r: seq<T>, key: T -> real, k: real)
    requires t != [] && r != [] && t[0] == r[0]
    requires WithKey(t, key, k) == WithKey(r, key, k)
    ensures WithKey(t[1..], key, k) == WithKey(r[1..], key, k)
  {
    var head := if key(t[0]) == k then [t[0]] else [];
    assert WithKey(t, key, k) == head + WithKey(t[1..], key, k);
    assert WithKey(r, key, k) == head + WithKey(r[1..], key, k);
    assert WithKey(t[1..], key, k) == (head + WithKey(t[1..], key, k))[|head|..];
    assert WithKey(r[1..], key, k) == (head + WithKey(r[1..], key, k))[|head|..];
  }

  ghost predicate SameKeyClasses<T>(t: seq<T>, r: seq<T>, key: T -> real) {
    forall k :: WithKey(t, key, k) == WithKey(r, key, k)
  }

  lemma HeadsEqual<T>(t: seq<T>, r: seq<T>, key: T -> real)
    requires SortedDesc(t, key) && SortedDesc(r, key) && SameKeyClasses(t, r, key)
    ensures t == [] <==> r == []
    ensures t != [] ==> t[0] == r[0]
  {
    if t != [] {
      WithKeyHead(t, key);
      assert WithKey(t, key, key(t[0])) == WithKey(r, key, key(t[0]));
      SortedHeadMax(r, key, key(t[0]));
    }
    if r != [] {
      WithKeyHead(r, key);
      assert WithKey(t, key, key(r[0])) == WithKey(r, key, key(r[0]));
      SortedHeadMax(t, key, key(r[0]));
    }
    if t != [] && r != [] {
      assert WithKey(t, key, key(t[0])) == WithKey(r, key, key(t[0]));
    }
  }

  /** Two descending sequences with the same elements per key are equal. */
  lemma {:induction false} SameKeyClassesEqual<T>(t: seq<T>, r: seq<T>, key: T -> real)
    requires SortedDesc(t, key) && SortedDesc(r, key) && SameKeyClasses(t, r, key)
    ensures t == r
  {
    HeadsEqual(t, r, key);
    if t != [] {
      forall k ensures WithKey(t[1..], key, k) == WithKey(r[1..], key, k) {
        WithKeyTail(t, r, key, k);
      }
      SameKeyClassesEqual(t[1..], r[1..], key);
      assert t == [t[0]] + t[1..] && r == [r[0]] + r[1..];
    }
  }

  /**
   * `SortDesc` is the only descending arrangement that keeps every key's
   * elements in input order: any stable descending sort gives this result.
   */
  lemma SortDescUnique<T>(s: seq<T>, t: seq<T>, key: T -> real)
    requires SortedDesc(t, key)
    requires forall k :: WithKey(t, key, k) == WithKey(s, key, k)
    ensures t == SortDesc(s, key)
  {
    forall k ensures WithKey(t, key, k) == WithKey(SortDesc(s, key), key, k) {
      SortDescStable(s, key, k);
    }
    assert SameKeyClasses(t, SortDesc(s, key), key);
    SameKeyClassesEqual(t, SortDesc(s, key), key);
  }
}
