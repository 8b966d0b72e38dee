/**
 Array.prototype.sort with a comparator of the form key(b) - key(a): descending, and stable,
 so that elements with equal keys stay in their order.
 */
module StableSort {

  function Insert<T>(key: T -> int, x: T, ys: seq<T>): seq<T> {
    if ys == [] || key(x) >= key(ys[0]) then [x] + ys else [ys[0]] + Insert(key, x, ys[1..])
  }

  function SortDesc<T>(key: T -> int, xs: seq<T>): seq<T> {
    if xs == [] then [] else Insert(key, xs[0], SortDesc(key, xs[1..]))
  }

  predicate Descending<T>(key: T -> int, xs: seq<T>) {
    forall i, j :: 0 <= i < j < |xs| ==> key(xs[i]) >= key(xs[j])
  }

  // The elements with key k, in order.
  function WithKey<T>(key: T -> int, k: int, xs: seq<T>): seq<T> {
    if xs == [] then []
    else (if key(xs[0]) == k then [xs[0]] else []) + WithKey(key, k, xs[1..])
  }

  lemma {:induction false} InsertKeepsAll<T>(key: T -> int, x: T, ys: seq<T>)
    ensures multiset(Insert(key, x, ys)) == multiset{x} + multiset(ys)
  {
    if !(ys == [] || key(x) >= key(ys[0])) {
      InsertKeepsAll(key, x, ys[1..]);
      assert ys == [ys[0]] + ys[1..];
    }
  }

  lemma {:induction false} InsertKeepsOrder<T>(key: T -> int, x: T, ys: seq<T>)
    requires Descending(key, ys)
    ensures Descending(key, Insert(key, x, ys))
  {
    if !(ys == [] || key(x) >= key(ys[0])) {
      var rest := Insert(key, x, ys[1..]);
      InsertKeepsOrder(key, x, ys[1..]);
      InsertKeepsAll(key, x, ys[1..]);
      forall z | z in rest ensures key(ys[0]) >= key(z) {
        assert z in multiset(rest);
        assert z == x || z in ys[1..];
      }
    }
  }

  lemma {:induction false} InsertIsStable<T>(key: T -> int, x: T, ys: seq<T>, k: int)
    requires Descending(key, ys)
    ensures WithKey(key, k, Insert(key, x, ys)) == WithKey(key, k, [x] + ys)
  {
    assert ([x] + ys)[1..] == ys;
    if !(ys == [] || key(x) >= key(ys[0])) {
      var rest := Insert(key, x, ys[1..]);
      InsertIsStable(key, x, ys[1..], k);
      assert ([x] + ys[1..])[1..] == ys[1..];
      assert ([ys[0]] + rest)[1..] == rest;
    }
  }

  // Sorting puts the elements in descending order, keeps all of them, and keeps the order of
  // those with equal keys.
  lemma {:induction false} SortMeaning<T>(key: T -> int, xs: seq<T>, k: int)
    ensures Descending(key, SortDesc(key, xs))
    ensures multiset(SortDesc(key, xs)) == multiset(xs)
    ensures WithKey(key, k, SortDesc(key, xs)) == WithKey(key, k, xs)
  {
    if xs != [] {
      SortMeaning(key, xs[1..], k);
      var rest := SortDesc(key, xs[1..]);
      InsertKeepsAll(key, xs[0], rest);
      InsertKeepsOrder(key, xs[0], rest);
      InsertIsStable(key, xs[0], rest, k);
      assert ([xs[0]] + rest)[1..] == rest;
      assert xs == [xs[0]] + xs[1..];
    }
  }

  lemma SortLength<T>(key: T -> int, xs: seq<T>)
    ensures |SortDesc(key, xs)| == |xs|
  {
    SortMeaning(key, xs, 0);
    assert |multiset(SortDesc(key, xs))| == |multiset(xs)|;
  }

  lemma {:induction false} WithKeyMembers<T>(key: T -> int, k: int, xs: seq<T>)
    ensures forall x :: x in WithKey(key, k, xs) <==> x in xs && key(x) == k
  {
    if xs != [] {
      WithKeyMembers(key, k, xs[1..]);
      assert xs == [xs[0]] + xs[1..];
    }
  }

  // Those properties leave only one result: two descending sequences that agree on the
  // elements of every key, in order, are the same.
  lemma {:induction false} SortIsDetermined<T>(key: T -> int, xs: seq<T>, ys: seq<T>)
    requires Descending(key, xs) && Descending(key, ys)
    requires forall k :: WithKey(key, k, xs) == WithKey(key, k, ys)
    ensures xs == ys
    decreases |xs| + |ys|
  {
    if xs == [] || ys == [] {
      var k := if xs != [] then key(xs[0]) else if ys != [] then key(ys[0]) else 0;
      assert WithKey(key, k, xs) == WithKey(key, k, ys);
    } else {
      var x, y := xs[0], ys[0];
      WithKeyMembers(key, key(x), xs);
      WithKeyMembers(key, key(x), ys);
      WithKeyMembers(key, key(y), xs);
      WithKeyMembers(key, key(y), ys);
      assert WithKey(key, key(x), xs) == WithKey(key, key(x), ys);
      assert WithKey(key, key(y), xs) == WithKey(key, key(y), ys);
      assert x in ys && y in xs;
      assert key(x) == key(y);
      assert WithKey(key, key(x), xs)[0] == x && WithKey(key, key(x), ys)[0] == y;
      forall k ensures WithKey(key, k, xs[1..]) == WithKey(key, k, ys[1..]) {
        var skip := if key(x) == k then 1 else 0;
        assert WithKey(key, k, xs)[skip..] == WithKey(key, k, xs[1..]);
        assert WithKey(key, k, ys)[skip..] == WithKey(key, k, ys[1..]);
      }
      SortIsDetermined(key, xs[1..], ys[1..]);
      assert xs == [x] + xs[1..] && ys == [y] + ys[1..];
    }
  }
}
