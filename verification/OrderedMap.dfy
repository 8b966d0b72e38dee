/**
 The JavaScript Map as the repository uses it: a dictionary that remembers insertion order.
 A value is replaced in place, a new key goes to the end.
 */
module OrderedMap {
  import opened Wrappers

  type Entries<T> = seq<(string, T)>

  function Keys<T>(m: Entries<T>): seq<string> {
    seq(|m|, i requires 0 <= i < |m| => m[i].0)
  }

  function Values<T>(m: Entries<T>): seq<T> {
    seq(|m|, i requires 0 <= i < |m| => m[i].1)
  }

  predicate Has<T>(m: Entries<T>, k: string) {
    exists i :: 0 <= i < |m| && m[i].0 == k
  }

  ghost predicate Distinct<T>(m: Entries<T>) {
    forall i, j :: 0 <= i < j < |m| ==> m[i].0 != m[j].0
  }

  function Get<T>(m: Entries<T>, k: string): Option<T> {
    if m == [] then None
    else if m[0].0 == k then Some(m[0].1)
    else Get(m[1..], k)
  }

  function Set<T>(m: Entries<T>, k: string, v: T): Entries<T> {
    if m == [] then [(k, v)]
    else if m[0].0 == k then [(k, v)] + m[1..]
    else [m[0]] + Set(m[1..], k, v)
  }

  function Delete<T>(m: Entries<T>, k: string): Entries<T> {
    if m == [] then []
    else if m[0].0 == k then m[1..]
    else [m[0]] + Delete(m[1..], k)
  }

  // new Map(pairs): set one after the other.
  function FromPairs<T>(pairs: Entries<T>): Entries<T> {
    if pairs == [] then []
    else
      var last := pairs[|pairs| - 1];
      Set(FromPairs(pairs[..|pairs| - 1]), last.0, last.1)
  }

  lemma {:induction false} GetIffHas<T>(m: Entries<T>, k: string)
    ensures Get(m, k).Some? <==> Has(m, k)
  {
    if m != [] {
      GetIffHas(m[1..], k);
      if Has(m, k) && m[0].0 != k {
        var i :| 0 <= i < |m| && m[i].0 == k;
        assert m[1..][i - 1].0 == k;
      }
      if Has(m[1..], k) {
        var i :| 0 <= i < |m[1..]| && m[1..][i].0 == k;
        assert m[i + 1].0 == k;
      }
    }
  }

  lemma {:induction false} SetKeepsDistinct<T>(m: Entries<T>, k: string, v: T)
    requires Distinct(m)
    ensures Distinct(Set(m, k, v))
    ensures forall q :: Has(Set(m, k, v), q) <==> Has(m, q) || q == k
    ensures |Set(m, k, v)| == if Has(m, k) then |m| else |m| + 1
  {
    if m == [] {
      assert Set(m, k, v)[0].0 == k;
    } else {
      Decompose(m);
      if m[0].0 == k {
        Decompose(Set(m, k, v));
      } else {
        SetKeepsDistinct(m[1..], k, v);
        Decompose(Set(m, k, v));
        assert Set(m, k, v)[1..] == Set(m[1..], k, v);
        Prepend(m[0], Set(m[1..], k, v));
      }
    }
  }

  lemma {:induction false} DeleteKeepsDistinct<T>(m: Entries<T>, k: string)
    requires Distinct(m)
    ensures Distinct(Delete(m, k))
    ensures forall q :: Has(Delete(m, k), q) <==> Has(m, q) && q != k
    ensures |Delete(m, k)| == if Has(m, k) then |m| - 1 else |m|
  {
    if m != [] {
      Decompose(m);
      if m[0].0 != k {
        DeleteKeepsDistinct(m[1..], k);
        assert Delete(m, k)[1..] == Delete(m[1..], k);
        Prepend(m[0], Delete(m[1..], k));
        Decompose(Delete(m, k));
      }
    }
  }

  lemma Decompose<T>(m: Entries<T>)
    requires m != []
    ensures forall q :: Has(m, q) <==> q == m[0].0 || Has(m[1..], q)
    ensures Distinct(m) ==> Distinct(m[1..]) && !Has(m[1..], m[0].0)
  {
    forall q ensures Has(m, q) <==> q == m[0].0 || Has(m[1..], q) {
      GetIffHas(m, q);
      GetIffHas(m[1..], q);
    }
  }

  lemma Prepend<T>(e: (string, T), m: Entries<T>)
    requires Distinct(m) && !Has(m, e.0)
    ensures Distinct([e] + m)
  {
    forall i, j | 0 <= i < j < |[e] + m| ensures ([e] + m)[i].0 != ([e] + m)[j].0 {
      assert m[j - 1].0 == ([e] + m)[j].0;
    }
  }

  // Building the map keeps the pairs as they are exactly when their keys are distinct, and
  // loses some otherwise.
  lemma {:induction false} FromDistinctPairs<T>(pairs: Entries<T>)
    ensures Distinct(FromPairs(pairs))
    ensures |FromPairs(pairs)| <= |pairs|
    ensures Distinct(pairs) <==> |FromPairs(pairs)| == |pairs|
    ensures Distinct(pairs) ==> FromPairs(pairs) == pairs
    ensures forall q :: Has(FromPairs(pairs), q) <==> Has(pairs, q)
  {
    if pairs != [] {
      var front, last := pairs[..|pairs| - 1], pairs[|pairs| - 1];
      FromDistinctPairs(front);
      SetKeepsDistinct(FromPairs(front), last.0, last.1);
      LastDecompose(pairs);
      if Distinct(pairs) {
        SetAppends(front, last.0, last.1);
        assert front + [last] == pairs;
      }
    }
  }

  lemma LastDecompose<T>(m: Entries<T>)
    requires m != []
    ensures var front, k := m[..|m| - 1], m[|m| - 1].0;
            && (forall q :: Has(m, q) <==> Has(front, q) || q == k)
            && (Distinct(m) <==> Distinct(front) && !Has(front, k))
  {
    var front, k := m[..|m| - 1], m[|m| - 1].0;
    forall q ensures Has(m, q) <==> Has(front, q) || q == k {
      if Has(front, q) {
        var i :| 0 <= i < |front| && front[i].0 == q;
        assert m[i].0 == q;
      }
      if q == k {
        assert m[|m| - 1].0 == q;
      }
      if Has(m, q) && q != k {
        var i :| 0 <= i < |m| && m[i].0 == q;
        assert front[i].0 == q;
      }
    }
    if Distinct(m) {
      assert forall i :: 0 <= i < |front| ==> front[i].0 == m[i].0;
    }
    if Distinct(front) && !Has(front, k) {
      forall i, j | 0 <= i < j < |m| ensures m[i].0 != m[j].0 {
        assert front[i].0 == m[i].0;
        if j < |front| {
          assert front[j].0 == m[j].0;
        }
      }
    }
  }

  lemma {:induction false} SetAppends<T>(m: Entries<T>, k: string, v: T)
    requires !Has(m, k)
    ensures Set(m, k, v) == m + [(k, v)]
  {
    if m != [] {
      assert m[0].0 != k;
      Decompose(m);
      SetAppends(m[1..], k, v);
      assert m == [m[0]] + m[1..];
    }
  }
}
