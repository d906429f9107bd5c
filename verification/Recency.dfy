/** Duplicate-free recency queues: front is the most recently used element. */
module Recency {
  import opened Common

  function Elements<T>(q: seq<T>): set<T> { set x | x in q }

  /** `retain(|x| x != k)` */
  function Without<T(==,!new)>(q: seq<T>, k: T): (r: seq<T>)
    ensures forall x :: x in r <==> x in q && x != k
    ensures |r| <= |q|
  {
    if q == [] then []
    else if q[0] == k then Without(q[1..], k)
    else [q[0]] + Without(q[1..], k)
  }

  /** Move to the front, inserting if absent. */
  function Touch<T(==,!new)>(q: seq<T>, k: T): seq<T> { [k] + Without(q, k) }

  /** The elements of `q` that lie in `ks`, in order. */
  function Keep<T(==,!new)>(q: seq<T>, ks: set<T>): (r: seq<T>)
    ensures forall x :: x in r <==> x in q && x in ks
  {
    if q == [] then []
    else if q[0] in ks then [q[0]] + Keep(q[1..], ks)
    else Keep(q[1..], ks)
  }

  function Take<T>(q: seq<T>, n: nat): seq<T> { if |q| <= n then q else q[..n] }

  lemma DistinctTail<T>(q: seq<T>)
    requires Distinct(q) && q != []
    ensures Distinct(q[1..]) && q[0] !in q[1..]
  {
  }

  lemma DistinctCons<T>(x: T, q: seq<T>)
    requires Distinct(q) && x !in q
    ensures Distinct([x] + q)
  {
  }

  lemma {:induction false} DistinctWithout<T(!new)>(q: seq<T>, k: T)
    requires Distinct(q)
    ensures Distinct(Without(q, k))
    ensures |Without(q, k)| == if k in q then |q| - 1 else |q|
  {
    if q != [] {
      DistinctTail(q);
      DistinctWithout(q[1..], k);
      if q[0] == k {
        WithoutAbsent(q[1..], k);
      } else {
        DistinctCons(q[0], Without(q[1..], k));
      }
    }
  }

  lemma {:induction false} WithoutAbsent<T(!new)>(q: seq<T>, k: T)
    requires k !in q
    ensures Without(q, k) == q
  {
    if q != [] {
      WithoutAbsent(q[1..], k);
    }
  }

  lemma DistinctTouch<T(!new)>(q: seq<T>, k: T)
    requires Distinct(q)
    ensures Distinct(Touch(q, k))
    ensures |Touch(q, k)| == if k in q then |q| else |q| + 1
    ensures Elements(Touch(q, k)) == Elements(q) + {k}
  {
    DistinctWithout(q, k);
    DistinctCons(k, Without(q, k));
  }

  lemma {:induction false} WithoutSplit<T(!new)>(a: seq<T>, b: seq<T>, k: T)
    ensures Without(a + b, k) == Without(a, k) + Without(b, k)
  {
    if a == [] {
      assert a + b == b;
    } else {
      assert (a + b)[1..] == a[1..] + b;
      WithoutSplit(a[1..], b, k);
    }
  }

  lemma {:induction false} ElementsSize<T>(q: seq<T>)
    requires Distinct(q)
    ensures |Elements(q)| == |q|
  {
    if q != [] {
      DistinctTail(q);
      ElementsSize(q[1..]);
      assert Elements(q) == {q[0]} + Elements(q[1..]);
    }
  }

  /** Cutting to `n` before or after a touch gives the same first `n`. */
  lemma TakeTouch<T(!new)>(q: seq<T>, k: T, n: nat)
    requires Distinct(q) && n > 0
    ensures Take(Touch(Take(q, n), k), n) == Take(Touch(q, k), n)
  {
    if |q| > n {
      var a, b := q[..n], q[n..];
      assert q == a + b;
      WithoutSplit(a, b, k);
      DistinctWithout(a, k);
      if k !in a {
        WithoutAbsent(a, k);
      }
    }
  }

  lemma {:induction false} KeepSplit<T(!new)>(a: seq<T>, b: seq<T>, ks: set<T>)
    ensures Keep(a + b, ks) == Keep(a, ks) + Keep(b, ks)
  {
    if a == [] {
      assert a + b == b;
    } else {
      assert (a + b)[1..] == a[1..] + b;
      KeepSplit(a[1..], b, ks);
    }
  }

  lemma KeepLast<T(!new)>(a: seq<T>, z: T, ks: set<T>)
    ensures Keep(a + [z], ks) == Keep(a, ks) + if z in ks then [z] else []
  {
    KeepSplit(a, [z], ks);
    assert [z][1..] == [];
  }

  lemma {:induction false} KeepWithout<T(!new)>(q: seq<T>, ks: set<T>, k: T)
    ensures Keep(Without(q, k), ks) == Without(Keep(q, ks), k) == Keep(q, ks - {k})
  {
    if q != [] {
      KeepWithout(q[1..], ks, k);
    }
  }

  lemma {:induction false} KeepSame<T(!new)>(q: seq<T>, ks: set<T>, ks': set<T>)
    requires forall x :: x in q ==> (x in ks <==> x in ks')
    ensures Keep(q, ks) == Keep(q, ks')
  {
    if q != [] {
      KeepSame(q[1..], ks, ks');
    }
  }

  /** A queue that is the part of another lying in `ks` stays so when both are touched. */
  lemma KeepTouch<T(!new)>(q: seq<T>, ks: set<T>, k: T)
    ensures Keep(Touch(q, k), ks + {k}) == Touch(Keep(q, ks), k)
  {
    var t := Touch(q, k);
    assert t[1..] == Without(q, k);
    assert Keep(t, ks + {k}) == [k] + Keep(Without(q, k), ks + {k});
    KeepSame(Without(q, k), ks + {k}, ks);
    KeepWithout(q, ks, k);
  }

  lemma DropLast<T(!new)>(a: seq<T>, z: T)
    requires z !in a
    ensures Without(a + [z], z) == a
  {
    WithoutSplit(a, [z], z);
    WithoutAbsent(a, z);
    assert [z][1..] == [];
  }

  lemma DistinctLast<T>(q: seq<T>)
    requires Distinct(q) && q != []
    ensures q[|q| - 1] !in q[..|q| - 1]
  {
    var z, a := q[|q| - 1], q[..|q| - 1];
    forall i | 0 <= i < |a| ensures a[i] != z {
      assert a[i] == q[i];
    }
  }

  lemma WithoutLast<T(!new)>(q: seq<T>)
    requires Distinct(q) && q != []
    ensures Without(q, q[|q| - 1]) == q[..|q| - 1]
  {
    DistinctLast(q);
    DropLast(q[..|q| - 1], q[|q| - 1]);
    assert q == q[..|q| - 1] + [q[|q| - 1]];
  }

  // ---------- Orders ----------

  /** Strictly decreasing in `rank` from front to back. */
  ghost predicate Descending<T(!new)>(q: seq<T>, rank: T -> int) {
    forall i, j :: 0 <= i < j < |q| ==> rank(q[i]) > rank(q[j])
  }

  lemma {:induction false} DescendingWithout<T(!new)>(q: seq<T>, k: T, rank: T -> int)
    requires Descending(q, rank)
    ensures Descending(Without(q, k), rank)
  {
    if q != [] {
      DescendingWithout(q[1..], k, rank);
      var r := Without(q[1..], k);
      forall j | 0 <= j < |r| ensures rank(q[0]) > rank(r[j]) {
        assert r[j] in q[1..];
        var i :| 0 <= i < |q[1..]| && q[1..][i] == r[j];
        assert q[1..][i] == q[i + 1];
      }
    }
  }

  lemma DescendingTouch<T(!new)>(q: seq<T>, k: T, rank: T -> int, rank': T -> int)
    requires Descending(q, rank)
    requires forall x :: x in q && x != k ==> rank'(x) == rank(x) && rank'(k) > rank(x)
    ensures Descending(Touch(q, k), rank')
  {
    DescendingWithout(q, k, rank);
    var r := Without(q, k);
    forall i, j | 0 <= i < j < |Touch(q, k)|
      ensures rank'(Touch(q, k)[i]) > rank'(Touch(q, k)[j])
    {
      assert Touch(q, k)[j] == r[j - 1] && r[j - 1] in r;
      if i > 0 {
        assert Touch(q, k)[i] == r[i - 1] && r[i - 1] in r;
      }
    }
  }
}
