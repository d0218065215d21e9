/** Plain facts about options, sequences and sets. */
module Collections {
  datatype Option<+T> = None | Some(value: T)

  predicate NoDuplicates<T(==)>(q: seq<T>) {
    forall i, j :: 0 <= i < j < |q| ==> q[i] != q[j]
  }

  lemma ConcatDistinct<T>(a: seq<T>, b: seq<T>)
    requires NoDuplicates(a) && NoDuplicates(b) && forall x :: x in a ==> x !in b
    ensures NoDuplicates(a + b)
  {
    var c := a + b;
    forall i, j | 0 <= i < j < |c|
      ensures c[i] != c[j]
    {
      if i < |a| <= j {
        assert c[i] in a && c[j] in b;
      }
    }
  }

  /** A queue `l` of what has come, `a` and then `r`, and not left yet, after one more
      turn. */
  lemma QueueMoves<T>(a: seq<T>, r: seq<T>, d: seq<T>, l: seq<T>, come: seq<T>, left: seq<T>, l': seq<T>)
    requires a + r == d + l && l + come == left + l'
    ensures a + (r + come) == (d + left) + l'
  {
    assert a + (r + come) == (a + r) + come == d + (l + come) == (d + left) + l';
  }

  /** The sequence without its first `x`. */
  function Without<T(==)>(s: seq<T>, x: T): seq<T> {
    if s == [] then [] else if s[0] == x then s[1..] else [s[0]] + Without(s[1..], x)
  }

  lemma {:induction false} WithoutAt<T>(a: seq<T>, x: T, b: seq<T>)
    requires x !in a
    ensures Without(a + [x] + b, x) == a + b
  {
    if a != [] {
      WithoutAt(a[1..], x, b);
      assert (a + [x] + b)[1..] == a[1..] + [x] + b;
    }
  }

  lemma WithoutPlace<T>(s: seq<T>, k: nat)
    requires k < |s| && NoDuplicates(s)
    ensures Without(s, s[k]) == s[..k] + s[k + 1..]
  {
    WithoutAt(s[..k], s[k], s[k + 1..]);
    assert s == s[..k] + [s[k]] + s[k + 1..];
  }

  lemma {:induction false} WithoutNone<T>(s: seq<T>, x: T)
    requires x !in s
    ensures Without(s, x) == s
  {
    if s != [] {
      WithoutNone(s[1..], x);
      assert s == [s[0]] + s[1..];
    }
  }

  lemma {:induction false} WithoutSubset<T>(s: seq<T>, x: T)
    ensures forall y :: y in Without(s, x) ==> y in s
  {
    if s != [] {
      WithoutSubset(s[1..], x);
    }
  }

  /** In a sequence without duplicates nothing of `x` is left. */
  lemma {:induction false} WithoutMembers<T>(s: seq<T>, x: T)
    requires NoDuplicates(s)
    ensures NoDuplicates(Without(s, x))
    ensures forall y :: y in Without(s, x) ==> y in s && y != x
    ensures forall y :: y in s && y != x ==> y in Without(s, x)
    ensures |Without(s, x)| == |s| - if x in s then 1 else 0
  {
    if s != [] {
      assert s == [s[0]] + s[1..];
      WithoutMembers(s[1..], x);
      assert s[0] !in s[1..];
    }
  }

  /** Two sets that agree away from `x` differ in size by `x` alone. */
  lemma SizeAfterToggle<T>(before: set<T>, after: set<T>, x: T)
    requires forall m :: m != x ==> (m in before <==> m in after)
    ensures |after| == |before| - (if x in before then 1 else 0) + (if x in after then 1 else 0)
  {
    var rest := before - {x};
    assert rest == after - {x};
    if x in before {
      assert before == rest + {x};
    } else {
      assert before == rest;
    }
    if x in after {
      assert after == rest + {x};
    } else {
      assert after == rest;
    }
  }
}
