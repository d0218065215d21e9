/** The hash table of all threads (kern/prog/thrhash.c): chains of control blocks,
    one per bucket, that together are a map from thread ids to threads. */
module ThreadHash {
  import opened Collections
  import opened ThreadList

  const HASH_ENTRIES := 1024

  function Bucket(tid: nat): (b: nat)
    ensures b < HASH_ENTRIES
  {
    tid % HASH_ENTRIES
  }

  ghost predicate HashLinked(chain: seq<Thread>, i: nat)
    requires i < |chain|
    reads chain`hashNext, chain`hashPrev
  {
    chain[i].hashNext == At(chain, i + 1) && chain[i].hashPrev == At(chain, i - 1)
  }

  /** A well-formed chain. */
  ghost predicate Chain(chain: seq<Thread>)
    reads chain`hashNext, chain`hashPrev
  {
    NoDuplicates(chain) && forall i :: 0 <= i < |chain| ==> HashLinked(chain, i)
  }

  /** The stores of thrhash_add into the threads. */
  method Prepend(t: Thread, head: Thread?, ghost chain: seq<Thread>)
    requires Chain(chain) && head == At(chain, 0) && t !in chain
    modifies t`hashNext, t`hashPrev, chain`hashPrev
    ensures Chain([t] + chain)
  {
    t.hashPrev := null;
    t.hashNext := head;
    if head != null {
      head.hashPrev := t;
    }
    ghost var longer := [t] + chain;
    forall i | 0 <= i < |longer|
      ensures HashLinked(longer, i)
    {
      assert i > 0 ==> longer[i] == chain[i - 1] && old(HashLinked(chain, i - 1));
    }
  }

  /** The stores of thrhash_remove into the threads, and the new head of the
      chain. */
  method Unchain(t: Thread, head: Thread?, ghost chain: seq<Thread>, ghost k: nat) returns (first: Thread?)
    requires Chain(chain) && head == At(chain, 0) && k < |chain| && chain[k] == t
    modifies chain`hashNext, chain`hashPrev
    ensures Chain(Without(chain, t)) && first == At(Without(chain, t), 0)
  {
    hide Without;
    WithoutPlace(chain, k);
    ghost var shorter := chain[..k] + chain[k + 1..];
    assert HashLinked(chain, k);
    assert k > 0 ==> HashLinked(chain, k - 1);
    assert k + 1 < |chain| ==> HashLinked(chain, k + 1);
    first := head;
    if t.hashPrev != null {
      t.hashPrev.hashNext := t.hashNext;
    } else {
      first := t.hashNext;
    }
    if t.hashNext != null {
      t.hashNext.hashPrev := t.hashPrev;
    }
    t.hashNext := null;
    t.hashPrev := null;
    forall i | 0 <= i < |shorter|
      ensures HashLinked(shorter, i)
    {
      if i < k {
        assert shorter[i] == chain[i] && old(HashLinked(chain, i));
      } else {
        assert shorter[i] == chain[i + 1] && old(HashLinked(chain, i + 1));
      }
    }
  }

  /** The rest of a chain. */
  lemma ChainRest(chain: seq<Thread>, k: nat)
    requires Chain(chain) && k < |chain|
    ensures var rest := Without(chain, chain[k]);
      && |rest| == |chain| - 1
      && (forall i :: 0 <= i < |rest| ==> rest[i] != chain[k] && rest[i] == chain[if i < k then i else i + 1])
      && (forall x :: x in chain && x != chain[k] ==> x in rest)
  {
    WithoutPlace(chain, k);
    WithoutMembers(chain, chain[k]);
  }

  class Table {
    const buckets: array<Thread?>
    /** The chain of each bucket, and the map they make up. */
    ghost var chains: seq<seq<Thread>>
    ghost var entries: map<nat, Thread>

    ghost predicate MapsTo(tid: nat, t: Thread)
      reads this`entries
    {
      tid in entries && entries[tid] == t
    }

    /** The chain of bucket `b` holds threads of that bucket that are in the map. */
    ghost predicate BucketOk(b: nat)
      requires buckets.Length == HASH_ENTRIES && |chains| == HASH_ENTRIES && b < HASH_ENTRIES
      reads this, buckets, entries.Values`hashNext, entries.Values`hashPrev
    {
      && (forall i :: 0 <= i < |chains[b]| ==> MapsTo(chains[b][i].tid, chains[b][i]) && Bucket(chains[b][i].tid) == b)
      && Chain(chains[b])
      && buckets[b] == At(chains[b], 0)
    }

    ghost predicate Valid()
      reads this, buckets, entries.Values`hashNext, entries.Values`hashPrev
    {
      && buckets.Length == HASH_ENTRIES && |chains| == HASH_ENTRIES
      && (forall b :: 0 <= b < HASH_ENTRIES ==> BucketOk(b))
      && (forall tid :: tid in entries ==> entries[tid].tid == tid && entries[tid] in chains[Bucket(tid)])
    }

    constructor ()
      ensures Valid() && entries == map[] && fresh(buckets)
    {
      buckets := new Thread?[HASH_ENTRIES](_ => null);
      chains := seq(HASH_ENTRIES, _ => []);
      entries := map[];
    }

    /** The thread the table has for an argument that may be negative. */
    ghost function Named(tid: int): Option<Thread>
      reads this`entries
    {
      if tid >= 0 && tid in entries then Some(entries[tid]) else None
    }

    /** The thread with this id, null if there is none. */
    method Find(tid: nat) returns (r: Thread?)
      requires Valid()
      ensures r == if tid in entries then entries[tid] else null
    {
      var b := Bucket(tid);
      assert BucketOk(b);
      ghost var chain, k := chains[b], 0;
      r := buckets[b];
      while r != null && r.tid != tid
        invariant 0 <= k <= |chain| && r == At(chain, k)
        invariant forall i :: 0 <= i < k ==> chain[i].tid != tid
        decreases |chain| - k
      {
        assert HashLinked(chain, k);
        r := r.hashNext;
        k := k + 1;
      }
      assert r != null ==> MapsTo(chain[k].tid, chain[k]);
    }

    /** The chains share no thread. */
    lemma BucketsApart(b: nat, c: nat, t: Thread)
      requires Valid() && b < HASH_ENTRIES && c < HASH_ENTRIES && t in chains[b] && t in chains[c]
      ensures b == c
    {
      assert BucketOk(b) && BucketOk(c);
      var i :| 0 <= i < |chains[b]| && chains[b][i] == t;
      var j :| 0 <= j < |chains[c]| && chains[c][j] == t;
      assert Bucket(chains[b][i].tid) == b && Bucket(chains[c][j].tid) == c;
    }

    /** Bucket `c` holds neither `t` nor a thread of bucket `b`. */
    ghost predicate Apart(c: nat, b: nat, t: Thread)
      requires c < |chains| && b < |chains|
      reads this`chains
    {
      forall i :: 0 <= i < |chains[c]| ==> chains[c][i] != t && chains[c][i] !in chains[b]
    }

    lemma OthersApart(b: nat, t: Thread)
      requires Valid() && b < HASH_ENTRIES && (t.tid !in entries || t in chains[b])
      ensures forall c :: 0 <= c < HASH_ENTRIES && c != b ==> Apart(c, b, t)
      ensures t.tid !in entries ==> t !in chains[b]
    {
      forall c | 0 <= c < HASH_ENTRIES && c != b
        ensures Apart(c, b, t)
      {
        assert BucketOk(c);
        forall i | 0 <= i < |chains[c]|
          ensures chains[c][i] != t && chains[c][i] !in chains[b]
        {
          assert MapsTo(chains[c][i].tid, chains[c][i]);
          if chains[c][i] in chains[b] {
            BucketsApart(b, c, chains[c][i]);
          }
        }
      }
      assert BucketOk(b);
      assert t.tid !in entries ==> forall i :: 0 <= i < |chains[b]| ==> MapsTo(chains[b][i].tid, chains[b][i]) && chains[b][i] != t;
    }

    method Add(t: Thread)
      requires Valid() && t.tid !in entries
      modifies this`chains, this`entries, buckets, t`hashNext, t`hashPrev, entries.Values`hashPrev
      ensures Valid() && entries == old(entries)[t.tid := t]
    {
      hide Chain;
      hide Bucket;
      var b := Bucket(t.tid);
      OthersApart(b, t);
      ghost var chain := chains[b];
      assert BucketOk(b);
      assert forall i :: 0 <= i < |chain| ==> chain[i] in entries.Values;
      Prepend(t, buckets[b], chain);
      buckets[b] := t;
      chains := chains[b := [t] + chain];
      entries := entries[t.tid := t];
      forall c | 0 <= c < HASH_ENTRIES
        ensures BucketOk(c)
      {
        assert old(BucketOk(c)) && (c != b ==> old(Apart(c, b, t)));
      }
    }

    /** The table after the stores of thrhash_remove: `t` is in no chain. */
    method Unhook(t: Thread)
      requires Valid() && MapsTo(t.tid, t)
      modifies this`chains, buckets, entries.Values`hashNext, entries.Values`hashPrev
      ensures |chains| == HASH_ENTRIES
      ensures forall c :: 0 <= c < HASH_ENTRIES ==> BucketOk(c)
      ensures chains == old(chains)[Bucket(t.tid) := Without(old(chains)[Bucket(t.tid)], t)]
    {
      hide Chain;
      hide Without;
      var b := Bucket(t.tid);
      OthersApart(b, t);
      ghost var chain := chains[b];
      assert BucketOk(b);
      ghost var k :| 0 <= k < |chain| && chain[k] == t;
      assert forall i :: 0 <= i < |chain| ==> MapsTo(chain[i].tid, chain[i]) && chain[i] in entries.Values;
      ChainRest(chain, k);
      var first := Unchain(t, buckets[b], chain, k);
      buckets[b] := first;
      chains := chains[b := Without(chain, t)];
      forall c | 0 <= c < HASH_ENTRIES
        ensures BucketOk(c)
      {
        assert old(BucketOk(c));
        if c != b {
          assert old(Apart(c, b, t)) && chains[c] == old(chains)[c];
        }
      }
    }

    method Remove(t: Thread)
      requires Valid() && MapsTo(t.tid, t)
      modifies this`chains, this`entries, buckets, entries.Values`hashNext, entries.Values`hashPrev
      ensures Valid() && entries == old(entries) - {t.tid}
    {
      hide Chain;
      hide Without;
      var b := Bucket(t.tid);
      OthersApart(b, t);
      assert BucketOk(b);
      ghost var chain := chains[b];
      ghost var k :| 0 <= k < |chain| && chain[k] == t;
      ChainRest(chain, k);
      Unhook(t);
      forall c, i | 0 <= c < HASH_ENTRIES && 0 <= i < |chains[c]|
        ensures chains[c][i] != t
      {
        assert c != b ==> old(Apart(c, b, t));
      }
      Forget(t);
    }

    ghost method Forget(t: Thread)
      requires buckets.Length == HASH_ENTRIES && |chains| == HASH_ENTRIES && MapsTo(t.tid, t)
      requires forall c :: 0 <= c < HASH_ENTRIES ==> BucketOk(c)
      requires forall c, i :: 0 <= c < HASH_ENTRIES && 0 <= i < |chains[c]| ==> chains[c][i] != t
      requires forall tid :: tid in entries && tid != t.tid ==> entries[tid].tid == tid && entries[tid] in chains[Bucket(tid)]
      modifies this`entries
      ensures Valid() && entries == old(entries) - {t.tid}
    {
      hide Chain;
      entries := entries - {t.tid};
      forall c | 0 <= c < HASH_ENTRIES
        ensures BucketOk(c)
      {
        assert old(BucketOk(c));
        assert forall i :: 0 <= i < |chains[c]| ==> old(MapsTo(chains[c][i].tid, chains[c][i])) && chains[c][i] != t;
      }
    }
  }
}
