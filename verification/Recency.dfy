/** The recency list behind every bounded cache of the gateway. The LRU library
    itself is not part of this model; this is what its Add, Get, Remove and
    GetOldest do to the order of the keys and to the stored values. */
module Recency {
  import opened Options

  ghost predicate Distinct<T>(q: seq<T>) {
    forall i, j :: 0 <= i < j < |q| ==> q[i] != q[j]
  }

  /** The list with every occurrence of `k` taken out. */
  function Without<T(==)>(q: seq<T>, k: T): seq<T> {
    if q == [] then []
    else if q[0] == k then Without(q[1..], k)
    else [q[0]] + Without(q[1..], k)
  }

  /** Makes `k` the most recent key (the last one); a list longer than the
      capacity loses its oldest key (the first one). */
  function Touch<T(==)>(q: seq<T>, k: T, cap: nat): seq<T> {
    var r := Without(q, k) + [k];
    if |r| > cap then r[1..] else r
  }

  lemma {:induction false} WithoutFacts<T>(q: seq<T>, k: T)
    ensures forall x :: x in Without(q, k) <==> x in q && x != k
    ensures |Without(q, k)| <= |q|
    ensures k in q ==> |Without(q, k)| < |q|
    ensures k !in q ==> Without(q, k) == q
    ensures Distinct(q) ==> Distinct(Without(q, k))
    ensures Distinct(q) && k in q ==> |Without(q, k)| == |q| - 1
  {
    if q != [] {
      WithoutFacts(q[1..], k);
      var w := Without(q[1..], k);
      assert q == [q[0]] + q[1..];
      if Distinct(q) {
        assert Distinct(q[1..]);
        assert forall i :: 0 <= i < |q[1..]| ==> q[1..][i] == q[i + 1];
        assert forall i :: 0 <= i < |w| ==> w[i] in w;
      }
    }
  }

  /** Touching keeps the list duplicate-free and within capacity, holds `k`,
      and drops at most the oldest key: exactly when `k` is new and the list
      was full. */
  lemma TouchFacts<T>(q: seq<T>, k: T, cap: nat)
    requires Distinct(q) && |q| <= cap && cap > 0
    ensures Distinct(Touch(q, k, cap)) && |Touch(q, k, cap)| <= cap
    ensures k in Touch(q, k, cap)
    ensures forall x :: x in Touch(q, k, cap) ==> x == k || x in q
    ensures k in q || |q| < cap ==>
              forall x :: x in q ==> x in Touch(q, k, cap)
    ensures k !in q && |q| == cap ==>
              forall x :: x in Touch(q, k, cap) <==> x == k || (x in q && x != q[0])
  {
    WithoutFacts(q, k);
    var r := Without(q, k) + [k];
    assert forall i :: 0 <= i < |r| - 1 ==> r[i] in Without(q, k);
    assert Distinct(r);
    assert r[|r| - 1] == k;
    if |r| > cap {
      assert q == [q[0]] + q[1..];
      assert r[1..] == q[1..] + [k];
      assert forall i :: 0 <= i < |q[1..]| ==> q[1..][i] == q[i + 1];
    }
  }

  /** `r` is `q` after its key `k` has been used: `k` comes last, whether it was there or is
      new, and the others keep their order; a full list loses its oldest key to a new one. */
  ghost predicate UsedLast<T>(q: seq<T>, r: seq<T>, k: T, cap: nat) {
    && (k !in q ==> r == (if |q| < cap || q == [] then q else q[1..]) + [k])
    && (forall i :: 0 <= i < |q| && q[i] == k ==> r == q[..i] + q[i + 1..] + [k])
  }

  lemma {:induction false} WithoutOne<T>(q: seq<T>, i: nat)
    requires Distinct(q) && i < |q|
    ensures Without(q, q[i]) == q[..i] + q[i + 1..]
  {
    if i == 0 {
      assert q[0] !in q[1..];
      WithoutFacts(q[1..], q[0]);
    } else {
      WithoutOne(q[1..], i - 1);
      assert q[..i] + q[i + 1..] == [q[0]] + (q[1..][..i - 1] + q[1..][i..]);
    }
  }

  lemma TouchUses<T>(q: seq<T>, k: T, cap: nat)
    requires Distinct(q) && |q| <= cap && cap > 0
    ensures UsedLast(q, Touch(q, k, cap), k, cap)
  {
    WithoutFacts(q, k);
    if k in q {
      var i :| 0 <= i < |q| && q[i] == k;
      WithoutOne(q, i);
      assert forall m :: 0 <= m < |q| && q[m] == k ==> m == i;
    } else if |q| == cap {
      assert (q + [k])[1..] == q[1..] + [k];
    }
  }

  lemma DistinctConcat<T>(a: seq<T>, b: seq<T>)
    requires Distinct(a) && Distinct(b) && forall x :: x in a ==> x !in b
    ensures Distinct(a + b)
  {
    forall i, k | 0 <= i < k < |a + b|
      ensures (a + b)[i] != (a + b)[k]
    {
      if i < |a| <= k {
        assert a[i] in a && b[k - |a|] in b;
      }
    }
  }

  /** A bounded cache from strings to values, oldest key first. */
  datatype Lru<V> = Lru(keys: seq<string>, vals: map<string, V>, cap: nat) {

    ghost predicate Valid() {
      && cap > 0 && |keys| <= cap && Distinct(keys)
      && (forall k :: k in keys <==> k in vals)
    }

    /** The key that adding `k` would push out. */
    function Victim(k: string): Option<string> {
      if k !in vals && |keys| >= cap && keys != [] then Some(keys[0]) else None
    }

    /** Inserts or overwrites; the new key becomes the most recent one. */
    function Add(k: string, v: V): Lru<V> {
      var kept := if Victim(k).Some? then vals - {Victim(k).value} else vals;
      Lru(Touch(keys, k, cap), kept[k := v], cap)
    }

    /** What a lookup does to the order: a hit becomes the most recent key. */
    function Promote(k: string): Lru<V> {
      if k in vals then Lru(Touch(keys, k, cap), vals, cap) else this
    }

    function Remove(k: string): Lru<V> {
      Lru(Without(keys, k), vals - {k}, cap)
    }

    /** Every operation keeps the list and the values in step. */
    lemma AddStays(k: string, v: V)
      requires Valid()
      ensures Add(k, v).Valid()
      ensures Victim(k).Some? ==> Victim(k).value in vals && Victim(k).value != k
    {
      TouchFacts(keys, k, cap);
      if Victim(k).Some? {
        assert keys[0] in keys;
      }
    }

    lemma PromoteStays(k: string)
      requires Valid()
      ensures Promote(k).Valid() && Promote(k).vals == vals && Promote(k).cap == cap
    {
      TouchFacts(keys, k, cap);
    }

    lemma RemoveStays(k: string)
      requires Valid()
      ensures Remove(k).Valid()
    {
      WithoutFacts(keys, k);
    }

    /** Adding makes the key the most recent one and costs at most the oldest other key,
        when a new key finds the list full; a lookup only moves the key it finds. */
    lemma AddLaw(k: string, v: V)
      requires Valid()
      ensures UsedLast(keys, Add(k, v).keys, k, cap)
      ensures Add(k, v).vals == (if k in keys || |keys| < cap then vals else vals - {keys[0]})[k := v]
      ensures if k in keys then Promote(k).vals == vals && UsedLast(keys, Promote(k).keys, k, cap)
              else Promote(k) == this
    {
      hide UsedLast, Touch, Distinct;
      TouchUses(keys, k, cap);
    }

    /** Removing takes out that key alone. */
    lemma RemoveLaw(k: string)
      requires Valid()
      ensures Remove(k).vals == vals - {k}
      ensures k !in keys ==> Remove(k).keys == keys
      ensures forall i :: 0 <= i < |keys| && keys[i] == k ==> Remove(k).keys == keys[..i] + keys[i + 1..]
    {
      WithoutFacts(keys, k);
      forall i | 0 <= i < |keys| && keys[i] == k
        ensures Without(keys, k) == keys[..i] + keys[i + 1..]
      {
        WithoutOne(keys, i);
      }
      hide Without;
    }
  }
}
