/** Option, Result, 64-bit integers and the little of bbolt the stores rely on. */
module Common {

  datatype Option<+T> = None | Some(value: T)

  datatype Result<+T, +E> = Ok(value: T) | Err(error: E)

  const INT64_MIN: int := -0x8000_0000_0000_0000
  const INT64_MAX: int := 0x7fff_ffff_ffff_ffff
  const TWO_64: int := 0x1_0000_0000_0000_0000

  type Int64 = x: int | INT64_MIN <= x <= INT64_MAX
  type UInt64 = x: int | 0 <= x < TWO_64

  /** int64 subtraction with wrap-around. */
  function Sub64(a: Int64, b: Int64): Int64 {
    var d := a - b;
    if d > INT64_MAX then d - TWO_64 else if d < INT64_MIN then d + TWO_64 else d
  }

  /** uint64 subtraction with wrap-around. */
  function USub64(a: UInt64, b: UInt64): UInt64 {
    if a >= b then a - b else a - b + TWO_64
  }

  /** uint64 increment with wrap-around. */
  function UInc64(a: UInt64): UInt64 {
    if a + 1 == TWO_64 then 0 else a + 1
  }

  /** The number of bytes a bucket holds: the sum of the sizes of its values. */
  ghost function Total<K(!new), V>(bucket: map<K, V>, size: V -> nat): nat
    decreases |bucket|
  {
    if bucket == map[] then 0
    else
      var k :| k in bucket;
      size(bucket[k]) + Total(bucket - {k}, size)
  }

  lemma {:induction false} TotalRemove<K(!new), V>(bucket: map<K, V>, k: K, size: V -> nat)
    requires k in bucket
    ensures Total(bucket, size) == size(bucket[k]) + Total(bucket - {k}, size)
    decreases |bucket|
  {
    var j :| j in bucket && Total(bucket, size) == size(bucket[j]) + Total(bucket - {j}, size);
    if j != k {
      TotalRemove(bucket - {j}, k, size);
      TotalRemove(bucket - {k}, j, size);
      assert bucket - {j} - {k} == bucket - {k} - {j};
    }
  }

  lemma TotalPut<K(!new), V>(bucket: map<K, V>, k: K, v: V, size: V -> nat)
    ensures Total(bucket[k := v], size) == size(v) + Total(bucket - {k}, size)
    ensures k in bucket ==> Total(bucket[k := v], size) == Total(bucket, size) - size(bucket[k]) + size(v)
    ensures k !in bucket ==> Total(bucket[k := v], size) == Total(bucket, size) + size(v)
  {
    TotalRemove(bucket[k := v], k, size);
    assert bucket[k := v] - {k} == bucket - {k};
    if k in bucket {
      TotalRemove(bucket, k, size);
    } else {
      assert bucket - {k} == bucket;
    }
  }

  /** A part of a bucket holds no more bytes than the bucket. */
  lemma TotalOfPart<K(!new), V>(bucket: map<K, V>, kept: map<K, V>, size: V -> nat)
    requires kept.Keys <= bucket.Keys && forall k :: k in kept ==> kept[k] == bucket[k]
    ensures Total(kept, size) <= Total(bucket, size)
  {
    TotalWithin(bucket, bucket.Keys - kept.Keys, size);
    assert kept == bucket - (bucket.Keys - kept.Keys);
  }

  lemma {:induction false} TotalWithin<K(!new), V>(bucket: map<K, V>, removed: set<K>, size: V -> nat)
    ensures Total(bucket - removed, size) <= Total(bucket, size)
    decreases |removed|
  {
    if removed != {} {
      var k :| k in removed;
      TotalWithin(bucket, removed - {k}, size);
      var rest := bucket - (removed - {k});
      if k in rest {
        TotalRemove(rest, k, size);
        assert rest - {k} == bucket - removed;
      } else {
        assert rest == bucket - removed;
      }
    } else {
      assert bucket - removed == bucket;
    }
  }

  lemma CountPut<K(!new), V>(bucket: map<K, V>, k: K, v: V)
    ensures |bucket[k := v]| == |bucket| + if k in bucket then 0 else 1
  {
    assert bucket[k := v].Keys == bucket.Keys + {k};
    assert |bucket[k := v].Keys| == |bucket[k := v]| && |bucket.Keys| == |bucket|;
  }

  lemma CountWithin<K(!new), V>(bucket: map<K, V>, kept: map<K, V>)
    requires kept.Keys <= bucket.Keys
    ensures |kept| <= |bucket|
  {
    var gone := bucket.Keys - kept.Keys;
    assert kept.Keys + gone == bucket.Keys;
    assert |kept.Keys| == |kept| && |bucket.Keys| == |bucket|;
  }

  lemma {:induction false} Least(keys: set<nat>) returns (m: nat)
    requires keys != {}
    ensures m in keys && forall j :: j in keys ==> m <= j
    decreases |keys|
  {
    m :| m in keys;
    var rest := keys - {m};
    if rest != {} {
      var n := Least(rest);
      assert forall j :: j in keys ==> j == m || j in rest;
      if n < m {
        m := n;
      }
    } else {
      assert forall j :: j in keys ==> j == m || j in rest;
    }
  }

  /** A bbolt cursor's Seek over big-endian uint64 keys: the first key not below `from`. */
  method Seek<V>(bucket: map<nat, V>, from: nat) returns (key: Option<nat>)
    ensures key.None? <==> forall j :: j in bucket ==> j < from
    ensures key.Some? ==> key.value in bucket && from <= key.value && forall j :: j in bucket && from <= j ==>
              key.value <= j
  {
    var above := set j | j in bucket.Keys && from <= j;
    if above == {} {
      assert forall j :: j in bucket ==> j in above || j < from;
      return None;
    }
    ghost var least := Least(above);
    var m :| m in above && forall j :: j in above ==> m <= j;
    assert forall j :: j in bucket && from <= j ==> j in above;
    return Some(m);
  }

  /** The entries of a queue above an acknowledged key. */
  function Above<V>(bucket: map<nat, V>, through: nat): (rest: map<nat, V>)
    ensures forall n :: n in rest <==> n in bucket && through < n
    ensures forall n :: n in rest ==> rest[n] == bucket[n]
  {
    map n | n in bucket && through < n :: bucket[n]
  }

  /** The loop of both Acks: delete from the first key on, as long as keys are not above `through`. */
  method DeleteThrough<V>(bucket: map<nat, V>, through: nat) returns (rest: map<nat, V>)
    ensures rest == Above(bucket, through)
  {
    rest := bucket;
    var key := Seek(rest, 0);
    while key.Some? && key.value <= through
      invariant forall j :: j in rest ==> j in bucket && rest[j] == bucket[j]
      invariant forall j :: j in bucket && j !in rest ==> j <= through
      invariant key.None? ==> rest == map[]
      invariant key.Some? ==> key.value in rest && forall j :: j in rest ==> key.value <= j
      decreases |rest|
    {
      rest := rest - {key.value};
      key := Seek(rest, key.value + 1);
      assert key.None? ==> rest.Keys == {};
    }
  }
}
