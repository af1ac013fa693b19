/** The language manager's message cache: an access-ordered `LinkedHashMap`
    whose `removeEldestEntry` drops the eldest entry once the size passes
    `CACHE_SIZE`. The entries are kept as a sequence, least recently accessed
    first; a lookup that hits and every `put` move the entry to the end. */
module LruCache {
  import opened Wrappers

  const CACHE_SIZE: nat := 100

  ghost predicate DistinctKeys<K, V>(es: seq<(K, V)>) {
    forall i, j | 0 <= i < j < |es| :: es[i].0 != es[j].0
  }

  /** The value stored under `k`. */
  function Find<K(==), V>(es: seq<(K, V)>, k: K): (r: Option<V>)
    ensures r.None? <==> forall i | 0 <= i < |es| :: es[i].0 != k
    ensures r.Some? ==> (k, r.value) in es
  {
    if es == [] then None else if es[0].0 == k then Some(es[0].1) else Find(es[1..], k)
  }

  /** In a map with distinct keys, each entry is what its key finds. */
  lemma {:induction false} FindAt<K, V>(es: seq<(K, V)>, i: nat)
    requires DistinctKeys(es) && i < |es|
    ensures Find(es, es[i].0) == Some(es[i].1)
  {
    if i > 0 {
      FindAt(es[1..], i - 1);
    }
  }

  /** The entries without the one stored under `k`, in the same order. */
  function Without<K(==), V>(es: seq<(K, V)>, k: K): (r: seq<(K, V)>)
    ensures forall i | 0 <= i < |r| :: r[i] in es && r[i].0 != k
    ensures forall i | 0 <= i < |es| && es[i].0 != k :: es[i] in r
    ensures |r| <= |es|
    ensures (forall i | 0 <= i < |es| :: es[i].0 != k) ==> r == es
  {
    if es == [] then []
    else if es[0].0 == k then Without(es[1..], k)
    else [es[0]] + Without(es[1..], k)
  }

  /** Removal keeps keys distinct and, when the key is present, drops exactly one entry. */
  lemma {:induction false} WithoutDistinct<K, V>(es: seq<(K, V)>, k: K)
    requires DistinctKeys(es)
    ensures DistinctKeys(Without(es, k))
    ensures Find(es, k).Some? ==> |Without(es, k)| == |es| - 1
  {
    if es != [] {
      DistinctTail(es);
      WithoutDistinct(es[1..], k);
      var rest := Without(es[1..], k);
      if es[0].0 != k {
        forall i, j | 0 <= i < j < |[es[0]] + rest| ensures ([es[0]] + rest)[i].0 != ([es[0]] + rest)[j].0 {
          if i == 0 {
            var m :| 0 <= m < |es[1..]| && es[1..][m] == rest[j - 1];
            assert es[m + 1] == rest[j - 1];
          }
        }
      }
    }
  }

  lemma {:induction false} FindWithout<K, V>(es: seq<(K, V)>, k: K, other: K)
    ensures Find(Without(es, k), other) == if other == k then None else Find(es, other)
  {
    if es != [] {
      FindWithout(es[1..], k, other);
    }
  }

  /** The entries after a lookup of `k`: a hit becomes the most recent entry. */
  function Touched<K(==), V>(es: seq<(K, V)>, k: K): seq<(K, V)> {
    match Find(es, k)
    case None => es
    case Some(v) => Without(es, k) + [(k, v)]
  }

  /** The entries after `put(k, v)`: `v` is stored as the most recent entry and,
      when that makes one entry too many, the eldest goes. */
  function Inserted<K(==), V>(es: seq<(K, V)>, k: K, v: V): seq<(K, V)> {
    var grown := Without(es, k) + [(k, v)];
    if |grown| > CACHE_SIZE then grown[1..] else grown
  }

  lemma FindLast<K, V>(es: seq<(K, V)>, k: K, v: V, other: K)
    requires forall i | 0 <= i < |es| :: es[i].0 != k
    ensures Find(es + [(k, v)], other) == if other == k then Some(v) else Find(es, other)
    decreases |es|
  {
    if es != [] {
      assert (es + [(k, v)])[1..] == es[1..] + [(k, v)];
      FindLast(es[1..], k, v, other);
    }
  }

  /** A lookup that hits changes no stored value and leaves `k` most recent. */
  lemma TouchedKeepsContents<K, V>(es: seq<(K, V)>, k: K, other: K)
    ensures Find(Touched(es, k), other) == Find(es, other)
    ensures Find(es, k).Some? ==> Touched(es, k)[|Touched(es, k)| - 1].0 == k
  {
    if Find(es, k).Some? {
      FindWithout(es, k, other);
      FindLast(Without(es, k), k, Find(es, k).value, other);
    }
  }

  lemma DistinctAppend<K, V>(es: seq<(K, V)>, k: K, v: V)
    requires DistinctKeys(es)
    requires forall i | 0 <= i < |es| :: es[i].0 != k
    ensures DistinctKeys(es + [(k, v)])
  {
  }

  lemma DistinctTail<K, V>(es: seq<(K, V)>)
    requires DistinctKeys(es) && es != []
    ensures DistinctKeys(es[1..])
    ensures Find(es[1..], es[0].0) == None
  {
  }

  /** `put` never lets the cache grow past `CACHE_SIZE` and keeps keys distinct. */
  lemma InsertedValid<K, V>(es: seq<(K, V)>, k: K, v: V)
    requires DistinctKeys(es) && |es| <= CACHE_SIZE
    ensures DistinctKeys(Inserted(es, k, v)) && |Inserted(es, k, v)| <= CACHE_SIZE
  {
    var without := Without(es, k);
    WithoutDistinct(es, k);
    DistinctAppend(without, k, v);
    if |without| + 1 > CACHE_SIZE {
      DistinctTail(without + [(k, v)]);
    }
  }

  /** After `put(k, v)` the key finds `v`; every other key keeps its value unless
      it was the eldest entry of a full cache, which is the one evicted. */
  lemma InsertedFinds<K, V>(es: seq<(K, V)>, k: K, v: V, other: K)
    requires DistinctKeys(es) && |es| <= CACHE_SIZE
    ensures Find(Inserted(es, k, v), k) == Some(v)
    ensures other != k && (|es| < CACHE_SIZE || Find(es, k).Some? || es[0].0 != other) ==>
              Find(Inserted(es, k, v), other) == Find(es, other)
  {
    var without := Without(es, k);
    if |without| + 1 > CACHE_SIZE {
      InsertedEvictsEldest(es, k, v);
      FindLast(es[1..], k, v, k);
      if other != k && es[0].0 != other {
        FindLast(es[1..], k, v, other);
      }
    } else {
      FindLast(without, k, v, k);
      FindLast(without, k, v, other);
      FindWithout(es, k, other);
    }
  }

  lemma TailOfAppend<T>(es: seq<T>, x: T)
    requires es != []
    ensures (es + [x])[1..] == es[1..] + [x]
  {
  }

  /** A new key in a full cache evicts exactly the least recently accessed entry. */
  lemma InsertedEvictsEldest<K, V>(es: seq<(K, V)>, k: K, v: V)
    requires DistinctKeys(es) && |es| <= CACHE_SIZE && |Without(es, k)| + 1 > CACHE_SIZE
    ensures Find(es, k).None? && |es| == CACHE_SIZE
    ensures Inserted(es, k, v) == es[1..] + [(k, v)]
    ensures Find(Inserted(es, k, v), es[0].0) == None
  {
    WithoutDistinct(es, k);
    assert |es| == CACHE_SIZE;
    assert Find(es, k).None?;
    assert Without(es, k) == es;
    TailOfAppend(es, (k, v));
    DistinctTail(es);
    FindLast(es[1..], k, v, es[0].0);
  }

  class MessageCache<K(==), V> {
    /** Least recently accessed first. */
    var entries: seq<(K, V)>

    ghost predicate Valid()
      reads this
    {
      DistinctKeys(entries) && |entries| <= CACHE_SIZE
    }

    constructor ()
      ensures Valid() && entries == []
    {
      entries := [];
    }

    /** `get(k)` */
    method Get(k: K) returns (r: Option<V>)
      requires Valid()
      modifies this
      ensures Valid()
      ensures r == Find(old(entries), k)
      ensures entries == Touched(old(entries), k)
    {
      r := Find(entries, k);
      if r.Some? {
        WithoutDistinct(entries, k);
        DistinctAppend(Without(entries, k), k, r.value);
        entries := Without(entries, k) + [(k, r.value)];
      }
    }

    /** `put(k, v)` */
    method Put(k: K, v: V)
      requires Valid()
      modifies this
      ensures Valid()
      ensures entries == Inserted(old(entries), k, v)
    {
      InsertedValid(entries, k, v);
      var grown := Without(entries, k) + [(k, v)];
      if |grown| > CACHE_SIZE {
        grown := grown[1..];
      }
      entries := grown;
    }

    /** `clear()` */
    method Clear()
      modifies this
      ensures Valid() && entries == []
    {
      entries := [];
    }
  }
}
