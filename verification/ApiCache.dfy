/**
 * The TTL cache of API responses (src/api/performance.rs).
 *
 * At capacity a put removes whichever key the hash map lists first; the choice is arbitrary here.
 * The clock is an argument.
 */
module ApiCache {
  import opened Basics

  type Time = nat

  datatype Entry<+V> = Entry(value: V, expiresAt: Time)

  predicate Expired<V>(e: Entry<V>, now: Time) {
    now > e.expiresAt
  }

  /** The entries that have not expired. */
  function Fresh<K, V>(m: map<K, Entry<V>>, now: Time): map<K, Entry<V>> {
    map k | k in m && !Expired(m[k], now) :: m[k]
  }

  function Lookup<K, V>(m: map<K, Entry<V>>, k: K, now: Time): Option<V> {
    if k in m && !Expired(m[k], now) then Some(m[k].value) else None
  }

  /** The cache after a put that evicted `evicted`. */
  function AfterPut<K, V>(m: map<K, Entry<V>>, evicted: set<K>, k: K, v: V, ttl: nat, now: Time): map<K, Entry<V>> {
    (Fresh(m, now) - evicted)[k := Entry(v, now + ttl)]
  }

  /** Only a put at capacity evicts, and it evicts one fresh key. */
  ghost predicate MayEvict<K, V>(m: map<K, Entry<V>>, maxSize: nat, now: Time, evicted: set<K>) {
    if |Fresh(m, now)| >= maxSize && Fresh(m, now) != map[]
    then |evicted| == 1 && evicted <= Fresh(m, now).Keys
    else evicted == {}
  }

  class ApiCache<K(==), V> {
    const maxSize: nat
    const defaultTtl: nat
    var cache: map<K, Entry<V>>

    constructor (maxSize: nat, defaultTtl: nat)
      ensures this.maxSize == maxSize && this.defaultTtl == defaultTtl && cache == map[]
    {
      this.maxSize, this.defaultTtl, cache := maxSize, defaultTtl, map[];
    }

    function Get(k: K, now: Time): Option<V>
      reads this
    {
      Lookup(cache, k, now)
    }

    method PutWithTtl(k: K, v: V, ttl: nat, now: Time) returns (ghost evicted: set<K>)
      modifies this
      ensures MayEvict(old(cache), maxSize, now, evicted)
      ensures cache == AfterPut(old(cache), evicted, k, v, ttl, now)
    {
      evicted := {};
      cache := map k' | k' in cache && !Expired(cache[k'], now) :: cache[k'];
      if |cache| >= maxSize {
        if cache != map[] {
          assert cache.Keys != {};
          var first :| first in cache.Keys;
          evicted := {first};
          cache := cache - {first};
        }
      }
      cache := cache[k := Entry(v, now + ttl)];
    }

    method Put(k: K, v: V, now: Time) returns (ghost evicted: set<K>)
      modifies this
      ensures MayEvict(old(cache), maxSize, now, evicted)
      ensures cache == AfterPut(old(cache), evicted, k, v, defaultTtl, now)
    {
      evicted := PutWithTtl(k, v, defaultTtl, now);
    }

    method Clear()
      modifies this
      ensures cache == map[]
    {
      cache := map[];
    }

    method Stats(now: Time) returns (total: nat, expired: nat, active: nat)
      ensures total == |cache| && active == |Fresh(cache, now)| && total == expired + active
    {
      total := |cache|;
      expired := |set k | k in cache && Expired(cache[k], now)|;
      assert cache.Keys == (set k | k in cache && Expired(cache[k], now)) + Fresh(cache, now).Keys;
      active := total - expired;
    }
  }

  // ---------------------------------------------------------------- runs

  /** A put records which key the hash map gave up, if any. */
  datatype Op<K, V> = Put(key: K, value: V, ttl: nat, now: Time, evicted: set<K>) | Clear

  function Run<K, V>(ops: seq<Op<K, V>>): map<K, Entry<V>> {
    if ops == [] then map[]
    else
      match ops[|ops| - 1]
      case Put(k, v, ttl, now, evicted) => AfterPut(Run(ops[..|ops| - 1]), evicted, k, v, ttl, now)
      case Clear => map[]
  }

  /** Every recorded eviction is one the cache could have made. */
  ghost predicate Legal<K, V>(ops: seq<Op<K, V>>, maxSize: nat) {
    forall i :: 0 <= i < |ops| && ops[i].Put? ==> MayEvict(Run(ops[..i]), maxSize, ops[i].now, ops[i].evicted)
  }

  lemma LegalFront<K, V>(ops: seq<Op<K, V>>, maxSize: nat)
    requires Legal(ops, maxSize) && ops != []
    ensures Legal(ops[..|ops| - 1], maxSize)
    ensures var op := ops[|ops| - 1];
            op.Put? ==> MayEvict(Run(ops[..|ops| - 1]), maxSize, op.now, op.evicted)
  {
    forall i | 0 <= i < |ops| - 1 ensures ops[..|ops| - 1][..i] == ops[..i] {
    }
  }

  /** The unbounded map: every put since the last clear, nothing evicted. */
  function Ideal<K, V>(ops: seq<Op<K, V>>): map<K, Entry<V>> {
    if ops == [] then map[]
    else
      match ops[|ops| - 1]
      case Put(k, v, ttl, now, _) => Ideal(ops[..|ops| - 1])[k := Entry(v, now + ttl)]
      case Clear => map[]
  }

  /** The ideal entry of a key is its latest put, with no clear since. */
  lemma {:induction false} IdealIsLatestPut<K, V>(ops: seq<Op<K, V>>, k: K) returns (i: nat)
    requires k in Ideal(ops)
    ensures i < |ops| && ops[i].Put? && ops[i].key == k
    ensures Ideal(ops)[k] == Entry(ops[i].value, ops[i].now + ops[i].ttl)
    ensures forall j :: i < j < |ops| ==> ops[j].Put? && ops[j].key != k
  {
    var last := ops[|ops| - 1];
    if last.key == k {
      i := |ops| - 1;
    } else {
      i := IdealIsLatestPut(ops[..|ops| - 1], k);
      assert forall j :: i < j < |ops| - 1 ==> ops[j] == ops[..|ops| - 1][j];
    }
  }

  /** Nothing stale: the cache only holds entries of the ideal map, and at most max(1, max_size) of them. */
  lemma {:induction false} CacheWithinIdeal<K, V>(ops: seq<Op<K, V>>, maxSize: nat)
    requires Legal(ops, maxSize)
    ensures forall k :: k in Run(ops) ==> k in Ideal(ops) && Ideal(ops)[k] == Run(ops)[k]
    ensures |Run(ops)| <= if maxSize == 0 then 1 else maxSize
  {
    if ops != [] {
      var front, op := ops[..|ops| - 1], ops[|ops| - 1];
      LegalFront(ops, maxSize);
      CacheWithinIdeal(front, maxSize);
      if op.Put? {
        PutSize(Run(front), maxSize, op.evicted, op.key, op.value, op.ttl, op.now);
      }
    }
  }

  lemma PutSize<K, V>(m: map<K, Entry<V>>, maxSize: nat, evicted: set<K>, k: K, v: V, ttl: nat, now: Time)
    requires MayEvict(m, maxSize, now, evicted)
    requires |m| <= if maxSize == 0 then 1 else maxSize
    ensures |AfterPut(m, evicted, k, v, ttl, now)| <= if maxSize == 0 then 1 else maxSize
  {
    var live := Fresh(m, now);
    SubsetSize(live.Keys, m.Keys);
    var left := live - evicted;
    assert left.Keys == live.Keys - evicted;
    assert live.Keys == left.Keys + evicted;
    assert |live.Keys| == |left.Keys| + |evicted|;
    if k in left {
      assert left[k := Entry(v, now + ttl)].Keys == left.Keys;
    } else {
      assert left[k := Entry(v, now + ttl)].Keys == left.Keys + {k};
    }
  }

  /** `get` returns only what the ideal map would. */
  lemma HitIsLatest<K, V>(ops: seq<Op<K, V>>, maxSize: nat, k: K, now: Time)
    requires Legal(ops, maxSize)
    ensures Lookup(Run(ops), k, now).Some? ==> Lookup(Ideal(ops), k, now) == Lookup(Run(ops), k, now)
  {
    CacheWithinIdeal(ops, maxSize);
  }

  // ---------------------------------------------------------------- agreement

  /** The two maps answer every lookup alike from now on. */
  ghost predicate Agree<K, V>(a: map<K, Entry<V>>, b: map<K, Entry<V>>, now: Time) {
    Fresh(a, now) == Fresh(b, now)
  }

  lemma AgreeLater<K, V>(a: map<K, Entry<V>>, b: map<K, Entry<V>>, now: Time, later: Time)
    requires Agree(a, b, now) && now <= later
    ensures Agree(a, b, later)
  {
    assert forall k :: k in Fresh(a, later) ==> k in Fresh(a, now);
    assert forall k :: k in Fresh(b, later) ==> k in Fresh(b, now);
  }

  /** A put keeps agreement whatever it evicts exactly when it finds room, or no other live key to evict. */
  lemma PutAgreement<K, V>(m: map<K, Entry<V>>, ideal: map<K, Entry<V>>, maxSize: nat, k: K, v: V, ttl: nat, now: Time)
    requires Agree(m, ideal, now)
    ensures (forall evicted :: MayEvict(m, maxSize, now, evicted) ==>
               Agree(AfterPut(m, evicted, k, v, ttl, now), ideal[k := Entry(v, now + ttl)], now))
            <==> |Fresh(ideal, now)| < maxSize || Fresh(ideal, now).Keys <= {k}
  {
    var live := Fresh(m, now);
    if |live| < maxSize || live.Keys <= {k} {
      forall evicted | MayEvict(m, maxSize, now, evicted)
        ensures Agree(AfterPut(m, evicted, k, v, ttl, now), ideal[k := Entry(v, now + ttl)], now)
      {
        PutKeepsOthers(m, ideal, evicted, k, v, ttl, now);
      }
    } else {
      var other := Pick(live.Keys - {k});
      assert MayEvict(m, maxSize, now, {other});
      assert other in Fresh(ideal[k := Entry(v, now + ttl)], now);
      assert other !in AfterPut(m, {other}, k, v, ttl, now);
    }
  }

  lemma PutKeepsOthers<K, V>(m: map<K, Entry<V>>, ideal: map<K, Entry<V>>, evicted: set<K>, k: K, v: V, ttl: nat, now: Time)
    requires Agree(m, ideal, now) && evicted <= {k}
    ensures Agree(AfterPut(m, evicted, k, v, ttl, now), ideal[k := Entry(v, now + ttl)], now)
  {
    var a, b := Fresh(AfterPut(m, evicted, k, v, ttl, now), now), Fresh(ideal[k := Entry(v, now + ttl)], now);
    forall x | x != k ensures x in a <==> x in b {
      assert x in Fresh(m, now) <==> x in Fresh(ideal, now);
    }
    forall x | x in a ensures x in b && a[x] == b[x] {
      if x != k {
        assert Fresh(m, now)[x] == Fresh(ideal, now)[x];
      }
    }
    assert k in b ==> k in a;
  }

  ghost predicate Ordered<K, V>(ops: seq<Op<K, V>>) {
    forall i, j :: 0 <= i < j < |ops| && ops[i].Put? && ops[j].Put? ==> ops[i].now <= ops[j].now
  }

  /** Every put finds fewer than `max_size` live keys in the ideal map. */
  ghost predicate NeverFull<K, V>(ops: seq<Op<K, V>>, maxSize: nat) {
    forall i :: 0 <= i < |ops| && ops[i].Put? ==> |Fresh(Ideal(ops[..i]), ops[i].now)| < maxSize
  }

  ghost predicate Reached<K, V>(ops: seq<Op<K, V>>, now: Time) {
    forall i :: 0 <= i < |ops| && ops[i].Put? ==> ops[i].now <= now
  }

  lemma NeverFullFront<K, V>(ops: seq<Op<K, V>>, maxSize: nat)
    requires NeverFull(ops, maxSize) && ops != []
    ensures NeverFull(ops[..|ops| - 1], maxSize)
    ensures var op := ops[|ops| - 1];
            op.Put? ==> |Fresh(Ideal(ops[..|ops| - 1]), op.now)| < maxSize
  {
    forall i | 0 <= i < |ops| - 1 ensures ops[..|ops| - 1][..i] == ops[..i] {
    }
  }

  lemma RoomyPutAgrees<K, V>(ops: seq<Op<K, V>>, maxSize: nat, now: Time)
    requires ops != [] && ops[|ops| - 1].Put? && ops[|ops| - 1].now <= now
    requires Agree(Run(ops[..|ops| - 1]), Ideal(ops[..|ops| - 1]), ops[|ops| - 1].now)
    requires MayEvict(Run(ops[..|ops| - 1]), maxSize, ops[|ops| - 1].now, ops[|ops| - 1].evicted)
    requires |Fresh(Ideal(ops[..|ops| - 1]), ops[|ops| - 1].now)| < maxSize
    ensures Agree(Run(ops), Ideal(ops), now)
  {
  }

  lemma {:induction false} NeverFullKeepsAgreement<K, V>(ops: seq<Op<K, V>>, maxSize: nat, now: Time)
    requires Legal(ops, maxSize) && Ordered(ops) && NeverFull(ops, maxSize) && Reached(ops, now)
    ensures Agree(Run(ops), Ideal(ops), now)
  {
    if ops != [] && ops[|ops| - 1].Put? {
      LegalFront(ops, maxSize);
      NeverFullFront(ops, maxSize);
      NeverFullKeepsAgreement(ops[..|ops| - 1], maxSize, ops[|ops| - 1].now);
      RoomyPutAgrees(ops, maxSize, now);
    }
  }

  /** While it is never full, the cache answers every lookup as the unbounded map does. */
  lemma NeverFullAgrees<K(!new), V>(ops: seq<Op<K, V>>, maxSize: nat, now: Time)
    requires Legal(ops, maxSize) && Ordered(ops) && NeverFull(ops, maxSize) && Reached(ops, now)
    ensures forall k :: Lookup(Run(ops), k, now) == Lookup(Ideal(ops), k, now)
  {
    NeverFullKeepsAgreement(ops, maxSize, now);
    AgreeIsLookup(Run(ops), Ideal(ops), now);
  }

  lemma AgreeIsLookup<K(!new), V>(a: map<K, Entry<V>>, b: map<K, Entry<V>>, now: Time)
    requires Agree(a, b, now)
    ensures forall k :: Lookup(a, k, now) == Lookup(b, k, now)
  {
    forall k ensures Lookup(a, k, now) == Lookup(b, k, now) {
      assert k in Fresh(a, now) <==> k in Fresh(b, now);
      assert k in Fresh(a, now) ==> Fresh(a, now)[k] == Fresh(b, now)[k];
    }
  }
}
