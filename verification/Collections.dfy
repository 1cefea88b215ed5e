/**
 * Collections and their manager (src/collection/mod.rs).
 *
 * Storage is a map and the index a set of ids; their operations are taken to succeed. Counters
 * are unbounded.
 */
module Collections {
  import opened Basics

  type Id = nat

  datatype Result = Ok | Err(message: string)
  datatype Vector = Vector(data: seq<real>)
  datatype Config = Config(dimension: nat)

  // ---------------------------------------------------------------- the manager

  class CollectionManager {
    var collections: map<string, Config>

    constructor ()
      ensures collections == map[]
    {
      collections := map[];
    }

    method CreateCollection(name: string, config: Config) returns (r: Result)
      modifies this
      ensures name in old(collections) ==> r.Err? && collections == old(collections)
      ensures name !in old(collections) ==> r == Ok && collections == old(collections)[name := config]
    {
      if name in collections {
        return Err("already exists");
      }
      collections := collections[name := config];
      r := Ok;
    }

    method DeleteCollection(name: string) returns (r: Result)
      modifies this
      ensures r == Ok && collections == old(collections) - {name}
    {
      collections := collections - {name};
      r := Ok;
    }
  }

  // ---------------------------------------------------------------- one collection

  datatype State = State(storage: map<Id, Vector>, index: set<Id>, nextId: Id, nextOperation: nat)

  const NEW := State(map[], {}, 1, 1)

  function Put(s: State, id: Id, v: Vector): State {
    s.(storage := s.storage[id := v], index := s.index + {id}, nextId := if id >= s.nextId then id + 1 else s.nextId)
  }

  /** Vectors are stored one by one; the first of a wrong dimension ends the request with an error. */
  function Upserted(dimension: nat, s: State, vs: seq<(Id, Vector)>): (State, bool)
    decreases vs
  {
    if vs == [] then (s.(nextOperation := s.nextOperation + 1), true)
    else if |vs[0].1.data| != dimension then (s, false)
    else Upserted(dimension, Put(s, vs[0].0, vs[0].1), vs[1..])
  }

  function Deleted(s: State, ids: seq<Id>): State {
    s.(storage := s.storage - Elements(ids), index := s.index - Elements(ids), nextOperation := s.nextOperation + 1)
  }

  /** The live vectors with ids below the bound, by increasing id. */
  function Below(storage: map<Id, Vector>, bound: nat): seq<(Id, Vector)> {
    if bound == 0 then []
    else
      Below(storage, bound - 1)
      + if bound - 1 in storage then [(bound - 1, storage[bound - 1])] else []
  }

  class Collection {
    const dimension: nat
    var storage: map<Id, Vector>
    var index: set<Id>
    var nextId: Id
    var nextOperation: nat

    ghost function Contents(): State
      reads this
    {
      State(storage, index, nextId, nextOperation)
    }

    constructor (dimension: nat)
      ensures this.dimension == dimension && Contents() == NEW
    {
      this.dimension := dimension;
      storage, index, nextId, nextOperation := map[], {}, 1, 1;
    }

    method Upsert(vectors: seq<(Id, Vector)>) returns (ok: bool)
      modifies this
      ensures (Contents(), ok) == Upserted(dimension, old(Contents()), vectors)
    {
      for i := 0 to |vectors|
        invariant Upserted(dimension, old(Contents()), vectors) == Upserted(dimension, Contents(), vectors[i..])
      {
        var (id, vector) := vectors[i];
        if |vector.data| != dimension {
          return false;
        }
        storage := storage[id := vector];
        index := index + {id};
        if id >= nextId {
          nextId := id + 1;
        }
        assert vectors[i..][1..] == vectors[i + 1..];
      }
      nextOperation := nextOperation + 1;
      ok := true;
    }

    method NextId() returns (id: Id)
      modifies this`nextId
      ensures id == old(nextId) && nextId == old(nextId) + 1
    {
      id := nextId;
      nextId := nextId + 1;
    }

    method Delete(ids: seq<Id>)
      modifies this
      ensures Contents() == Deleted(old(Contents()), ids)
    {
      for i := 0 to |ids|
        invariant nextId == old(nextId) && nextOperation == old(nextOperation)
        invariant storage == old(storage) - Elements(ids[..i]) && index == old(index) - Elements(ids[..i])
      {
        storage := storage - {ids[i]};
        index := index - {ids[i]};
        ElementsSnoc(ids[..i + 1]);
        assert ids[..i + 1][..i] == ids[..i];
      }
      assert ids[..|ids|] == ids;
      nextOperation := nextOperation + 1;
    }

    /** The snapshot scan: `count * 2 + 1000` ids from zero, or nothing when the count is zero. */
    method GetAllVectors() returns (vectors: seq<(Id, Vector)>)
      ensures vectors == if storage == map[] then [] else Below(storage, |storage| * 2 + 1000)
    {
      vectors := [];
      var count := |storage|;
      if count == 0 {
        return;
      }
      for id := 0 to count * 2 + 1000
        invariant vectors == Below(storage, id)
      {
        if id in storage {
          vectors := vectors + [(id, storage[id])];
        }
      }
    }
  }

  // ---------------------------------------------------------------- runs

  datatype Op = Upsert(vectors: seq<(Id, Vector)>) | Delete(ids: seq<Id>) | TakeId

  function Step(dimension: nat, s: State, op: Op): State {
    match op
    case Upsert(vs) => Upserted(dimension, s, vs).0
    case Delete(ids) => Deleted(s, ids)
    case TakeId => s.(nextId := s.nextId + 1)
  }

  function Run(dimension: nat, ops: seq<Op>): State {
    if ops == [] then NEW else Step(dimension, Run(dimension, ops[..|ops| - 1]), ops[|ops| - 1])
  }

  /** The ids `next_id` has returned. */
  function Issued(dimension: nat, ops: seq<Op>): set<Id> {
    if ops == [] then {}
    else
      Issued(dimension, ops[..|ops| - 1])
      + if ops[|ops| - 1].TakeId? then {Run(dimension, ops[..|ops| - 1]).nextId} else {}
  }

  /** The ids one request stores, up to its first bad vector. */
  function StoredBy(dimension: nat, vs: seq<(Id, Vector)>): set<Id> {
    if vs == [] || |vs[0].1.data| != dimension then {} else {vs[0].0} + StoredBy(dimension, vs[1..])
  }

  /** The ids ever stored, whether or not they are still live. */
  function EverStored(dimension: nat, ops: seq<Op>): set<Id> {
    if ops == [] then {}
    else
      EverStored(dimension, ops[..|ops| - 1])
      + if ops[|ops| - 1].Upsert? then StoredBy(dimension, ops[|ops| - 1].vectors) else {}
  }

  /** A request that succeeds leaves the last vector given for each id, and nothing else changed. */
  lemma {:induction false} UpsertStoresLast(dimension: nat, s: State, vs: seq<(Id, Vector)>, id: Id)
    requires Upserted(dimension, s, vs).1
    ensures var storage := Upserted(dimension, s, vs).0.storage;
            if exists i :: 0 <= i < |vs| && vs[i].0 == id then
              exists i :: 0 <= i < |vs| && vs[i].0 == id && id in storage && storage[id] == vs[i].1
                          && forall j :: i < j < |vs| ==> vs[j].0 != id
            else (id in storage <==> id in s.storage) && (id in storage ==> storage[id] == s.storage[id])
    decreases vs
  {
    if vs != [] {
      var rest := vs[1..];
      UpsertStoresLast(dimension, Put(s, vs[0].0, vs[0].1), rest, id);
      if i :| 0 <= i < |rest| && rest[i].0 == id {
        assert vs[i + 1].0 == id;
        var k :| 0 <= k < |rest| && rest[k].0 == id && id in Upserted(dimension, s, vs).0.storage
                 && Upserted(dimension, s, vs).0.storage[id] == rest[k].1
                 && forall j :: k < j < |rest| ==> rest[j].0 != id;
        assert forall j :: k + 1 < j < |vs| ==> vs[j] == rest[j - 1];
        assert vs[k + 1] == rest[k];
      } else {
        assert forall j :: 0 < j < |vs| ==> vs[j] == rest[j - 1];
      }
    }
  }

  lemma {:induction false} UpsertEffect(dimension: nat, s: State, vs: seq<(Id, Vector)>)
    ensures var t := Upserted(dimension, s, vs).0;
            && t.storage.Keys == s.storage.Keys + StoredBy(dimension, vs)
            && t.index == s.index + StoredBy(dimension, vs)
            && s.nextId <= t.nextId
            && (forall id :: id in StoredBy(dimension, vs) ==> id < t.nextId)
            && ((forall id :: id in StoredBy(dimension, vs) ==> id < s.nextId) ==> t.nextId == s.nextId)
    decreases vs
  {
    if vs != [] && |vs[0].1.data| == dimension {
      assert vs[0].0 in StoredBy(dimension, vs);
      UpsertEffect(dimension, Put(s, vs[0].0, vs[0].1), vs[1..]);
    }
  }

  /** Storage and index agree; live ids were stored; every id issued or stored lies below the next. */
  lemma {:induction false} NextIdIsFresh(dimension: nat, ops: seq<Op>)
    ensures var s := Run(dimension, ops);
            && s.index == s.storage.Keys <= EverStored(dimension, ops)
            && (forall id :: id in Issued(dimension, ops) ==> id < s.nextId)
            && (forall id :: id in EverStored(dimension, ops) ==> id < s.nextId)
  {
    if ops != [] {
      var front, op := ops[..|ops| - 1], ops[|ops| - 1];
      NextIdIsFresh(dimension, front);
      if op.Upsert? {
        UpsertEffect(dimension, Run(dimension, front), op.vectors);
      }
    }
  }

  /** No two calls of `next_id` return the same id. */
  lemma {:induction false} IssuedAreDifferent(dimension: nat, ops: seq<Op>)
    ensures |Issued(dimension, ops)| == Takes(ops)
  {
    if ops != [] {
      var front := ops[..|ops| - 1];
      IssuedAreDifferent(dimension, front);
      NextIdIsFresh(dimension, front);
      assert Run(dimension, front).nextId !in Issued(dimension, front);
    }
  }

  function Takes(ops: seq<Op>): nat {
    if ops == [] then 0 else Takes(ops[..|ops| - 1]) + if ops[|ops| - 1].TakeId? then 1 else 0
  }

  // ---------------------------------------------------------------- the snapshot scan

  function Live(storage: map<Id, Vector>, bound: nat): set<(Id, Vector)> {
    set id | id in storage && id < bound :: (id, storage[id])
  }

  lemma {:induction false} BelowLists(storage: map<Id, Vector>, bound: nat)
    ensures forall i, j :: 0 <= i < j < |Below(storage, bound)| ==> Below(storage, bound)[i].0 < Below(storage, bound)[j].0
    ensures Elements(Below(storage, bound)) == Live(storage, bound)
  {
    if bound > 0 {
      BelowLists(storage, bound - 1);
      var front := Below(storage, bound - 1);
      forall i | 0 <= i < |front| ensures front[i].0 < bound - 1 {
        assert front[i] in Elements(front);
      }
      var last := if bound - 1 in storage then [(bound - 1, storage[bound - 1])] else [];
      ElementsConcat(front, last);
      assert Live(storage, bound) == Live(storage, bound - 1) + Elements(last);
    }
  }

  function Snapshot(storage: map<Id, Vector>): seq<(Id, Vector)> {
    if storage == map[] then [] else Below(storage, |storage| * 2 + 1000)
  }

  /** The scan lists live vectors by increasing id, and misses none exactly when every live id is below 2 · count + 1000. */
  lemma SnapshotComplete(storage: map<Id, Vector>)
    ensures forall i, j :: 0 <= i < j < |Snapshot(storage)| ==> Snapshot(storage)[i].0 < Snapshot(storage)[j].0
    ensures forall p :: p in Snapshot(storage) ==> p.0 in storage && storage[p.0] == p.1
    ensures (forall id :: id in storage ==> (id, storage[id]) in Snapshot(storage))
            <==> forall id :: id in storage ==> id < |storage| * 2 + 1000
  {
    var bound := |storage| * 2 + 1000;
    BelowLists(storage, bound);
    assert forall p :: p in Below(storage, bound) <==> p in Live(storage, bound);
  }

  /** The caller uploads only ids it was issued. */
  predicate StoresOnlyIssued(dimension: nat, ops: seq<Op>) {
    ops == []
    || (&& StoresOnlyIssued(dimension, ops[..|ops| - 1])
        && (ops[|ops| - 1].Upsert? ==>
              StoredBy(dimension, ops[|ops| - 1].vectors) <= Issued(dimension, ops[..|ops| - 1])))
  }

  lemma {:induction false} IssuedOnlyCounts(dimension: nat, ops: seq<Op>)
    requires StoresOnlyIssued(dimension, ops)
    ensures Run(dimension, ops).nextId == Takes(ops) + 1
    ensures EverStored(dimension, ops) <= Issued(dimension, ops)
  {
    if ops != [] {
      var front, op := ops[..|ops| - 1], ops[|ops| - 1];
      IssuedOnlyCounts(dimension, front);
      NextIdIsFresh(dimension, front);
      if op.Upsert? {
        UpsertEffect(dimension, Run(dimension, front), op.vectors);
      }
    }
  }

  lemma DifferenceSize(a: set<Id>, b: set<Id>)
    requires b <= a
    ensures |a - b| == |a| - |b|
  {
    assert a == (a - b) + b;
  }

  /** With ids from `next_id` only, the scan is complete while fewer than live + 1000 issued ids are not live. */
  lemma IssuedOnlySnapshotComplete(dimension: nat, ops: seq<Op>)
    requires StoresOnlyIssued(dimension, ops)
    requires |Issued(dimension, ops) - Run(dimension, ops).storage.Keys| < |Run(dimension, ops).storage| + 1000
    ensures var storage := Run(dimension, ops).storage;
            forall id :: id in storage ==> (id, storage[id]) in Snapshot(storage)
  {
    var s, issued := Run(dimension, ops), Issued(dimension, ops);
    NextIdIsFresh(dimension, ops);
    IssuedOnlyCounts(dimension, ops);
    IssuedAreDifferent(dimension, ops);
    DifferenceSize(issued, s.storage.Keys);
    assert forall id :: id in s.storage ==> id in EverStored(dimension, ops);
    SnapshotComplete(s.storage);
  }
}
