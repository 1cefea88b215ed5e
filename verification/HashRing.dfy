/**
 * The consistent-hash ring and the shard router (src/cluster/hash_ring.rs).
 *
 * The hash is an arbitrary function from strings to positions. A `BTreeMap` is a map read
 * in increasing key order. Two different nodes may hash to a common position: adding then
 * overwrites the owner there and removing deletes the position whoever owns it. `NodesApart`
 * rules such collisions out, only where a property needs it.
 */
module HashRing {
  import opened Basics

  type NodeId = string
  type Position = int
  type Hash = string -> Position
  type Ring = map<Position, NodeId>

  /** What a `HashRing` holds. */
  datatype State = State(ring: Ring, nodes: seq<NodeId>)

  const EMPTY := State(map[], [])

  // ---------------------------------------------------------------- virtual nodes

  function Digit(d: nat): char
    requires d < 10
  {
    "0123456789"[d]
  }

  /** Rust's `Display` of an unsigned integer. */
  function Decimal(n: nat): string {
    if n < 10 then [Digit(n)] else Decimal(n / 10) + [Digit(n % 10)]
  }

  function VirtualKey(node: NodeId, i: nat): string {
    node + "-" + Decimal(i)
  }

  /** The positions of the v virtual nodes of one node. */
  function Points(hash: Hash, node: NodeId, v: nat): set<Position> {
    set i | 0 <= i < v :: hash(VirtualKey(node, i))
  }

  ghost function AllPoints(hash: Hash, nodes: set<NodeId>, v: nat): set<Position> {
    set n, p | n in nodes && p in Points(hash, n, v) :: p
  }

  /** No two different nodes of the set share a position. */
  ghost predicate NodesApart(hash: Hash, nodes: set<NodeId>, v: nat) {
    forall m, n :: m in nodes && n in nodes && m != n ==> Points(hash, m, v) !! Points(hash, n, v)
  }

  // ---------------------------------------------------------------- membership changes

  function Owned(points: set<Position>, node: NodeId): Ring {
    map p | p in points :: node
  }

  function Added(hash: Hash, v: nat, s: State, node: NodeId): State {
    if node in s.nodes then s
    else State(s.ring + Owned(Points(hash, node, v), node), s.nodes + [node])
  }

  function Removed(hash: Hash, v: nat, s: State, node: NodeId): State {
    State(s.ring - Points(hash, node, v), Without(s.nodes, node))
  }

  datatype Op = Add(node: NodeId) | Remove(node: NodeId)

  function Step(hash: Hash, v: nat, s: State, op: Op): State {
    match op
    case Add(n) => Added(hash, v, s, n)
    case Remove(n) => Removed(hash, v, s, n)
  }

  /** The ring after a history of membership changes, starting empty. */
  function Run(hash: Hash, v: nat, ops: seq<Op>): State {
    if ops == [] then EMPTY
    else Step(hash, v, Run(hash, v, ops[..|ops| - 1]), ops[|ops| - 1])
  }

  // ---------------------------------------------------------------- lookups

  function KeysFrom(ring: Ring, h: Position): set<Position> {
    set p | p in ring && h <= p
  }

  function KeysBefore(ring: Ring, h: Position): set<Position> {
    set p | p in ring && p < h
  }

  /** The owners at the given positions, lowest position first. */
  function InOrder(ring: Ring, keys: set<Position>): seq<NodeId>
    requires keys <= ring.Keys
  {
    if keys == {} then []
    else InOrder(ring, keys - {Max(keys)}) + [ring[Max(keys)]]
  }

  /** `ring.range(h..)`, owners only. */
  function RangeFrom(ring: Ring, h: Position): seq<NodeId> {
    InOrder(ring, KeysFrom(ring, h))
  }

  /** `ring.values()`. */
  function Values(ring: Ring): seq<NodeId> {
    InOrder(ring, ring.Keys)
  }

  /** Every owner once round the ring, clockwise from h. */
  function Clockwise(ring: Ring, h: Position): seq<NodeId> {
    RangeFrom(ring, h) + InOrder(ring, KeysBefore(ring, h))
  }

  /** The first `count` different owners met clockwise from h. */
  function FirstOwners(ring: Ring, h: Position, count: nat): seq<NodeId> {
    Take(Distinct(Clockwise(ring, h)), count)
  }

  function OwnerOf(ring: Ring, h: Position): Option<NodeId> {
    var after := RangeFrom(ring, h);
    var all := Values(ring);
    if all == [] then None
    else if after != [] then Some(after[0])
    else Some(all[0])
  }

  lemma OnePointMore(hash: Hash, node: NodeId, i: nat)
    ensures Points(hash, node, i + 1) == Points(hash, node, i) + {hash(VirtualKey(node, i))}
  {
  }

  lemma OwnOneMore(ring: Ring, points: set<Position>, p: Position, node: NodeId)
    ensures ring + Owned(points + {p}, node) == (ring + Owned(points, node))[p := node]
    ensures ring - (points + {p}) == (ring - points) - {p}
  {
  }

  // ---------------------------------------------------------------- the ring object

  class HashRing {
    const hash: Hash
    const virtualNodes: nat
    var ring: Ring
    var nodes: seq<NodeId>

    function Contents(): State
      reads this
    {
      State(ring, nodes)
    }

    constructor (hash: Hash, virtualNodes: nat)
      ensures this.hash == hash && this.virtualNodes == virtualNodes
      ensures Contents() == EMPTY
    {
      this.hash, this.virtualNodes := hash, virtualNodes;
      ring, nodes := map[], [];
    }

    method AddNode(node: NodeId)
      modifies this
      ensures Contents() == Added(hash, virtualNodes, old(Contents()), node)
    {
      if node in nodes {
        return;
      }
      for i := 0 to virtualNodes
        invariant nodes == old(nodes)
        invariant ring == old(ring) + Owned(Points(hash, node, i), node)
      {
        var key := VirtualKey(node, i);
        ring := ring[hash(key) := node];
        OnePointMore(hash, node, i);
        OwnOneMore(old(ring), Points(hash, node, i), hash(key), node);
      }
      nodes := nodes + [node];
    }

    method RemoveNode(node: NodeId)
      modifies this
      ensures Contents() == Removed(hash, virtualNodes, old(Contents()), node)
    {
      for i := 0 to virtualNodes
        invariant nodes == old(nodes)
        invariant ring == old(ring) - Points(hash, node, i)
      {
        var key := VirtualKey(node, i);
        ring := ring - {hash(key)};
        OnePointMore(hash, node, i);
        OwnOneMore(old(ring), Points(hash, node, i), hash(key), node);
      }
      nodes := Without(nodes, node);
    }

    function GetNode(key: string): Option<NodeId>
      reads this
    {
      OwnerOf(ring, hash(key))
    }

    /** Two loops with an early exit; the second starts over at the lowest position. */
    method GetNodes(key: string, count: nat) returns (result: seq<NodeId>)
      ensures result == FirstOwners(ring, hash(key), count)
    {
      if ring == map[] || count == 0 {
        NoOwners(ring, hash(key), count);
        return [];
      }
      var h := hash(key);
      var first, all := RangeFrom(ring, h), Values(ring);
      ghost var walk := first + all;
      ScanStart(ring, h, count);
      var seen: set<NodeId> := {};
      result := [];
      for i := 0 to |first|
        invariant Scanned(walk, i, count, seen, result)
      {
        assert walk[i] == first[i];
        ScanOne(walk, i, count, seen, result);
        if first[i] !in seen {
          seen := seen + {first[i]};
          result := result + [first[i]];
        }
        if |result| >= count {
          return;
        }
      }
      for i := 0 to |all|
        invariant Scanned(walk, |first| + i, count, seen, result)
      {
        assert walk[|first| + i] == all[i];
        ScanOne(walk, |first| + i, count, seen, result);
        if all[i] !in seen {
          seen := seen + {all[i]};
          result := result + [all[i]];
        }
        if |result| >= count {
          return;
        }
      }
      ScanEnd(walk, count, seen, result);
    }
  }

  lemma ScanStart(ring: Ring, h: Position, count: nat)
    requires count > 0
    ensures var walk := RangeFrom(ring, h) + Values(ring);
            FirstOwners(ring, h, count) == Take(Distinct(walk), count) && Scanned(walk, 0, count, {}, [])
  {
    TwoLoopsAreOneTurn(ring, h);
  }

  lemma ScanEnd(walk: seq<NodeId>, count: nat, seen: set<NodeId>, result: seq<NodeId>)
    requires Scanned(walk, |walk|, count, seen, result)
    ensures result == Take(Distinct(walk), count)
  {
    assert walk[..|walk|] == walk;
  }

  lemma NoOwners(ring: Ring, h: Position, count: nat)
    requires ring == map[] || count == 0
    ensures FirstOwners(ring, h, count) == []
  {
    assert ring == map[] ==> KeysFrom(ring, h) == {} == KeysBefore(ring, h);
  }

  /** i entries of the walk have been read and fewer than `count` different owners met. */
  ghost predicate Scanned(walk: seq<NodeId>, i: nat, count: nat, seen: set<NodeId>, result: seq<NodeId>) {
    i <= |walk| && result == Distinct(walk[..i]) && seen == Elements(result) && |result| < count
  }

  lemma ScanOne(walk: seq<NodeId>, i: nat, count: nat, seen: set<NodeId>, result: seq<NodeId>)
    requires Scanned(walk, i, count, seen, result) && i < |walk|
    ensures walk[i] in seen ==> Scanned(walk, i + 1, count, seen, result)
    ensures walk[i] !in seen && |result| + 1 < count ==>
              Scanned(walk, i + 1, count, seen + {walk[i]}, result + [walk[i]])
    ensures walk[i] !in seen && |result| + 1 == count ==> Take(Distinct(walk), count) == result + [walk[i]]
  {
    if walk[i] in seen {
      ScanSeen(walk, i, count, seen, result);
    } else {
      ScanNew(walk, i, count, seen, result);
      ScanFull(walk, i + 1, result + [walk[i]]);
    }
  }

  lemma ScanSeen(walk: seq<NodeId>, i: nat, count: nat, seen: set<NodeId>, result: seq<NodeId>)
    requires Scanned(walk, i, count, seen, result) && i < |walk| && walk[i] in seen
    ensures Distinct(walk[..i + 1]) == result
  {
    DistinctOneMore(walk, i);
  }

  lemma ScanNew(walk: seq<NodeId>, i: nat, count: nat, seen: set<NodeId>, result: seq<NodeId>)
    requires Scanned(walk, i, count, seen, result) && i < |walk| && walk[i] !in seen
    ensures Distinct(walk[..i + 1]) == result + [walk[i]]
    ensures Elements(result + [walk[i]]) == seen + {walk[i]}
  {
    DistinctOneMore(walk, i);
    assert walk[i] !in Elements(result);
    ElementsConcat(result, [walk[i]]);
  }

  lemma ScanFull(walk: seq<NodeId>, n: nat, found: seq<NodeId>)
    requires n <= |walk| && Distinct(walk[..n]) == found
    ensures Take(Distinct(walk), |found|) == found
  {
    DistinctPrefix(walk, n);
  }

  lemma DistinctOneMore(walk: seq<NodeId>, i: nat)
    requires i < |walk|
    ensures var front := Distinct(walk[..i]);
            Distinct(walk[..i + 1]) == if walk[i] in front then front else front + [walk[i]]
  {
    assert walk[..i + 1][..i] == walk[..i];
  }

  // ---------------------------------------------------------------- the walk

  /** Two key sets one below the other are read one after the other. */
  lemma {:induction false} InOrderSplit(ring: Ring, low: set<Position>, high: set<Position>)
    requires low <= ring.Keys && high <= ring.Keys
    requires forall p, q :: p in low && q in high ==> p < q
    ensures InOrder(ring, low + high) == InOrder(ring, low) + InOrder(ring, high)
  {
    if high == {} {
      assert low + high == low;
    } else {
      var m := Max(high);
      assert IsMax(m, low + high);
      assert (low + high) - {m} == low + (high - {m});
      InOrderSplit(ring, low, high - {m});
    }
  }

  lemma ValuesSplit(ring: Ring, h: Position)
    ensures Values(ring) == InOrder(ring, KeysBefore(ring, h)) + RangeFrom(ring, h)
  {
    InOrderSplit(ring, KeysBefore(ring, h), KeysFrom(ring, h));
    assert KeysBefore(ring, h) + KeysFrom(ring, h) == ring.Keys;
  }

  lemma {:induction false} InOrderElements(ring: Ring, keys: set<Position>)
    requires keys <= ring.Keys
    ensures Elements(InOrder(ring, keys)) == set p | p in keys :: ring[p]
    ensures |InOrder(ring, keys)| == |keys|
  {
    if keys != {} {
      var m := Max(keys);
      InOrderElements(ring, keys - {m});
      ElementsConcat(InOrder(ring, keys - {m}), [ring[m]]);
      assert keys == keys - {m} + {m};
    }
  }

  /** Starting over at the lowest position meets the same owners in the same order as stopping at h. */
  lemma TwoLoopsAreOneTurn(ring: Ring, h: Position)
    ensures Distinct(RangeFrom(ring, h) + Values(ring)) == Distinct(Clockwise(ring, h))
  {
    var from, before := RangeFrom(ring, h), InOrder(ring, KeysBefore(ring, h));
    ValuesSplit(ring, h);
    assert from + (before + from) == (from + before) + from;
    ElementsConcat(from, before);
    DistinctAbsorbs(from + before, from);
  }

  /** The walk visits exactly the owners of the ring. */
  lemma ClockwiseVisitsAll(ring: Ring, h: Position)
    ensures Elements(Clockwise(ring, h)) == ring.Values
  {
    InOrderElements(ring, KeysFrom(ring, h));
    InOrderElements(ring, KeysBefore(ring, h));
    ElementsConcat(RangeFrom(ring, h), InOrder(ring, KeysBefore(ring, h)));
    assert KeysFrom(ring, h) + KeysBefore(ring, h) == ring.Keys;
  }

  /**
   * A replica list holds different nodes, as many as asked for or all there are, every node it
   * holds owns a position, and a shorter list is a prefix of a longer one.
   */
  lemma FirstOwnersShape(ring: Ring, h: Position, count: nat, more: nat)
    requires count <= more
    ensures NoDuplicates(FirstOwners(ring, h, count))
    ensures |FirstOwners(ring, h, count)| == if count <= |ring.Values| then count else |ring.Values|
    ensures Elements(FirstOwners(ring, h, count)) <= ring.Values
    ensures FirstOwners(ring, h, count) <= FirstOwners(ring, h, more)
  {
    ClockwiseVisitsAll(ring, h);
    DistinctElements(Clockwise(ring, h));
    var d := Distinct(Clockwise(ring, h));
    assert forall x :: x in Take(d, count) ==> x in Elements(d);
  }

  /** The position a key is served from: the least one not below h, else the least one. */
  ghost predicate IsSuccessor(ring: Ring, h: Position, p: Position) {
    && p in ring
    && (h <= p || forall q :: q in ring ==> q < h)
    && forall q :: q in ring && q < p ==> h <= p && q < h
  }

  ghost predicate IsMin(m: Position, s: set<Position>) {
    m in s && forall x :: x in s ==> m <= x
  }

  lemma {:induction false} InOrderStartsLowest(ring: Ring, keys: set<Position>) returns (m: Position)
    requires keys <= ring.Keys && keys != {}
    ensures IsMin(m, keys)
    ensures InOrder(ring, keys) != [] && InOrder(ring, keys)[0] == ring[m]
  {
    var top := Max(keys);
    if keys - {top} == {} {
      assert forall x :: x in keys ==> x == top by {
        assert keys <= {top};
      }
      m := top;
    } else {
      m := InOrderStartsLowest(ring, keys - {top});
      assert forall x :: x in keys ==> x == top || x in keys - {top};
    }
  }

  lemma OwnerIsSuccessor(ring: Ring, h: Position) returns (p: Position)
    requires ring != map[]
    ensures IsSuccessor(ring, h, p)
    ensures OwnerOf(ring, h) == Some(ring[p])
  {
    assert ring.Keys != {};
    p := InOrderStartsLowest(ring, ring.Keys);
    if KeysFrom(ring, h) != {} {
      p := InOrderStartsLowest(ring, KeysFrom(ring, h));
      assert forall q :: q in ring && h <= q ==> q in KeysFrom(ring, h);
    } else {
      assert forall q :: q in ring ==> q !in KeysFrom(ring, h);
    }
  }

  /** A list of one node is the node itself. */
  lemma OneOwner(ring: Ring, h: Position)
    ensures FirstOwners(ring, h, 1) == match OwnerOf(ring, h) case None => [] case Some(n) => [n]
  {
    var walk := Clockwise(ring, h);
    ValuesSplit(ring, h);
    if walk != [] {
      DistinctPrefix(walk, 1);
      assert Distinct(walk[..1]) == [walk[0]] by { assert walk[..1][..0] == []; }
    }
  }

  // ---------------------------------------------------------------- what a ring consists of

  /** The ring holds every position of every listed node, and only those. */
  ghost predicate Covered(hash: Hash, v: nat, s: State) {
    && s.ring.Keys == AllPoints(hash, Elements(s.nodes), v)
    && (forall p :: p in s.ring ==> s.ring[p] in s.nodes && p in Points(hash, s.ring[p], v))
    && NoDuplicates(s.nodes)
  }

  /** The ring is the union of the listed nodes' points, each point owned by its node. */
  ghost predicate IsUnion(hash: Hash, v: nat, ring: Ring, nodes: set<NodeId>) {
    forall p, n :: p in ring && ring[p] == n <==> n in nodes && p in Points(hash, n, v)
  }

  lemma AddKeepsCovered(hash: Hash, v: nat, s: State, node: NodeId)
    requires Covered(hash, v, s)
    ensures Covered(hash, v, Added(hash, v, s, node))
  {
    if node !in s.nodes {
      var t := Added(hash, v, s, node);
      ElementsConcat(s.nodes, [node]);
      forall p ensures p in AllPoints(hash, Elements(t.nodes), v)
                       <==> p in AllPoints(hash, Elements(s.nodes), v) || p in Points(hash, node, v) {
      }
    }
  }

  /** Removing a node leaves a covering ring exactly when no other listed node shares one of its positions. */
  lemma RemoveKeepsCovered(hash: Hash, v: nat, s: State, node: NodeId)
    requires Covered(hash, v, s)
    ensures Covered(hash, v, Removed(hash, v, s, node))
            <==> Points(hash, node, v) !! AllPoints(hash, Elements(s.nodes) - {node}, v)
  {
    var t := Removed(hash, v, s, node);
    WithoutElements(s.nodes, node);
    WithoutNoDuplicates(s.nodes, node);
    var others := AllPoints(hash, Elements(s.nodes) - {node}, v);
    assert Elements(t.nodes) == Elements(s.nodes) - {node};
    assert forall n :: n in t.nodes <==> n in Elements(t.nodes);
    assert t.ring.Keys == s.ring.Keys - Points(hash, node, v);
    forall p ensures p in s.ring.Keys - Points(hash, node, v) <==> p in others - Points(hash, node, v) {
    }
  }

  lemma CoveredIsUnion(hash: Hash, v: nat, s: State)
    requires Covered(hash, v, s) && NodesApart(hash, Elements(s.nodes), v)
    ensures IsUnion(hash, v, s.ring, Elements(s.nodes))
  {
    forall p, n | n in Elements(s.nodes) && p in Points(hash, n, v)
      ensures p in s.ring && s.ring[p] == n
    {
      assert p in AllPoints(hash, Elements(s.nodes), v);
      assert s.ring[p] in Elements(s.nodes);
    }
  }

  /** The union is unique, so neither history nor order can be read off a ring. */
  lemma UnionIsUnique(hash: Hash, v: nat, a: Ring, b: Ring, nodes: set<NodeId>)
    requires IsUnion(hash, v, a, nodes) && IsUnion(hash, v, b, nodes)
    ensures a == b
  {
    forall p | p in a ensures p in b && b[p] == a[p] {
      assert a[p] in nodes && p in Points(hash, a[p], v);
    }
    forall p | p in b ensures p in a {
      assert b[p] in nodes && p in Points(hash, b[p], v);
    }
  }

  ghost predicate Names(ops: seq<Op>, universe: set<NodeId>) {
    forall i :: 0 <= i < |ops| ==> ops[i].node in universe
  }

  lemma {:induction false} RunCovered(hash: Hash, v: nat, ops: seq<Op>, universe: set<NodeId>)
    requires Names(ops, universe) && NodesApart(hash, universe, v)
    ensures Covered(hash, v, Run(hash, v, ops))
    ensures Elements(Run(hash, v, ops).nodes) <= universe
  {
    if ops != [] {
      var s, op := Run(hash, v, ops[..|ops| - 1]), ops[|ops| - 1];
      RunCovered(hash, v, ops[..|ops| - 1], universe);
      match op
      case Add(n) =>
        AddKeepsCovered(hash, v, s, n);
        ElementsConcat(s.nodes, [n]);
      case Remove(n) =>
        WithoutElements(s.nodes, n);
        assert Points(hash, n, v) !! AllPoints(hash, Elements(s.nodes) - {n}, v);
        RemoveKeepsCovered(hash, v, s, n);
    }
  }

  /** After any history the ring is the union of the points of the nodes now listed. */
  lemma RunIsUnion(hash: Hash, v: nat, ops: seq<Op>, universe: set<NodeId>)
    requires Names(ops, universe) && NodesApart(hash, universe, v)
    ensures IsUnion(hash, v, Run(hash, v, ops).ring, Elements(Run(hash, v, ops).nodes))
  {
    RunCovered(hash, v, ops, universe);
    CoveredIsUnion(hash, v, Run(hash, v, ops));
  }

  /** Any two histories of these nodes that end with the same members end with the same ring. */
  ghost predicate HistoryFree(hash: Hash, v: nat, universe: set<NodeId>) {
    forall a, b ::
      Names(a, universe) && Names(b, universe) && Elements(Run(hash, v, a).nodes) == Elements(Run(hash, v, b).nodes)
      ==> Run(hash, v, a).ring == Run(hash, v, b).ring
  }

  lemma SameMembersSameRing(hash: Hash, v: nat, a: seq<Op>, b: seq<Op>, universe: set<NodeId>)
    requires Names(a, universe) && Names(b, universe) && NodesApart(hash, universe, v)
    requires Elements(Run(hash, v, a).nodes) == Elements(Run(hash, v, b).nodes)
    ensures Run(hash, v, a).ring == Run(hash, v, b).ring
  {
    RunIsUnion(hash, v, a, universe);
    RunIsUnion(hash, v, b, universe);
    UnionIsUnique(hash, v, Run(hash, v, a).ring, Run(hash, v, b).ring, Elements(Run(hash, v, a).nodes));
  }

  lemma AddFirst(hash: Hash, v: nat, m: NodeId)
    ensures Added(hash, v, EMPTY, m) == State(Owned(Points(hash, m, v), m), [m])
  {
    assert EMPTY.ring + Owned(Points(hash, m, v), m) == Owned(Points(hash, m, v), m);
    assert [] + [m] == [m];
  }

  lemma AddSecond(hash: Hash, v: nat, m: NodeId, n: NodeId)
    requires m != n
    ensures Added(hash, v, Added(hash, v, EMPTY, m), n)
            == State(Owned(Points(hash, m, v), m) + Owned(Points(hash, n, v), n), [m, n])
  {
    AddFirst(hash, v, m);
    assert n !in [m] && [m] + [n] == [m, n];
  }

  lemma AddTwo(hash: Hash, v: nat, m: NodeId, n: NodeId)
    requires m != n
    ensures Run(hash, v, [Add(m), Add(n)])
            == State(Owned(Points(hash, m, v), m) + Owned(Points(hash, n, v), n), [m, n])
  {
    assert [Add(m), Add(n)][..1] == [Add(m)] && [Add(m)][..0] == [];
    AddFirst(hash, v, m);
    assert Run(hash, v, [Add(m)]) == Added(hash, v, EMPTY, m);
    AddSecond(hash, v, m, n);
  }

  /** On a shared position the later of two joins wins. */
  lemma LaterJoinWins(hash: Hash, v: nat, m: NodeId, n: NodeId, p: Position)
    requires m != n && p in Points(hash, n, v)
    ensures var s := Run(hash, v, [Add(m), Add(n)]);
            s.nodes == [m, n] && p in s.ring && s.ring[p] == n
  {
    AddTwo(hash, v, m, n);
  }

  lemma CollisionKeepsOrder(hash: Hash, v: nat, m: NodeId, n: NodeId, universe: set<NodeId>)
    requires m in universe && n in universe && m != n && !(Points(hash, m, v) !! Points(hash, n, v))
    ensures !HistoryFree(hash, v, universe)
  {
    var p := Common(Points(hash, m, v), Points(hash, n, v));
    var a, b := [Add(m), Add(n)], [Add(n), Add(m)];
    LaterJoinWins(hash, v, m, n, p);
    LaterJoinWins(hash, v, n, m, p);
    assert Elements([m, n]) == Elements([n, m]);
    RingsDiffer(hash, v, a, b, universe, p);
  }

  lemma RingsDiffer(hash: Hash, v: nat, a: seq<Op>, b: seq<Op>, universe: set<NodeId>, p: Position)
    requires Names(a, universe) && Names(b, universe)
    requires Elements(Run(hash, v, a).nodes) == Elements(Run(hash, v, b).nodes)
    requires Get(Run(hash, v, a).ring, p) != Get(Run(hash, v, b).ring, p)
    ensures !HistoryFree(hash, v, universe)
  {
  }

  /** History leaves no trace exactly when no two of the nodes share a position. */
  lemma HistoryDoesNotMatter(hash: Hash, v: nat, universe: set<NodeId>)
    ensures HistoryFree(hash, v, universe) <==> NodesApart(hash, universe, v)
  {
    if NodesApart(hash, universe, v) {
      forall a, b | Names(a, universe) && Names(b, universe) && Elements(Run(hash, v, a).nodes) == Elements(Run(hash, v, b).nodes)
        ensures Run(hash, v, a).ring == Run(hash, v, b).ring
      {
        SameMembersSameRing(hash, v, a, b, universe);
      }
    } else {
      var m, n :| m in universe && n in universe && m != n && !(Points(hash, m, v) !! Points(hash, n, v));
      CollisionKeepsOrder(hash, v, m, n, universe);
    }
  }

  /** Adding an absent node and removing it restores ring and member list, exactly when its positions were free. */
  lemma AddThenRemove(hash: Hash, v: nat, s: State, node: NodeId)
    requires node !in s.nodes
    ensures Removed(hash, v, Added(hash, v, s, node), node) == s <==> Points(hash, node, v) !! s.ring.Keys
  {
    var t := Removed(hash, v, Added(hash, v, s, node), node);
    WithoutConcat(s.nodes, [node], node);
    WithoutAbsent(s.nodes, node);
    assert [node][..0] == [];
    assert t.nodes == s.nodes;
    if Points(hash, node, v) !! s.ring.Keys {
      assert t.ring == s.ring;
    } else {
      var p := Common(Points(hash, node, v), s.ring.Keys);
      assert p in s.ring && p !in t.ring;
    }
  }

  /** Adding a, then b, then removing b leaves a listed with none of its positions exactly when b has them all. */
  lemma CollisionLosesMember(hash: Hash, v: nat, a: NodeId, b: NodeId)
    requires a != b
    ensures Removed(hash, v, Added(hash, v, Added(hash, v, EMPTY, a), b), b) == State(map[], [a])
            <==> Points(hash, a, v) <= Points(hash, b, v)
  {
    AddSecond(hash, v, a, b);
    assert [a, b][..1] == [a] && [a][..0] == [];
    assert Without([a, b], b) == Without([a], b) == [a];
    var last := Removed(hash, v, Added(hash, v, Added(hash, v, EMPTY, a), b), b);
    assert last.nodes == [a];
    assert last.ring.Keys == Points(hash, a, v) - Points(hash, b, v);
    if Points(hash, a, v) <= Points(hash, b, v) {
      assert last.ring == map[];
    } else {
      var p := Outside(Points(hash, a, v), Points(hash, b, v));
      assert p in last.ring;
    }
  }

  /** Such a hash: the constant one. */
  lemma ConstantHashLosesMember(v: nat, a: NodeId, b: NodeId)
    requires a != b && v > 0
    ensures var hash: Hash := key => 7;
            && Points(hash, a, v) != {}
            && Removed(hash, v, Added(hash, v, Added(hash, v, EMPTY, a), b), b) == State(map[], [a])
  {
    var hash: Hash := key => 7;
    assert hash(VirtualKey(a, 0)) in Points(hash, a, v) && hash(VirtualKey(b, 0)) in Points(hash, b, v);
    CollisionLosesMember(hash, v, a, b);
  }

  // ---------------------------------------------------------------- what a change moves

  lemma {:induction false} InOrderWithout(ring: Ring, keys: set<Position>, kept: Ring, keys': set<Position>, node: NodeId)
    requires keys <= ring.Keys && keys' <= kept.Keys
    requires forall p :: p in keys' <==> p in keys && ring[p] != node
    requires forall p :: p in keys' ==> kept[p] == ring[p]
    ensures InOrder(kept, keys') == Without(InOrder(ring, keys), node)
  {
    if keys == {} {
      if keys' != {} {
        var p := Pick(keys');
      }
    } else {
      var m := Max(keys);
      var front := InOrder(ring, keys - {m});
      assert (front + [ring[m]])[..|front|] == front;
      InOrderWithout(ring, keys - {m}, kept, keys' - {m}, node);
      if ring[m] == node {
        assert keys' - {m} == keys';
      } else {
        assert IsMax(m, keys');
      }
    }
  }

  /** On this ring the node's positions are exactly those it owns. */
  ghost predicate OwnsItsPoints(hash: Hash, v: nat, ring: Ring, node: NodeId) {
    forall p :: p in ring ==> (ring[p] == node <==> p in Points(hash, node, v))
  }

  /** No other node of the universe shares a position with this one. */
  ghost predicate Alone(hash: Hash, v: nat, node: NodeId, universe: set<NodeId>) {
    forall m :: m in universe && m != node ==> Points(hash, m, v) !! Points(hash, node, v)
  }

  lemma StepOwns(hash: Hash, v: nat, s: State, op: Op, node: NodeId)
    requires OwnsItsPoints(hash, v, s.ring, node)
    requires op.node == node || Points(hash, op.node, v) !! Points(hash, node, v)
    ensures OwnsItsPoints(hash, v, Step(hash, v, s, op).ring, node)
  {
  }

  lemma {:induction false} RunOwns(hash: Hash, v: nat, ops: seq<Op>, node: NodeId, universe: set<NodeId>)
    requires Names(ops, universe) && Alone(hash, v, node, universe)
    ensures OwnsItsPoints(hash, v, Run(hash, v, ops).ring, node)
  {
    if ops != [] {
      RunOwns(hash, v, ops[..|ops| - 1], node, universe);
      StepOwns(hash, v, Run(hash, v, ops[..|ops| - 1]), ops[|ops| - 1], node);
    }
  }

  ghost predicate AlwaysOwns(hash: Hash, v: nat, node: NodeId, universe: set<NodeId>) {
    forall ops :: Names(ops, universe) ==> OwnsItsPoints(hash, v, Run(hash, v, ops).ring, node)
  }

  /** A node owns its positions after every history exactly when it shares none; the others may collide. */
  lemma OwnsExactly(hash: Hash, v: nat, node: NodeId, universe: set<NodeId>)
    requires node in universe
    ensures AlwaysOwns(hash, v, node, universe) <==> Alone(hash, v, node, universe)
  {
    if Alone(hash, v, node, universe) {
      forall ops | Names(ops, universe) ensures OwnsItsPoints(hash, v, Run(hash, v, ops).ring, node) {
        RunOwns(hash, v, ops, node, universe);
      }
    } else {
      var m :| m in universe && m != node && !(Points(hash, m, v) !! Points(hash, node, v));
      var p := Common(Points(hash, m, v), Points(hash, node, v));
      var ops := [Add(node), Add(m)];
      AddTwo(hash, v, node, m);
      assert Names(ops, universe) && Run(hash, v, ops).ring[p] == m;
    }
  }

  /** Removing a node that owns its positions drops it from the walk and leaves the rest in order. */
  lemma RemovalDropsFromWalk(hash: Hash, v: nat, s: State, node: NodeId, h: Position)
    requires OwnsItsPoints(hash, v, s.ring, node)
    ensures Clockwise(Removed(hash, v, s, node).ring, h) == Without(Clockwise(s.ring, h), node)
  {
    var t := Removed(hash, v, s, node).ring;
    InOrderWithout(s.ring, KeysFrom(s.ring, h), t, KeysFrom(t, h), node);
    InOrderWithout(s.ring, KeysBefore(s.ring, h), t, KeysBefore(t, h), node);
    WithoutConcat(RangeFrom(s.ring, h), InOrder(s.ring, KeysBefore(s.ring, h)), node);
  }

  /** Every replica list after such a removal is the one-longer old list with the node dropped. */
  lemma RemovalShiftsReplicas(hash: Hash, v: nat, s: State, node: NodeId, h: Position, count: nat)
    requires OwnsItsPoints(hash, v, s.ring, node)
    ensures FirstOwners(Removed(hash, v, s, node).ring, h, count)
            == Take(Without(FirstOwners(s.ring, h, count + 1), node), count)
  {
    RemovalDropsFromWalk(hash, v, s, node, h);
    DistinctWithout(Clockwise(s.ring, h), node);
    DistinctElements(Clockwise(s.ring, h));
    TakeWithout(Distinct(Clockwise(s.ring, h)), node, count);
  }

  /** A key the node did not serve keeps its whole replica list, in the same order. */
  lemma RemovalKeepsOtherReplicas(hash: Hash, v: nat, s: State, node: NodeId, h: Position, count: nat)
    requires OwnsItsPoints(hash, v, s.ring, node)
    requires node !in FirstOwners(s.ring, h, count)
    ensures FirstOwners(Removed(hash, v, s, node).ring, h, count) == FirstOwners(s.ring, h, count)
  {
    RemovalShiftsReplicas(hash, v, s, node, h, count);
    TakeWithoutLater(Distinct(Clockwise(s.ring, h)), node, count);
  }

  /** After any history of nodes that share no position with this one: removing it shifts the lists it was on and
      keeps the others whole. */
  lemma RemovalAfterAnyHistory(hash: Hash, v: nat, ops: seq<Op>, universe: set<NodeId>, node: NodeId, h: Position, count: nat)
    requires Names(ops, universe) && Alone(hash, v, node, universe)
    ensures var was, now := Run(hash, v, ops).ring, Run(hash, v, ops + [Remove(node)]).ring;
            && FirstOwners(now, h, count) == Take(Without(FirstOwners(was, h, count + 1), node), count)
            && (node !in FirstOwners(was, h, count) ==> FirstOwners(now, h, count) == FirstOwners(was, h, count))
  {
    var s := Run(hash, v, ops);
    assert (ops + [Remove(node)])[..|ops|] == ops;
    RunOwns(hash, v, ops, node, universe);
    RemovalShiftsReplicas(hash, v, s, node, h, count);
    if node !in FirstOwners(s.ring, h, count) {
      RemovalKeepsOtherReplicas(hash, v, s, node, h, count);
    }
  }

  /** Adding a member, collisions or not, moves a key only to that member. */
  lemma AdditionMovesOnlyToNew(hash: Hash, v: nat, s: State, node: NodeId, h: Position)
    ensures var was, now := OwnerOf(s.ring, h), OwnerOf(Added(hash, v, s, node).ring, h);
            now == was || now == Some(node)
  {
    var t := Added(hash, v, s, node).ring;
    if t != map[] {
      var q := OwnerIsSuccessor(t, h);
      if t[q] != node {
        assert q in s.ring && s.ring[q] == t[q];
        var p := OwnerIsSuccessor(s.ring, h);
        assert p in t;
      }
    }
  }

  // ---------------------------------------------------------------- the router

  function ShardKey(shard: nat): string {
    "shard-" + Decimal(shard)
  }

  class ShardRouter {
    const ring: HashRing
    const shardCount: nat

    constructor (hash: Hash, shardCount: nat)
      ensures fresh(ring) && ring.hash == hash && ring.virtualNodes == 150
      ensures ring.Contents() == EMPTY && this.shardCount == shardCount
    {
      this.ring := new HashRing(hash, 150);
      this.shardCount := shardCount;
    }

    /** `shard_count as u32` keeps the low 32 bits. */
    function ShardIds(): nat {
      shardCount % 0x1_0000_0000
    }

    method AddNode(node: NodeId)
      modifies ring
      ensures ring.Contents() == Added(ring.hash, ring.virtualNodes, old(ring.Contents()), node)
    {
      ring.AddNode(node);
    }

    method RemoveNode(node: NodeId)
      modifies ring
      ensures ring.Contents() == Removed(ring.hash, ring.virtualNodes, old(ring.Contents()), node)
    {
      ring.RemoveNode(node);
    }

    function GetNodeForShard(shard: nat): Option<NodeId>
      reads ring
    {
      ring.GetNode(ShardKey(shard))
    }

    method CalculateShardMapping() returns (mapping: seq<(nat, NodeId)>)
      ensures mapping == Mapping(ring.hash, ring.ring, ShardIds())
    {
      mapping := [];
      for shard := 0 to ShardIds()
        invariant mapping == Mapping(ring.hash, ring.ring, shard)
      {
        var node := GetNodeForShard(shard);
        if node.Some? {
          mapping := mapping + [(shard, node.value)];
        }
      }
    }
  }

  function Mapping(hash: Hash, ring: Ring, shards: nat): seq<(nat, NodeId)> {
    if shards == 0 then []
    else
      var front := Mapping(hash, ring, shards - 1);
      match OwnerOf(ring, hash(ShardKey(shards - 1)))
      case None => front
      case Some(n) => front + [(shards - 1, n)]
  }

  /** A ring that holds a position lists every shard once, in order, with its owner; an empty ring lists none. */
  lemma {:induction false} MappingListsEveryShard(hash: Hash, ring: Ring, shards: nat)
    ensures ring == map[] ==> Mapping(hash, ring, shards) == []
    ensures ring != map[] ==>
              && |Mapping(hash, ring, shards)| == shards
              && forall i :: 0 <= i < shards ==>
                   && Mapping(hash, ring, shards)[i].0 == i
                   && OwnerOf(ring, hash(ShardKey(i))) == Some(Mapping(hash, ring, shards)[i].1)
  {
    if shards > 0 {
      MappingListsEveryShard(hash, ring, shards - 1);
      if ring != map[] {
        var p := OwnerIsSuccessor(ring, hash(ShardKey(shards - 1)));
      } else {
        assert Values(ring) == [];
      }
    }
  }

  /** After a node joins, each shard stays where it was or moves to that node. */
  lemma JoinMovesShardsOnlyToNew(hash: Hash, v: nat, s: State, node: NodeId, shards: nat, i: nat)
    requires s.ring != map[] && i < shards
    ensures var was, now := Mapping(hash, s.ring, shards), Mapping(hash, Added(hash, v, s, node).ring, shards);
            && |was| == |now| == shards
            && now[i].0 == was[i].0 == i
            && (now[i].1 == was[i].1 || now[i].1 == node)
  {
    var t := Added(hash, v, s, node).ring;
    var p := Pick(s.ring.Keys);
    assert p in t;
    MappingListsEveryShard(hash, s.ring, shards);
    MappingListsEveryShard(hash, t, shards);
    AdditionMovesOnlyToNew(hash, v, s, node, hash(ShardKey(i)));
  }

  /** The list is in clockwise order: member j is the first owner met outside the j members before it. */
  lemma FirstOwnersInClockwiseOrder(ring: Ring, h: Position, count: nat, j: nat) returns (k: nat)
    requires j < |FirstOwners(ring, h, count)|
    ensures var walk, list := Clockwise(ring, h), FirstOwners(ring, h, count);
            k < |walk| && walk[k] == list[j] && Elements(walk[..k]) == Elements(list[..j])
  {
    k := DistinctOrder(Clockwise(ring, h), j);
    assert FirstOwners(ring, h, count)[..j] == Distinct(Clockwise(ring, h))[..j];
  }

  // ---------------------------------------------------------------- virtual-node names

  predicate Digits(s: string) {
    forall i :: 0 <= i < |s| ==> '0' <= s[i] <= '9'
  }

  lemma {:induction false} DecimalDigits(n: nat)
    ensures Digits(Decimal(n)) && Decimal(n) != []
  {
    if n >= 10 {
      DecimalDigits(n / 10);
    }
  }

  lemma DigitInjective(d: nat, e: nat)
    requires d < 10 && e < 10 && Digit(d) == Digit(e)
    ensures d == e
  {
  }

  lemma {:induction false} DecimalInjective(m: nat, n: nat)
    requires Decimal(m) == Decimal(n)
    ensures m == n
  {
    var last := |Decimal(m)| - 1;
    DecimalDigits(m / 10);
    DecimalDigits(n / 10);
    if m >= 10 && n >= 10 {
      assert Decimal(m)[..last] == Decimal(m / 10) && Decimal(n)[..last] == Decimal(n / 10);
      DecimalInjective(m / 10, n / 10);
    }
    assert Decimal(m)[last] == Digit(m % 10) && Decimal(n)[last] == Digit(n % 10);
    DigitInjective(m % 10, n % 10);
  }

  ghost predicate LastDash(key: string, k: nat) {
    k < |key| && key[k] == '-' && forall i :: k < i < |key| ==> key[i] != '-'
  }

  lemma VirtualKeyParts(node: NodeId, i: nat)
    ensures LastDash(VirtualKey(node, i), |node|)
    ensures VirtualKey(node, i)[..|node|] == node && VirtualKey(node, i)[|node| + 1..] == Decimal(i)
  {
    DecimalDigits(i);
  }

  /** Different virtual nodes are hashed from different names. */
  lemma VirtualKeyInjective(a: NodeId, i: nat, b: NodeId, j: nat)
    requires VirtualKey(a, i) == VirtualKey(b, j)
    ensures a == b && i == j
  {
    VirtualKeyParts(a, i);
    VirtualKeyParts(b, j);
    DecimalInjective(i, j);
  }
}
