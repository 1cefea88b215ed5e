/**
 * Shard topology and its manager (src/cluster/config.rs, src/cluster/mod.rs).
 *
 * `rebalance_shards` deals shards round-robin in the order a `HashMap` happens to list the
 * active nodes; the order is arbitrary here.
 */
module Topology {
  import opened Basics
  import Ring = HashRing

  type NodeId = Ring.NodeId
  type ShardId = nat

  datatype NodeStatus = Joining | Active | Suspect | Offline | Leaving
  datatype NodeInfo = NodeInfo(
    id: NodeId, address: string, status: NodeStatus, shards: seq<ShardId>,
    capacity: nat, load: nat, lastHeartbeat: nat)

  /** The shard count `rebalance_shards` uses, whatever the configuration says. */
  const DEALT: nat := 256

  /** The value of a topology. */
  datatype State = State(
    version: nat,
    shardToNode: map<ShardId, NodeId>,
    shardReplicas: map<ShardId, seq<NodeId>>,
    nodes: map<NodeId, NodeInfo>)

  function Joined(t: State, node: NodeInfo): State {
    t.(nodes := t.nodes[node.id := node], version := t.version + 1)
  }

  function Left(t: State, id: NodeId): State {
    State(
      t.version + 1,
      map s | s in t.shardToNode && t.shardToNode[s] != id :: t.shardToNode[s],
      map s | s in t.shardReplicas :: Without(t.shardReplicas[s], id),
      t.nodes - {id})
  }

  function ActiveIds(nodes: map<NodeId, NodeInfo>): set<NodeId> {
    set id | id in nodes && nodes[id].status == Active
  }

  /** Shards 0..count-1 dealt in turn. */
  function Dealt(order: seq<NodeId>, count: nat): map<ShardId, NodeId>
    requires order != []
  {
    if count == 0 then map[] else Dealt(order, count - 1)[count - 1 := order[(count - 1) % |order|]]
  }

  ghost predicate ListsActive(order: seq<NodeId>, nodes: map<NodeId, NodeInfo>) {
    NoDuplicates(order) && Elements(order) == ActiveIds(nodes)
  }

  /** One possible outcome of `rebalance_shards`. */
  ghost predicate Rebalanced(t: State, t': State, order: seq<NodeId>) {
    if ActiveIds(t.nodes) == {} then t' == t
    else
      && ListsActive(order, t.nodes) && order != []
      && t' == t.(shardToNode := Dealt(order, DEALT), version := t.version + 1)
  }

  class ClusterTopology {
    var version: nat
    var shardToNode: map<ShardId, NodeId>
    var shardReplicas: map<ShardId, seq<NodeId>>
    var nodes: map<NodeId, NodeInfo>

    ghost function Contents(): State
      reads this
    {
      State(version, shardToNode, shardReplicas, nodes)
    }

    constructor ()
      ensures Contents() == State(1, map[], map[], map[])
    {
      version, shardToNode, shardReplicas, nodes := 1, map[], map[], map[];
    }

    method AddNode(node: NodeInfo)
      modifies this
      ensures Contents() == Joined(old(Contents()), node)
    {
      nodes := nodes[node.id := node];
      version := version + 1;
    }

    method RemoveNode(id: NodeId)
      modifies this
      ensures Contents() == Left(old(Contents()), id)
    {
      nodes := nodes - {id};
      shardToNode := map s | s in shardToNode && shardToNode[s] != id :: shardToNode[s];
      shardReplicas := map s | s in shardReplicas :: Without(shardReplicas[s], id);
      version := version + 1;
    }

    /** The active nodes in the map's own order, whatever it is. */
    method ActiveNodes() returns (order: seq<NodeId>)
      ensures ListsActive(order, nodes)
    {
      order := [];
      var rest := ActiveIds(nodes);
      while rest != {}
        invariant NoDuplicates(order)
        invariant Elements(order) !! rest && Elements(order) + rest == ActiveIds(nodes)
        decreases |rest|
      {
        var id :| id in rest;
        assert forall i :: 0 <= i < |order| ==> order[i] in Elements(order);
        ElementsConcat(order, [id]);
        order := order + [id];
        rest := rest - {id};
      }
    }

    method RebalanceShards() returns (ghost order: seq<NodeId>)
      modifies this
      ensures Rebalanced(old(Contents()), Contents(), order)
    {
      var active := ActiveNodes();
      order := active;
      assert active != [] ==> active[0] in Elements(active);
      if active == [] {
        return;
      }
      shardToNode := map[];
      for shard := 0 to 256
        invariant version == old(version) && shardReplicas == old(shardReplicas) && nodes == old(nodes)
        invariant shardToNode == Dealt(active, shard)
      {
        shardToNode := shardToNode[shard := active[shard % |active|]];
      }
      version := version + 1;
    }

    function GetNodeForShard(shard: ShardId): Option<NodeInfo>
      reads this
    {
      if shard in shardToNode && shardToNode[shard] in nodes then Some(nodes[shardToNode[shard]]) else None
    }

    function OwnsShard(shard: ShardId, id: NodeId): bool
      reads this
    {
      shard in shardToNode && shardToNode[shard] == id
    }
  }

  /** Vector-to-shard hashing: both casts written out. */
  function ShardOf(hash: nat, shardCount: nat): ShardId
    requires shardCount > 0
  {
    (hash % shardCount) % 0x1_0000_0000
  }

  class ClusterManager {
    const localNode: NodeId
    const shardCount: nat
    const topology: ClusterTopology
    const router: Ring.ShardRouter

    constructor (localNode: NodeId, shardCount: nat, hash: Ring.Hash)
      ensures fresh(topology) && fresh(router) && fresh(router.ring)
      ensures this.localNode == localNode && this.shardCount == shardCount
      ensures topology.Contents() == State(1, map[], map[], map[])
      ensures router.ring.hash == hash && router.ring.virtualNodes == 150 && router.shardCount == shardCount
      ensures router.ring.Contents() == Ring.Added(hash, 150, Ring.EMPTY, localNode)
    {
      this.localNode, this.shardCount := localNode, shardCount;
      topology := new ClusterTopology();
      router := new Ring.ShardRouter(hash, shardCount);
      new;
      router.AddNode(localNode);
    }

    /** `init_single_node`: the local node joins and is given every configured shard. */
    method InitSingleNode(address: string, now: nat)
      modifies topology, router.ring
      ensures topology.Contents() == SingleNode(old(topology.Contents()), localNode, shardCount, address, now)
      ensures router.ring.Contents()
              == Ring.Added(router.ring.hash, router.ring.virtualNodes, old(router.ring.Contents()), localNode)
    {
      var count := shardCount % 0x1_0000_0000;
      var node := NodeInfo(localNode, address, Active, seq(count, i => i), 100_000_000, 0, now);
      topology.AddNode(node);
      ghost var joined := topology.Contents();
      for shard := 0 to count
        invariant router.ring.Contents() == old(router.ring.Contents())
        invariant topology.Contents() == joined.(shardToNode := joined.shardToNode + AllTo(localNode, shard))
      {
        topology.shardToNode := topology.shardToNode[shard := localNode];
      }
      router.AddNode(localNode);
    }

    method AddNode(node: NodeInfo) returns (ghost order: seq<NodeId>)
      modifies topology, router.ring
      ensures Rebalanced(Joined(old(topology.Contents()), node), topology.Contents(), order)
      ensures router.ring.Contents()
              == Ring.Added(router.ring.hash, router.ring.virtualNodes, old(router.ring.Contents()), node.id)
    {
      topology.AddNode(node);
      order := topology.RebalanceShards();
      router.AddNode(node.id);
    }

    method RemoveNode(id: NodeId) returns (ghost order: seq<NodeId>)
      modifies topology, router.ring
      ensures Rebalanced(Left(old(topology.Contents()), id), topology.Contents(), order)
      ensures router.ring.Contents()
              == Ring.Removed(router.ring.hash, router.ring.virtualNodes, old(router.ring.Contents()), id)
    {
      topology.RemoveNode(id);
      order := topology.RebalanceShards();
      router.RemoveNode(id);
    }

    function GetNodeForVector(hash: nat): Option<NodeId>
      requires shardCount > 0
      reads topology
    {
      var node := topology.GetNodeForShard(ShardOf(hash, shardCount));
      if node.Some? then Some(node.value.id) else None
    }

    function OwnsVector(hash: nat): bool
      requires shardCount > 0
      reads topology
    {
      topology.OwnsShard(ShardOf(hash, shardCount), localNode)
    }
  }

  function AllTo(id: NodeId, count: nat): map<ShardId, NodeId> {
    if count == 0 then map[] else AllTo(id, count - 1)[count - 1 := id]
  }

  function SingleNode(t: State, id: NodeId, shardCount: nat, address: string, now: nat): State {
    var count := shardCount % 0x1_0000_0000;
    var joined := Joined(t, NodeInfo(id, address, Active, seq(count, i => i), 100_000_000, 0, now));
    joined.(shardToNode := joined.shardToNode + AllTo(id, count))
  }

  // ---------------------------------------------------------------- runs

  datatype Op = Add(node: NodeInfo) | Remove(id: NodeId) | InitSingle(id: NodeId, shardCount: nat, address: string, now: nat)

  function Changed(t: State, op: Op): State {
    match op
    case Add(node) => Joined(t, node)
    case Remove(id) => Left(t, id)
    case InitSingle(id, count, address, now) => SingleNode(t, id, count, address, now)
  }

  /** One manager operation; joins and leaves rebalance in some order. */
  ghost predicate Steps(t: State, op: Op, t': State) {
    if op.InitSingle? then t' == Changed(t, op)
    else exists order :: Rebalanced(Changed(t, op), t', order)
  }

  ghost predicate IsRun(ts: seq<State>, ops: seq<Op>) {
    && |ts| == |ops| + 1
    && ts[0] == State(1, map[], map[], map[])
    && forall i :: 0 <= i < |ops| ==> Steps(ts[i], ops[i], ts[i + 1])
  }

  /** Every owner is a known node, and nodes are filed under their own ids. */
  ghost predicate Referential(t: State) {
    && (forall s :: s in t.shardToNode ==> t.shardToNode[s] in t.nodes)
    && (forall id :: id in t.nodes ==> t.nodes[id].id == id)
  }

  lemma StepKeepsReferential(t: State, op: Op, t': State)
    requires Referential(t) && Steps(t, op, t')
    ensures Referential(t')
    ensures t'.version > t.version
  {
    ChangeKeepsReferential(t, op);
    if !op.InitSingle? {
      var order :| Rebalanced(Changed(t, op), t', order);
      if ActiveIds(Changed(t, op).nodes) != {} {
        DealtShards(order, DEALT);
      }
    }
  }

  lemma ChangeKeepsReferential(t: State, op: Op)
    requires Referential(t)
    ensures Referential(Changed(t, op))
  {
    if op.InitSingle? {
      AllToValues(op.id, op.shardCount % 0x1_0000_0000);
    }
  }

  lemma {:induction false} AllToValues(id: NodeId, count: nat)
    ensures forall s: nat :: s in AllTo(id, count) <==> s < count
    ensures forall s :: s in AllTo(id, count) ==> AllTo(id, count)[s] == id
  {
    if count > 0 {
      AllToValues(id, count - 1);
    }
  }

  /** In every reachable topology shard owners are known nodes, and the version has risen with every operation. */
  lemma {:induction false} RunReferential(ts: seq<State>, ops: seq<Op>, i: nat)
    requires IsRun(ts, ops) && i <= |ops|
    ensures Referential(ts[i])
    ensures forall j :: 0 <= j < i ==> ts[j].version < ts[i].version
  {
    if i > 0 {
      RunReferential(ts, ops, i - 1);
      StepKeepsReferential(ts[i - 1], ops[i - 1], ts[i]);
    }
  }

  // ---------------------------------------------------------------- balance

  function ShardsOf(m: map<ShardId, NodeId>, id: NodeId): set<ShardId> {
    set s | s in m && m[s] == id
  }

  lemma {:induction false} DealtShards(order: seq<NodeId>, count: nat)
    requires order != []
    ensures forall s: nat :: s in Dealt(order, count) <==> s < count
    ensures forall s :: s in Dealt(order, count) ==> Dealt(order, count)[s] in Elements(order)
  {
    if count > 0 {
      DealtShards(order, count - 1);
    }
  }

  /** Node k of n is dealt one shard of every full round, and one more if the last round reaches it. */
  lemma {:induction false} DealtCounts(order: seq<NodeId>, count: nat, k: nat)
    requires NoDuplicates(order) && k < |order|
    ensures |ShardsOf(Dealt(order, count), order[k])| == count / |order| + if k < count % |order| then 1 else 0
  {
    if count == 0 {
      assert ShardsOf(Dealt(order, count), order[k]) == {};
    } else {
      DealtCounts(order, count - 1, k);
      NextRemainder(count - 1, |order|);
      DealOne(order, count, k);
    }
  }

  lemma DealOne(order: seq<NodeId>, count: nat, k: nat)
    requires NoDuplicates(order) && k < |order| && count > 0
    ensures |ShardsOf(Dealt(order, count), order[k])|
            == |ShardsOf(Dealt(order, count - 1), order[k])| + if (count - 1) % |order| == k then 1 else 0
  {
    DealtShards(order, count - 1);
    var fewer, more := ShardsOf(Dealt(order, count - 1), order[k]), ShardsOf(Dealt(order, count), order[k]);
    assert more == if (count - 1) % |order| == k then fewer + {count - 1} else fewer;
    assert count - 1 !in fewer;
  }

  /** Exactly the first 256 shards have an owner, every owner is active, and loads differ by at most one. */
  ghost predicate Balanced(t: State) {
    && (forall s: nat :: s in t.shardToNode <==> s < DEALT)
    && (forall s :: s in t.shardToNode ==> t.shardToNode[s] in ActiveIds(t.nodes))
    && (forall a, b :: a in ActiveIds(t.nodes) && b in ActiveIds(t.nodes) ==>
          |ShardsOf(t.shardToNode, a)| <= |ShardsOf(t.shardToNode, b)| + 1)
  }

  lemma RebalancedIsBalanced(t: State, t': State, order: seq<NodeId>)
    requires Rebalanced(t, t', order) && ActiveIds(t.nodes) != {}
    ensures Balanced(t')
  {
    DealtShards(order, DEALT);
    forall a, b | a in Elements(order) && b in Elements(order)
      ensures |ShardsOf(t'.shardToNode, a)| <= |ShardsOf(t'.shardToNode, b)| + 1
    {
      var i :| 0 <= i < |order| && order[i] == a;
      var j :| 0 <= j < |order| && order[j] == b;
      DealtCounts(order, DEALT, i);
      DealtCounts(order, DEALT, j);
    }
  }

  /** After any join or leave that leaves an active node, the topology is balanced. */
  lemma StepBalances(t: State, op: Op, t': State)
    requires Steps(t, op, t') && !op.InitSingle? && ActiveIds(t'.nodes) != {}
    ensures Balanced(t')
  {
    var order :| Rebalanced(Changed(t, op), t', order);
    RebalancedIsBalanced(Changed(t, op), t', order);
  }

  // ---------------------------------------------------------------- routing

  function RouteTo(t: State, shard: ShardId): Option<NodeId> {
    if shard in t.shardToNode && t.shardToNode[shard] in t.nodes then Some(t.nodes[t.shardToNode[shard]].id) else None
  }

  /** A node owns a shard exactly when requests for it are routed there, so owners are unique. */
  lemma OwnerIsRoute(t: State, shard: ShardId, id: NodeId)
    requires Referential(t)
    ensures shard in t.shardToNode && t.shardToNode[shard] == id <==> RouteTo(t, shard) == Some(id)
  {
  }

  /** A balanced cluster can route every configured shard exactly when no more than 256 are configured. */
  lemma EveryShardRouted(t: State, shardCount: nat)
    requires Referential(t) && Balanced(t)
    ensures (forall s: nat :: s < shardCount ==> RouteTo(t, s).Some?) <==> shardCount <= DEALT
  {
    if shardCount > DEALT {
      assert RouteTo(t, DEALT) == None;
    }
  }
}
