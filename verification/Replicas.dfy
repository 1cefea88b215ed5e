/**
 * The replica tracker (src/cluster/replication.rs): two indexes over the same placements, and
 * the statistics taken from them. Timestamps are arguments.
 */
module Replicas {
  import opened Basics

  type NodeId = string
  type ShardId = nat

  datatype Role = Leader | Follower | Learner
  datatype Replica = Replica(shard: ShardId, node: NodeId, role: Role, lag: nat, lastApplied: nat, online: bool, createdAt: nat)

  type ByShard = map<ShardId, seq<Replica>>
  type ByNode = map<NodeId, set<ShardId>>

  datatype State = State(byShard: ByShard, byNode: ByNode)

  const EMPTY := State(map[], map[])

  function At(m: ByShard, s: ShardId): seq<Replica> {
    if s in m then m[s] else []
  }

  function On(m: ByNode, n: NodeId): set<ShardId> {
    if n in m then m[n] else {}
  }

  function Nodes(rs: seq<Replica>): seq<NodeId> {
    if rs == [] then [] else Nodes(rs[..|rs| - 1]) + [rs[|rs| - 1].node]
  }

  // ---------------------------------------------------------------- changes

  function Registered(t: State, r: Replica): State {
    State(t.byShard[r.shard := At(t.byShard, r.shard) + [r]],
          t.byNode[r.node := On(t.byNode, r.node) + {r.shard}])
  }

  /** `retain(|r| r.node_id != node)`. */
  function Evicted(rs: seq<Replica>, n: NodeId): seq<Replica> {
    if rs == [] then []
    else Evicted(rs[..|rs| - 1], n) + if rs[|rs| - 1].node == n then [] else [rs[|rs| - 1]]
  }

  function Removed(t: State, s: ShardId, n: NodeId): State {
    State(if s in t.byShard then t.byShard[s := Evicted(t.byShard[s], n)] else t.byShard,
          if n in t.byNode then t.byNode[n := t.byNode[n] - {s}] else t.byNode)
  }

  datatype Update = Online(online: bool) | Applied(lastApplied: nat)

  function FirstLeader(rs: seq<Replica>): Option<Replica> {
    if rs == [] then None else if rs[0].role == Leader then Some(rs[0]) else FirstLeader(rs[1..])
  }

  /** The leader has no lag; others lag by the sequence numbers they miss. */
  function Apply(r: Replica, u: Update, leaderApplied: nat): Replica {
    match u
    case Online(b) => r.(online := b)
    case Applied(k) =>
      r.(lastApplied := k,
         lag := if r.role == Leader || leaderApplied <= k then 0 else leaderApplied - k)
  }

  /** Only the first replica on the node is changed. */
  function UpdateFirst(rs: seq<Replica>, n: NodeId, u: Update, leaderApplied: nat): seq<Replica> {
    if rs == [] then []
    else if rs[0].node == n then [Apply(rs[0], u, leaderApplied)] + rs[1..]
    else [rs[0]] + UpdateFirst(rs[1..], n, u, leaderApplied)
  }

  function LeaderApplied(rs: seq<Replica>): nat {
    match FirstLeader(rs) case None => 0 case Some(l) => l.lastApplied
  }

  function Updated(t: State, s: ShardId, n: NodeId, u: Update): State {
    if s !in t.byShard then t
    else t.(byShard := t.byShard[s := UpdateFirst(t.byShard[s], n, u, LeaderApplied(t.byShard[s]))])
  }

  /** Every replica of the list registered in turn. */
  function AllRegistered(t: State, rs: seq<Replica>): State {
    if rs == [] then t else Registered(AllRegistered(t, rs[..|rs| - 1]), rs[|rs| - 1])
  }

  /** The first candidate leads; further ones up to the replication factor follow. */
  function Placement(shard: ShardId, candidates: seq<NodeId>, factor: nat, now: nat): seq<Replica>
    requires factor > 0
  {
    if candidates == [] then []
    else
      var n := if factor < |candidates| then factor else |candidates|;
      seq(n, i requires 0 <= i < n =>
        Replica(shard, candidates[i], if i == 0 then Leader else Follower, 0, 0, true, now))
  }

  // ---------------------------------------------------------------- statistics

  function CountOnline(rs: seq<Replica>): nat {
    if rs == [] then 0 else CountOnline(rs[..|rs| - 1]) + if rs[|rs| - 1].online then 1 else 0
  }

  function SumLag(rs: seq<Replica>): nat {
    if rs == [] then 0 else SumLag(rs[..|rs| - 1]) + rs[|rs| - 1].lag
  }

  /** The replicas of the given shards, lowest shard first. */
  function Gather(m: ByShard, shards: set<ShardId>): seq<Replica>
    requires shards <= m.Keys
  {
    if shards == {} then [] else Gather(m, shards - {Max(shards)}) + m[Max(shards)]
  }

  class ReplicaTracker {
    const factor: nat
    var byShard: ByShard
    var byNode: ByNode

    ghost function Contents(): State
      reads this
    {
      State(byShard, byNode)
    }

    constructor (factor: nat)
      ensures this.factor == factor && Contents() == EMPTY
    {
      this.factor, byShard, byNode := factor, map[], map[];
    }

    method RegisterReplica(r: Replica)
      modifies this
      ensures Contents() == Registered(old(Contents()), r)
    {
      byShard := byShard[r.shard := At(byShard, r.shard) + [r]];
      byNode := byNode[r.node := On(byNode, r.node) + {r.shard}];
    }

    method RemoveReplica(s: ShardId, n: NodeId)
      modifies this
      ensures Contents() == Removed(old(Contents()), s, n)
    {
      if s in byShard {
        byShard := byShard[s := Evicted(byShard[s], n)];
      }
      if n in byNode {
        byNode := byNode[n := byNode[n] - {s}];
      }
    }

    /** `update_replica_status` and `update_replication_lag`: the first match is changed, then the loop stops. */
    method UpdateReplica(s: ShardId, n: NodeId, u: Update)
      modifies this
      ensures Contents() == Updated(old(Contents()), s, n, u)
    {
      if s !in byShard {
        return;
      }
      var rs := byShard[s];
      var leaderApplied := LeaderApplied(rs);
      var i := 0;
      while i < |rs|
        invariant 0 <= i <= |rs| && Contents() == old(Contents())
        invariant UpdateFirst(rs, n, u, leaderApplied) == rs[..i] + UpdateFirst(rs[i..], n, u, leaderApplied)
      {
        UpdateAt(rs, i, n, u, leaderApplied);
        if rs[i].node == n {
          byShard := byShard[s := rs[i := Apply(rs[i], u, leaderApplied)]];
          return;
        }
        i := i + 1;
      }
      assert rs[..|rs|] + [] == rs;
      assert byShard[s := rs] == byShard;
    }

    method AssignReplicas(shard: ShardId, candidates: seq<NodeId>, now: nat) returns (replicas: seq<Replica>)
      requires factor > 0
      modifies this
      ensures replicas == Placement(shard, candidates, factor, now)
      ensures Contents() == AllRegistered(old(Contents()), replicas)
    {
      replicas := [];
      if candidates == [] {
        return;
      }
      var rf := if factor < |candidates| then factor else |candidates|;
      replicas := [Replica(shard, candidates[0], Leader, 0, 0, true, now)];
      ghost var all := Placement(shard, candidates, factor, now);
      for i := 1 to rf
        invariant |replicas| == i && replicas == all[..i]
      {
        replicas := replicas + [Replica(shard, candidates[i], Follower, 0, 0, true, now)];
      }
      assert replicas == all;
      for i := 0 to |replicas|
        invariant Contents() == AllRegistered(old(Contents()), replicas[..i])
      {
        RegisterReplica(replicas[i]);
        assert replicas[..i + 1][..i] == replicas[..i];
      }
      assert replicas[..|replicas|] == replicas;
    }

    /** One pass over the shards in whatever order the map lists them. */
    method GetStats() returns (shards: nat, total: nat, online: nat, offline: nat, avgLag: nat)
      ensures shards == |byShard|
      ensures var all := Gather(byShard, byShard.Keys);
              && total == |all| && online == CountOnline(all) && offline == total - online
              && avgLag == if total == 0 then 0 else SumLag(all) / total
    {
      shards := |byShard|;
      total, online := 0, 0;
      var lag: nat := 0;
      var rest := byShard.Keys;
      assert byShard.Keys - rest == {};
      while rest != {}
        invariant rest <= byShard.Keys
        invariant Totals(byShard, byShard.Keys - rest, total, online, lag)
        decreases |rest|
      {
        var s :| s in rest;
        GatherAny(byShard, byShard.Keys - rest, s, total, online, lag);
        assert byShard.Keys - (rest - {s}) == byShard.Keys - rest + {s};
        total := total + |byShard[s]|;
        online := online + CountOnline(byShard[s]);
        lag := lag + SumLag(byShard[s]);
        rest := rest - {s};
      }
      assert byShard.Keys - rest == byShard.Keys;
      OnlineBounded(Gather(byShard, byShard.Keys));
      offline := total - online;
      avgLag := if total > 0 then lag / total else 0;
    }
  }

  lemma UpdateAt(rs: seq<Replica>, i: nat, n: NodeId, u: Update, leaderApplied: nat)
    requires i < |rs|
    ensures rs[..i] + UpdateFirst(rs[i..], n, u, leaderApplied)
            == if rs[i].node == n then rs[i := Apply(rs[i], u, leaderApplied)]
               else rs[..i + 1] + UpdateFirst(rs[i + 1..], n, u, leaderApplied)
  {
    assert rs[i..][1..] == rs[i + 1..];
  }

  ghost predicate Totals(m: ByShard, shards: set<ShardId>, total: nat, online: nat, lag: nat)
    requires shards <= m.Keys
  {
    var all := Gather(m, shards);
    total == |all| && online == CountOnline(all) && lag == SumLag(all)
  }

  lemma {:induction false} SumsConcat(a: seq<Replica>, b: seq<Replica>)
    ensures CountOnline(a + b) == CountOnline(a) + CountOnline(b)
    ensures SumLag(a + b) == SumLag(a) + SumLag(b)
  {
    if b == [] {
      assert a + b == a;
    } else {
      assert (a + b)[..|a + b| - 1] == a + b[..|b| - 1];
      SumsConcat(a, b[..|b| - 1]);
    }
  }

  lemma {:induction false} OnlineBounded(rs: seq<Replica>)
    ensures CountOnline(rs) <= |rs|
  {
    if rs != [] {
      OnlineBounded(rs[..|rs| - 1]);
    }
  }

  /** Sums do not depend on which shard is taken last. */
  lemma {:induction false} GatherAny(m: ByShard, shards: set<ShardId>, s: ShardId, total: nat, online: nat, lag: nat)
    requires shards <= m.Keys && s in m && s !in shards
    requires Totals(m, shards, total, online, lag)
    ensures Totals(m, shards + {s}, total + |m[s]|, online + CountOnline(m[s]), lag + SumLag(m[s]))
  {
    var all := shards + {s};
    var top := Max(all);
    if top == s {
      assert all - {s} == shards;
      SumsConcat(Gather(m, shards), m[s]);
    } else {
      assert IsMax(top, shards);
      var fewer := Gather(m, shards - {top});
      SumsConcat(fewer, m[top]);
      GatherAny(m, shards - {top}, s, |fewer|, CountOnline(fewer), SumLag(fewer));
      assert all - {top} == shards - {top} + {s};
      SumsConcat(Gather(m, all - {top}), m[top]);
    }
  }

  // ---------------------------------------------------------------- the indexes agree

  /** s is in `node_shards[n]` exactly when some replica in `shard_replicas[s]` has node n. */
  ghost predicate Agree(t: State) {
    forall s, n :: s in On(t.byNode, n) <==> n in Nodes(At(t.byShard, s))
  }

  lemma {:induction false} EvictedNodes(rs: seq<Replica>, n: NodeId)
    ensures Nodes(Evicted(rs, n)) == Without(Nodes(rs), n)
  {
    if rs != [] {
      var front, last := rs[..|rs| - 1], rs[|rs| - 1];
      EvictedNodes(front, n);
      assert Nodes(rs)[..|Nodes(front)|] == Nodes(front);
      NodesSnoc(Evicted(front, n), last);
      assert Evicted(front, n) + [] == Evicted(front, n);
    }
  }

  lemma NodesSnoc(rs: seq<Replica>, r: Replica)
    ensures Nodes(rs + [r]) == Nodes(rs) + [r.node]
  {
    assert (rs + [r])[..|rs|] == rs;
  }

  lemma {:induction false} NodesCons(r: Replica, rs: seq<Replica>)
    ensures Nodes([r] + rs) == [r.node] + Nodes(rs)
  {
    if rs == [] {
      assert [r] + rs == [] + [r];
      NodesSnoc([], r);
    } else {
      var front, last := rs[..|rs| - 1], rs[|rs| - 1];
      NodesCons(r, front);
      NodesSnoc([r] + front, last);
      assert [r] + rs == ([r] + front) + [last];
    }
  }

  lemma {:induction false} UpdateKeepsNodes(rs: seq<Replica>, n: NodeId, u: Update, leaderApplied: nat)
    ensures Nodes(UpdateFirst(rs, n, u, leaderApplied)) == Nodes(rs)
  {
    if rs != [] {
      assert rs == [rs[0]] + rs[1..];
      NodesCons(rs[0], rs[1..]);
      NodesCons(Apply(rs[0], u, leaderApplied), rs[1..]);
      UpdateKeepsNodes(rs[1..], n, u, leaderApplied);
      NodesCons(rs[0], UpdateFirst(rs[1..], n, u, leaderApplied));
    }
  }

  datatype Op = Register(replica: Replica) | Remove(shard: ShardId, node: NodeId) | Change(shard: ShardId, node: NodeId, update: Update)

  function Step(t: State, op: Op): State {
    match op
    case Register(r) => Registered(t, r)
    case Remove(s, n) => Removed(t, s, n)
    case Change(s, n, u) => Updated(t, s, n, u)
  }

  function Run(ops: seq<Op>): State {
    if ops == [] then EMPTY else Step(Run(ops[..|ops| - 1]), ops[|ops| - 1])
  }

  /** The nodes of a shard after one operation. */
  lemma StepNodes(t: State, op: Op, s: ShardId)
    ensures Nodes(At(Step(t, op).byShard, s))
            == match op
               case Register(r) => if r.shard == s then Nodes(At(t.byShard, s)) + [r.node] else Nodes(At(t.byShard, s))
               case Remove(s', n) => if s' == s then Without(Nodes(At(t.byShard, s)), n) else Nodes(At(t.byShard, s))
               case Change(_, _, _) => Nodes(At(t.byShard, s))
  {
    match op
    case Register(r) => NodesSnoc(At(t.byShard, r.shard), r);
    case Remove(s', n) => EvictedNodes(At(t.byShard, s'), n);
    case Change(s', n, u) =>
      if s' in t.byShard {
        UpdateKeepsNodes(t.byShard[s'], n, u, LeaderApplied(t.byShard[s']));
      }
  }

  /** The shards of a node after one operation. */
  lemma StepShards(t: State, op: Op, n: NodeId)
    ensures On(Step(t, op).byNode, n)
            == match op
               case Register(r) => if r.node == n then On(t.byNode, n) + {r.shard} else On(t.byNode, n)
               case Remove(s, n') => if n' == n then On(t.byNode, n) - {s} else On(t.byNode, n)
               case Change(_, _, _) => On(t.byNode, n)
  {
  }

  lemma StepKeepsAgreement(t: State, op: Op)
    requires Agree(t)
    ensures Agree(Step(t, op))
  {
    forall s, n ensures s in On(Step(t, op).byNode, n) <==> n in Nodes(At(Step(t, op).byShard, s)) {
      StepNodes(t, op, s);
      StepShards(t, op, n);
      var was := Nodes(At(t.byShard, s));
      assert s in On(t.byNode, n) <==> n in was;
      if op.Remove? {
        WithoutElements(was, op.node);
        assert n in Without(was, op.node) <==> n in Elements(Without(was, op.node));
      }
    }
  }

  lemma {:induction false} RunAgrees(ops: seq<Op>)
    ensures Agree(Run(ops))
  {
    if ops != [] {
      RunAgrees(ops[..|ops| - 1]);
      StepKeepsAgreement(Run(ops[..|ops| - 1]), ops[|ops| - 1]);
    }
  }

  // ---------------------------------------------------------------- the totals agree

  /** No shard has two replicas on one node. */
  ghost predicate Spread(t: State) {
    forall s :: NoDuplicates(Nodes(At(t.byShard, s)))
  }

  /** The number of placements by node. */
  ghost function HostedOn(m: ByNode, nodes: set<NodeId>): nat {
    if nodes == {} then 0
    else
      var n :| n in nodes;
      |On(m, n)| + HostedOn(m, nodes - {n})
  }

  /** The placements of a set of shards. */
  ghost function Placements(m: ByShard, shards: set<ShardId>): set<(ShardId, NodeId)> {
    set s, n | s in shards && n in Nodes(At(m, s)) :: (s, n)
  }

  ghost function PlacementsOn(m: ByNode, nodes: set<NodeId>): set<(ShardId, NodeId)> {
    set n, s | n in nodes && s in On(m, n) :: (s, n)
  }

  function Row(s: ShardId, nodes: set<NodeId>): set<(ShardId, NodeId)> {
    set n | n in nodes :: (s, n)
  }

  function Column(shards: set<ShardId>, n: NodeId): set<(ShardId, NodeId)> {
    set s | s in shards :: (s, n)
  }

  lemma {:induction false} RowSize(s: ShardId, nodes: set<NodeId>)
    ensures |Row(s, nodes)| == |nodes|
    decreases nodes
  {
    if nodes != {} {
      var n := Pick(nodes);
      RowSize(s, nodes - {n});
      assert Row(s, nodes) == Row(s, nodes - {n}) + {(s, n)};
    }
  }

  lemma {:induction false} ColumnSize(shards: set<ShardId>, n: NodeId)
    ensures |Column(shards, n)| == |shards|
    decreases shards
  {
    if shards != {} {
      var s := Pick(shards);
      ColumnSize(shards - {s}, n);
      assert Column(shards, n) == Column(shards - {s}, n) + {(s, n)};
    }
  }

  lemma ColumnStep(m: ByNode, nodes: set<NodeId>, n: NodeId)
    requires n in nodes
    ensures |PlacementsOn(m, nodes)| == |PlacementsOn(m, nodes - {n})| + |On(m, n)|
  {
    var rest, here := PlacementsOn(m, nodes - {n}), Column(On(m, n), n);
    ColumnSize(On(m, n), n);
    forall s, n' ensures (s, n') in PlacementsOn(m, nodes) <==> (s, n') in rest || (s, n') in here {
    }
    assert PlacementsOn(m, nodes) == rest + here;
    assert rest !! here;
  }

  lemma {:induction false} HostedOnCounts(m: ByNode, nodes: set<NodeId>)
    ensures HostedOn(m, nodes) == |PlacementsOn(m, nodes)|
  {
    if nodes != {} {
      var n :| n in nodes && HostedOn(m, nodes) == |On(m, n)| + HostedOn(m, nodes - {n});
      HostedOnCounts(m, nodes - {n});
      ColumnStep(m, nodes, n);
    }
  }

  lemma PlacementsStep(m: ByShard, shards: set<ShardId>, s: ShardId)
    requires s in shards
    ensures |Placements(m, shards)| == |Placements(m, shards - {s})| + |Elements(Nodes(At(m, s)))|
  {
    var rest, here := Placements(m, shards - {s}), Row(s, Elements(Nodes(At(m, s))));
    RowSize(s, Elements(Nodes(At(m, s))));
    forall s', n ensures (s', n) in Placements(m, shards) <==> (s', n) in rest || (s', n) in here {
      assert n in Elements(Nodes(At(m, s))) <==> n in Nodes(At(m, s));
    }
    assert Placements(m, shards) == rest + here;
    assert rest !! here;
  }

  lemma {:induction false} NodesLength(rs: seq<Replica>)
    ensures |Nodes(rs)| == |rs|
  {
    if rs != [] {
      NodesLength(rs[..|rs| - 1]);
    }
  }

  lemma {:induction false} GatherCounts(m: ByShard, shards: set<ShardId>)
    requires shards <= m.Keys
    ensures |Placements(m, shards)| <= |Gather(m, shards)|
    ensures |Placements(m, shards)| == |Gather(m, shards)|
            <==> forall s :: s in shards ==> NoDuplicates(Nodes(At(m, s)))
  {
    if shards != {} {
      var s := Max(shards);
      GatherCounts(m, shards - {s});
      PlacementsStep(m, shards, s);
      NoDuplicatesIsCount(Nodes(At(m, s)));
      NodesLength(m[s]);
      assert forall x :: x in shards <==> x == s || x in shards - {s};
    }
  }

  /** Replicas counted by shard and by node give the same total exactly when no shard doubles up on a node. */
  lemma TotalsAgree(t: State)
    requires Agree(t)
    ensures |Gather(t.byShard, t.byShard.Keys)| == HostedOn(t.byNode, t.byNode.Keys) <==> Spread(t)
  {
    GatherCounts(t.byShard, t.byShard.Keys);
    HostedOnCounts(t.byNode, t.byNode.Keys);
    forall s, n ensures (s, n) in Placements(t.byShard, t.byShard.Keys) <==> (s, n) in PlacementsOn(t.byNode, t.byNode.Keys) {
      assert s in On(t.byNode, n) <==> n in Nodes(At(t.byShard, s));
    }
    assert Placements(t.byShard, t.byShard.Keys) == PlacementsOn(t.byNode, t.byNode.Keys);
  }

  /** No registration repeats a placement that is in force. */
  ghost predicate NeverTwice(ops: seq<Op>) {
    ops == []
    || (&& NeverTwice(ops[..|ops| - 1])
        && (ops[|ops| - 1].Register? ==>
              var r := ops[|ops| - 1].replica;
              r.shard !in On(Run(ops[..|ops| - 1]).byNode, r.node)))
  }

  lemma {:induction false} NeverTwiceSpreads(ops: seq<Op>)
    requires NeverTwice(ops)
    ensures Spread(Run(ops))
  {
    if ops != [] {
      var front, op := ops[..|ops| - 1], ops[|ops| - 1];
      NeverTwiceSpreads(front);
      RunAgrees(front);
      forall s ensures NoDuplicates(Nodes(At(Run(ops).byShard, s))) {
        StepNodes(Run(front), op, s);
        assert NoDuplicates(Nodes(At(Run(front).byShard, s)));
        if op.Register? && op.replica.shard == s {
          assert s in On(Run(front).byNode, op.replica.node) <==> op.replica.node in Nodes(At(Run(front).byShard, s));
        } else if op.Remove? {
          WithoutNoDuplicates(Nodes(At(Run(front).byShard, s)), op.node);
        }
      }
    }
  }

  ghost predicate SpreadThroughout(ops: seq<Op>) {
    forall k :: 0 <= k <= |ops| ==> Spread(Run(ops[..k]))
  }

  /** No shard ever doubles up on a node exactly when no registration repeats a placement in force. */
  lemma {:induction false} SpreadThroughoutExactly(ops: seq<Op>)
    ensures SpreadThroughout(ops) <==> NeverTwice(ops)
  {
    assert ops[..|ops|] == ops;
    if ops == [] {
      NeverTwiceSpreads([]);
    } else {
      var front, op := ops[..|ops| - 1], ops[|ops| - 1];
      SpreadThroughoutExactly(front);
      assert forall k :: 0 <= k <= |front| ==> front[..k] == ops[..k];
      if NeverTwice(ops) {
        NeverTwiceSpreads(ops);
      } else if NeverTwice(front) {
        RepeatDoubles(Run(front), op.replica, front);
        assert !Spread(Run(ops[..|ops|]));
      } else {
        var k :| 0 <= k <= |front| && !Spread(Run(front[..k]));
        assert !Spread(Run(ops[..k]));
      }
    }
  }

  /** Registering a placement in force once more doubles it. */
  lemma RepeatDoubles(t: State, r: Replica, ops: seq<Op>)
    requires t == Run(ops) && r.shard in On(t.byNode, r.node)
    ensures !Spread(Registered(t, r))
  {
    RunAgrees(ops);
    StepNodes(t, Register(r), r.shard);
    var was := Nodes(At(t.byShard, r.shard));
    assert r.shard in On(t.byNode, r.node) <==> r.node in was;
    var i :| 0 <= i < |was| && was[i] == r.node;
    assert (was + [r.node])[i] == (was + [r.node])[|was|];
  }

  // ---------------------------------------------------------------- assigning a shard

  /** Every replica of the list belongs to the shard. */
  ghost predicate AllOf(rs: seq<Replica>, shard: ShardId) {
    forall i :: 0 <= i < |rs| ==> rs[i].shard == shard
  }

  lemma {:induction false} RegisteringAll(t: State, rs: seq<Replica>, shard: ShardId, s: ShardId)
    requires AllOf(rs, shard)
    ensures Nodes(At(AllRegistered(t, rs).byShard, s)) == Nodes(At(t.byShard, s)) + if s == shard then Nodes(rs) else []
  {
    if rs != [] {
      var front, last := rs[..|rs| - 1], rs[|rs| - 1];
      RegisteringAll(t, front, shard, s);
      StepNodes(AllRegistered(t, front), Register(last), s);
    }
  }

  lemma {:induction false} RegisteringAgrees(t: State, rs: seq<Replica>)
    requires Agree(t)
    ensures Agree(AllRegistered(t, rs))
  {
    if rs != [] {
      RegisteringAgrees(t, rs[..|rs| - 1]);
      StepKeepsAgreement(AllRegistered(t, rs[..|rs| - 1]), Register(rs[|rs| - 1]));
    }
  }

  lemma {:induction false} NodesAt(rs: seq<Replica>, i: nat)
    requires i < |rs|
    ensures |Nodes(rs)| == |rs| && Nodes(rs)[i] == rs[i].node
  {
    NodesLength(rs[..|rs| - 1]);
    if i < |rs| - 1 {
      NodesAt(rs[..|rs| - 1], i);
    }
  }

  lemma PlacementNodes(shard: ShardId, candidates: seq<NodeId>, factor: nat, now: nat)
    requires factor > 0
    ensures Nodes(Placement(shard, candidates, factor, now)) == Take(candidates, factor)
  {
    var rs := Placement(shard, candidates, factor, now);
    NodesLength(rs);
    forall i | 0 <= i < |rs| ensures Nodes(rs)[i] == Take(candidates, factor)[i] {
      NodesAt(rs, i);
    }
  }

  /**
   * Placing a new shard puts one replica on each of the first `factor` candidates, led by the first;
   * the indexes still agree, and nothing doubles up exactly when those candidates differ.
   */
  lemma AssignmentOutcome(t: State, shard: ShardId, candidates: seq<NodeId>, factor: nat, now: nat)
    requires factor > 0 && Agree(t) && Spread(t) && At(t.byShard, shard) == []
    ensures var rs := Placement(shard, candidates, factor, now);
            var after := AllRegistered(t, rs);
            && Nodes(At(after.byShard, shard)) == Take(candidates, factor)
            && Agree(after)
            && (Spread(after) <==> NoDuplicates(Take(candidates, factor)))
            && (candidates != [] ==> FirstLeader(rs) == Some(rs[0]) && rs[0].node == candidates[0])
            && (forall i :: 0 < i < |rs| ==> rs[i].role == Follower)
  {
    var rs := Placement(shard, candidates, factor, now);
    var after := AllRegistered(t, rs);
    PlacementNodes(shard, candidates, factor, now);
    forall s ensures Nodes(At(after.byShard, s)) == if s == shard then Take(candidates, factor) else Nodes(At(t.byShard, s)) {
      RegisteringAll(t, rs, shard, s);
      assert Nodes(At(t.byShard, s)) + [] == Nodes(At(t.byShard, s));
      assert s == shard ==> Nodes(At(t.byShard, s)) == [] && [] + Nodes(rs) == Nodes(rs);
    }
    RegisteringAgrees(t, rs);
    assert forall s :: s != shard ==> NoDuplicates(Nodes(At(t.byShard, s)));
  }
}
