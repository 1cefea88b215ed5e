# Verified models of the cluster coordination layer

This project states, in Dafny, what the coordination layer of the vector database does and proves
what it promises over every input and every run. Each module follows one source file: an object
whose methods update fields is a class with the same fields, a loop is a loop with invariants, and
each such method is proved equal to a function on values. The lemmas are about those functions.

- **HashRing, RingLeaves** – the consistent-hash ring and the shard router. Walks are clockwise and
  find the first different owners; a ring depends only on its members; leaves move only what the
  node served. Where colliding positions break this, the exact condition is proved. Joins move keys
  only to the new node, collisions or not.
- **RaftNodes, RaftCluster, RaftElections, RaftLogs, RaftDurability, RaftCommit, RaftMachines** –
  the Raft core. One node is a class; a cluster is a set of nodes over a network that loses, repeats,
  delays and reorders messages, with two switches: whether campaigns send the vote requests they
  build, and whether nodes may restart. For every setting and every set of voters it is proved
  exactly when a leader is possible, when a term has one leader, when logs match, when what a
  majority holds reaches every later leader, when a majority of acknowledgements stands for a
  majority that had the entries, and when state machines are never given two different entries at
  one index.
- **Replicas, WriteCoordinator** – two indexes that agree in every reachable state, statistics
  that add up exactly when no placement is doubled, and the acknowledgement rule of writes.
- **Failover** – admission with a cooldown, epochs and fencing tokens as steps that interleave.
- **RaftApply** over **Collections** and **Topology** – applying a committed log, again after a
  crash, in any batches.
- **Topology** – referential integrity, versions and the balance of `rebalance_shards`.
- **RateLimiter, ApiCache** – time-indexed runs with tight bounds, and a cache compared with an
  unbounded map.
- **Scroll, Collections** – paging and snapshot scans, and exactly when they are complete.
- **Filters** – the filter evaluator against its formula, at every depth and in every order.
- **Basics** – sequences without repetitions, sizes and a little arithmetic, used by the others.

Clocks, hashes, map iteration order, text lower-casing and the replies of remote nodes are
parameters or arbitrary choices, so the results hold for all of them. `dafny verify dfyconfig.toml`
checks everything.

## Where the code is not what it seems

Each of these follows the code, and a lemma says exactly when the promise holds.

- `remove_node` deletes a position whoever owns it. A member can even be left without any position:
  when all its positions are also those of a node that joined later and left
  (`HashRing.CollisionLosesMember`). `HashRing.RemoveKeepsCovered`, `HashRing.HistoryDoesNotMatter` and
  `HashRing.OwnsExactly` are the exact conditions of coverage, history independence and ownership.
  A leave can also move a key that another node serves to a third one (`RingLeaves.LeaveMovesTooMuch`);
  `RingLeaves.LeaveMovesExactly` says after which histories it does not, for owners and replica lists.
- `campaign` and `pre_campaign` build vote requests and drop them, and nothing else sends any. So no
  cluster of any size ever elects a leader (`RaftCluster.NobodyEverLeads`, `RaftElections.LeadersExactly`).
  The remaining Raft results say what holds once requests are sent.
- Node id 0 also means "no vote", and the default configuration uses it. With requests sent and node 0
  among three or more voters, a term can have two leaders (`RaftElections.ElectionSafety`).
- `persist_hard_state` and `persist_entries` store nothing and nodes are built anew, so a restart
  forgets votes and logs; with requests sent, two voters without node 0 are enough for two leaders of
  a term, and two voters of any kind for diverging logs (`RaftLogs.LogMatching`).
- `handle_request_vote` compares the candidate's term, not the term of its last entry, with the
  voter's log, so the check never shapes the first election of a term (`RaftLogs.LogCheckIsIdle`,
  `RaftElections.WinsExactly`).
  `handle_append_entries` truncates even for a late duplicate of an older append. Together they lose
  entries a majority holds, unless there is nobody else to elect (`RaftDurability.DurableExactly`),
  and entries that were committed and handed over: a later leader hands over another entry at the
  same index, under exactly the same condition (`RaftMachines.StateMachineSafety`).
- An acknowledgement names a term and an index, not entries. Where a term can have two leaders, or a
  restarted leader can lead its term again, a leader counts acknowledgements of entries it does not
  have and commits what nobody else has (`RaftMachines.AcksMeanHadExactly`).
- `ready` hands over the whole log after the last applied entry, however far the commit index is, and
  hands over nothing on a node that does not lead (`RaftCommit.HandedOnceExactly`).
- The limiter is documented as a sliding window but keeps fixed windows; the bound for one window
  length is 2 · max(1, max) − 1, and `RateLimiter.SlidingExactly` says when that is a sliding window.
  A limit of zero still admits the call that opens a window.
- A scroll page looks at 100001 ids and then reports the end, even with points beyond.
- `get_all_vectors` stops at twice the count plus 1000.
- `rebalance_shards` deals 256 shards whatever the configuration says.
- `get_nested_value` stops at the first part that ends in `[]` and ignores the rest of the key.

## Model

| member | source | states |
|---|---|---|
| `HashRing.HashRing.AddNode` | src/cluster/hash_ring.rs:52-65 | the loop adds exactly the node's points, once, and lists the node; a listed node changes nothing |
| `HashRing.HashRing.RemoveNode` | src/cluster/hash_ring.rs:68-77 | the loop deletes the node's positions whoever owns them and unlists the node |
| `HashRing.HashRing.GetNodes` | src/cluster/hash_ring.rs:99-131 | the two loops with early exit return the first `count` different owners clockwise from the key |
| `HashRing.TwoLoopsAreOneTurn` | src/cluster/hash_ring.rs:110-128 | restarting at the lowest position meets the same owners in the same order as one turn of the ring |
| `HashRing.ClockwiseVisitsAll` | src/cluster/hash_ring.rs:99-131 | the walk from any key visits exactly the owners on the ring |
| `HashRing.FirstOwnersShape` | src/cluster/hash_ring.rs:99-131 | a replica list has min(count, owners) different members, all owners, and is a prefix of every longer list |
| `HashRing.FirstOwnersInClockwiseOrder` | src/cluster/hash_ring.rs:99-131 | each member is the first owner on the walk that is not among the members before it |
| `HashRing.OwnerIsSuccessor` | src/cluster/hash_ring.rs:80-97 | `get_node` answers with the owner of the least position not below the key, else of the least position |
| `HashRing.OneOwner` | src/cluster/hash_ring.rs:80-131 | a list of one is what `get_node` returns, on empty rings too |
| `HashRing.RunCovered` | src/cluster/hash_ring.rs:52-77 | after any history without collisions the ring holds every position of every listed node, nothing else, and no node twice |
| `HashRing.RunIsUnion` | src/cluster/hash_ring.rs:52-77 | after any history without collisions the ring is the union of the points of the nodes now listed |
| `HashRing.HistoryDoesNotMatter` | src/cluster/hash_ring.rs:52-77 | any two histories of a set of nodes that end with the same members end with the same ring, if and only if no two of the nodes share a position |
| `HashRing.RemoveKeepsCovered` | src/cluster/hash_ring.rs:68-77 | a removal leaves a covering ring if and only if no other member shares a position with the node |
| `HashRing.AddThenRemove` | src/cluster/hash_ring.rs:52-77 | adding an absent node and removing it restores everything if and only if its positions were free |
| `HashRing.CollisionLosesMember` | src/cluster/hash_ring.rs:70-74 | adding a, then b, then removing b leaves a listed without a position, if and only if all of a's positions are b's |
| `HashRing.ConstantHashLosesMember` | src/cluster/hash_ring.rs:70-74 | a hash for which this happens with any number of virtual nodes |
| `HashRing.OwnsExactly` | src/cluster/hash_ring.rs:52-77 | after every history a node owns its positions on the ring and no others, if and only if no other node shares one |
| `HashRing.RemovalShiftsReplicas` | src/cluster/hash_ring.rs:68-77 | if the node owns its positions on the ring: every replica list after its removal is the old list of one more with it dropped, cut to size |
| `HashRing.RemovalKeepsOtherReplicas` | src/cluster/hash_ring.rs:68-77 | if the node owns its positions on the ring: keys it did not serve keep their replica list in order |
| `HashRing.RemovalAfterAnyHistory` | src/cluster/hash_ring.rs:52-131 | both removal results after every history of nodes that share no position with the removed one |
| `RingLeaves.LeaveMovesKeys` | src/cluster/hash_ring.rs:68-97 | on any ring, a leave moves no key that another node serves, if and only if each position it takes from another node falls back to that node |
| `RingLeaves.LeaveMovesExactly` | src/cluster/hash_ring.rs:52-131 | after any history, collisions or not: that is also exactly when every replica list of every length only loses the node |
| `RingLeaves.LeaveMovesTooMuch` | src/cluster/hash_ring.rs:70-74 | for any three nodes a hash and a history after which the first one's leave moves a key of the second to the third |
| `HashRing.AdditionMovesOnlyToNew` | src/cluster/hash_ring.rs:52-65 | after a join every key keeps its owner or moves to the new node, collisions or not |
| `HashRing.VirtualKeyInjective` | src/cluster/hash_ring.rs:57-62 | different virtual nodes have different names |
| `HashRing.ShardRouter.CalculateShardMapping` | src/cluster/hash_ring.rs:263-273 | the loop computes the mapping of all shards, in order, skipping shards without an owner |
| `HashRing.MappingListsEveryShard` | src/cluster/hash_ring.rs:257-273 | a non-empty ring lists every shard once, in order, with its owner; an empty ring lists none |
| `HashRing.JoinMovesShardsOnlyToNew` | src/cluster/hash_ring.rs:52-65 | after `add_node` each shard keeps its node or goes to the new one |
| `RaftNodes.RaftNode.Step` | src/cluster/raft/node.rs:331-363 | a message first raises the term, then takes the handler's branch; state and replies are those of `OnMessage` |
| `RaftNodes.RaftNode.HandleAppendEntries` | src/cluster/raft/node.rs:387-470 | stale and mismatched appends are refused, others truncate after the given index and push the entries numbered above it |
| `RaftNodes.RaftNode.HandleRequestVote` | src/cluster/raft/node.rs:497-551 | a vote is stored and granted exactly under the code's three conditions |
| `RaftNodes.RaftNode.HandleVoteResponse` | src/cluster/raft/node.rs:553-579 | a quorum of grants makes a leader with a new entry, a quorum of refusals a follower |
| `RaftNodes.RaftNode.HandlePreVoteResponse` | src/cluster/raft/node.rs:612-628 | a quorum of pre-votes starts a campaign, which sends nothing |
| `RaftNodes.RaftNode.HandleElectionTimeout` | src/cluster/raft/node.rs:223-233 | a follower with pre-votes on becomes a pre-candidate, anyone else a candidate of the next term; nothing is sent |
| `RaftNodes.RaftNode.Campaign` | src/cluster/raft/node.rs:708-729 | the node votes for itself in the next term and builds a request for every other voter |
| `RaftNodes.RaftNode.BecomeLeader` | src/cluster/raft/node.rs:280-311 | a new leader appends an empty entry of its term |
| `RaftNodes.RaftNode.Propose` | src/cluster/raft/node.rs:734-748 | a leader appends one entry and returns its index, others refuse and change nothing |
| `RaftCluster.NobodyEverLeads` | src/cluster/raft/node.rs:686-729 | while campaigns drop their requests, or with at most one voter: in every run nothing is ever sent, nobody leads and no log changes |
| `RaftElections.LeadersExactly` | src/cluster/raft/node.rs:708-729 | a run with a leader exists if and only if requests are sent and there are two voters or more |
| `RaftCluster.RunElectoral` | src/cluster/raft/node.rs:331-363 | in every run without id 0 and without restarts: nobody votes twice in a term, grants and counted votes are votes cast, leaders have a majority |
| `RaftCluster.ElectoralOneLeader` | src/cluster/raft/node.rs:497-579 | two majorities of such votes share a voter, so a term has one leader |
| `RaftElections.ElectionSafety` | src/cluster/raft/node.rs:497-579 | no run has two leaders in a term, if and only if requests are dropped, or there is at most one voter, or two with node 0 among them, or neither node 0 nor restarts |
| `RaftElections.SplitTerm` | src/cluster/raft/node.rs:513-518 | requests sent, node 0 among three or more voters: a run in which node 0 and any other node both lead term 1 |
| `RaftElections.ForgottenVotes` | src/cluster/raft/runtime.rs:287-297 | requests sent, restarts: a run in which any two nodes with enough voters lead term 1 one after the other |
| `RaftElections.TwoVotersSafe` | src/cluster/raft/node.rs:513-518 | with at most two voters, node 0 among them, only node 0 ever leads |
| `RaftElections.WinsExactly` | src/cluster/raft/node.rs:497-579 | from every reachable state a voter that does not lead can win a later term with its own log, if and only if requests are sent and enough others grant votes |
| `RaftElections.AnyoneCanWin` | src/cluster/raft/node.rs:497-579 | requests sent, enough other voters: from any state such a voter wins a term beyond all others, its log unchanged but for the new entry |
| `RaftLogs.RunLedger` | src/cluster/raft/node.rs:387-470 | in every run without restarts where terms have one leader, each log is, entry by entry, a prefix of the log of the leader of that entry's term |
| `RaftLogs.LogMatching` | src/cluster/raft/node.rs:387-470 | in every run two logs that agree on an entry's term are equal up to it, if and only if requests are dropped, or there is at most one voter, or no restarts and node 0 absent or one of two |
| `RaftLogs.AppendedIsPrefix` | src/cluster/raft/node.rs:411-446 | accepting an append leaves the log alone or makes it a prefix of the leader's |
| `RaftLogs.AcksAreTrue` | src/cluster/raft/node.rs:411-470 | in every run without restarts where terms have one leader, an acknowledged index stands for a moment when the follower's log was exactly the leader's first entries |
| `RaftLogs.LogCheckIsIdle` | src/cluster/raft/node.rs:520-524 | in every run of every cluster the log check refuses only in terms that already have a leader |
| `RaftDurability.DurableExactly` | src/cluster/raft/node.rs:387-551 | what a majority ever held is in the log of every later leader, if and only if requests are dropped, or there is at most one voter, or no restarts and two voters with node 0 among them |
| `RaftDurability.EntryIsLost` | src/cluster/raft/node.rs:428-446 | in every other cluster, a run in which an entry of its leader's term, held by a majority, is missing from a later leader |
| `RaftCommit.Committer.QuorumIndex` | src/cluster/raft/node.rs:802-817 | sorting the match indexes and taking the quorum's place gives the largest index a majority has acknowledged |
| `RaftCommit.Committer.AdvanceCommitIndex` | src/cluster/raft/node.rs:802-832 | the commit index moves there if it is beyond the old one and of the leader's term |
| `RaftCommit.Committer.HandleAppendResponse` | src/cluster/raft/node.rs:472-495 | an acceptance in the leader's term raises the match index of a known peer and advances the commit index; anything else changes neither |
| `RaftCommit.Committer.Ready` | src/cluster/raft/node.rs:863-928 | a leader with new commits hands over its log from the last applied entry to the end; others hand over nothing |
| `RaftCommit.HandoverAcknowledged` | src/cluster/raft/node.rs:910-917 | all that is handed over was acknowledged by a majority, if and only if the last entry of the log was |
| `RaftCommit.HandedOnceExactly` | src/cluster/raft/node.rs:910-917 | all along, a leader hands each entry over once and in order, if and only if every productive `ready` finds the whole log committed |
| `RaftMachines.StateMachineSafety` | src/cluster/raft/node.rs:863-928 | over all runs of elections, appends, acknowledgements, heartbeats and `ready` calls, no two different entries are ever handed over at one index, if and only if requests are dropped, or there is at most one voter, or no restarts and two voters with node 0 among them |
| `RaftMachines.DisagreeByTruncation` | src/cluster/raft/node.rs:428-446 | requests sent, any two voters that can win: a run in which the first commits an entry and hands it over; then the second, its log cut short by a late append, wins and hands over another at its index |
| `RaftMachines.DisagreeByRestart` | src/cluster/raft/runtime.rs:287-297 | requests sent, restarts: the same, by the same leader after a restart |
| `RaftMachines.HandedFromZero` | src/cluster/raft/node.rs:863-928 | two voters with node 0 among them, no restarts: in every run all that is handed over stands in the log of node 0 |
| `RaftMachines.HistoryBacked` | src/cluster/raft/node.rs:280-495 | in every run a leader has a match index for every other voter, each 0 or acknowledged in its term |
| `RaftMachines.AcksMeanHadExactly` | src/cluster/raft/node.rs:411-495 | in every run each node of a majority at some moment had the leader's entries that a majority acknowledged, if and only if requests are dropped, or there is at most one voter, or no restarts and node 0 absent or one of two |
| `RaftMachines.CommitMeansHad` | src/cluster/raft/node.rs:802-832 | where terms have one leader and without restarts: when an acknowledgement moves the commit index, each node of a majority had had all entries up to it |
| `Replicas.ReplicaTracker.RegisterReplica` | src/cluster/replication.rs:199-221 | one replica is added to both indexes |
| `Replicas.ReplicaTracker.RemoveReplica` | src/cluster/replication.rs:224-234 | all replicas of the shard on the node leave both indexes, in either being absent |
| `Replicas.ReplicaTracker.UpdateReplica` | src/cluster/replication.rs:297-332 | only the first replica on the node changes; a leader has no lag |
| `Replicas.ReplicaTracker.AssignReplicas` | src/cluster/replication.rs:335-367 | the placement is returned and registered replica by replica |
| `Replicas.ReplicaTracker.GetStats` | src/cluster/replication.rs:370-403 | totals over all shards in any map order; offline is total less online and never underflows |
| `Replicas.StepNodes` | src/cluster/replication.rs:199-332 | what each operation does to the node list of any shard |
| `Replicas.RunAgrees` | src/cluster/replication.rs:199-234 | in every run a shard is filed under a node exactly when a replica of it is on the node |
| `Replicas.TotalsAgree` | src/cluster/replication.rs:370-403 | totals by shard and by node agree if and only if no shard has two replicas on a node |
| `Replicas.SpreadThroughoutExactly` | src/cluster/replication.rs:199-234 | no shard doubles up on a node at any moment of a run, if and only if no registration repeats a placement in force |
| `Replicas.AssignmentOutcome` | src/cluster/replication.rs:335-367 | a new shard sits on the first `factor` candidates led by the first; indexes agree; nothing doubles up iff those candidates differ |
| `WriteCoordinator.WriteCoordinator.CoordinateWrite` | src/cluster/replication.rs:467-561 | followers are asked one by one until enough acknowledged; the result names them, or one of four errors |
| `WriteCoordinator.WriteCoordinator.CollectAcks` | src/cluster/replication.rs:509-541 | the early-exit loop stops at the first follower that makes the count, or at the end |
| `WriteCoordinator.SuccessIffEnough` | src/cluster/replication.rs:501-561 | after the leader wrote, success iff all willing online followers and the leader suffice; it reports max(1, required) |
| `WriteCoordinator.AllNeedsEveryReplica` | src/cluster/replication.rs:435-443 | consistency All succeeds only with every other replica an online follower that acknowledges |
| `WriteCoordinator.WrittenIsAcknowledged` | src/cluster/replication.rs:509-561 | a successful write is on that many different replicas when nodes do not repeat |
| `WriteCoordinator.QuorumWritesIntersect` | src/cluster/replication.rs:435-443 | two successful Quorum writes over the same nodes share a replica, under different leaders too |
| `Failover.HealthMonitor.IncrementEpoch` | src/cluster/failover.rs:526-530 | the epoch rises by one and wraps at 64 bits |
| `Failover.FailoverManager.ExecuteFailover` | src/cluster/failover.rs:715-748 | refused without effect, or admitted, carried out and logged as three steps |
| `Failover.FailoverManager.LogEvent` | src/cluster/failover.rs:794-801 | the log keeps the newest events up to its size |
| `Failover.RunCounted` | src/cluster/failover.rs:684-721 | in every interleaving the active count is the number of failovers in flight and never exceeds the maximum |
| `Failover.LogIsNewestFinished` | src/cluster/failover.rs:735-801 | in every interleaving the log is the last `max_log_size` finished failovers in order |
| `Failover.StartsApart` | src/cluster/failover.rs:702-709 | admissions i and j are at least (j − i) cooldowns apart |
| `Failover.StartsInSpan` | src/cluster/failover.rs:702-709 | at most L / cooldown + 1 admissions within any span L |
| `Failover.EpochCountsRaises` | src/cluster/failover.rs:521-530 | the epoch is its start plus the raises of the run, kept in 64 bits |
| `Failover.TokenLifetime` | src/cluster/failover.rs:171-179 | a token validates later if and only if nothing raised the epoch in between, or the counter wrapped |
| `Failover.PromotionFencesOff` | src/cluster/failover.rs:752-765 | once a promotion took effect every token issued before it is refused from then on |
| `RaftApply.RaftStateMachine.RunCommand` | src/cluster/raft_apply.rs:170-321 | each command's effect on collections and node records, with the address error |
| `RaftApply.RaftStateMachine.RunEntry` | src/cluster/raft_apply.rs:127-167 | empty entries do nothing, failures keep `last_applied`, others store their index |
| `RaftApply.RaftStateMachine.RunBatch` | src/cluster/raft_apply.rs:423-435 | entries apply in order and the first failure ends the batch |
| `RaftApply.FailsAtFirstUnsound` | src/cluster/raft_apply.rs:127-167 | a log fails iff one entry cannot be read or parsed, with the effect of the entries before it |
| `RaftApply.BatchingIsInvisible` | src/cluster/raft_apply.rs:423-435 | however a log is cut into batches, the outcome is that of the whole log |
| `RaftApply.CollectionReplay` | src/cluster/raft_apply.rs:216-263 | what a log fixes about one collection, and when it ignores the starting state |
| `RaftApply.NodeReplay` | src/cluster/raft_apply.rs:278-321 | what a log fixes about one node record, and when it ignores the starting state |
| `RaftApply.LastAppliedIsLastAdvance` | src/cluster/raft_apply.rs:127-167 | `last_applied` is the index of the last entry that is not an empty normal one |
| `RaftApply.ReplayIsIdempotent` | src/cluster/raft_apply.rs:127-167 | applying a readable log twice is applying it once |
| `RaftApply.CrashReplay` | src/cluster/raft_apply.rs:423-435 | applying A, B and then again B, C has the outcome of applying A, B, C once, whether or not B or C fails, as long as A does not |
| `Topology.ClusterTopology.AddNode` | src/cluster/config.rs:116-119 | the node is filed under its id and the version rises |
| `Topology.ClusterTopology.RemoveNode` | src/cluster/config.rs:122-132 | the node loses its record, its shards and its replicas, and the version rises |
| `Topology.ClusterTopology.RebalanceShards` | src/cluster/config.rs:158-176 | shards are dealt in turn over the active nodes in some order; nothing happens without one |
| `Topology.ClusterManager.InitSingleNode` | src/cluster/mod.rs:138-147 | the local node joins topology and ring and owns every configured shard |
| `Topology.ClusterManager.AddNode` | src/cluster/mod.rs:206-220 | a join adds the node, rebalances and extends the ring |
| `Topology.ClusterManager.RemoveNode` | src/cluster/mod.rs:223-236 | a leave removes the node, rebalances and shrinks the ring |
| `Topology.RunReferential` | src/cluster/config.rs:116-176 | in every run all shard owners are known nodes and each operation raises the version |
| `Topology.DealtCounts` | src/cluster/config.rs:166-172 | node k of n gets count / n shards, and one more if k < count mod n |
| `Topology.StepBalances` | src/cluster/mod.rs:206-236 | after any join or leave with an active node left, exactly shards 0 to 255 are owned, by active nodes, with loads within one |
| `Topology.OwnerIsRoute` | src/cluster/mod.rs:184-198 | a node owns a shard exactly when requests for it are routed there |
| `Topology.EveryShardRouted` | src/cluster/config.rs:158-176 | every configured shard can be routed if and only if at most 256 are configured |
| `RateLimiter.RateLimiter.IsAllowed` | src/api/middleware.rs:61-88 | the answer and the client's new window |
| `RateLimiter.RateLimiter.CleanupExpired` | src/api/middleware.rs:107-114 | windows at least twice their length old are dropped, no others |
| `RateLimiter.RunExplains` | src/api/middleware.rs:61-114 | in every run a client's entry counts the admissions since its window opened, and no entry means no recent admission |
| `RateLimiter.AdmissionBound` | src/api/middleware.rs:61-88 | over every run an interval of one window length admits at most 2 · max(1, max_requests) − 1 calls of a client |
| `RateLimiter.AdmissionBoundReached` | src/api/middleware.rs:61-88 | a run that reaches this bound |
| `RateLimiter.SlidingExactly` | src/api/middleware.rs:61-88 | every run admits at most max_requests calls in every interval of one window length, if and only if the window is 0, or max_requests is 1, or the window is one instant and max_requests is positive |
| `RateLimiter.RefusalIsEarned` | src/api/middleware.rs:69-76 | a refusal follows max_requests admissions less than one window ago |
| `RateLimiter.CleanupsInvisible` | src/api/middleware.rs:107-114 | cleanups anywhere in a run change no answer |
| `RateLimiter.RemainingIsExact` | src/api/middleware.rs:91-104 | `remaining_requests` is the number of further calls that succeed at that instant, iff windows have a length and max ≥ 1 or the window is open |
| `ApiCache.ApiCache.PutWithTtl` | src/api/performance.rs:85-100 | expired entries go, at capacity one arbitrary key goes, the new entry is stored |
| `ApiCache.ApiCache.Stats` | src/api/performance.rs:109-120 | expired and active entries are counted and add up |
| `ApiCache.IdealIsLatestPut` | src/api/performance.rs:85-106 | an entry of the unbounded map is the latest put of its key with no clear since |
| `ApiCache.CacheWithinIdeal` | src/api/performance.rs:85-106 | whatever is evicted, the cache holds only latest puts and at most max(1, max_size) entries |
| `ApiCache.HitIsLatest` | src/api/performance.rs:67-77 | a hit is the unexpired latest put of its key |
| `ApiCache.PutAgreement` | src/api/performance.rs:88-97 | a put keeps agreement with the unbounded map whatever it evicts, iff there is room or no other live key |
| `ApiCache.NeverFullAgrees` | src/api/performance.rs:67-106 | while puts find fewer than max_size live keys the cache answers as the unbounded map |
| `Collections.CollectionManager.CreateCollection` | src/collection/mod.rs:80-93 | an existing name is an error and changes nothing |
| `Collections.CollectionManager.DeleteCollection` | src/collection/mod.rs:104-116 | the name is gone and nothing else, whether or not it existed |
| `Collections.Collection.Upsert` | src/collection/mod.rs:254-285 | vectors are stored one by one up to the first of a wrong dimension |
| `Collections.Collection.Delete` | src/collection/mod.rs:368-378 | the ids leave storage and index |
| `Collections.Collection.GetAllVectors` | src/collection/mod.rs:381-401 | the scan lists the live vectors below its bound |
| `Collections.UpsertStoresLast` | src/collection/mod.rs:254-285 | a successful request leaves the last vector given for each id and touches no other |
| `Collections.NextIdIsFresh` | src/collection/mod.rs:254-290 | in every run `next_id` is above every id ever stored or handed out; storage and index hold the same ids |
| `Collections.IssuedAreDifferent` | src/collection/mod.rs:288-290 | no id is handed out twice |
| `Collections.SnapshotComplete` | src/collection/mod.rs:381-401 | the scan is ascending and live, and misses nothing iff all live ids are below 2 · count + 1000 |
| `Collections.IssuedOnlySnapshotComplete` | src/collection/mod.rs:288-401 | with handed-out ids only, it is complete while fewer issued ids are dead than live ids + 1000 |
| `Scroll.ScrollPoints` | src/api/qdrant_compat.rs:1035-1125 | the three errors, or the page of live points from the offset to where the loop stopped |
| `Scroll.PageDetermined` | src/api/qdrant_compat.rs:1058-1111 | a request has one page |
| `Scroll.LastPageComplete` | src/api/qdrant_compat.rs:1099-1111 | a page without a next offset has shown everything iff nothing lives 100001 ids or more beyond its start |
| `Scroll.WalkRises` | src/api/qdrant_compat.rs:1058-1111 | following the offsets, ids only rise, so no point appears twice |
| `Scroll.WalkMissesNothing` | src/api/qdrant_compat.rs:1058-1111 | an id live throughout and passed by the walk is shown, whatever else changes between pages |
| `Scroll.WalkShowsLive` | src/api/qdrant_compat.rs:1058-1111 | only points live when their page was read are shown |
| `Scroll.PageFromStorage` | src/api/qdrant_compat.rs:1058-1111 | a page is full iff its reach holds enough live ids, and ends just past the id that fills it |
| `Scroll.FinishedWalkComplete` | src/api/qdrant_compat.rs:1058-1111 | a finished walk with one limit over unchanging storage showed everything, if and only if, from page start to page start, the first page that is not full has nothing living beyond its reach |
| `Scroll.WalkIsShort` | src/api/qdrant_compat.rs:1058-1111 | a walk with one limit over unchanging storage has at most (live ids / limit) + 1 pages |
| `Scroll.WalkFinishes` | src/api/qdrant_compat.rs:1058-1111 | from every start such a walk exists and comes to a last page within that bound |
| `Scroll.FarPointIsLost` | src/api/qdrant_compat.rs:1099-1111 | two points 200000 ids apart: the second is never shown |
| `Filters.FilterEvaluator.Matches` | src/filter.rs:19-53 | the early exits compute "all must, some should unless empty, no must_not" |
| `Filters.FilterEvaluator.EvaluateCondition` | src/filter.rs:56-78 | field, nested and id conditions; a missing payload or value fails |
| `Filters.FilterEvaluator.GetNestedValue` | src/filter.rs:81-124 | both loops follow the dotted parts and stop at a part that ends in brackets |
| `Filters.FilterEvaluator.EvaluateRange` | src/filter.rs:175-201 | a number passes when it meets every bound that is given, anything else fails |
| `Filters.OrderIsIrrelevant` | src/filter.rs:19-62 | filters with the same conditions at every depth, in any order and number, agree on every point |
| `Filters.LookupComposes` | src/filter.rs:81-124 | looking up p.q is looking up q in the object at p, unless a part of p has brackets, when q is ignored |

## Left out

- Handlers, routers, transports, clients, serialization, files, logging and locks: each operation is one step on values.
- HNSW index, storage engine, snapshots and SIMD: storage is a map, the index a set of ids, and their operations succeed.
- Raft next indexes, pauses, check-quorum timing, reads, snapshots and membership changes: appends carry any slice of the
  leader's log instead, which covers every progress a leader may track.
- Raft commit and applied indexes over a whole cluster are functions on values in RaftMachines; the methods that change
  them are those of RaftCommit.Committer, for one leader. Appends carry a commit index that some leader sent with them.
- RaftCluster.RunElectoral: needs voters without id 0 and no restarts, because both let a node vote twice; ElectionSafety
  covers the rest.
- RaftLogs.RunLedger: needs clusters where terms have one leader, and no restarts; LogMatching covers the rest.
- RaftMachines.CommitMeansHad: needs the same, because elsewhere acknowledgements may be of other entries; AcksMeanHadExactly
  says exactly where.
- Raft voters are a set, so a voter listed twice is not modelled; clocks and random timeouts are arbitrary.
- Floating-point rounding: payload numbers are reals. Lower-casing is an arbitrary function on strings.
- Machine integers: ids, versions, counters and terms are unbounded. Epochs do wrap.
- EpochCountsRaises: covers fewer than 2^64 raises, because more could wrap the counter a second time.
- TokenLifetime: covers fewer than 2^64 raises, for the same reason.
- `execute_failover` checks and then counts without a lock; admission is one step here.
- `rebalance_shards` and cache eviction follow the order of a hash map; the order is arbitrary, so only balance and validity
  are claimed, and the shard map and version are not part of the replayed state.
- Replay of commands whose handlers only log (update collection, node status, shard assignment, cluster configuration):
  they change nothing, as in the code.
- State-machine snapshots: restoring one sets only `last_applied`.
- Agreement of router members and topology members: the constructors do not establish it. Seed nodes are not added.
- Scroll payloads, the filter (accepted and not applied) and the collection-name check; string offsets are parsed before.
- Phi accrual detector, health records, distribution statistics, read balancer, membership manager, request validators,
  metrics and batch buffers: floating-point formulas, or little to prove.
