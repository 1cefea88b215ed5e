/**
 * The write coordinator (src/cluster/replication.rs).
 *
 * The network is two arguments: the leader's reply, and whether the i-th contacted follower
 * acknowledges.
 */
module WriteCoordinator {
  import opened Basics
  import opened Replicas

  datatype Consistency = All | Quorum | One | AtLeast(n: nat)

  function MinAcks(c: Consistency, replicas: nat): nat {
    match c
    case All => replicas
    case Quorum => replicas / 2 + 1
    case One => 1
    case AtLeast(n) => if n < replicas then n else replicas
  }

  datatype WriteResult =
    | Written(sequence: nat, acknowledged: nat, required: nat, failed: seq<NodeId>)
    | NoReplicas
    | NoLeader
    | LeaderFailed
    | TooFewAcks(received: nat, needed: nat)

  /** The online followers, in list order; learners and further leaders are not contacted. */
  function Followers(rs: seq<Replica>): seq<Replica> {
    if rs == [] then []
    else
      var last := rs[|rs| - 1];
      Followers(rs[..|rs| - 1]) + if last.role == Follower && last.online then [last] else []
  }

  /** How many of the first n contacted followers acknowledge. */
  function Acks(replies: nat -> bool, n: nat): nat {
    if n == 0 then 0 else Acks(replies, n - 1) + if replies(n - 1) then 1 else 0
  }

  function FailedNodes(followers: seq<Replica>, replies: nat -> bool, n: nat): seq<NodeId>
    requires n <= |followers|
  {
    if n == 0 then []
    else FailedNodes(followers, replies, n - 1) + if replies(n - 1) then [] else [followers[n - 1].node]
  }

  /** Followers are asked one by one until enough have acknowledged or all were asked. */
  ghost predicate Contacted(followers: seq<Replica>, replies: nat -> bool, required: nat, n: nat) {
    && n <= |followers|
    && (n > 0 ==> 1 + Acks(replies, n - 1) < required)
    && (n == |followers| || 1 + Acks(replies, n) >= required)
  }

  /** n followers were asked and more acknowledgements are needed. */
  ghost predicate Waiting(followers: seq<Replica>, replies: nat -> bool, required: nat, n: nat, acks: nat, failed: seq<NodeId>)
    requires n <= |followers|
  {
    && acks == 1 + Acks(replies, n) < required
    && failed == FailedNodes(followers, replies, n)
  }

  /** What a write to a replica list comes to; n followers were asked. */
  ghost predicate IsWrite(rs: seq<Replica>, c: Consistency, leaderReply: Option<nat>, replies: nat -> bool, r: WriteResult, n: nat) {
    var required := MinAcks(c, |rs|);
    if rs == [] then r == NoReplicas
    else if FirstLeader(rs) == None then r == NoLeader
    else if leaderReply == None then r == LeaderFailed
    else
      && Contacted(Followers(rs), replies, required, n)
      && r == if 1 + Acks(replies, n) >= required
              then Written(leaderReply.value, 1 + Acks(replies, n), required, FailedNodes(Followers(rs), replies, n))
              else TooFewAcks(1 + Acks(replies, n), required)
  }

  class WriteCoordinator {
    const tracker: ReplicaTracker

    constructor (tracker: ReplicaTracker)
      ensures this.tracker == tracker
    {
      this.tracker := tracker;
    }

    /** The loop over the followers' answers, left as soon as there are enough. */
    method CollectAcks(followers: seq<Replica>, required: nat, replies: nat -> bool)
        returns (ackCount: nat, failed: seq<NodeId>, ghost asked: nat)
      requires required > 1
      ensures Contacted(followers, replies, required, asked)
      ensures ackCount == 1 + Acks(replies, asked) && failed == FailedNodes(followers, replies, asked)
      ensures ackCount <= required && (ackCount == required <==> 1 + Acks(replies, |followers|) >= required)
    {
      ackCount, failed := 1, [];
      var i: nat := 0;
      while i < |followers|
        invariant i <= |followers|
        invariant Waiting(followers, replies, required, i, ackCount, failed)
      {
        if replies(i) {
          ackCount := ackCount + 1;
        } else {
          failed := failed + [followers[i].node];
        }
        i := i + 1;
        if ackCount >= required {
          break;
        }
      }
      asked := i;
      AcksGrow(replies, asked, |followers|);
    }

    method CoordinateWrite(shard: ShardId, consistency: Consistency, leaderReply: Option<nat>, replies: nat -> bool)
        returns (r: WriteResult, ghost asked: nat)
      ensures IsWrite(At(tracker.byShard, shard), consistency, leaderReply, replies, r, asked)
      ensures var rs := At(tracker.byShard, shard);
              FirstLeader(rs).Some? && leaderReply.Some? ==>
                (r.Written? <==> 1 + Acks(replies, |Followers(rs)|) >= MinAcks(consistency, |rs|))
    {
      asked := 0;
      var replicas := At(tracker.byShard, shard);
      if replicas == [] {
        return NoReplicas, 0;
      }
      if FirstLeader(replicas) == None {
        return NoLeader, 0;
      }
      var required := MinAcks(consistency, |replicas|);
      if leaderReply == None {
        return LeaderFailed, 0;
      }
      var followers := Followers(replicas);
      var ackCount: nat, failed: seq<NodeId> := 1, [];
      if required > 1 && followers != [] {
        ackCount, failed, asked := CollectAcks(followers, required, replies);
      }
      assert Contacted(followers, replies, required, asked);
      assert ackCount == 1 + Acks(replies, asked) && failed == FailedNodes(followers, replies, asked);
      if ackCount >= required {
        r := Written(leaderReply.value, ackCount, required, failed);
      } else {
        r := TooFewAcks(ackCount, required);
      }
      SuccessIffEnough(replicas, consistency, leaderReply, replies, r, asked);
    }
  }

  // ---------------------------------------------------------------- when a write succeeds

  lemma {:induction false} AcksGrow(replies: nat -> bool, m: nat, n: nat)
    requires m <= n
    ensures Acks(replies, m) <= Acks(replies, n) <= Acks(replies, m) + (n - m)
  {
    if m < n {
      AcksGrow(replies, m, n - 1);
    }
  }

  /** Once the leader has written: the write fails exactly when the leader and all online followers together would fall
      short, and a success reports max(1, required) acknowledgements. */
  lemma SuccessIffEnough(rs: seq<Replica>, c: Consistency, leaderReply: Option<nat>, replies: nat -> bool, r: WriteResult, n: nat)
    requires IsWrite(rs, c, leaderReply, replies, r, n)
    requires FirstLeader(rs).Some? && leaderReply.Some?
    ensures r.Written? <==> 1 + Acks(replies, |Followers(rs)|) >= MinAcks(c, |rs|)
    ensures r.Written? ==>
              && r.sequence == leaderReply.value && r.required == MinAcks(c, |rs|)
              && r.acknowledged == if r.required == 0 then 1 else r.required
    ensures !r.Written? ==> r == TooFewAcks(1 + Acks(replies, |Followers(rs)|), MinAcks(c, |rs|))
  {
    AcksGrow(replies, n, |Followers(rs)|);
  }

  lemma {:induction false} FollowersCount(rs: seq<Replica>)
    ensures |Followers(rs)| <= |rs|
    ensures FirstLeader(rs).Some? ==> |Followers(rs)| < |rs|
  {
    if rs != [] {
      FollowersCount(rs[..|rs| - 1]);
      FirstLeaderSnoc(rs);
    }
  }

  lemma {:induction false} FirstLeaderSnoc(rs: seq<Replica>)
    requires rs != []
    ensures FirstLeader(rs) == if FirstLeader(rs[..|rs| - 1]).Some? then FirstLeader(rs[..|rs| - 1])
                               else if rs[|rs| - 1].role == Leader then Some(rs[|rs| - 1]) else None
  {
    if |rs| > 1 {
      assert rs[1..][..|rs| - 2] == rs[..|rs| - 1][1..];
      FirstLeaderSnoc(rs[1..]);
    }
  }

  /** Consistency `All` needs every replica but the leader to be an online follower that acknowledges. */
  lemma AllNeedsEveryReplica(rs: seq<Replica>, leaderReply: Option<nat>, replies: nat -> bool, r: WriteResult, n: nat)
    requires IsWrite(rs, All, leaderReply, replies, r, n)
    requires FirstLeader(rs).Some? && leaderReply.Some?
    ensures r.Written? <==> |Followers(rs)| == |rs| - 1 && forall i :: 0 <= i < |Followers(rs)| ==> replies(i)
  {
    SuccessIffEnough(rs, All, leaderReply, replies, r, n);
    FollowersCount(rs);
    AllAcks(replies, |Followers(rs)|);
  }

  lemma {:induction false} AllAcks(replies: nat -> bool, n: nat)
    ensures Acks(replies, n) <= n
    ensures Acks(replies, n) == n <==> forall i :: 0 <= i < n ==> replies(i)
  {
    if n > 0 {
      AllAcks(replies, n - 1);
    }
  }

  // ---------------------------------------------------------------- quorum intersection

  lemma {:induction false} NodesSet(rs: seq<Replica>)
    ensures |Nodes(rs)| == |rs|
    ensures rs != [] ==> Elements(Nodes(rs)) == Elements(Nodes(rs[..|rs| - 1])) + {rs[|rs| - 1].node}
  {
    NodesLength(rs);
    if rs != [] {
      ElementsConcat(Nodes(rs[..|rs| - 1]), [rs[|rs| - 1].node]);
    }
  }

  lemma LastIsNew(rs: seq<Replica>)
    requires rs != [] && NoDuplicates(Nodes(rs))
    ensures NoDuplicates(Nodes(rs[..|rs| - 1])) && rs[|rs| - 1].node !in Elements(Nodes(rs[..|rs| - 1]))
  {
    var front := Nodes(rs[..|rs| - 1]);
    NodesLength(rs);
    assert Nodes(rs) == front + [rs[|rs| - 1].node];
    forall i | 0 <= i < |front| ensures front[i] != rs[|rs| - 1].node {
      assert Nodes(rs)[i] != Nodes(rs)[|front|];
    }
    forall i, j | 0 <= i < j < |front| ensures front[i] != front[j] {
      assert Nodes(rs)[i] != Nodes(rs)[j];
    }
  }

  lemma {:induction false} PrefixNodes(rs: seq<Replica>, n: nat)
    requires NoDuplicates(Nodes(rs)) && n <= |rs|
    ensures NoDuplicates(Nodes(rs[..n])) && Elements(Nodes(rs[..n])) <= Elements(Nodes(rs))
  {
    if n < |rs| {
      LastIsNew(rs);
      NodesSet(rs);
      assert rs[..|rs| - 1][..n] == rs[..n];
      PrefixNodes(rs[..|rs| - 1], n);
    } else {
      assert rs[..n] == rs;
    }
  }

  /** The leader's node and those of the followers asked that acknowledged. */
  function Ackers(leader: NodeId, asked: seq<Replica>, replies: nat -> bool): set<NodeId> {
    if asked == [] then {leader}
    else
      Ackers(leader, asked[..|asked| - 1], replies)
      + if replies(|asked| - 1) then {asked[|asked| - 1].node} else {}
  }

  /** Each acknowledgement is from a different node. */
  lemma {:induction false} AckersCount(leader: NodeId, asked: seq<Replica>, replies: nat -> bool)
    requires NoDuplicates(Nodes(asked)) && leader !in Elements(Nodes(asked))
    ensures |Ackers(leader, asked, replies)| == 1 + Acks(replies, |asked|)
    ensures Ackers(leader, asked, replies) <= Elements(Nodes(asked)) + {leader}
  {
    if asked != [] {
      LastIsNew(asked);
      NodesSet(asked);
      AckersCount(leader, asked[..|asked| - 1], replies);
    }
  }

  /** On a list with one replica a node, the leader and the online followers sit on different nodes of the list. */
  lemma {:induction false} FollowersSpread(rs: seq<Replica>)
    requires NoDuplicates(Nodes(rs))
    ensures Elements(Nodes(Followers(rs))) <= Elements(Nodes(rs)) && NoDuplicates(Nodes(Followers(rs)))
    ensures FirstLeader(rs).Some? ==>
              FirstLeader(rs).value.node in Elements(Nodes(rs)) - Elements(Nodes(Followers(rs)))
  {
    if rs != [] {
      var front, last := rs[..|rs| - 1], rs[|rs| - 1];
      LastIsNew(rs);
      NodesSet(rs);
      FollowersSpread(front);
      FirstLeaderSnoc(rs);
      if last.role == Follower && last.online {
        assert Followers(rs)[..|Followers(front)|] == Followers(front);
        NodesSet(Followers(rs));
        NoDuplicatesSnoc(Nodes(Followers(front)), last.node);
        assert Nodes(Followers(rs)) == Nodes(Followers(front)) + [last.node];
      } else {
        assert Followers(rs) == Followers(front);
      }
    }
  }

  lemma NoDuplicatesSnoc<T>(s: seq<T>, x: T)
    requires NoDuplicates(s) && x !in Elements(s)
    ensures NoDuplicates(s + [x])
  {
    assert forall i :: 0 <= i < |s| ==> s[i] in Elements(s);
  }

  /** The nodes that acknowledged a write of which n followers were asked. */
  function WriteAckers(rs: seq<Replica>, replies: nat -> bool, n: nat): set<NodeId>
    requires FirstLeader(rs).Some? && n <= |Followers(rs)|
  {
    Ackers(FirstLeader(rs).value.node, Followers(rs)[..n], replies)
  }

  /** A successful write was acknowledged by as many different nodes of the list as it reports. */
  lemma WrittenIsAcknowledged(rs: seq<Replica>, c: Consistency, leaderReply: Option<nat>, replies: nat -> bool, r: WriteResult, n: nat)
    requires IsWrite(rs, c, leaderReply, replies, r, n) && r.Written? && NoDuplicates(Nodes(rs))
    ensures WriteAckers(rs, replies, n) <= Elements(Nodes(rs))
    ensures |WriteAckers(rs, replies, n)| == r.acknowledged
  {
    FollowersSpread(rs);
    PrefixNodes(Followers(rs), n);
    AckersCount(FirstLeader(rs).value.node, Followers(rs)[..n], replies);
  }

  lemma QuorumIsMajority(rs: seq<Replica>, leaderReply: Option<nat>, replies: nat -> bool, r: WriteResult, n: nat)
    requires IsWrite(rs, Quorum, leaderReply, replies, r, n) && r.Written? && NoDuplicates(Nodes(rs))
    ensures WriteAckers(rs, replies, n) <= Elements(Nodes(rs))
    ensures 2 * |WriteAckers(rs, replies, n)| > |Elements(Nodes(rs))|
  {
    WrittenIsAcknowledged(rs, Quorum, leaderReply, replies, r, n);
    NoDuplicatesIsCount(Nodes(rs));
    NodesLength(rs);
  }

  /** Two successful quorum writes over the same replica nodes, even under different leaders, were both acknowledged by
      a common node. */
  lemma QuorumWritesIntersect(
      rs: seq<Replica>, leaderReply: Option<nat>, replies: nat -> bool, r: WriteResult, n: nat,
      rs': seq<Replica>, leaderReply': Option<nat>, replies': nat -> bool, r': WriteResult, n': nat)
      returns (common: NodeId)
    requires IsWrite(rs, Quorum, leaderReply, replies, r, n) && r.Written?
    requires IsWrite(rs', Quorum, leaderReply', replies', r', n') && r'.Written?
    requires NoDuplicates(Nodes(rs)) && NoDuplicates(Nodes(rs')) && Elements(Nodes(rs)) == Elements(Nodes(rs'))
    ensures common in WriteAckers(rs, replies, n) && common in WriteAckers(rs', replies', n')
  {
    QuorumIsMajority(rs, leaderReply, replies, r, n);
    QuorumIsMajority(rs', leaderReply', replies', r', n');
    common := MajoritiesMeet(Elements(Nodes(rs)), WriteAckers(rs, replies, n), WriteAckers(rs', replies', n'));
  }
}
