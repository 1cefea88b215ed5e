/**
 * Which elections can happen where vote requests are sent, and when a term has one leader
 * (src/cluster/raft/node.rs). From every state a cluster can reach, every voter with enough others
 * to ask can be elected next, whatever its log. Node id 0 doubles as "no vote", so a vote for
 * node 0 is not kept; and a node that restarts forgets its vote.
 */
module RaftElections {
  import opened Basics
  import opened RaftNodes
  import opened RaftCluster

  // ---------------------------------------------------------------- vocabulary

  function Asked(n: NodeId, v: NodeId, t: Term, length: nat): Message {
    Message(RequestVote, n, v, t, length, [], false)
  }

  function Yes(v: NodeId, n: NodeId, t: Term): Message {
    Message(VoteResponse, v, n, t, 0, [], false)
  }

  function AllYes(voters: set<NodeId>): map<NodeId, bool> {
    map v | v in voters :: true
  }

  /** The log of a new leader. */
  function WithNoOp(log: seq<Entry>, t: Term): seq<Entry> {
    log + [Entry(|log| + 1, t, "")]
  }

  /** Node n stands in term t with the votes of exactly these nodes, and leads once they are a quorum. */
  ghost predicate StandsWith(c: Config, w: World, n: NodeId, t: Term, log: seq<Entry>, votes: set<NodeId>) {
    && n in w.nodes && w.nodes[n].term == t && w.nodes[n].votes == AllYes(votes)
    && if IsQuorum(|c.voters|, |votes|)
       then w.nodes[n].role == Leader && (t, n) in w.leaders && w.nodes[n].log == WithNoOp(log, t)
       else w.nodes[n].role == Candidate && w.nodes[n].log == log
  }

  ghost predicate AsksAll(c: Config, w: World, n: NodeId, t: Term, length: nat) {
    forall v: NodeId :: v in c.voters && v != n ==> Asked(n, v, t, length) in w.sent
  }

  /** Still able to vote for n in term t. */
  predicate Free(s: Local, n: NodeId, t: Term) {
    LastTerm(s.log) < t && s.term <= t && (s.term == t ==> s.votedFor == 0 || s.votedFor == n)
  }

  predicate LeadsTerm(s: Local, t: Term) {
    s.role == Leader && s.term == t
  }

  /** Only the nodes touched may have changed, and nothing seen is forgotten. */
  ghost predicate Carries(w: World, w': World, touched: set<NodeId>) {
    && w'.nodes.Keys == w.nodes.Keys
    && (forall p: NodeId :: p in w.nodes && p !in touched ==> w'.nodes[p] == w.nodes[p])
    && w.sent <= w'.sent && w.leaders <= w'.leaders
  }

  // ---------------------------------------------------------------- one voter is asked

  /** A free voter grants what it is asked. */
  lemma VoterGrants(c: Config, w: World, n: NodeId, v: NodeId, t: Term, length: nat)
    requires v in w.nodes && v != 0 && v != n && Free(w.nodes[v], n, t) && Asked(n, v, t, length) in w.sent
    ensures var w' := Step(c, w, Deliver(Asked(n, v, t, length), false));
            && Carries(w, w', {v}) && Yes(v, n, t) in w'.sent
            && w'.nodes[v].term == t && w'.nodes[v].votedFor == n && w'.nodes[v].log == w.nodes[v].log
            && (LeadsTerm(w'.nodes[v], t) ==> LeadsTerm(w.nodes[v], t))
  {
  }

  lemma OneMoreYes(votes: set<NodeId>, v: NodeId)
    ensures AllYes(votes)[v := true] == AllYes(votes + {v})
    ensures Granted(AllYes(votes)) == votes && Refused(AllYes(votes)) == {}
  {
  }

  lemma CandidateCounts(c: Config, w: World, n: NodeId, v: NodeId, t: Term, log: seq<Entry>, votes: set<NodeId>)
    requires StandsWith(c, w, n, t, log, votes) && !IsQuorum(|c.voters|, |votes|) && Yes(v, n, t) in w.sent
    ensures var w' := Step(c, w, Deliver(Yes(v, n, t), false));
            && StandsWith(c, w', n, t, log, votes + {v}) && Carries(w, w', {n})
  {
    OneMoreYes(votes, v);
    OneMoreYes(votes + {v}, v);
  }

  /** Node n asks v and counts its answer. */
  lemma Poll(c: Config, w: World, n: NodeId, v: NodeId, t: Term, log: seq<Entry>, votes: set<NodeId>)
    returns (ops: seq<Op>)
    requires StandsWith(c, w, n, t, log, votes) && !IsQuorum(|c.voters|, |votes|)
    requires v in w.nodes && v != 0 && v != n && Free(w.nodes[v], n, t) && Asked(n, v, t, |log|) in w.sent
    ensures var w' := Exec(c, w, ops);
            && Carries(w, w', {v, n}) && StandsWith(c, w', n, t, log, votes + {v})
            && w'.nodes[v].term == t && w'.nodes[v].votedFor == n && w'.nodes[v].log == w.nodes[v].log
            && (LeadsTerm(w'.nodes[v], t) ==> LeadsTerm(w.nodes[v], t))
    ensures NoAcks(ops)
  {
    var ask, answer := Deliver(Asked(n, v, t, |log|), false), Deliver(Yes(v, n, t), false);
    VoterGrants(c, w, n, v, t, |log|);
    CandidateCounts(c, Step(c, w, ask), n, v, t, log, votes);
    ExecOne(c, w, ask);
    ExecOne(c, Step(c, w, ask), answer);
    ExecConcat(c, w, [ask], [answer]);
    ops := [ask] + [answer];
  }

  // ---------------------------------------------------------------- standing

  lemma Campaigns(c: Config, w: World, n: NodeId)
    requires c.asks && n in w.nodes && |c.voters| > 1
    requires w.nodes[n].role != Leader && (c.preVote ==> w.nodes[n].role != Follower)
    ensures var s, w' := w.nodes[n], Step(c, w, Timeout(n));
            && StandsWith(c, w', n, s.term + 1, s.log, {n}) && AsksAll(c, w', n, s.term + 1, |s.log|)
            && Carries(w, w', {n})
  {
    var s := Campaigning(w.nodes[n], n);
    assert s.votes == AllYes({n});
    forall v: NodeId | v in c.voters && v != n ensures Asked(n, v, s.term, |s.log|) in VoteRequests(s, n, c.voters) {
    }
  }

  lemma PreCampaigns(c: Config, w: World, n: NodeId)
    requires c.preVote && n in w.nodes && w.nodes[n].role == Follower
    ensures var w' := Step(c, w, Timeout(n));
            && Carries(w, w', {n}) && w'.nodes[n] == PreCampaigning(w.nodes[n], n)
  {
  }

  /** A voter that does not lead stands in the next term. */
  lemma StandUp(c: Config, w: World, n: NodeId) returns (ops: seq<Op>)
    requires c.asks && n in w.nodes && w.nodes[n].role != Leader && |c.voters| > 1
    ensures var s, w' := w.nodes[n], Exec(c, w, ops);
            && Carries(w, w', {n})
            && StandsWith(c, w', n, s.term + 1, s.log, {n}) && AsksAll(c, w', n, s.term + 1, |s.log|)
    ensures NoAcks(ops)
  {
    ops := [Timeout(n)];
    ExecOne(c, w, Timeout(n));
    if c.preVote && w.nodes[n].role == Follower {
      PreCampaigns(c, w, n);
      var w1 := Step(c, w, Timeout(n));
      Campaigns(c, w1, n);
      ExecOne(c, w1, Timeout(n));
      ExecConcat(c, w, [Timeout(n)], [Timeout(n)]);
      ops := [Timeout(n)] + [Timeout(n)];
    } else {
      Campaigns(c, w, n);
    }
  }

  /** Timing out again and again takes it to any term. */
  lemma {:induction false} RaiseTo(c: Config, w: World, n: NodeId, bound: Term) returns (ops: seq<Op>)
    requires c.asks && n in w.nodes && w.nodes[n].role != Leader && |c.voters| > 1
    ensures var w' := Exec(c, w, ops);
            && Carries(w, w', {n}) && w'.nodes[n].term >= bound
            && w'.nodes[n].role != Leader && w'.nodes[n].log == w.nodes[n].log
    ensures NoAcks(ops)
    decreases if bound > w.nodes[n].term then bound - w.nodes[n].term else 0
  {
    ops := [];
    if w.nodes[n].term < bound {
      var first := StandUp(c, w, n);
      var rest := RaiseTo(c, Exec(c, w, first), n, bound);
      ExecConcat(c, w, first, rest);
      ops := first + rest;
    }
  }

  // ---------------------------------------------------------------- the votes of a majority

  /** Enough voters that vote for others: all but n itself and node 0. */
  predicate EnoughVoters(voters: set<NodeId>, n: NodeId) {
    n in voters && |voters| > 1 && (n == 0 || 0 !in voters || |voters| > 2)
  }

  lemma NotAsked(voters: set<NodeId>, n: NodeId, asked: set<NodeId>) returns (v: NodeId)
    requires EnoughVoters(voters, n) && asked <= voters - {n, 0} && |asked| < |voters| / 2
    ensures v in voters - {n, 0} - asked
  {
    assert voters - {n, 0} == if n != 0 && 0 in voters then voters - {n} - {0} else voters - {n};
    assert |voters - {n} - {0}| >= |voters - {n}| - 1;
    assert |voters - {n, 0} - asked| == |voters - {n, 0}| - |asked|;
    v := Pick(voters - {n, 0} - asked);
  }

  ghost predicate OthersFree(w: World, n: NodeId, t: Term, asked: set<NodeId>) {
    && (forall v: NodeId :: v in w.nodes && v != n ==> w.nodes[v].term <= t && !LeadsTerm(w.nodes[v], t))
    && (forall v: NodeId :: v in w.nodes && v !in asked + {n} ==> Free(w.nodes[v], n, t))
  }

  /** Node n stands in term t with the votes of `done`; the others can still vote for it. */
  ghost predicate Polling(c: Config, w: World, n: NodeId, t: Term, log: seq<Entry>, done: set<NodeId>) {
    && w.nodes.Keys == c.voters && done <= c.voters - {n, 0}
    && StandsWith(c, w, n, t, log, {n} + done) && AsksAll(c, w, n, t, |log|)
    && OthersFree(w, n, t, done)
  }

  lemma OthersStayFree(w: World, w': World, n: NodeId, t: Term, asked: set<NodeId>, v: NodeId)
    requires OthersFree(w, n, t, asked) && Carries(w, w', {v, n}) && v in w.nodes && v != n
    requires w'.nodes[v].term == t && (LeadsTerm(w'.nodes[v], t) ==> LeadsTerm(w.nodes[v], t))
    ensures OthersFree(w', n, t, asked + {v})
  {
  }

  lemma PollOne(c: Config, w: World, n: NodeId, t: Term, log: seq<Entry>, done: set<NodeId>, v: NodeId)
    returns (ops: seq<Op>)
    requires Polling(c, w, n, t, log, done)
    requires v in c.voters - {n, 0} - done && |done| + 1 <= |c.voters| / 2
    ensures Polling(c, Exec(c, w, ops), n, t, log, done + {v})
    ensures NoAcks(ops)
  {
    assert |{n} + done| == 1 + |done|;
    ops := Poll(c, w, n, v, t, log, {n} + done);
    OthersStayFree(w, Exec(c, w, ops), n, t, done, v);
    assert {n} + (done + {v}) == {n} + done + {v};
  }

  lemma {:induction false} PollMany(c: Config, w: World, n: NodeId, t: Term, log: seq<Entry>, k: nat)
    returns (ops: seq<Op>, done: set<NodeId>)
    requires EnoughVoters(c.voters, n) && k <= |c.voters| / 2 && Polling(c, w, n, t, log, {})
    ensures Polling(c, Exec(c, w, ops), n, t, log, done) && |done| == k
    ensures NoAcks(ops)
  {
    if k == 0 {
      ops, done := [], {};
    } else {
      ops, done := PollMany(c, w, n, t, log, k - 1);
      var v := NotAsked(c.voters, n, done);
      var one := PollOne(c, Exec(c, w, ops), n, t, log, done, v);
      ExecConcat(c, w, ops, one);
      ops, done := ops + one, done + {v};
    }
  }

  /** Node n leads term t with this log; no other node has gone beyond. */
  ghost predicate Heads(c: Config, w: World, n: NodeId, t: Term, log: seq<Entry>) {
    && w.nodes.Keys == c.voters && n in w.nodes && (t, n) in w.leaders
    && LeadsTerm(w.nodes[n], t) && w.nodes[n].log == log
    && (forall p: NodeId :: p in w.nodes ==> w.nodes[p].term <= t)
  }

  /** No other node leads term t either. */
  ghost predicate Leads(c: Config, w: World, n: NodeId, t: Term, log: seq<Entry>) {
    Heads(c, w, n, t, log) && forall p: NodeId :: p in w.nodes && p != n ==> !LeadsTerm(w.nodes[p], t)
  }

  ghost predicate NoNewLeader(w: World, w': World, t: Term) {
    w'.nodes.Keys == w.nodes.Keys
    && forall p: NodeId :: p in w.nodes && LeadsTerm(w'.nodes[p], t) ==> LeadsTerm(w.nodes[p], t)
  }

  /** Node n does not lead, and the others can vote for it in its next term. */
  ghost predicate CanStand(c: Config, w: World, n: NodeId) {
    && w.nodes.Keys == c.voters && n in w.nodes && w.nodes[n].role != Leader
    && OthersFree(w, n, w.nodes[n].term + 1, {})
  }

  lemma StandsForPolling(c: Config, w: World, n: NodeId) returns (ops: seq<Op>)
    requires c.asks && |c.voters| > 1 && CanStand(c, w, n)
    ensures Polling(c, Exec(c, w, ops), n, w.nodes[n].term + 1, w.nodes[n].log, {}) && NoAcks(ops)
  {
    ops := StandUp(c, w, n);
    assert {n} + {} == {n};
  }

  lemma PolledLeads(c: Config, w: World, n: NodeId, t: Term, log: seq<Entry>, done: set<NodeId>)
    requires Polling(c, w, n, t, log, done) && |done| == |c.voters| / 2
    ensures Leads(c, w, n, t, WithNoOp(log, t))
  {
    assert |{n} + done| == 1 + |done|;
  }

  /** A voter that stands in a term where the others are free wins it. */
  lemma StandAndWin(c: Config, w: World, n: NodeId) returns (ops: seq<Op>)
    requires c.asks && EnoughVoters(c.voters, n) && CanStand(c, w, n)
    ensures var t := w.nodes[n].term + 1; Leads(c, Exec(c, w, ops), n, t, WithNoOp(w.nodes[n].log, t))
    ensures NoAcks(ops)
  {
    var t, log := w.nodes[n].term + 1, w.nodes[n].log;
    var stand := StandsForPolling(c, w, n);
    var poll, done := PollMany(c, Exec(c, w, stand), n, t, log, |c.voters| / 2);
    ExecConcat(c, w, stand, poll);
    ops := stand + poll;
    PolledLeads(c, Exec(c, w, ops), n, t, log, done);
  }

  // ---------------------------------------------------------------- anyone can win

  ghost predicate TermsBelow(w: World, some: set<NodeId>, bound: int) {
    forall n: NodeId :: n in w.nodes && n in some ==> w.nodes[n].term <= bound && LastTerm(w.nodes[n].log) <= bound
  }

  lemma {:induction false} SomeBound(w: World, some: set<NodeId>) returns (bound: Term)
    requires some <= w.nodes.Keys
    ensures TermsBelow(w, some, bound)
  {
    if some == {} {
      bound := 0;
    } else {
      var n := Pick(some);
      bound := SomeBound(w, some - {n});
      var s := w.nodes[n];
      bound := bound + s.term + LastTerm(s.log);
    }
  }

  /** In a late enough term everybody is free. */
  lemma GetLate(c: Config, w: World, n: NodeId) returns (ops: seq<Op>, t: Term)
    requires c.asks && |c.voters| > 1 && w.nodes.Keys == c.voters && n in w.nodes && w.nodes[n].role != Leader
    ensures CanStand(c, Exec(c, w, ops), n) && Exec(c, w, ops).nodes[n].log == w.nodes[n].log
    ensures Exec(c, w, ops).nodes[n].term + 1 == t && TermsBelow(w, w.nodes.Keys, t - 1)
    ensures NoAcks(ops)
  {
    var bound := SomeBound(w, w.nodes.Keys);
    ops := RaiseTo(c, w, n, bound);
    t := Exec(c, w, ops).nodes[n].term + 1;
  }

  /**
   * Where requests are sent, a voter that does not lead can win the next election from any state.
   * Its log stays as it is but for the new leader's entry: what the others hold plays no part.
   */
  lemma AnyoneCanWin(c: Config, w: World, n: NodeId) returns (ops: seq<Op>, t: Term)
    requires c.asks && EnoughVoters(c.voters, n) && w.nodes.Keys == c.voters && w.nodes[n].role != Leader
    ensures Leads(c, Exec(c, w, ops), n, t, WithNoOp(w.nodes[n].log, t))
    ensures TermsBelow(w, w.nodes.Keys, t - 1)
    ensures NoAcks(ops)
  {
    var late;
    late, t := GetLate(c, w, n);
    var win := StandAndWin(c, Exec(c, w, late), n);
    ExecConcat(c, w, late, win);
    ops := late + win;
  }

  // ---------------------------------------------------------------- restarts

  lemma RestartOne(c: Config, w: World, n: NodeId)
    requires c.forgets && n in w.nodes
    ensures var w' := Exec(c, w, [Restart(n)]); Carries(w, w', {n}) && w'.nodes[n] == FRESH && NoAcks([Restart(n)])
  {
    ExecOne(c, w, Restart(n));
  }

  ghost predicate OnlyRestarted(w: World, w': World, some: set<NodeId>) {
    Carries(w, w', some) && forall n: NodeId :: n in some && n in w'.nodes ==> w'.nodes[n] == FRESH
  }

  lemma OneMoreRestarted(w: World, v: World, w': World, some: set<NodeId>, n: NodeId)
    requires OnlyRestarted(w, v, some) && OnlyRestarted(v, w', {n})
    ensures OnlyRestarted(w, w', some + {n})
  {
  }

  lemma {:induction false} RestartAll(c: Config, w: World, some: set<NodeId>) returns (ops: seq<Op>)
    requires c.forgets && some <= w.nodes.Keys
    ensures OnlyRestarted(w, Exec(c, w, ops), some) && NoAcks(ops)
  {
    if some == {} {
      ops := [];
    } else {
      var n := Pick(some);
      ops := RestartAll(c, w, some - {n});
      var v := Exec(c, w, ops);
      RestartOne(c, v, n);
      ExecConcat(c, w, ops, [Restart(n)]);
      OneMoreRestarted(w, v, Exec(c, v, [Restart(n)]), some - {n}, n);
      assert some - {n} + {n} == some;
      ops := ops + [Restart(n)];
    }
  }

  ghost predicate AllFresh(c: Config, w: World) {
    w.nodes.Keys == c.voters && forall n: NodeId :: n in w.nodes ==> w.nodes[n] == FRESH
  }

  /** Where all have just started, anyone can win term 1. */
  lemma WinFirst(c: Config, w: World, n: NodeId) returns (ops: seq<Op>)
    requires c.asks && EnoughVoters(c.voters, n) && AllFresh(c, w)
    ensures Leads(c, Exec(c, w, ops), n, 1, WithNoOp(FRESH.log, 1))
    ensures NoAcks(ops)
  {
    assert LastTerm(FRESH.log) == 0;
    ops := StandAndWin(c, w, n);
  }

  // ---------------------------------------------------------------- one leader a term

  /** No run of the cluster ever has two leaders in a term. */
  ghost predicate AlwaysOneLeader(c: Config) {
    forall ops :: OneLeader(Run(c, ops))
  }

  /** Nobody to elect, or nobody but node 0. */
  predicate AtMostOneEligible(c: Config) {
    !c.asks || |c.voters| <= 1 || (0 in c.voters && |c.voters| == 2)
  }

  // ---------------------------------------------------------------- node 0 never votes for another

  ghost predicate ZeroSilentAt(c: Config, n: NodeId, s: Local) {
    && (n == 0 ==> s.votedFor == 0)
    && (n != 0 && Standing(s) ==> Granted(s.votes) <= c.voters - {0})
  }

  ghost predicate ZeroSilent(c: Config, w: World) {
    && w.nodes.Keys == c.voters
    && (forall n: NodeId :: n in w.nodes ==> ZeroSilentAt(c, n, w.nodes[n]))
    && (forall m :: m in w.sent ==> m.from in c.voters && (IsGrant(m) ==> m.from != 0))
  }

  ghost predicate OnlyZeroLeads(w: World) {
    && (forall n: NodeId :: n in w.nodes && w.nodes[n].role == Leader ==> n == 0)
    && (forall l :: l in w.leaders ==> l.1 == 0)
  }

  lemma FewVotesNoQuorum(c: Config, votes: set<NodeId>)
    requires 0 in c.voters && |c.voters| <= 2 && votes <= c.voters - {0}
    ensures !IsQuorum(|c.voters|, |votes|)
  {
    SubsetSize(votes, c.voters - {0});
  }

  lemma ZeroVoteResponse(c: Config, w: World, n: NodeId, m: Message)
    requires 0 in c.voters && |c.voters| <= 2 && ZeroSilent(c, w) && OnlyZeroLeads(w)
    requires n in w.nodes && m in w.sent && m.to == n && m.kind == VoteResponse
    ensures var o := OnVoteResponse(CaughtUp(w.nodes[n], m), n, c.voters, m);
            && ZeroSilentAt(c, n, o.after)
            && (o.after.role == Leader ==> n == 0)
            && (forall x :: x in o.out ==> x.from == n && !IsGrant(x))
  {
    var s := CaughtUp(w.nodes[n], m);
    assert ZeroSilentAt(c, n, w.nodes[n]);
    if s.role == Candidate && m.term == s.term && n != 0 {
      var votes := s.votes[m.from := !m.reject];
      assert forall v: NodeId :: v in Granted(votes) ==> v in Granted(s.votes) || (v == m.from && IsGrant(m));
      assert Granted(votes) <= c.voters - {0};
      FewVotesNoQuorum(c, Granted(votes));
    }
  }

  lemma ZeroOtherMessage(c: Config, w: World, n: NodeId, m: Message, recent: bool)
    requires ZeroSilent(c, w) && OnlyZeroLeads(w) && n in w.nodes && m.kind != VoteResponse
    ensures var o := OnMessage(w.nodes[n], n, c.voters, m, recent, c.asks);
            && ZeroSilentAt(c, n, o.after)
            && (o.after.role == Leader ==> n == 0)
            && (forall x :: x in o.out ==> x.from == n && (IsGrant(x) ==> n != 0))
  {
    assert ZeroSilentAt(c, n, w.nodes[n]);
  }

  lemma ZeroEffect(c: Config, w: World, op: Op)
    requires 0 in c.voters && |c.voters| <= 2 && ZeroSilent(c, w) && OnlyZeroLeads(w) && Enabled(c, w, op)
    ensures var n, o := Actor(op), Effect(c, w, op);
            && ZeroSilentAt(c, n, o.after)
            && (o.after.role == Leader ==> n == 0)
            && (forall x :: x in o.out ==> x.from == n && (IsGrant(x) ==> n != 0))
  {
    var n := Actor(op);
    assert ZeroSilentAt(c, n, w.nodes[n]);
    if op.Deliver? {
      if op.message.kind == VoteResponse {
        ZeroVoteResponse(c, w, n, op.message);
      } else {
        ZeroOtherMessage(c, w, n, op.message, op.recent);
      }
    }
  }

  lemma {:induction false} TwoVotersSafe(c: Config, ops: seq<Op>)
    requires 0 in c.voters && |c.voters| <= 2
    ensures ZeroSilent(c, Run(c, ops)) && OnlyZeroLeads(Run(c, ops))
  {
    if ops != [] {
      var w, op := Run(c, ops[..|ops| - 1]), ops[|ops| - 1];
      TwoVotersSafe(c, ops[..|ops| - 1]);
      if Enabled(c, w, op) {
        ZeroEffect(c, w, op);
      }
    }
  }

  // ---------------------------------------------------------------- two leaders in one term

  /** Nodes 0 and a both stand in term 1, both with the votes of `done`. */
  ghost predicate Split(c: Config, w: World, a: NodeId, done: set<NodeId>) {
    && w.nodes.Keys == c.voters && done <= c.voters - {0, a}
    && StandsWith(c, w, 0, 1, FRESH.log, {0} + done) && AsksAll(c, w, 0, 1, 1)
    && StandsWith(c, w, a, 1, FRESH.log, {a} + done) && AsksAll(c, w, a, 1, 1)
    && RestFree(w, a, done)
  }

  ghost predicate RestFree(w: World, a: NodeId, done: set<NodeId>) {
    forall v: NodeId :: v in w.nodes ==>
      w.nodes[v].term <= 1 && (v != 0 && v != a && v !in done ==> Free(w.nodes[v], 0, 1))
  }

  ghost predicate Splittable(c: Config, a: NodeId) {
    c.asks && 0 in c.voters && a in c.voters && a != 0 && |c.voters| > 2
  }

  lemma SplitStart(c: Config, a: NodeId) returns (ops: seq<Op>)
    requires Splittable(c, a)
    ensures Split(c, Run(c, ops), a, {}) && NoAcks(ops)
  {
    var first := StandUp(c, Start(c), 0);
    var second := StandUp(c, Run(c, first), a);
    ExecConcat(c, Start(c), first, second);
    ops := first + second;
    BothStand(c, Start(c), Run(c, first), Run(c, ops), a);
  }

  lemma BothStand(c: Config, w: World, w1: World, w2: World, a: NodeId)
    requires Splittable(c, a) && AllFresh(c, w) && Carries(w, w1, {0}) && Carries(w1, w2, {a})
    requires StandsWith(c, w1, 0, 1, FRESH.log, {0}) && AsksAll(c, w1, 0, 1, 1)
    requires StandsWith(c, w2, a, 1, FRESH.log, {a}) && AsksAll(c, w2, a, 1, 1)
    ensures Split(c, w2, a, {})
  {
    assert {0} + {} == {0} && {a} + {} == {a};
    assert LastTerm(FRESH.log) == 0;
    StillStands(c, w1, w2, 0, {0}, {a});
  }

  /** Voter v answers node x; a vote for node 0 is not kept. */
  lemma SplitPoll(c: Config, w: World, x: NodeId, done: set<NodeId>, v: NodeId) returns (ops: seq<Op>)
    requires v in w.nodes && v != 0 && v != x && v !in done && x !in done && |done| + 1 <= |c.voters| / 2
    requires StandsWith(c, w, x, 1, FRESH.log, {x} + done) && v in c.voters && AsksAll(c, w, x, 1, 1)
    requires Free(w.nodes[v], x, 1)
    ensures var w' := Exec(c, w, ops);
            && Carries(w, w', {v, x}) && StandsWith(c, w', x, 1, FRESH.log, {x} + (done + {v}))
            && w'.nodes[v].term == 1 && w'.nodes[v].votedFor == x && w'.nodes[v].log == w.nodes[v].log
    ensures NoAcks(ops)
  {
    assert |{x} + done| == 1 + |done|;
    ops := Poll(c, w, x, v, 1, FRESH.log, {x} + done);
    assert {x} + (done + {v}) == {x} + done + {v};
  }

  lemma SplitOnce(c: Config, w: World, a: NodeId, done: set<NodeId>, v: NodeId) returns (ops: seq<Op>)
    requires Splittable(c, a) && Split(c, w, a, done)
    requires v in c.voters - {0, a} - done && |done| + 1 <= |c.voters| / 2
    ensures Split(c, Exec(c, w, ops), a, done + {v}) && NoAcks(ops)
  {
    var first := SplitPoll(c, w, 0, done, v);
    var second := SplitPoll(c, Exec(c, w, first), a, done, v);
    ExecConcat(c, w, first, second);
    ops := first + second;
    RestStaysFree(w, Exec(c, w, first), Exec(c, w, ops), a, done, v);
    StillStands(c, Exec(c, w, first), Exec(c, w, ops), 0, {0} + (done + {v}), {v, a});
  }

  lemma RestStaysFree(w: World, w1: World, w2: World, a: NodeId, done: set<NodeId>, v: NodeId)
    requires RestFree(w, a, done) && Carries(w, w1, {v, 0}) && Carries(w1, w2, {v, a})
    requires 0 in w.nodes && a in w.nodes && v in w.nodes && a != 0 && v != 0
    requires w1.nodes[0].term == 1 && w2.nodes[a].term == 1 && w2.nodes[v].term == 1
    ensures RestFree(w2, a, done + {v})
  {
  }

  lemma StillStands(c: Config, w: World, w': World, n: NodeId, votes: set<NodeId>, touched: set<NodeId>)
    requires StandsWith(c, w, n, 1, FRESH.log, votes) && Carries(w, w', touched) && n !in touched
    ensures StandsWith(c, w', n, 1, FRESH.log, votes)
  {
  }

  /** Then it answers node a. */
  lemma SplitSecond(c: Config, w: World, a: NodeId, done: set<NodeId>, v: NodeId) returns (ops: seq<Op>)
    requires Splittable(c, a) && w.nodes.Keys == c.voters && v in c.voters - {0, a} - done && |done| + 1 <= |c.voters| / 2
    requires a !in done && StandsWith(c, w, a, 1, FRESH.log, {a} + done) && AsksAll(c, w, a, 1, 1)
    requires Free(w.nodes[v], a, 1)
    ensures var w' := Exec(c, w, ops);
            && Carries(w, w', {v, a}) && w'.nodes[v].term == 1
            && StandsWith(c, w', a, 1, FRESH.log, {a} + (done + {v}))
    ensures NoAcks(ops)
  {
    assert |{a} + done| == 1 + |done|;
    ops := Poll(c, w, a, v, 1, FRESH.log, {a} + done);
    assert {a} + (done + {v}) == {a} + done + {v};
  }

  lemma {:induction false} SplitVote(c: Config, a: NodeId, k: nat) returns (ops: seq<Op>, done: set<NodeId>)
    requires Splittable(c, a) && k <= |c.voters| / 2
    ensures Split(c, Run(c, ops), a, done) && |done| == k && NoAcks(ops)
  {
    if k == 0 {
      ops := SplitStart(c, a);
      done := {};
    } else {
      ops, done := SplitVote(c, a, k - 1);
      assert c.voters - {0, a} == c.voters - {a, 0};
      var v := NotAsked(c.voters, a, done);
      var once := SplitOnce(c, Run(c, ops), a, done, v);
      ExecConcat(c, Start(c), ops, once);
      ops, done := ops + once, done + {v};
    }
  }

  /** With node 0 among three voters or more, nodes 0 and a can both come to lead term 1. */
  lemma SplitTerm(c: Config, a: NodeId) returns (ops: seq<Op>)
    requires Splittable(c, a)
    ensures var w := Run(c, ops);
            Heads(c, w, 0, 1, WithNoOp(FRESH.log, 1)) && Heads(c, w, a, 1, WithNoOp(FRESH.log, 1))
    ensures NoAcks(ops)
  {
    var done;
    ops, done := SplitVote(c, a, |c.voters| / 2);
    assert |{0} + done| == 1 + |done| && |{a} + done| == 1 + |done|;
  }

  lemma StartFresh(c: Config)
    ensures Posted(c, Start(c)) && AllFresh(c, Start(c))
  {
  }

  /** Voters that restart vote again in the term they voted in. */
  lemma ForgottenVotes(c: Config, a: NodeId, b: NodeId) returns (ops: seq<Op>)
    requires c.asks && c.forgets && EnoughVoters(c.voters, a) && EnoughVoters(c.voters, b)
    ensures (1, a) in Run(c, ops).leaders && (1, b) in Run(c, ops).leaders
  {
    StartFresh(c);
    var first := WinFirst(c, Start(c), a);
    var w := Run(c, first);
    var again := RestartAll(c, w, c.voters);
    var w' := Exec(c, w, again);
    var second := WinFirst(c, w', b);
    ExecPosted(c, Start(c), first);
    ExecPosted(c, w, again);
    ExecPosted(c, w', second);
    ExecConcat(c, w, again, second);
    ExecConcat(c, Start(c), first, again + second);
    ops := first + (again + second);
  }

  lemma TwoVoters(voters: set<NodeId>) returns (a: NodeId, b: NodeId)
    requires |voters| > 1 && !(0 in voters && |voters| == 2)
    ensures a != b && a != 0 && b != 0 && EnoughVoters(voters, a) && EnoughVoters(voters, b)
  {
    assert |voters - {0}| == if 0 in voters then |voters| - 1 else |voters| by {
      assert 0 !in voters ==> voters - {0} == voters;
    }
    a := Pick(voters - {0});
    assert |voters - {0} - {a}| == |voters - {0}| - 1;
    b := Pick(voters - {0} - {a});
  }

  lemma OneLeaderAlways(c: Config, ops: seq<Op>)
    requires AtMostOneEligible(c) || (0 !in c.voters && !c.forgets)
    ensures OneLeader(Run(c, ops))
  {
    if !c.asks || |c.voters| <= 1 {
      NobodyEverLeads(c, ops);
    } else if 0 in c.voters {
      TwoVotersSafe(c, ops);
    } else {
      RunElectoral(c, ops);
      ElectoralOneLeader(c, Run(c, ops));
    }
  }

  /** Exactly when a term has one leader in every run. */
  lemma ElectionSafety(c: Config)
    ensures AlwaysOneLeader(c) <==> AtMostOneEligible(c) || (0 !in c.voters && !c.forgets)
  {
    if AtMostOneEligible(c) || (0 !in c.voters && !c.forgets) {
      forall ops ensures OneLeader(Run(c, ops)) {
        OneLeaderAlways(c, ops);
      }
    } else {
      var a, b := TwoVoters(c.voters);
      if 0 in c.voters {
        var ops := SplitTerm(c, a);
        assert !OneLeader(Run(c, ops));
      } else {
        var ops := ForgottenVotes(c, a, b);
        assert !OneLeader(Run(c, ops));
      }
    }
  }

  // ---------------------------------------------------------------- who can be elected

  ghost predicate EverLed(c: Config) {
    exists ops :: Run(c, ops).leaders != {}
  }

  /** A cluster can have a leader exactly when vote requests are sent and there is somebody to send them to. */
  lemma LeadersExactly(c: Config)
    ensures EverLed(c) <==> c.asks && |c.voters| > 1
  {
    if c.asks && |c.voters| > 1 {
      var n := Pick(c.voters);
      n := if 0 in c.voters then 0 else n;
      StartFresh(c);
      var ops := WinFirst(c, Start(c), n);
      assert (1, n) in Run(c, ops).leaders;
    } else {
      forall ops ensures Run(c, ops).leaders == {} {
        NobodyEverLeads(c, ops);
      }
    }
  }

  /** These steps make n the leader of a term beyond all others, its log kept but for the new entry. */
  ghost predicate Elects(c: Config, w: World, ops: seq<Op>, n: NodeId) {
    && n in w.nodes && n in Exec(c, w, ops).nodes
    && var t := Exec(c, w, ops).nodes[n].term;
    && Leads(c, Exec(c, w, ops), n, t, WithNoOp(w.nodes[n].log, t))
    && TermsBelow(w, w.nodes.Keys, t - 1)
  }

  /** From a reachable state a voter that does not lead can win next exactly when requests are sent and there are
      enough voters that grant them; what its log holds plays no part. */
  lemma WinsExactly(c: Config, ops: seq<Op>, n: NodeId)
    requires n in c.voters && n in Run(c, ops).nodes && Run(c, ops).nodes[n].role != Leader
    ensures (exists more :: Elects(c, Run(c, ops), more, n)) <==> c.asks && EnoughVoters(c.voters, n)
  {
    var w := Run(c, ops);
    StartFresh(c);
    ExecPosted(c, Start(c), ops);
    if c.asks && EnoughVoters(c.voters, n) {
      var more, t := AnyoneCanWin(c, w, n);
      assert Elects(c, w, more, n);
    } else {
      forall more ensures !Elects(c, w, more, n) {
        ExecConcat(c, Start(c), ops, more);
        if !c.asks || |c.voters| <= 1 {
          NobodyEverLeads(c, ops + more);
        } else {
          TwoVotersSafe(c, ops + more);
        }
      }
    }
  }
}
