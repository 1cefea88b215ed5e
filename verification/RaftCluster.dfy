/**
 * A cluster of Raft nodes (src/cluster/raft/node.rs) over a network that may lose, delay, repeat
 * and reorder messages: every message ever sent can be delivered at any time, any number of times.
 */
module RaftCluster {
  import opened Basics
  import opened RaftNodes

  /**
   * `asks`: campaigns send the vote requests they build; the code drops them. `forgets`: a node may
   * restart; the runtime (src/cluster/raft/runtime.rs) stores nothing and builds nodes anew.
   */
  datatype Config = Config(voters: set<NodeId>, preVote: bool, asks: bool, forgets: bool)

  datatype Ballot = Ballot(voter: NodeId, term: Term, candidate: NodeId)

  /**
   * The nodes and the messages sent, and a record of what was ever seen: the votes stored,
   * the leaders of each term, and the latest log of each term's leader.
   */
  datatype World = World(
    nodes: map<NodeId, Local>,
    sent: set<Message>,
    ballots: set<Ballot>,
    leaders: set<(Term, NodeId)>,
    history: map<Term, seq<Entry>>)

  datatype Op =
    | Timeout(node: NodeId)
    | Deliver(message: Message, recent: bool)
    | Propose(node: NodeId, data: string)
    | Replicate(node: NodeId, to: NodeId, index: nat, count: nat)
    | Beat(node: NodeId, to: NodeId)
    | StepDown(node: NodeId)
    | Restart(node: NodeId)

  function Actor(op: Op): NodeId {
    if op.Deliver? then op.message.to else op.node
  }

  predicate Enabled(c: Config, w: World, op: Op) {
    && Actor(op) in w.nodes
    && match op
       case Timeout(n) => w.nodes[n].role != Leader
       case Deliver(m, _) => m in w.sent
       case Propose(n, _) => w.nodes[n].role == Leader
       case Replicate(n, to, index, count) =>
         w.nodes[n].role == Leader && to in c.voters - {n} && 0 < count && index + count <= |w.nodes[n].log|
       case Beat(n, to) => w.nodes[n].role == Leader && to in c.voters - {n}
       case StepDown(n) => w.nodes[n].role == Leader
       case Restart(_) => c.forgets
  }

  function Effect(c: Config, w: World, op: Op): Outcome
    requires Enabled(c, w, op)
  {
    var n := Actor(op);
    var s := w.nodes[n];
    match op
    case Timeout(_) => OnTimeout(s, n, c.voters, c.preVote, c.asks)
    case Deliver(m, recent) => OnMessage(s, n, c.voters, m, recent, c.asks)
    case Propose(_, data) => OnPropose(s, data)
    case Replicate(_, to, index, count) => Outcome(s, {Slice(s, n, to, index, count)})
    case Beat(_, to) => Outcome(s, {Message(Heartbeat, n, to, s.term, 0, [], false)})
    case StepDown(_) => Outcome(Following(s, s.term, 0), {})
    case Restart(_) => Outcome(FRESH, {})
  }

  function Record(w: World, n: NodeId, o: Outcome): World {
    var s := o.after;
    World(w.nodes[n := s],
          w.sent + o.out,
          w.ballots + if s.votedFor == 0 then {} else {Ballot(n, s.term, s.votedFor)},
          w.leaders + if s.role == Leader then {(s.term, n)} else {},
          if s.role == Leader then w.history[s.term := s.log] else w.history)
  }

  function Start(c: Config): World {
    World(map v | v in c.voters :: FRESH, {}, {}, {}, map[0 := FRESH.log])
  }

  function Step(c: Config, w: World, op: Op): World {
    if Enabled(c, w, op) then Record(w, Actor(op), Effect(c, w, op)) else w
  }

  function Exec(c: Config, w: World, ops: seq<Op>): World {
    if ops == [] then w else Step(c, Exec(c, w, ops[..|ops| - 1]), ops[|ops| - 1])
  }

  /** The world after a run from the start. */
  function Run(c: Config, ops: seq<Op>): World {
    Exec(c, Start(c), ops)
  }

  predicate DeliversAck(op: Op) {
    op.Deliver? && op.message.kind == AppendResponse
  }

  /** No acknowledgement is delivered. */
  predicate NoAcks(ops: seq<Op>) {
    ops == [] || (!DeliversAck(ops[|ops| - 1]) && NoAcks(ops[..|ops| - 1]))
  }

  lemma ExecOne(c: Config, w: World, op: Op)
    ensures Exec(c, w, [op]) == Step(c, w, op)
    ensures NoAcks([op]) <==> !DeliversAck(op)
  {
    assert [op][..0] == [];
  }

  lemma {:induction false} ExecConcat(c: Config, w: World, a: seq<Op>, b: seq<Op>)
    ensures Exec(c, w, a + b) == Exec(c, Exec(c, w, a), b)
    ensures NoAcks(a + b) <==> NoAcks(a) && NoAcks(b)
  {
    if b == [] {
      assert a + b == a;
    } else {
      assert (a + b)[..|a + b| - 1] == a + b[..|b| - 1];
      ExecConcat(c, w, a, b[..|b| - 1]);
    }
  }

  // ---------------------------------------------------------------- who can be addressed

  ghost predicate OwnMail(c: Config, n: NodeId, out: set<Message>) {
    forall m :: m in out ==> m.from == n && m.to in c.voters && m.to != n
  }

  /** Messages go from voters to other voters. */
  ghost predicate Posted(c: Config, w: World) {
    && w.nodes.Keys == c.voters
    && (forall m :: m in w.sent ==> m.from in c.voters && m.to in c.voters && m.from != m.to)
  }

  lemma MessagePosted(s: Local, n: NodeId, c: Config, m: Message, recent: bool)
    requires m.from in c.voters && m.from != n
    ensures OwnMail(c, n, OnMessage(s, n, c.voters, m, recent, c.asks).out)
  {
    if m.kind != VoteResponse && m.kind != PreVoteResponse && m.kind != RequestVote {
      OtherMessageLocal(s, n, c.voters, m, recent, c.asks);
    }
  }

  lemma EffectPosted(c: Config, w: World, op: Op)
    requires Posted(c, w) && Enabled(c, w, op)
    ensures OwnMail(c, Actor(op), Effect(c, w, op).out)
  {
    if op.Deliver? {
      MessagePosted(w.nodes[op.message.to], op.message.to, c, op.message, op.recent);
    }
  }

  lemma {:induction false} ExecPosted(c: Config, w: World, ops: seq<Op>)
    requires Posted(c, w)
    ensures Posted(c, Exec(c, w, ops))
    ensures w.sent <= Exec(c, w, ops).sent && w.leaders <= Exec(c, w, ops).leaders
  {
    if ops != [] {
      var v, op := Exec(c, w, ops[..|ops| - 1]), ops[|ops| - 1];
      ExecPosted(c, w, ops[..|ops| - 1]);
      if Enabled(c, v, op) {
        EffectPosted(c, v, op);
      }
    }
  }

  // ---------------------------------------------------------------- clusters that never elect

  ghost predicate Silent(w: World) {
    && w.sent == {} && w.leaders == {}
    && (forall n: NodeId :: n in w.nodes ==> w.nodes[n].role != Leader && w.nodes[n].log == FRESH.log)
  }

  /** Without vote requests, or without anybody to send them to, nothing is ever sent and nobody ever leads. */
  lemma {:induction false} NobodyEverLeads(c: Config, ops: seq<Op>)
    requires !c.asks || |c.voters| <= 1
    ensures Posted(c, Run(c, ops)) && Silent(Run(c, ops))
  {
    if ops != [] {
      var w, op := Run(c, ops[..|ops| - 1]), ops[|ops| - 1];
      NobodyEverLeads(c, ops[..|ops| - 1]);
      if op.Timeout? && op.node in w.nodes {
        TimeoutSilent(c, w, op.node);
      }
    }
  }

  lemma TimeoutSilent(c: Config, w: World, n: NodeId)
    requires (!c.asks || |c.voters| <= 1) && n in w.nodes && w.nodes.Keys == c.voters
    ensures OnTimeout(w.nodes[n], n, c.voters, c.preVote, c.asks).out == {}
  {
    if c.asks {
      forall p: NodeId | p in c.voters && p != n ensures false {
        SubsetSize({n, p}, c.voters);
      }
    }
  }

  // ---------------------------------------------------------------- what elections keep

  predicate IsGrant(m: Message) {
    m.kind == VoteResponse && !m.reject
  }

  ghost predicate Addressed(c: Config, w: World) {
    && Posted(c, w)
    && (forall n: NodeId :: n in w.nodes ==> w.nodes[n].votedFor == 0 || w.nodes[n].votedFor in c.voters)
  }

  /** A stored vote stays until the term moves on. */
  predicate InForce(w: World, b: Ballot) {
    && b.voter in w.nodes
    && b.candidate != 0
    && (w.nodes[b.voter].term > b.term
        || (w.nodes[b.voter].term == b.term && w.nodes[b.voter].votedFor == b.candidate))
  }

  ghost predicate BallotsKept(w: World) {
    && (forall b :: b in w.ballots ==> InForce(w, b))
    && (forall n: NodeId :: n in w.nodes && w.nodes[n].votedFor != 0 ==>
          Ballot(n, w.nodes[n].term, w.nodes[n].votedFor) in w.ballots)
  }

  /** Nobody votes twice in a term. */
  ghost predicate OneBallot(w: World) {
    forall b, b' :: b in w.ballots && b' in w.ballots && b.voter == b'.voter && b.term == b'.term ==> b == b'
  }

  ghost predicate GrantsCast(w: World) {
    forall m :: m in w.sent && IsGrant(m) ==> Ballot(m.from, m.term, m.to) in w.ballots
  }

  predicate Standing(s: Local) {
    s.role == Candidate || s.role == Leader
  }

  ghost predicate VotesCastFor(w: World, n: NodeId)
    requires n in w.nodes
  {
    var s := w.nodes[n];
    && (Standing(s) ==> forall v: NodeId :: v in Granted(s.votes) ==> v in w.nodes && Ballot(v, s.term, n) in w.ballots)
  }

  ghost predicate VotesCast(w: World) {
    forall n: NodeId :: n in w.nodes ==> VotesCastFor(w, n)
  }

  ghost predicate LeadersChosen(c: Config, w: World) {
    forall n: NodeId :: n in w.nodes && w.nodes[n].role == Leader ==>
      IsQuorum(|c.voters|, |Granted(w.nodes[n].votes)|)
  }

  function Backers(w: World, l: (Term, NodeId)): set<NodeId> {
    set v | v in w.nodes && Ballot(v, l.0, l.1) in w.ballots
  }

  ghost predicate Elected(c: Config, w: World) {
    forall l :: l in w.leaders ==> IsQuorum(|c.voters|, |Backers(w, l)|)
  }

  ghost predicate Electoral(c: Config, w: World) {
    && Addressed(c, w)
    && BallotsKept(w)
    && OneBallot(w)
    && GrantsCast(w)
    && VotesCast(w)
    && LeadersChosen(c, w)
    && Elected(c, w)
  }

  // ---------------------------------------------------------------- what one step may do

  /** The term never falls, and a vote given in it stands. */
  predicate KeepsVote(s: Local, s': Local) {
    s'.term >= s.term && (s'.term == s.term && s.votedFor != 0 ==> s'.votedFor == s.votedFor)
  }

  ghost predicate GrantsMatch(o: Outcome) {
    forall m :: m in o.out && IsGrant(m) ==> m.term == o.after.term && m.to == o.after.votedFor
  }

  /** Every counted vote is a ballot cast, or the node's own. */
  ghost predicate VotesBacked(w: World, n: NodeId, s: Local) {
    Standing(s) ==>
      forall v: NodeId :: v in Granted(s.votes) ==>
        v in w.nodes && (Ballot(v, s.term, n) in w.ballots || (v == n && s.votedFor == n))
  }

  ghost predicate Sound(c: Config, w: World, n: NodeId, o: Outcome)
    requires n in w.nodes
  {
    && KeepsVote(w.nodes[n], o.after)
    && (o.after.votedFor == 0 || o.after.votedFor in c.voters)
    && OwnMail(c, n, o.out)
    && GrantsMatch(o)
    && VotesBacked(w, n, o.after)
    && (o.after.role == Leader ==> IsQuorum(|c.voters|, |Granted(o.after.votes)|))
  }

  lemma CampaignSound(c: Config, w: World, n: NodeId, s: Local)
    requires Electoral(c, w) && n in w.nodes && KeepsVote(w.nodes[n], s)
    ensures Sound(c, w, n, Outcome(Campaigning(s, n), SentIf(c.asks, VoteRequests(Campaigning(s, n), n, c.voters))))
  {
  }

  lemma TimeoutSound(c: Config, w: World, n: NodeId)
    requires Electoral(c, w) && n in w.nodes
    ensures Sound(c, w, n, OnTimeout(w.nodes[n], n, c.voters, c.preVote, c.asks))
  {
    CampaignSound(c, w, n, w.nodes[n]);
  }

  lemma VoteResponseSound(c: Config, w: World, n: NodeId, m: Message)
    requires Electoral(c, w) && n in w.nodes && m in w.sent && m.to == n && m.kind == VoteResponse
    ensures Sound(c, w, n, OnVoteResponse(CaughtUp(w.nodes[n], m), n, c.voters, m))
  {
    var s := CaughtUp(w.nodes[n], m);
    if s.role == Candidate && m.term == s.term {
      assert s == w.nodes[n] && VotesCastFor(w, n);
      var counted := s.(votes := s.votes[m.from := !m.reject]);
      assert forall v: NodeId :: v in Granted(counted.votes) ==> v in Granted(s.votes) || (v == m.from && IsGrant(m));
      assert VotesBacked(w, n, counted);
      assert Granted(Leading(counted, n).votes) == Granted(counted.votes);
      assert VotesBacked(w, n, Leading(counted, n));
    } else {
      assert VotesCastFor(w, n);
    }
  }

  lemma PreVoteResponseSound(c: Config, w: World, n: NodeId, m: Message)
    requires Electoral(c, w) && n in w.nodes && m in w.sent && m.to == n
    ensures Sound(c, w, n, OnPreVoteResponse(CaughtUp(w.nodes[n], m), n, c.voters, m, c.asks))
  {
    var s := CaughtUp(w.nodes[n], m);
    assert VotesCastFor(w, n);
    CampaignSound(c, w, n, s.(votes := s.votes[m.from := !m.reject]));
  }

  lemma RequestVoteSound(c: Config, w: World, n: NodeId, m: Message)
    requires Electoral(c, w) && n in w.nodes && m in w.sent && m.to == n && m.kind == RequestVote
    ensures Sound(c, w, n, OnRequestVote(CaughtUp(w.nodes[n], m), n, m))
  {
    assert VotesCastFor(w, n);
  }

  /** Other messages leave the vote alone once the term is caught up. */
  lemma OtherMessageLocal(s: Local, n: NodeId, voters: set<NodeId>, m: Message, recent: bool, asks: bool)
    requires m.kind != VoteResponse && m.kind != PreVoteResponse && m.kind != RequestVote
    ensures var o, was := OnMessage(s, n, voters, m, recent, asks), CaughtUp(s, m);
            && o.after.term == was.term && o.after.votedFor == was.votedFor
            && o.after.role == was.role && o.after.votes == was.votes
            && (forall x :: x in o.out ==> x.from == n && x.to == m.from && !IsGrant(x))
  {
  }

  lemma OtherMessageSound(c: Config, w: World, n: NodeId, m: Message, recent: bool)
    requires Electoral(c, w) && n in w.nodes && m in w.sent && m.to == n
    requires m.kind != VoteResponse && m.kind != PreVoteResponse && m.kind != RequestVote
    ensures Sound(c, w, n, OnMessage(w.nodes[n], n, c.voters, m, recent, c.asks))
  {
    var s, o := w.nodes[n], OnMessage(w.nodes[n], n, c.voters, m, recent, c.asks);
    assert VotesCastFor(w, n);
    OtherMessageLocal(s, n, c.voters, m, recent, c.asks);
    assert KeepsVote(s, o.after) && VotesBacked(w, n, o.after);
    assert OwnMail(c, n, o.out) && GrantsMatch(o);
  }

  lemma LeaderStepSound(c: Config, w: World, op: Op)
    requires !c.forgets && Electoral(c, w) && Enabled(c, w, op) && !op.Timeout? && !op.Deliver?
    ensures Sound(c, w, Actor(op), Effect(c, w, op))
  {
    var n, o := Actor(op), Effect(c, w, op);
    var s := w.nodes[n];
    assert VotesCastFor(w, n);
    assert o.after.votedFor == s.votedFor && o.after.term == s.term;
    assert o.after.role == Follower || (o.after.role == s.role && o.after.votes == s.votes);
    assert forall m :: m in o.out ==> !IsGrant(m);
  }

  lemma EffectSound(c: Config, w: World, op: Op)
    requires !c.forgets && Electoral(c, w) && Enabled(c, w, op)
    ensures Sound(c, w, Actor(op), Effect(c, w, op))
  {
    var n := Actor(op);
    if op.Timeout? {
      TimeoutSound(c, w, n);
    } else if op.Deliver? {
      DeliverSound(c, w, n, op.message, op.recent);
    } else {
      LeaderStepSound(c, w, op);
    }
  }

  lemma DeliverSound(c: Config, w: World, n: NodeId, m: Message, recent: bool)
    requires Electoral(c, w) && n in w.nodes && m in w.sent && m.to == n
    ensures Sound(c, w, n, OnMessage(w.nodes[n], n, c.voters, m, recent, c.asks))
  {
    if m.kind == VoteResponse {
      VoteResponseSound(c, w, n, m);
    } else if m.kind == PreVoteResponse {
      PreVoteResponseSound(c, w, n, m);
    } else if m.kind == RequestVote {
      RequestVoteSound(c, w, n, m);
    } else {
      OtherMessageSound(c, w, n, m, recent);
    }
  }

  // ---------------------------------------------------------------- elections are kept

  lemma RecordAddressed(c: Config, w: World, n: NodeId, o: Outcome)
    requires Electoral(c, w) && n in w.nodes && Sound(c, w, n, o)
    ensures Addressed(c, Record(w, n, o))
  {
  }

  lemma RecordBallots(c: Config, w: World, n: NodeId, o: Outcome)
    requires Electoral(c, w) && n in w.nodes && Sound(c, w, n, o)
    ensures BallotsKept(Record(w, n, o))
  {
    var w' := Record(w, n, o);
    forall b | b in w'.ballots ensures InForce(w', b) {
      assert b in w.ballots ==> InForce(w, b);
    }
  }

  lemma RecordOneBallot(c: Config, w: World, n: NodeId, o: Outcome)
    requires Electoral(c, w) && n in w.nodes && Sound(c, w, n, o)
    ensures OneBallot(Record(w, n, o))
  {
    forall b | b in w.ballots && b.voter == n && b.term == o.after.term ensures b.candidate == o.after.votedFor {
      assert InForce(w, b);
    }
  }

  lemma RecordVotes(c: Config, w: World, n: NodeId, o: Outcome)
    requires 0 !in c.voters && Electoral(c, w) && n in w.nodes && Sound(c, w, n, o)
    ensures GrantsCast(Record(w, n, o)) && VotesCast(Record(w, n, o)) && LeadersChosen(c, Record(w, n, o))
  {
    var w' := Record(w, n, o);
    forall p: NodeId | p in w'.nodes ensures VotesCastFor(w', p) {
      assert p in w.nodes && VotesCastFor(w, p);
    }
  }

  lemma BackersGrow(w: World, n: NodeId, o: Outcome, l: (Term, NodeId))
    requires n in w.nodes
    ensures |Backers(w, l)| <= |Backers(Record(w, n, o), l)|
  {
    SubsetSize(Backers(w, l), Backers(Record(w, n, o), l));
  }

  lemma RecordElected(c: Config, w: World, n: NodeId, o: Outcome)
    requires Electoral(c, w) && n in w.nodes && VotesCast(Record(w, n, o)) && LeadersChosen(c, Record(w, n, o))
    ensures Elected(c, Record(w, n, o))
  {
    var w' := Record(w, n, o);
    forall l | l in w'.leaders ensures IsQuorum(|c.voters|, |Backers(w', l)|) {
      if l in w.leaders {
        BackersGrow(w, n, o, l);
      } else {
        assert VotesCastFor(w', n);
        assert Granted(o.after.votes) <= Backers(w', l);
        SubsetSize(Granted(o.after.votes), Backers(w', l));
      }
    }
  }

  lemma {:induction false} RunElectoral(c: Config, ops: seq<Op>)
    requires 0 !in c.voters && !c.forgets
    ensures Electoral(c, Run(c, ops))
  {
    if ops != [] {
      var w, op := Run(c, ops[..|ops| - 1]), ops[|ops| - 1];
      RunElectoral(c, ops[..|ops| - 1]);
      if Enabled(c, w, op) {
        var n, o := Actor(op), Effect(c, w, op);
        EffectSound(c, w, op);
        RecordAddressed(c, w, n, o);
        RecordBallots(c, w, n, o);
        RecordOneBallot(c, w, n, o);
        RecordVotes(c, w, n, o);
        RecordElected(c, w, n, o);
      }
    }
  }

  /** No term ever has two leaders. */
  ghost predicate OneLeader(w: World) {
    forall l, l' :: l in w.leaders && l' in w.leaders && l.0 == l'.0 ==> l == l'
  }

  lemma ElectoralOneLeader(c: Config, w: World)
    requires Electoral(c, w)
    ensures OneLeader(w)
  {
    forall l, l' | l in w.leaders && l' in w.leaders && l.0 == l'.0 ensures l == l' {
      var v := MajoritiesMeet(c.voters, Backers(w, l), Backers(w, l'));
      assert Ballot(v, l.0, l.1) in w.ballots && Ballot(v, l'.0, l'.1) in w.ballots;
    }
  }
}
