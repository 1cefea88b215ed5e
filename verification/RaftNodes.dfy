/**
 * One Raft node (src/cluster/raft/node.rs): elections and the log. Clocks are arguments; the
 * commit index and replication progress are in RaftCommit, reads and snapshots are left out.
 *
 * `campaign` and `pre_campaign` build vote requests and drop them. The functions on values take
 * `asks`, whether such requests are sent; the class is the code as written, which sends none.
 */
module RaftNodes {
  import opened Basics

  type NodeId = nat
  type Term = nat

  datatype Role = Follower | Candidate | Leader | PreCandidate
  datatype Entry = Entry(index: nat, term: Term, data: string)
  datatype Kind =
    | Heartbeat | AppendEntries | AppendResponse
    | RequestVote | VoteResponse | RequestPreVote | PreVoteResponse
  datatype Message = Message(
    kind: Kind, from: NodeId, to: NodeId, term: Term, index: nat, entries: seq<Entry>, reject: bool)

  /** What a node stores; `votedFor` 0 stands for no vote. */
  datatype Local = Local(
    term: Term, votedFor: NodeId, log: seq<Entry>, role: Role, leader: NodeId, votes: map<NodeId, bool>)

  /** The state after a step and the messages it hands to the network. */
  datatype Outcome = Outcome(after: Local, out: set<Message>)

  const FRESH := Local(0, 0, [Entry(1, 0, "")], Follower, 0, map[])

  // ---------------------------------------------------------------- state transitions

  function Reset(s: Local, term: Term): Local {
    s.(term := term, votedFor := if s.term != term then 0 else s.votedFor, leader := 0, votes := map[])
  }

  function Following(s: Local, term: Term, leader: NodeId): Local {
    Reset(s, term).(role := Follower, leader := leader)
  }

  function PreCampaigning(s: Local, id: NodeId): Local {
    s.(role := PreCandidate, votes := map[id := true])
  }

  function Campaigning(s: Local, id: NodeId): Local {
    s.(term := s.term + 1, role := Candidate, votedFor := id, leader := 0, votes := map[id := true])
  }

  /** A new leader adds an empty entry of its term. */
  function Leading(s: Local, id: NodeId): Local {
    s.(role := Leader, leader := id, log := s.log + [Entry(|s.log| + 1, s.term, "")])
  }

  // ---------------------------------------------------------------- the log

  function LogTerm(log: seq<Entry>, index: nat): Term {
    if index == 0 || index > |log| then 0 else log[index - 1].term
  }

  function LastTerm(log: seq<Entry>): Term {
    LogTerm(log, |log|)
  }

  /** The completeness check of a vote: it compares the candidate's term with the voter's last entry. */
  predicate LogOk(log: seq<Entry>, m: Message) {
    m.term > LastTerm(log) || (m.term == LastTerm(log) && m.index >= |log|)
  }

  /** The entries numbered `next` or above. */
  function From(entries: seq<Entry>, next: nat): seq<Entry> {
    if entries == [] then []
    else From(entries[..|entries| - 1], next) + if entries[|entries| - 1].index < next then [] else [entries[|entries| - 1]]
  }

  function Appended(log: seq<Entry>, m: Message): seq<Entry> {
    if m.entries == [] then log else Take(log, m.index) + From(m.entries, m.index + 1)
  }

  // ---------------------------------------------------------------- messages sent to the peers

  function Requests(kind: Kind, id: NodeId, term: Term, index: nat, peers: set<NodeId>): set<Message> {
    set p | p in peers && p != id :: Message(kind, id, p, term, index, [], false)
  }

  function VoteRequests(s: Local, id: NodeId, peers: set<NodeId>): set<Message> {
    Requests(RequestVote, id, s.term, |s.log|, peers)
  }

  function PreVoteRequests(s: Local, id: NodeId, peers: set<NodeId>): set<Message> {
    Requests(RequestPreVote, id, LastTerm(s.log), |s.log|, peers)
  }

  /** Entries `index + 1` to `index + count` of a leader's log, or none, for one peer. */
  function Slice(s: Local, id: NodeId, to: NodeId, index: nat, count: nat): Message
    requires index + count <= |s.log|
  {
    Message(AppendEntries, id, to, s.term, index, s.log[index..index + count], false)
  }

  /** What a campaign hands to the network. */
  function SentIf(asks: bool, requests: set<Message>): set<Message> {
    if asks then requests else {}
  }

  /** `build_append_acks`: the last entry for every peer, unless it is the only one. */
  function FirstAppends(s: Local, id: NodeId, peers: set<NodeId>): set<Message>
    requires s.log != []
  {
    set p | p in peers && p != id :: Slice(s, id, p, |s.log| - 1, if |s.log| > 1 then 1 else 0)
  }

  // ---------------------------------------------------------------- handlers

  function Granted(votes: map<NodeId, bool>): set<NodeId> {
    set v | v in votes && votes[v]
  }

  function Refused(votes: map<NodeId, bool>): set<NodeId> {
    set v | v in votes && !votes[v]
  }

  predicate IsQuorum(voters: nat, votes: nat) {
    votes > voters / 2
  }

  function Reply(kind: Kind, id: NodeId, m: Message, term: Term, index: nat, reject: bool): Message {
    Message(kind, id, m.from, term, index, [], reject)
  }

  function OnHeartbeat(s: Local, id: NodeId, m: Message): Outcome {
    if m.term < s.term then Outcome(s, {})
    else Outcome(s.(leader := m.from), {Reply(Heartbeat, id, m, s.term, 0, false)})
  }

  /** The entry before the new ones must be of the leader's own term. */
  predicate Fits(log: seq<Entry>, m: Message) {
    m.index == 0 || LogTerm(log, m.index) == m.term
  }

  function OnAppendEntries(s: Local, id: NodeId, m: Message): Outcome {
    if m.term < s.term then Outcome(s, {Reply(AppendResponse, id, m, s.term, 0, true)})
    else if !Fits(s.log, m) then
      Outcome(s.(leader := m.from), {Reply(AppendResponse, id, m, s.term, 0, true)})
    else
      Outcome(s.(leader := m.from, log := Appended(s.log, m)),
              {Reply(AppendResponse, id, m, s.term, |Appended(s.log, m)|, false)})
  }

  predicate MayVote(s: Local, id: NodeId, m: Message) {
    (s.votedFor == 0 || s.votedFor == m.from) && s.votedFor != id
  }

  function OnRequestVote(s: Local, id: NodeId, m: Message): Outcome {
    if m.term < s.term then Outcome(s, {Reply(VoteResponse, id, m, s.term, 0, true)})
    else if MayVote(s, id, m) && LogOk(s.log, m) then
      Outcome(s.(votedFor := m.from), {Reply(VoteResponse, id, m, s.term, 0, false)})
    else Outcome(s, {Reply(VoteResponse, id, m, s.term, 0, true)})
  }

  function OnVoteResponse(s: Local, id: NodeId, voters: set<NodeId>, m: Message): Outcome {
    if s.role != Candidate || m.term != s.term then Outcome(s, {})
    else
      var counted := s.(votes := s.votes[m.from := !m.reject]);
      if IsQuorum(|voters|, |Granted(counted.votes)|) then
        Outcome(Leading(counted, id), FirstAppends(Leading(counted, id), id, voters))
      else if IsQuorum(|voters|, |Refused(counted.votes)|) then Outcome(Following(counted, s.term, 0), {})
      else Outcome(counted, {})
  }

  /** `recent`: whether the election timer was reset lately. */
  function OnRequestPreVote(s: Local, id: NodeId, m: Message, recent: bool): Outcome {
    var led := s.role == Leader || (s.leader != 0 && recent);
    Outcome(s, {Reply(PreVoteResponse, id, m, s.term, 0, !(LogOk(s.log, m) && !led))})
  }

  function OnPreVoteResponse(s: Local, id: NodeId, voters: set<NodeId>, m: Message, asks: bool): Outcome {
    if s.role != PreCandidate || m.term != s.term then Outcome(s, {})
    else
      var counted := s.(votes := s.votes[m.from := !m.reject]);
      if IsQuorum(|voters|, |Granted(counted.votes)|) then
        Outcome(Campaigning(counted, id), SentIf(asks, VoteRequests(Campaigning(counted, id), id, voters)))
      else Outcome(counted, {})
  }

  /** A higher term makes any node a follower first. */
  function CaughtUp(s: Local, m: Message): Local {
    if m.term > s.term then Following(s, m.term, if m.kind == AppendEntries then m.from else 0) else s
  }

  function OnMessage(s: Local, id: NodeId, voters: set<NodeId>, m: Message, recent: bool, asks: bool): Outcome {
    var s := CaughtUp(s, m);
    match m.kind
    case Heartbeat => OnHeartbeat(s, id, m)
    case AppendEntries => OnAppendEntries(s, id, m)
    case AppendResponse => Outcome(s, {})
    case RequestVote => OnRequestVote(s, id, m)
    case VoteResponse => OnVoteResponse(s, id, voters, m)
    case RequestPreVote => OnRequestPreVote(s, id, m, recent)
    case PreVoteResponse => OnPreVoteResponse(s, id, voters, m, asks)
  }

  /** Nothing is heard from a leader: a follower asks around first when pre-votes are on. */
  function OnTimeout(s: Local, id: NodeId, voters: set<NodeId>, preVote: bool, asks: bool): Outcome {
    if preVote && s.role == Follower then
      Outcome(PreCampaigning(s, id), SentIf(asks, PreVoteRequests(s, id, voters)))
    else
      Outcome(Campaigning(s, id), SentIf(asks, VoteRequests(Campaigning(s, id), id, voters)))
  }

  function OnPropose(s: Local, data: string): Outcome {
    Outcome(s.(log := s.log + [Entry(|s.log| + 1, s.term, data)]), {})
  }

  lemma OneMoreRequest(kind: Kind, id: NodeId, term: Term, index: nat, peers: set<NodeId>, p: NodeId)
    ensures Requests(kind, id, term, index, peers + {p})
            == Requests(kind, id, term, index, peers) + if p == id then {} else {Message(kind, id, p, term, index, [], false)}
  {
  }

  // ---------------------------------------------------------------- the node

  class RaftNode {
    const id: NodeId
    const voters: set<NodeId>
    const preVote: bool
    var term: Term
    var votedFor: NodeId
    var log: seq<Entry>
    var role: Role
    var leader: NodeId
    var votes: map<NodeId, bool>

    ghost function Contents(): Local
      reads this
    {
      Local(term, votedFor, log, role, leader, votes)
    }

    constructor (id: NodeId, voters: set<NodeId>, preVote: bool)
      ensures this.id == id && this.voters == voters && this.preVote == preVote && Contents() == FRESH
    {
      this.id, this.voters, this.preVote := id, voters, preVote;
      term, votedFor, log, role, leader, votes := 0, 0, [Entry(1, 0, "")], Follower, 0, map[];
    }

    method ResetTo(t: Term)
      modifies this
      ensures Contents() == Reset(old(Contents()), t)
    {
      if term != t {
        term := t;
        votedFor := 0;
      }
      leader := 0;
      votes := map[];
    }

    method BecomeFollower(t: Term, leaderId: NodeId)
      modifies this
      ensures Contents() == Following(old(Contents()), t, leaderId)
    {
      ResetTo(t);
      role := Follower;
      leader := leaderId;
    }

    method BecomeCandidate()
      modifies this
      ensures Contents() == Campaigning(old(Contents()), id)
    {
      term := term + 1;
      ResetTo(term);
      role := Candidate;
      votedFor := id;
      votes := map[id := true];
    }

    method BecomeLeader()
      modifies this
      ensures Contents() == Leading(old(Contents()), id)
    {
      var lastIndex := |log|;
      role := Leader;
      leader := id;
      log := log + [Entry(lastIndex + 1, term, "")];
    }

    /** The request for every voter but this node. */
    method Ask(kind: Kind, term: Term) returns (out: set<Message>)
      ensures out == Requests(kind, id, term, |log|, voters)
    {
      out := {};
      var rest := voters;
      ghost var asked: set<NodeId> := {};
      while rest != {}
        invariant asked + rest == voters
        invariant out == Requests(kind, id, term, |log|, asked)
        decreases |rest|
      {
        var peer :| peer in rest;
        OneMoreRequest(kind, id, term, |log|, asked, peer);
        rest, asked := rest - {peer}, asked + {peer};
        if peer != id {
          out := out + {Message(kind, id, peer, term, |log|, [], false)};
        }
      }
      assert asked == voters;
    }

    /** The requests are built and go nowhere. */
    method Campaign() returns (built: set<Message>)
      modifies this
      ensures Contents() == Campaigning(old(Contents()), id) && built == VoteRequests(Contents(), id, voters)
    {
      BecomeCandidate();
      built := Ask(RequestVote, term);
    }

    method PreCampaign() returns (built: set<Message>)
      modifies this
      ensures Contents() == PreCampaigning(old(Contents()), id)
      ensures built == PreVoteRequests(old(Contents()), id, voters)
    {
      role := PreCandidate;
      votes := map[id := true];
      built := Ask(RequestPreVote, LastTerm(log));
    }

    /** Nothing is sent: the requests that were built are dropped. */
    method HandleElectionTimeout() returns (out: set<Message>)
      modifies this
      ensures Outcome(Contents(), out) == OnTimeout(old(Contents()), id, voters, preVote, false)
    {
      if preVote && role == Follower {
        var built := PreCampaign();
      } else {
        var built := Campaign();
      }
      out := {};
    }

    /** Refused unless this node leads. */
    method Propose(data: string) returns (index: Option<nat>)
      modifies this
      ensures index == if old(role) == Leader then Some(old(|log|) + 1) else None
      ensures Contents() == if old(role) == Leader then OnPropose(old(Contents()), data).after else old(Contents())
    {
      if role != Leader {
        return None;
      }
      index := Some(|log| + 1);
      log := log + [Entry(|log| + 1, term, data)];
    }

    method PushFrom(entries: seq<Entry>, next: nat)
      modifies this`log
      ensures log == old(log) + From(entries, next)
    {
      for i := 0 to |entries|
        invariant log == old(log) + From(entries[..i], next)
      {
        assert entries[..i + 1][..i] == entries[..i];
        if entries[i].index >= next {
          log := log + [entries[i]];
        }
      }
      assert entries[..|entries|] == entries;
    }

    method HandleAppendEntries(m: Message) returns (out: set<Message>)
      modifies this
      ensures Outcome(Contents(), out) == OnAppendEntries(old(Contents()), id, m)
    {
      if m.term < term {
        return {Reply(AppendResponse, id, m, term, 0, true)};
      }
      leader := m.from;
      if m.index > 0 && LogTerm(log, m.index) != m.term {
        return {Reply(AppendResponse, id, m, term, 0, true)};
      }
      if m.entries != [] {
        var next := m.index + 1;
        if next <= |log| {
          log := log[..next - 1];
        }
        PushFrom(m.entries, next);
      }
      out := {Reply(AppendResponse, id, m, term, |log|, false)};
    }

    method HandleRequestVote(m: Message) returns (out: set<Message>)
      modifies this
      ensures Outcome(Contents(), out) == OnRequestVote(old(Contents()), id, m)
    {
      if m.term < term {
        return {Reply(VoteResponse, id, m, term, 0, true)};
      }
      var canVote := votedFor == 0 || votedFor == m.from;
      if votedFor == id {
        canVote := false;
      }
      var granted := canVote && LogOk(log, m);
      if granted {
        votedFor := m.from;
      }
      out := {Reply(VoteResponse, id, m, term, 0, !granted)};
    }

    method HandleVoteResponse(m: Message) returns (out: set<Message>)
      modifies this
      ensures Outcome(Contents(), out) == OnVoteResponse(old(Contents()), id, voters, m)
    {
      out := {};
      if role != Candidate || m.term != term {
        return;
      }
      votes := votes[m.from := !m.reject];
      if IsQuorum(|voters|, |Granted(votes)|) {
        BecomeLeader();
        out := FirstAppends(Local(term, votedFor, log, role, leader, votes), id, voters);
      } else if IsQuorum(|voters|, |Refused(votes)|) {
        BecomeFollower(term, 0);
      }
    }

    method HandlePreVoteResponse(m: Message) returns (out: set<Message>)
      modifies this
      ensures Outcome(Contents(), out) == OnPreVoteResponse(old(Contents()), id, voters, m, false)
    {
      out := {};
      if role != PreCandidate || m.term != term {
        return;
      }
      votes := votes[m.from := !m.reject];
      if IsQuorum(|voters|, |Granted(votes)|) {
        var built := Campaign();
      }
    }

    method Step(m: Message, recent: bool) returns (out: set<Message>)
      modifies this
      ensures Outcome(Contents(), out) == OnMessage(old(Contents()), id, voters, m, recent, false)
    {
      if m.term > term {
        BecomeFollower(m.term, if m.kind == AppendEntries then m.from else 0);
      }
      match m.kind
      case Heartbeat =>
        out := {};
        if m.term >= term {
          leader := m.from;
          out := {Reply(Heartbeat, id, m, term, 0, false)};
        }
      case AppendEntries =>
        out := HandleAppendEntries(m);
      case AppendResponse =>
        out := {};
      case RequestVote =>
        out := HandleRequestVote(m);
      case VoteResponse =>
        out := HandleVoteResponse(m);
      case RequestPreVote =>
        var led := role == Leader || (leader != 0 && recent);
        out := {Reply(PreVoteResponse, id, m, term, 0, !(LogOk(log, m) && !led))};
      case PreVoteResponse =>
        out := HandlePreVoteResponse(m);
    }
  }
}
