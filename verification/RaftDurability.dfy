/**
 * What a majority's holding an entry is worth (src/cluster/raft/node.rs): nothing, as soon as
 * there is somebody else to elect. A late duplicate of an older append cuts a follower's log short,
 * and the vote's log check does not keep that follower from winning.
 */
module RaftDurability {
  import opened Basics
  import opened RaftNodes
  import opened RaftCluster
  import opened RaftElections
  import opened RaftLogs

  /** The nodes whose log starts with these entries. */
  function Holders(w: World, entries: seq<Entry>): set<NodeId> {
    set p | p in w.nodes && entries <= w.nodes[p].log
  }

  /** Entry i of leader a is of its own term and stands, with all before it, in the logs of a majority. */
  ghost predicate Held(c: Config, w: World, a: NodeId, i: nat) {
    && a in w.nodes && w.nodes[a].role == Leader
    && i < |w.nodes[a].log| && w.nodes[a].log[i].term == w.nodes[a].term
    && IsQuorum(|c.voters|, |Holders(w, w.nodes[a].log[..i + 1])|)
  }

  /** Should n lead a later term, it has the entries of a up to i. */
  ghost predicate Keeps(w: World, a: NodeId, i: nat, later: World, n: NodeId) {
    a in w.nodes && i < |w.nodes[a].log| && n in later.nodes
    && later.nodes[n].role == Leader && later.nodes[n].term > w.nodes[a].term
    ==> w.nodes[a].log[..i + 1] <= later.nodes[n].log
  }

  /** In every run, what a majority ever held is in the log of every later leader. */
  ghost predicate Durable(c: Config) {
    forall ops, more, a: NodeId, i: nat, n: NodeId ::
      Held(c, Run(c, ops), a, i) ==> Keeps(Run(c, ops), a, i, Exec(c, Run(c, ops), more), n)
  }

  // ---------------------------------------------------------------- two voters, one of them node 0

  /** Only node 0 leads, so no append is addressed to it. */
  ghost predicate ZeroUntouched(w: World) {
    forall m :: m in w.sent && m.kind == AppendEntries ==> m.to != 0
  }

  lemma MessageSendersLead(s: Local, n: NodeId, c: Config, m: Message, recent: bool)
    ensures var o := OnMessage(s, n, c.voters, m, recent, c.asks);
            && (forall x :: x in o.out && x.kind == AppendEntries ==> o.after.role == Leader)
            && (m.kind != AppendEntries ==> s.log <= o.after.log)
  {
  }

  /** Appends are sent by leaders, and only appends shorten a log. */
  lemma SendersLead(c: Config, w: World, op: Op)
    requires !c.forgets && Enabled(c, w, op)
    ensures var s, o := w.nodes[Actor(op)], Effect(c, w, op);
            && (forall m :: m in o.out && m.kind == AppendEntries ==> o.after.role == Leader)
            && (s.log <= o.after.log || (op.Deliver? && op.message.kind == AppendEntries))
  {
    if op.Deliver? {
      MessageSendersLead(w.nodes[op.message.to], op.message.to, c, op.message, op.recent);
    }
  }

  lemma ZeroStep(c: Config, w: World, op: Op)
    requires !c.forgets && 0 in c.voters && Posted(c, w) && ZeroUntouched(w) && OnlyZeroLeads(Step(c, w, op))
    ensures ZeroUntouched(Step(c, w, op)) && 0 in Step(c, w, op).nodes && w.nodes[0].log <= Step(c, w, op).nodes[0].log
  {
    if Enabled(c, w, op) {
      EffectPosted(c, w, op);
      SendersLead(c, w, op);
    }
  }

  lemma {:induction false} RunZeroUntouched(c: Config, ops: seq<Op>)
    requires !c.forgets && 0 in c.voters && |c.voters| <= 2
    ensures Posted(c, Run(c, ops)) && ZeroUntouched(Run(c, ops))
  {
    StartFresh(c);
    ExecPosted(c, Start(c), ops);
    if ops != [] {
      var front := ops[..|ops| - 1];
      RunZeroUntouched(c, front);
      TwoVotersSafe(c, ops);
      ZeroStep(c, Run(c, front), ops[|ops| - 1]);
    }
  }

  lemma {:induction false} ZeroLogGrows(c: Config, ops: seq<Op>, more: seq<Op>)
    requires !c.forgets && 0 in c.voters && |c.voters| <= 2
    ensures var w, later := Run(c, ops), Exec(c, Run(c, ops), more);
            0 in w.nodes && 0 in later.nodes && w.nodes[0].log <= later.nodes[0].log
  {
    RunZeroUntouched(c, ops);
    if more != [] {
      var front := more[..|more| - 1];
      ZeroLogGrows(c, ops, front);
      ExecConcat(c, Start(c), ops, front);
      ExecConcat(c, Start(c), ops, more);
      RunZeroUntouched(c, ops + front);
      TwoVotersSafe(c, ops + more);
      ZeroStep(c, Exec(c, Run(c, ops), front), more[|more| - 1]);
    }
  }

  lemma ZeroKeeps(c: Config, ops: seq<Op>, more: seq<Op>, a: NodeId, i: nat, n: NodeId)
    requires !c.forgets && 0 in c.voters && |c.voters| <= 2 && Held(c, Run(c, ops), a, i)
    ensures Keeps(Run(c, ops), a, i, Exec(c, Run(c, ops), more), n)
  {
    ExecConcat(c, Start(c), ops, more);
    TwoVotersSafe(c, ops);
    TwoVotersSafe(c, ops + more);
    ZeroLogGrows(c, ops, more);
  }

  // ---------------------------------------------------------------- a leader copies its log

  /** Leader a and the nodes of `done` have this log, and acknowledged it. */
  ghost predicate Copied(c: Config, w: World, a: NodeId, t: Term, log: seq<Entry>, done: set<NodeId>) {
    && done <= c.voters - {a}
    && Heads(c, w, a, t, log) && AcksSent(w, a, t, |log|, done)
    && (forall p: NodeId :: p in done ==> w.nodes[p].log == log)
  }

  ghost predicate AcksSent(w: World, a: NodeId, t: Term, length: nat, done: set<NodeId>) {
    forall p: NodeId :: p in done ==> Ack(p, a, t, length) in w.sent
  }

  lemma CopyOne(c: Config, w: World, a: NodeId, t: Term, log: seq<Entry>, done: set<NodeId>, p: NodeId)
    returns (ops: seq<Op>)
    requires Copied(c, w, a, t, log, done) && p in c.voters - {a} && log != [] && AllAbove(log, 1)
    ensures Copied(c, Exec(c, w, ops), a, t, log, done + {p}) && w.sent <= Exec(c, w, ops).sent
    ensures NoNewLeader(w, Exec(c, w, ops), t) && NoAcks(ops)
  {
    var send, receive := [Replicate(a, p, 0, |log|)], [Deliver(Whole(a, p, t, log), false)];
    Sends(c, w, a, p, t, log);
    WholeTaken(c, Exec(c, w, send), a, p, t, log);
    ExecOne(c, w, Replicate(a, p, 0, |log|));
    ExecOne(c, Exec(c, w, send), Deliver(Whole(a, p, t, log), false));
    ExecConcat(c, w, send, receive);
    ops := send + receive;
  }

  /** The leader copies its log to k other nodes, b among them. */
  lemma {:induction false} CopyMany(c: Config, w: World, a: NodeId, b: NodeId, t: Term, log: seq<Entry>, k: nat)
    returns (ops: seq<Op>, done: set<NodeId>)
    requires Heads(c, w, a, t, log) && a in c.voters && b in c.voters - {a}
    requires log != [] && AllAbove(log, 1) && 1 <= k <= |c.voters| - 1
    ensures Copied(c, Exec(c, w, ops), a, t, log, done) && |done| == k && b in done
    ensures w.sent <= Exec(c, w, ops).sent && NoNewLeader(w, Exec(c, w, ops), t) && NoAcks(ops)
  {
    if k == 1 {
      ops := CopyOne(c, w, a, t, log, {}, b);
      done := {b};
      assert {} + {b} == {b};
    } else {
      ops, done := CopyMany(c, w, a, b, t, log, k - 1);
      assert |c.voters - {a}| == |c.voters| - 1;
      var p := Pick(c.voters - {a} - done);
      var one := CopyOne(c, Exec(c, w, ops), a, t, log, done, p);
      ExecConcat(c, w, ops, one);
      ops, done := ops + one, done + {p};
    }
  }

  lemma CopiedIsHeld(c: Config, w: World, a: NodeId, t: Term, done: set<NodeId>)
    requires Copied(c, w, a, t, SecondLog(t, "x"), done) && a in c.voters && |done| == |c.voters| / 2
    ensures Held(c, w, a, 2)
  {
    var log := w.nodes[a].log;
    assert log[..3] == log;
    assert {a} + done <= Holders(w, log);
    SubsetSize({a} + done, Holders(w, log));
  }

  // ---------------------------------------------------------------- the loss

  /** A new leader sends its log and takes x. */
  lemma SendsAndProposes(c: Config, w: World, a: NodeId, b: NodeId) returns (ops: seq<Op>)
    requires Leads(c, w, a, 1, FirstLog(1)) && b in c.voters - {a}
    ensures var w' := Exec(c, w, ops);
            Leads(c, w', a, 1, SecondLog(1, "x")) && Whole(a, b, 1, FirstLog(1)) in w'.sent
    ensures NoAcks(ops)
  {
    var send, propose := Replicate(a, b, 0, 2), Propose(a, "x");
    Sends(c, w, a, b, 1, FirstLog(1));
    ProposesSecond(c, Exec(c, w, [send]), a, 1, "x");
    ExecOne(c, w, send);
    ExecOne(c, Exec(c, w, [send]), propose);
    ExecConcat(c, w, [send], [propose]);
    ops := [send] + [propose];
  }

  lemma Proposed(c: Config, a: NodeId, b: NodeId) returns (ops: seq<Op>)
    requires c.asks && EnoughVoters(c.voters, a) && b in c.voters - {a}
    ensures Leads(c, Run(c, ops), a, 1, SecondLog(1, "x")) && Whole(a, b, 1, FirstLog(1)) in Run(c, ops).sent
    ensures NoAcks(ops)
  {
    StartFresh(c);
    var win := WinFirst(c, Start(c), a);
    var more := SendsAndProposes(c, Run(c, win), a, b);
    ExecConcat(c, Start(c), win, more);
    ops := win + more;
  }

  /** Then a majority holds x. */
  lemma CopiedOnce(c: Config, a: NodeId, b: NodeId) returns (ops: seq<Op>, done: set<NodeId>)
    requires c.asks && EnoughVoters(c.voters, a) && b in c.voters - {a}
    ensures var w := Run(c, ops);
            && Copied(c, w, a, 1, SecondLog(1, "x"), done) && Leads(c, w, a, 1, SecondLog(1, "x"))
            && b in done && |done| == |c.voters| / 2 && Whole(a, b, 1, FirstLog(1)) in w.sent
    ensures NoAcks(ops)
  {
    var before := Proposed(c, a, b);
    var w := Run(c, before);
    LogsNumbered(1, "x");
    var copy;
    copy, done := CopyMany(c, w, a, b, 1, SecondLog(1, "x"), |c.voters| / 2);
    ExecConcat(c, Start(c), before, copy);
    ops := before + copy;
  }

  lemma HeldOnce(c: Config, a: NodeId, b: NodeId) returns (ops: seq<Op>)
    requires c.asks && EnoughVoters(c.voters, a) && b in c.voters - {a}
    ensures var w := Run(c, ops);
            && Leads(c, w, a, 1, SecondLog(1, "x")) && Held(c, w, a, 2)
            && b in w.nodes && w.nodes[b].log == SecondLog(1, "x") && Whole(a, b, 1, FirstLog(1)) in w.sent
  {
    var done;
    ops, done := CopiedOnce(c, a, b);
    CopiedIsHeld(c, Run(c, ops), a, 1, done);
  }

  lemma LaterLogDiffers(log: seq<Entry>, t: Term, t': Term)
    requires t < t' && |log| <= 2
    ensures !(SecondLog(t, "x")[..3] <= WithNoOp(log, t'))
  {
    assert SecondLog(t, "x")[..3][2].term == t;
  }

  /** Once the log of n is short again, n wins a later term without the entry. */
  lemma WinsWithout(c: Config, w: World, v: World, a: NodeId, n: NodeId) returns (ops: seq<Op>)
    requires c.asks && EnoughVoters(c.voters, n) && Leads(c, w, a, 1, SecondLog(1, "x"))
    requires v.nodes.Keys == c.voters && v.nodes[n].role != Leader && |v.nodes[n].log| <= 2
    requires !TermsBelow(v, v.nodes.Keys, 0)
    ensures !Keeps(w, a, 2, Exec(c, v, ops), n)
  {
    var t;
    ops, t := AnyoneCanWin(c, v, n);
    LaterLogDiffers(v.nodes[n].log, 1, t);
  }

  /** A late duplicate of the first append cuts the log of b short. */
  lemma LostByTruncation(c: Config, a: NodeId, b: NodeId) returns (ops: seq<Op>, more: seq<Op>)
    requires c.asks && EnoughVoters(c.voters, a) && EnoughVoters(c.voters, b) && a != b
    ensures Held(c, Run(c, ops), a, 2) && !Keeps(Run(c, ops), a, 2, Exec(c, Run(c, ops), more), b)
  {
    ops := HeldOnce(c, a, b);
    var w := Run(c, ops);
    var late := [Deliver(Whole(a, b, 1, FirstLog(1)), false)];
    LogsNumbered(1, "x");
    WholeTaken(c, w, a, b, 1, FirstLog(1));
    var win := WinsWithout(c, w, Exec(c, w, late), a, b);
    ExecConcat(c, w, late, win);
    more := late + win;
  }

  /** A restart empties the log of the leader, which then wins again. */
  lemma LostByRestart(c: Config, a: NodeId, b: NodeId) returns (ops: seq<Op>, more: seq<Op>)
    requires c.asks && c.forgets && EnoughVoters(c.voters, a) && b in c.voters - {a}
    ensures Held(c, Run(c, ops), a, 2) && !Keeps(Run(c, ops), a, 2, Exec(c, Run(c, ops), more), a)
  {
    ops := HeldOnce(c, a, b);
    var w := Run(c, ops);
    var restart := RestartAll(c, w, {a});
    var v := Exec(c, w, restart);
    assert v.nodes[b].log == SecondLog(1, "x");
    assert LastTerm(v.nodes[b].log) == 1;
    var win := WinsWithout(c, w, v, a, a);
    ExecConcat(c, w, restart, win);
    more := restart + win;
  }

  /** An entry of its term that a majority holds is missing from a later leader. */
  lemma EntryIsLost(c: Config) returns (ops: seq<Op>, more: seq<Op>, a: NodeId, n: NodeId)
    requires c.asks && |c.voters| > 1 && (c.forgets || !(0 in c.voters && |c.voters| == 2))
    ensures Held(c, Run(c, ops), a, 2) && !Keeps(Run(c, ops), a, 2, Exec(c, Run(c, ops), more), n)
  {
    if 0 in c.voters && |c.voters| == 2 {
      a, n := 0, 0;
      assert |c.voters - {0}| > 0;
      var b := Pick(c.voters - {0});
      ops, more := LostByRestart(c, 0, b);
    } else {
      a, n := TwoVoters(c.voters);
      ops, more := LostByTruncation(c, a, n);
    }
  }

  /** Exactly when a majority's holding an entry protects it. */
  lemma DurableExactly(c: Config)
    ensures Durable(c) <==> !c.asks || |c.voters| <= 1 || (!c.forgets && 0 in c.voters && |c.voters| == 2)
  {
    if !c.asks || |c.voters| <= 1 {
      forall ops, more, a: NodeId, i: nat, n: NodeId | Held(c, Run(c, ops), a, i)
        ensures Keeps(Run(c, ops), a, i, Exec(c, Run(c, ops), more), n)
      {
        NobodyEverLeads(c, ops);
      }
    } else if !c.forgets && 0 in c.voters && |c.voters| == 2 {
      forall ops, more, a: NodeId, i: nat, n: NodeId | Held(c, Run(c, ops), a, i)
        ensures Keeps(Run(c, ops), a, i, Exec(c, Run(c, ops), more), n)
      {
        ZeroKeeps(c, ops, more, a, i, n);
      }
    } else {
      var ops, more, a, n := EntryIsLost(c);
    }
  }
}
