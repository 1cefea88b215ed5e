/**
 * What the nodes of a cluster commit and hand to their state machines (`handle_append_response`,
 * `advance_commit_index` and `ready` in src/cluster/raft/node.rs), over runs of RaftCluster; and
 * what acknowledgements are worth, which name an index and a term, not the entries.
 */
module RaftMachines {
  import opened Basics
  import opened RaftNodes
  import opened RaftCluster
  import opened RaftElections
  import opened RaftLogs
  import opened RaftDurability
  import Commit = RaftCommit

  /** The part of a node that RaftCluster leaves out; only a leader has match indexes. */
  datatype Track = Track(matched: map<NodeId, nat>, commit: nat, applied: nat)

  const UNTRACKED := Track(map[], 0, 0)

  /** A cluster, the commit index each message carried, every entry handed over with its index, and all logs ever had. */
  datatype System = System(
    w: World, tracks: map<NodeId, Track>, carried: set<(Message, nat)>, handed: set<(nat, Entry)>,
    logs: set<(NodeId, seq<Entry>)>)

  /**
   * A step of the cluster, or a call of `ready`. A delivered message carries `commit`; an
   * acknowledgement that is counted leads to `quorumIndex`.
   */
  datatype Event = Move(op: Op, commit: nat, quorumIndex: nat) | Ready(node: NodeId)

  function Zeros(c: Config, n: NodeId): map<NodeId, nat> {
    map p | p in c.voters && p != n :: 0
  }

  /** Match indexes are kept while a node goes on leading its term, and start from zero when it comes to lead. */
  function Matched(c: Config, n: NodeId, s: Local, s': Local, t: Track): map<NodeId, nat> {
    if s'.role != Leader then map[]
    else if s.role == Leader && s.term == s'.term then t.matched
    else Zeros(c, n)
  }

  function View(s: Local, t: Track): Commit.Tracking {
    Commit.Tracking(s.role == Leader, s.term, s.log, t.matched, t.commit, t.applied)
  }

  function Majority(c: Config): nat {
    |c.voters| / 2 + 1
  }

  /** Whether an acknowledgement is counted by a node in state s, with the term caught up. */
  predicate Counts(s: Local, t: Track, op: Op) {
    && DeliversAck(op) && !op.message.reject
    && s.role == Leader && op.message.term == s.term && op.message.from in t.matched
  }

  /** The commit index a follower takes from a heartbeat or an append it accepts. */
  function Followed(s: Local, m: Message, known: nat, commit: nat): nat {
    var s := CaughtUp(s, m);
    if m.term < s.term || commit <= known then known
    else if m.kind == Heartbeat then commit
    else if m.kind == AppendEntries && Fits(s.log, m) then
      var lastNew := if m.entries == [] then m.index else m.entries[|m.entries| - 1].index;
      if commit < lastNew then commit else lastNew
    else known
  }

  function Base(c: Config, n: NodeId, s: Local, o: Outcome, t: Track, op: Op, commit: nat): Track {
    if op.Restart? then UNTRACKED
    else
      Track(Matched(c, n, s, o.after, t), if op.Deliver? then Followed(s, op.message, t.commit, commit) else t.commit, t.applied)
  }

  function Counted(s: Local, t: Track, op: Op): Commit.Tracking
    requires Counts(s, t, op)
  {
    Commit.Responded(View(s, t), op.message.from, op.message.term, op.message.index, false)
  }

  function TrackAfter(c: Config, n: NodeId, s: Local, o: Outcome, t: Track, op: Op, commit: nat, quorumIndex: nat): Track {
    var base := Base(c, n, s, o, t, op, commit);
    if Counts(o.after, base, op) then
      var v := Commit.Advanced(Counted(o.after, base, op), quorumIndex);
      Track(v.matched, v.commit, v.applied)
    else base
  }

  predicate Can(c: Config, sys: System, e: Event) {
    && sys.tracks.Keys == sys.w.nodes.Keys
    && match e
       case Ready(n) => n in sys.w.nodes
       case Move(op, commit, _) => Enabled(c, sys.w, op) && (op.Deliver? ==> (op.message, commit) in sys.carried)
  }

  /** A counted acknowledgement names the right quorum index. */
  ghost predicate Exact(c: Config, sys: System, e: Event)
    requires Can(c, sys, e)
  {
    e.Move? ==>
      var n := Actor(e.op);
      var s, o := sys.w.nodes[n], Effect(c, sys.w, e.op);
      var base := Base(c, n, s, o, sys.tracks[n], e.op, e.commit);
      Counts(o.after, base, e.op) ==>
        Commit.IsQuorumIndex(Counted(o.after, base, e.op), Majority(c), e.quorumIndex)
  }

  /** Entries with the indexes they are handed over at. */
  function Placed(after: nat, entries: seq<Entry>): set<(nat, Entry)> {
    set i | 0 <= i < |entries| :: (after + i + 1, entries[i])
  }

  /** Leaders send their commit index along; other messages carry none. */
  function Carrying(op: Op, out: set<Message>, commit: nat): set<(Message, nat)> {
    set m | m in out :: (m, if m.kind == AppendEntries || op.Beat? then commit else 0)
  }

  ghost function Next(c: Config, sys: System, e: Event): System {
    if !Can(c, sys, e) || !Exact(c, sys, e) then sys
    else
      match e
      case Ready(n) =>
        var v := View(sys.w.nodes[n], sys.tracks[n]);
        sys.(tracks := sys.tracks[n := sys.tracks[n].(applied := Commit.AfterReady(v).applied)],
             handed := sys.handed + Placed(v.applied, Commit.Handover(v)))
      case Move(op, commit, quorumIndex) =>
        var n, o := Actor(op), Effect(c, sys.w, op);
        var t := TrackAfter(c, n, sys.w.nodes[n], o, sys.tracks[n], op, commit, quorumIndex);
        System(Step(c, sys.w, op), sys.tracks[n := t], sys.carried + Carrying(op, o.out, t.commit), sys.handed,
               sys.logs + {(n, o.after.log)})
  }

  ghost function Play(c: Config, sys: System, es: seq<Event>): System {
    if es == [] then sys else Next(c, Play(c, sys, es[..|es| - 1]), es[|es| - 1])
  }

  function Begin(c: Config): System {
    System(Start(c), map n | n in c.voters :: UNTRACKED, {}, {}, set n | n in c.voters :: (n, FRESH.log))
  }

  ghost function History(c: Config, es: seq<Event>): System {
    Play(c, Begin(c), es)
  }

  lemma PlayOne(c: Config, sys: System, e: Event)
    ensures Play(c, sys, [e]) == Next(c, sys, e)
  {
    assert [e][..0] == [];
  }

  lemma {:induction false} PlayConcat(c: Config, sys: System, a: seq<Event>, b: seq<Event>)
    ensures Play(c, sys, a + b) == Play(c, Play(c, sys, a), b)
  {
    if b == [] {
      assert a + b == a;
    } else {
      assert (a + b)[..|a + b| - 1] == a + b[..|b| - 1];
      PlayConcat(c, sys, a, b[..|b| - 1]);
    }
  }

  // ---------------------------------------------------------------- the cluster below

  /** The cluster steps of a history. */
  ghost function OpsOf(c: Config, sys: System, es: seq<Event>): seq<Op> {
    if es == [] then []
    else
      var now, e := Play(c, sys, es[..|es| - 1]), es[|es| - 1];
      OpsOf(c, sys, es[..|es| - 1]) + if e.Move? && Can(c, now, e) && Exact(c, now, e) then [e.op] else []
  }

  /** Below every history runs the cluster. */
  lemma {:induction false} ClusterBelow(c: Config, sys: System, es: seq<Event>)
    ensures Play(c, sys, es).w == Exec(c, sys.w, OpsOf(c, sys, es))
  {
    if es != [] {
      var front := es[..|es| - 1];
      var now, e := Play(c, sys, front), es[|es| - 1];
      ClusterBelow(c, sys, front);
      if e.Move? && Can(c, now, e) && Exact(c, now, e) {
        ExecOne(c, now.w, e.op);
        ExecConcat(c, sys.w, OpsOf(c, sys, front), [e.op]);
      } else {
        assert OpsOf(c, sys, front) + [] == OpsOf(c, sys, front);
      }
    }
  }

  // ---------------------------------------------------------------- what is handed over never disagrees

  /** No two nodes, and no node twice, hand over different entries at one index. */
  ghost predicate Agreed(sys: System) {
    forall a, b :: a in sys.handed && b in sys.handed && a.0 == b.0 ==> a == b
  }

  ghost predicate StateMachineSafe(c: Config) {
    forall es :: Agreed(History(c, es))
  }

  lemma {:induction false} NothingHanded(c: Config, es: seq<Event>)
    requires !c.asks || |c.voters| <= 1
    ensures History(c, es).handed == {}
  {
    if es != [] {
      NothingHanded(c, es[..|es| - 1]);
      ClusterBelow(c, Begin(c), es[..|es| - 1]);
      NobodyEverLeads(c, OpsOf(c, Begin(c), es[..|es| - 1]));
    }
  }

  /** Everything handed over stands in the log of node 0. */
  ghost predicate FromZero(sys: System) {
    && 0 in sys.w.nodes
    && forall x :: x in sys.handed ==> 0 < x.0 <= |sys.w.nodes[0].log| && sys.w.nodes[0].log[x.0 - 1] == x.1
  }

  lemma ReadyFromZero(c: Config, sys: System, n: NodeId)
    requires FromZero(sys) && OnlyZeroLeads(sys.w)
    ensures FromZero(Next(c, sys, Ready(n)))
  {
  }

  lemma {:induction false} HandedFromZero(c: Config, es: seq<Event>)
    requires !c.forgets && 0 in c.voters && |c.voters| <= 2
    ensures FromZero(History(c, es))
  {
    if es != [] {
      var front, e := es[..|es| - 1], es[|es| - 1];
      var sys := History(c, front);
      HandedFromZero(c, front);
      ClusterBelow(c, Begin(c), front);
      ClusterBelow(c, Begin(c), es);
      TwoVotersSafe(c, OpsOf(c, Begin(c), front));
      TwoVotersSafe(c, OpsOf(c, Begin(c), es));
      RunZeroUntouched(c, OpsOf(c, Begin(c), front));
      if e.Ready? {
        ReadyFromZero(c, sys, e.node);
      } else if Can(c, sys, e) && Exact(c, sys, e) {
        ZeroStep(c, sys.w, e.op);
      }
    }
  }

  // ---------------------------------------------------------------- cluster steps as events

  ghost predicate IsCarried(sys: System, m: Message) {
    exists k: nat :: (m, k) in sys.carried
  }

  ghost predicate Tracked(sys: System) {
    && sys.tracks.Keys == sys.w.nodes.Keys
    && forall m :: m in sys.w.sent ==> IsCarried(sys, m)
  }

  /** Nothing is applied, and a leader's match indexes are as before or start from zero. */
  predicate Steady(c: Config, sys: System, sys': System, p: NodeId)
    requires p in sys.w.nodes && p in sys.tracks && p in sys'.w.nodes && p in sys'.tracks
  {
    && sys'.tracks[p].applied <= sys.tracks[p].applied
    && (sys'.w.nodes[p].role == Leader ==>
          || sys'.tracks[p].matched == Zeros(c, p)
          || (&& sys.w.nodes[p].role == Leader && sys.w.nodes[p].term == sys'.w.nodes[p].term
              && sys'.tracks[p].matched == sys.tracks[p].matched))
  }

  ghost predicate Calm(c: Config, sys: System, sys': System) {
    && Tracked(sys) && Tracked(sys') && sys'.w.nodes.Keys == sys.w.nodes.Keys && sys'.handed == sys.handed
    && forall p: NodeId :: p in sys.w.nodes ==> Steady(c, sys, sys', p)
  }

  lemma CarriedLater(sys: System, sys': System, m: Message)
    requires IsCarried(sys, m) && sys.carried <= sys'.carried
    ensures IsCarried(sys', m)
  {
    var k: nat :| (m, k) in sys.carried;
    assert (m, k) in sys'.carried;
  }

  lemma MoveTracked(c: Config, sys: System, e: Event)
    requires Tracked(sys) && e.Move? && Can(c, sys, e) && Exact(c, sys, e)
    ensures Tracked(Next(c, sys, e))
  {
    var sys', o := Next(c, sys, e), Effect(c, sys.w, e.op);
    forall m | m in sys'.w.sent ensures IsCarried(sys', m) {
      if m in sys.w.sent {
        CarriedLater(sys, sys', m);
      } else {
        var k := if m.kind == AppendEntries || e.op.Beat? then sys'.tracks[Actor(e.op)].commit else 0;
        assert (m, k) in Carrying(e.op, o.out, sys'.tracks[Actor(e.op)].commit);
        assert (m, k) in sys'.carried;
      }
    }
  }

  lemma LiftOne(c: Config, sys: System, op: Op) returns (es: seq<Event>)
    requires Tracked(sys) && !DeliversAck(op)
    ensures Play(c, sys, es).w == Step(c, sys.w, op) && Calm(c, sys, Play(c, sys, es))
    ensures forall x :: x in Play(c, sys, es).logs ==> x in sys.logs || x.0 == Actor(op)
  {
    if Enabled(c, sys.w, op) {
      var e := Move(op, 0, 0);
      if op.Deliver? {
        assert IsCarried(sys, op.message);
        var k: nat :| (op.message, k) in sys.carried;
        e := Move(op, k, 0);
      }
      MoveTracked(c, sys, e);
      PlayOne(c, sys, e);
      es := [e];
    } else {
      es := [];
    }
  }

  lemma CalmOn(c: Config, a: System, b: System, d: System)
    requires Calm(c, a, b) && Calm(c, b, d)
    ensures Calm(c, a, d)
  {
    forall p: NodeId | p in a.w.nodes ensures Steady(c, a, d, p) {
      assert Steady(c, a, b, p) && Steady(c, b, d, p);
    }
  }

  lemma {:induction false} Lift(c: Config, sys: System, ops: seq<Op>) returns (es: seq<Event>)
    requires Tracked(sys) && NoAcks(ops)
    ensures Play(c, sys, es).w == Exec(c, sys.w, ops) && Calm(c, sys, Play(c, sys, es))
  {
    if ops == [] {
      es := [];
    } else {
      es := Lift(c, sys, ops[..|ops| - 1]);
      var mid := Play(c, sys, es);
      var last := LiftOne(c, mid, ops[|ops| - 1]);
      PlayConcat(c, sys, es, last);
      CalmOn(c, sys, mid, Play(c, mid, last));
      es := es + last;
    }
  }

  // ---------------------------------------------------------------- a leader commits and hands over its log

  /** What leader a knows once the nodes of `got` have acknowledged a log of this length. */
  function Known(c: Config, a: NodeId, length: nat, got: set<NodeId>): map<NodeId, nat> {
    map p | p in c.voters && p != a :: if p in got then length else 0
  }

  /** Not all of the log is applied; once a majority has it, all is committed. */
  predicate Told(c: Config, t: Track, a: NodeId, length: nat, got: set<NodeId>) {
    && t.matched == Known(c, a, length, got) && t.applied < length
    && (|got| >= |c.voters| / 2 ==> t.commit >= length)
  }

  predicate Ends(log: seq<Entry>, t: Term) {
    log != [] && log[|log| - 1].term == t
  }

  lemma KnownQuorum(c: Config, s: Commit.Tracking, a: NodeId, got: set<NodeId>, k: nat)
    requires s.log != [] && s.matched == Known(c, a, |s.log|, got) && got <= c.voters - {a}
    requires |got| >= |c.voters| / 2 && Commit.IsQuorumIndex(s, Majority(c), k)
    ensures k == |s.log|
  {
    assert Commit.Reaching(s.matched, s.matched.Keys, |s.log|) == got;
    assert Commit.Acked(s, |s.log|) >= Majority(c);
  }

  /** The leader counts one acknowledgement; only its match indexes and commit index change. */
  ghost predicate OnlyTracks(sys: System, sys': System, a: NodeId) {
    && Tracked(sys') && a in sys'.tracks
    && sys'.w.nodes == sys.w.nodes && sys'.w.sent == sys.w.sent && sys.w.leaders <= sys'.w.leaders
    && sys'.handed == sys.handed && sys'.tracks == sys.tracks[a := sys'.tracks[a]]
    && forall x :: x in sys'.logs ==> x in sys.logs || x.0 == a
  }

  lemma KnownMore(c: Config, a: NodeId, length: nat, got: set<NodeId>, p: NodeId)
    requires p in c.voters - {a}
    ensures Known(c, a, length, got)[p := length] == Known(c, a, length, got + {p})
    ensures Known(c, a, length, got).Keys == c.voters - {a}
  {
  }

  lemma AckTold(c: Config, s: Local, t: Track, a: NodeId, op: Op, got: set<NodeId>, k: nat) returns (q: nat)
    requires s.role == Leader && a in c.voters && Ends(s.log, s.term) && op.Deliver?
    requires got <= c.voters - {a} && op.message.from in c.voters - {a} - got
    requires op.message == Ack(op.message.from, a, s.term, |s.log|)
    requires Told(c, t, a, |s.log|, got)
    ensures Base(c, a, s, Outcome(s, {}), t, op, k) == t && Counts(s, t, op)
    ensures Commit.IsQuorumIndex(Counted(s, t, op), Majority(c), q)
    ensures Told(c, TrackAfter(c, a, s, Outcome(s, {}), t, op, k, q), a, |s.log|, got + {op.message.from})
  {
    var p := op.message.from;
    KnownMore(c, a, |s.log|, got, p);
    var v := Counted(s, t, op);
    assert v.matched == Known(c, a, |s.log|, got + {p});
    KnownMore(c, a, |s.log|, got + {p}, p);
    assert |c.voters - {a}| == |c.voters| - 1;
    q := Commit.QuorumIndexExists(v, Majority(c));
    if |got + {p}| >= |c.voters| / 2 {
      KnownQuorum(c, v, a, got + {p}, q);
    }
  }

  lemma AckQuiet(c: Config, w: World, op: Op)
    requires DeliversAck(op) && Enabled(c, w, op) && op.message.term == w.nodes[op.message.to].term
    ensures var a := op.message.to;
            && Effect(c, w, op) == Outcome(w.nodes[a], {})
            && Step(c, w, op).nodes == w.nodes && Step(c, w, op).sent == w.sent && w.leaders <= Step(c, w, op).leaders
  {
  }

  lemma AckCounted(c: Config, sys: System, a: NodeId, p: NodeId, t: Term, log: seq<Entry>, got: set<NodeId>)
    returns (es: seq<Event>)
    requires Tracked(sys) && a in c.voters && Heads(c, sys.w, a, t, log) && Ends(log, t)
    requires got <= c.voters - {a} && p in c.voters - {a} - got && Ack(p, a, t, |log|) in sys.w.sent
    requires Told(c, sys.tracks[a], a, |log|, got)
    ensures var sys' := Play(c, sys, es);
            OnlyTracks(sys, sys', a) && Told(c, sys'.tracks[a], a, |log|, got + {p})
  {
    var op := Deliver(Ack(p, a, t, |log|), false);
    assert IsCarried(sys, op.message);
    var k: nat :| (op.message, k) in sys.carried;
    AckQuiet(c, sys.w, op);
    var q := AckTold(c, sys.w.nodes[a], sys.tracks[a], a, op, got, k);
    var e := Move(op, k, q);
    MoveTracked(c, sys, e);
    PlayOne(c, sys, e);
    es := [e];
  }

  lemma OnlyTracksOn(x: System, y: System, z: System, a: NodeId)
    requires Tracked(x) && OnlyTracks(x, y, a) && OnlyTracks(y, z, a)
    ensures OnlyTracks(x, z, a)
  {
  }

  lemma {:induction false} AcksCounted(c: Config, sys: System, a: NodeId, t: Term, log: seq<Entry>, done: set<NodeId>)
    returns (es: seq<Event>)
    requires Tracked(sys) && a in c.voters && |c.voters| > 1 && done <= c.voters - {a}
    requires Heads(c, sys.w, a, t, log) && AcksSent(sys.w, a, t, |log|, done) && Ends(log, t)
    requires Told(c, sys.tracks[a], a, |log|, {})
    ensures var sys' := Play(c, sys, es);
            OnlyTracks(sys, sys', a) && Told(c, sys'.tracks[a], a, |log|, done)
  {
    if done == {} {
      es := [];
    } else {
      var p := Pick(done);
      es := AcksCounted(c, sys, a, t, log, done - {p});
      var mid := Play(c, sys, es);
      var one := AckCounted(c, mid, a, p, t, log, done - {p});
      PlayConcat(c, sys, es, one);
      OnlyTracksOn(sys, mid, Play(c, mid, one), a);
      assert done - {p} + {p} == done;
      es := es + one;
    }
  }

  /** Node a has committed and handed over all of its log and still leads; nobody else has applied more. */
  ghost predicate HandedOver(c: Config, sys: System, sys': System, a: NodeId, t: Term, log: seq<Entry>) {
    && Tracked(sys) && Tracked(sys') && log != [] && Leads(c, sys'.w, a, t, log)
    && sys.handed <= sys'.handed && (|log|, log[|log| - 1]) in sys'.handed
    && sys.w.sent <= sys'.w.sent && sys'.tracks.Keys == sys.tracks.Keys
    && a in sys'.tracks && sys'.tracks[a].commit >= |log|
    && forall p: NodeId :: p in sys.tracks && p != a ==> sys'.tracks[p].applied <= sys.tracks[p].applied
  }

  lemma HandsOver(c: Config, sys: System, a: NodeId, t: Term, log: seq<Entry>, got: set<NodeId>)
    requires Tracked(sys) && a in c.voters && Leads(c, sys.w, a, t, log) && log != []
    requires Told(c, sys.tracks[a], a, |log|, got) && |got| >= |c.voters| / 2
    ensures HandedOver(c, sys, Play(c, sys, [Ready(a)]), a, t, log)
  {
    PlayOne(c, sys, Ready(a));
    var v := View(sys.w.nodes[a], sys.tracks[a]);
    var out := Commit.Handover(v);
    assert out[|out| - 1] == log[|log| - 1];
    assert (v.applied + (|out| - 1) + 1, out[|out| - 1]) in Placed(v.applied, out);
  }

  lemma LeaderCopies(c: Config, sys: System, a: NodeId, b: NodeId, t: Term, log: seq<Entry>)
    returns (es: seq<Event>, done: set<NodeId>)
    requires Tracked(sys) && a in c.voters && b in c.voters - {a} && Leads(c, sys.w, a, t, log)
    requires log != [] && AllAbove(log, 1)
    requires sys.tracks[a].matched == Zeros(c, a) && sys.tracks[a].applied < |log|
    ensures var mid := Play(c, sys, es);
            && Calm(c, sys, mid) && Copied(c, mid.w, a, t, log, done) && |done| == |c.voters| / 2
            && Leads(c, mid.w, a, t, log)
            && Told(c, mid.tracks[a], a, |log|, {}) && sys.w.sent <= mid.w.sent
  {
    SubsetSize({a, b}, c.voters);
    var ops;
    ops, done := CopyMany(c, sys.w, a, b, t, log, |c.voters| / 2);
    es := Lift(c, sys, ops);
    assert Steady(c, sys, Play(c, sys, es), a);
    assert Known(c, a, |log|, {}) == Zeros(c, a);
  }

  lemma CopiesHandedOver(c: Config, mid: System, a: NodeId, t: Term, log: seq<Entry>, done: set<NodeId>)
    returns (es: seq<Event>)
    requires Tracked(mid) && a in c.voters && |c.voters| > 1 && Copied(c, mid.w, a, t, log, done) && Ends(log, t)
    requires Leads(c, mid.w, a, t, log)
    requires Told(c, mid.tracks[a], a, |log|, {}) && |done| == |c.voters| / 2
    ensures HandedOver(c, mid, Play(c, mid, es), a, t, log)
  {
    var count := AcksCounted(c, mid, a, t, log, done);
    var all := Play(c, mid, count);
    HandsOver(c, all, a, t, log, done);
    PlayConcat(c, mid, count, [Ready(a)]);
    es := count + [Ready(a)];
  }

  lemma CalmHandedOver(c: Config, sys: System, mid: System, end: System, a: NodeId, t: Term, log: seq<Entry>)
    requires Calm(c, sys, mid) && sys.w.sent <= mid.w.sent && HandedOver(c, mid, end, a, t, log)
    ensures HandedOver(c, sys, end, a, t, log)
  {
    forall p: NodeId | p in sys.tracks && p != a ensures end.tracks[p].applied <= sys.tracks[p].applied {
      assert Steady(c, sys, mid, p);
    }
  }

  /** A leader that has just won copies its log to others, b among them, and hands all of it over. */
  lemma LeaderHandsOver(c: Config, sys: System, a: NodeId, b: NodeId, t: Term, log: seq<Entry>) returns (es: seq<Event>)
    requires Tracked(sys) && a in c.voters && b in c.voters - {a} && Leads(c, sys.w, a, t, log)
    requires Ends(log, t) && AllAbove(log, 1)
    requires sys.tracks[a].matched == Zeros(c, a) && sys.tracks[a].applied < |log|
    ensures HandedOver(c, sys, Play(c, sys, es), a, t, log)
  {
    SubsetSize({a, b}, c.voters);
    var copy, done := LeaderCopies(c, sys, a, b, t, log);
    var mid := Play(c, sys, copy);
    var rest := CopiesHandedOver(c, mid, a, t, log, done);
    CalmHandedOver(c, sys, mid, Play(c, mid, rest), a, t, log);
    PlayConcat(c, sys, copy, rest);
    es := copy + rest;
  }

  // ---------------------------------------------------------------- two entries at one index

  /** Node a has just won term 1 and taken x. */
  lemma TakenX(c: Config, a: NodeId, b: NodeId) returns (es: seq<Event>)
    requires c.asks && EnoughVoters(c.voters, a) && b in c.voters - {a}
    ensures var sys := History(c, es);
            && Tracked(sys) && Leads(c, sys.w, a, 1, SecondLog(1, "x")) && Whole(a, b, 1, FirstLog(1)) in sys.w.sent
            && sys.tracks[a].matched == Zeros(c, a) && sys.tracks[a].applied == 0 && sys.tracks[b].applied == 0
  {
    var ops := Proposed(c, a, b);
    es := Lift(c, Begin(c), ops);
    assert Steady(c, Begin(c), History(c, es), a) && Steady(c, Begin(c), History(c, es), b);
  }

  /** Leader a of term 1 has committed x and handed it over at index 3. */
  ghost predicate CommittedX(c: Config, sys: System, a: NodeId) {
    && Tracked(sys) && a in sys.tracks && Leads(c, sys.w, a, 1, SecondLog(1, "x"))
    && sys.tracks[a].commit >= 3 && (3, Entry(3, 1, "x")) in sys.handed
  }

  /** Then it does so, and an append without x is still on its way to b. */
  lemma HandedX(c: Config, a: NodeId, b: NodeId) returns (es: seq<Event>)
    requires c.asks && EnoughVoters(c.voters, a) && b in c.voters - {a}
    ensures var sys := History(c, es);
            && CommittedX(c, sys, a) && Whole(a, b, 1, FirstLog(1)) in sys.w.sent
            && b in sys.tracks && sys.tracks[b].applied == 0
  {
    var before := TakenX(c, a, b);
    LogsNumbered(1, "x");
    var over := LeaderHandsOver(c, History(c, before), a, b, 1, SecondLog(1, "x"));
    PlayConcat(c, Begin(c), before, over);
    es := before + over;
  }

  /** A node that does not lead and has applied nothing comes to lead and hands its log over. */
  lemma WinsAndHandsOver(c: Config, sys: System, n: NodeId, b: NodeId, ops: seq<Op>, t: Term, log: seq<Entry>)
    returns (es: seq<Event>)
    requires Tracked(sys) && NoAcks(ops) && n in c.voters && b in c.voters - {n} && n in sys.w.nodes
    requires sys.w.nodes[n].role != Leader && sys.tracks[n].applied == 0
    requires Leads(c, Exec(c, sys.w, ops), n, t, log) && Ends(log, t) && AllAbove(log, 1)
    ensures sys.handed <= Play(c, sys, es).handed && (|log|, log[|log| - 1]) in Play(c, sys, es).handed
  {
    var win := Lift(c, sys, ops);
    var mid := Play(c, sys, win);
    assert Steady(c, sys, mid, n);
    var over := LeaderHandsOver(c, mid, n, b, t, log);
    PlayConcat(c, sys, win, over);
    es := win + over;
  }

  lemma TwoAtOne(sys: System, k: nat, x: Entry, y: Entry)
    requires (k, x) in sys.handed && (k, y) in sys.handed && x != y
    ensures !Agreed(sys)
  {
    assert (k, x).0 == (k, y).0;
  }

  lemma CutShort(c: Config, sys: System, a: NodeId, b: NodeId) returns (es: seq<Event>)
    requires Tracked(sys) && b in sys.w.nodes && sys.w.nodes[b].term <= 1 && !LeadsTerm(sys.w.nodes[b], 1)
    requires Whole(a, b, 1, FirstLog(1)) in sys.w.sent
    ensures var sys' := Play(c, sys, es);
            && Calm(c, sys, sys') && sys'.w.nodes[b].log == FirstLog(1)
            && sys'.w.nodes[b].term == 1 && sys'.w.nodes[b].role != Leader
  {
    var late := Deliver(Whole(a, b, 1, FirstLog(1)), false);
    LogsNumbered(1, "x");
    ExecOne(c, sys.w, late);
    WholeTaken(c, sys.w, a, b, 1, FirstLog(1));
    es := Lift(c, sys, [late]);
  }

  lemma WinsLater(c: Config, w: World, b: NodeId) returns (ops: seq<Op>, t: Term)
    requires c.asks && EnoughVoters(c.voters, b) && w.nodes.Keys == c.voters && w.nodes[b].role != Leader
    requires w.nodes[b].term == 1 && w.nodes[b].log == FirstLog(1)
    ensures t > 1 && Leads(c, Exec(c, w, ops), b, t, WithNoOp(FirstLog(1), t)) && NoAcks(ops)
    ensures AllAbove(WithNoOp(FirstLog(1), t), 1)
  {
    ops, t := AnyoneCanWin(c, w, b);
    LogsNumbered(1, "x");
    assert WithNoOp(FirstLog(1), t)[..2] == FirstLog(1);
  }

  /** With its short log b wins a later term and hands an entry of that term over at index 3. */
  lemma Overtakes(c: Config, sys: System, a: NodeId, b: NodeId) returns (es: seq<Event>, t: Term)
    requires c.asks && EnoughVoters(c.voters, b) && a in c.voters - {b} && Tracked(sys) && sys.w.nodes.Keys == c.voters
    requires sys.w.nodes[b].log == FirstLog(1) && sys.w.nodes[b].term == 1 && sys.w.nodes[b].role != Leader
    requires sys.tracks[b].applied == 0
    ensures t > 1 && sys.handed <= Play(c, sys, es).handed && (3, Entry(3, t, "")) in Play(c, sys, es).handed
  {
    var win;
    win, t := WinsLater(c, sys.w, b);
    es := WinsAndHandsOver(c, sys, b, a, win, t, WithNoOp(FirstLog(1), t));
  }

  /** The late append cuts the log of b short; b wins without x. */
  lemma DisagreeByTruncation(c: Config, a: NodeId, b: NodeId) returns (before: seq<Event>, more: seq<Event>)
    requires c.asks && EnoughVoters(c.voters, a) && EnoughVoters(c.voters, b) && a != b
    ensures CommittedX(c, History(c, before), a) && !Agreed(Play(c, History(c, before), more))
  {
    before := HandedX(c, a, b);
    var sys := History(c, before);
    var cut := CutShort(c, sys, a, b);
    var mid := Play(c, sys, cut);
    assert Steady(c, sys, mid, b);
    var over, t := Overtakes(c, mid, a, b);
    PlayConcat(c, sys, cut, over);
    more := cut + over;
    TwoAtOne(Play(c, sys, more), 3, Entry(3, 1, "x"), Entry(3, t, ""));
  }

  /** A restarted node has applied nothing. */
  lemma Restarted(c: Config, sys: System, n: NodeId) returns (es: seq<Event>)
    requires Tracked(sys) && c.forgets && n in sys.w.nodes
    ensures var sys' := Play(c, sys, es);
            && Tracked(sys') && sys'.handed == sys.handed && sys'.w.nodes == sys.w.nodes[n := FRESH]
            && sys'.tracks[n] == UNTRACKED
  {
    var e := Move(Restart(n), 0, 0);
    MoveTracked(c, sys, e);
    PlayOne(c, sys, e);
    es := [e];
  }

  lemma WinsAndProposes(c: Config, w: World, n: NodeId) returns (ops: seq<Op>, t: Term)
    requires c.asks && EnoughVoters(c.voters, n) && w.nodes.Keys == c.voters && w.nodes[n] == FRESH
    ensures Leads(c, Exec(c, w, ops), n, t, SecondLog(t, "y")) && NoAcks(ops)
  {
    var win;
    win, t := AnyoneCanWin(c, w, n);
    var propose := Propose(n, "y");
    ProposesSecond(c, Exec(c, w, win), n, t, "y");
    ExecOne(c, Exec(c, w, win), propose);
    ExecConcat(c, w, win, [propose]);
    ops := win + [propose];
  }

  /** A restart empties the log of a, which wins again and takes y. */
  lemma DisagreeByRestart(c: Config, a: NodeId, b: NodeId) returns (before: seq<Event>, more: seq<Event>)
    requires c.asks && c.forgets && EnoughVoters(c.voters, a) && b in c.voters - {a}
    ensures CommittedX(c, History(c, before), a) && !Agreed(Play(c, History(c, before), more))
  {
    before := HandedX(c, a, b);
    var sys := History(c, before);
    var restart := Restarted(c, sys, a);
    var mid := Play(c, sys, restart);
    var win, t := WinsAndProposes(c, mid.w, a);
    LogsNumbered(t, "y");
    var over := WinsAndHandsOver(c, mid, a, b, win, t, SecondLog(t, "y"));
    PlayConcat(c, sys, restart, over);
    more := restart + over;
    TwoAtOne(Play(c, sys, more), 3, Entry(3, 1, "x"), Entry(3, t, "y"));
  }

  /** A committed entry is handed over, and then another at its index. */
  lemma Disagreement(c: Config) returns (es: seq<Event>)
    requires c.asks && |c.voters| > 1 && (c.forgets || !(0 in c.voters && |c.voters| == 2))
    ensures !Agreed(History(c, es))
  {
    var before, more;
    if 0 in c.voters && |c.voters| == 2 {
      assert |c.voters - {0}| > 0;
      var b := Pick(c.voters - {0});
      before, more := DisagreeByRestart(c, 0, b);
    } else {
      var a, b := TwoVoters(c.voters);
      before, more := DisagreeByTruncation(c, a, b);
    }
    PlayConcat(c, Begin(c), before, more);
    es := before + more;
  }

  /** Exactly when no run hands two different entries to state machines at one index. */
  lemma StateMachineSafety(c: Config)
    ensures StateMachineSafe(c) <==> !c.asks || |c.voters| <= 1 || (!c.forgets && 0 in c.voters && |c.voters| == 2)
  {
    if !c.asks || |c.voters| <= 1 {
      forall es ensures Agreed(History(c, es)) {
        NothingHanded(c, es);
      }
    } else if !c.forgets && 0 in c.voters && |c.voters| == 2 {
      forall es ensures Agreed(History(c, es)) {
        HandedFromZero(c, es);
      }
    } else {
      var es := Disagreement(c);
    }
  }

  // ---------------------------------------------------------------- what a match index stands for

  ghost predicate HasAck(w: World, p: NodeId, n: NodeId, t: Term, index: nat) {
    exists m :: m in w.sent && IsAck(m) && m.from == p && m.to == n && m.term == t && m.index == index
  }

  /** A leader keeps a match index for every other voter, and each stands for an acknowledgement in its term. */
  ghost predicate BackedAt(c: Config, w: World, n: NodeId, s: Local, t: Track) {
    s.role == Leader ==>
      && t.matched.Keys == c.voters - {n}
      && forall p: NodeId :: p in t.matched ==> t.matched[p] == 0 || HasAck(w, p, n, s.term, t.matched[p])
  }

  ghost predicate Backed(c: Config, sys: System) {
    && sys.tracks.Keys == sys.w.nodes.Keys
    && forall n: NodeId :: n in sys.w.nodes ==> BackedAt(c, sys.w, n, sys.w.nodes[n], sys.tracks[n])
  }

  lemma BackedLater(c: Config, w: World, w': World, n: NodeId, s: Local, t: Track)
    requires BackedAt(c, w, n, s, t) && w.sent <= w'.sent
    ensures BackedAt(c, w', n, s, t)
  {
    if s.role == Leader {
      forall p: NodeId | p in t.matched && t.matched[p] != 0 ensures HasAck(w', p, n, s.term, t.matched[p]) {
        assert HasAck(w, p, n, s.term, t.matched[p]);
      }
    }
  }

  /** The moving node's own match indexes stay backed. */
  lemma ActorBacked(c: Config, sys: System, op: Op, commit: nat, q: nat)
    requires Backed(c, sys) && Enabled(c, sys.w, op)
    ensures var n, o := Actor(op), Effect(c, sys.w, op);
            var t := TrackAfter(c, n, sys.w.nodes[n], o, sys.tracks[n], op, commit, q);
            BackedAt(c, Step(c, sys.w, op), n, o.after, t)
  {
    var n, o := Actor(op), Effect(c, sys.w, op);
    var s, w' := sys.w.nodes[n], Step(c, sys.w, op);
    var base := Base(c, n, s, o, sys.tracks[n], op, commit);
    BackedLater(c, sys.w, w', n, s, sys.tracks[n]);
    assert BackedAt(c, w', n, o.after, base);
    if Counts(o.after, base, op) {
      assert HasAck(w', op.message.from, n, o.after.term, op.message.index);
    }
  }

  lemma {:induction false} HistoryBacked(c: Config, es: seq<Event>)
    ensures Backed(c, History(c, es))
  {
    if es != [] {
      var sys, e := History(c, es[..|es| - 1]), es[|es| - 1];
      HistoryBacked(c, es[..|es| - 1]);
      if e.Move? && Can(c, sys, e) && Exact(c, sys, e) {
        ActorBacked(c, sys, e.op, e.commit, e.quorumIndex);
        forall n: NodeId | n in sys.w.nodes && n != Actor(e.op)
          ensures BackedAt(c, Step(c, sys.w, e.op), n, sys.w.nodes[n], sys.tracks[n])
        {
          BackedLater(c, sys.w, Step(c, sys.w, e.op), n, sys.w.nodes[n], sys.tracks[n]);
        }
      }
    }
  }

  /** At some moment the node's log began with these entries. */
  ghost predicate HadFirst(sys: System, p: NodeId, first: seq<Entry>) {
    exists log :: (p, log) in sys.logs && first <= log
  }

  /** Each node of a majority at some moment had these entries first. */
  ghost predicate MajorityHad(c: Config, sys: System, first: seq<Entry>) {
    exists had :: AllHad(c, sys, first, had)
  }

  ghost predicate AllHad(c: Config, sys: System, first: seq<Entry>, had: set<NodeId>) {
    had <= c.voters && |had| >= Majority(c) && forall p: NodeId :: p in had ==> HadFirst(sys, p, first)
  }

  /** Leader n counts a majority of acknowledgements of its entry k. */
  ghost predicate CountsMajority(c: Config, sys: System, n: NodeId, k: nat) {
    && n in sys.w.nodes && n in sys.tracks && sys.w.nodes[n].role == Leader && 0 < k <= |sys.w.nodes[n].log|
    && Commit.Acked(View(sys.w.nodes[n], sys.tracks[n]), k) >= Majority(c)
  }

  /** In every history, what a leader counts as acknowledged by a majority each node of a majority has had. */
  ghost predicate AcksMeanHad(c: Config) {
    forall es, n: NodeId, k: nat :: CountsMajority(c, History(c, es), n, k) ==>
      MajorityHad(c, History(c, es), History(c, es).w.nodes[n].log[..k])
  }

  ghost predicate LogsSeen(w: World, sys: System) {
    forall p: NodeId :: p in w.nodes ==> (p, w.nodes[p].log) in sys.logs
  }

  lemma {:induction false} NowSeen(c: Config, es: seq<Event>)
    ensures LogsSeen(History(c, es).w, History(c, es))
  {
    if es != [] {
      NowSeen(c, es[..|es| - 1]);
    }
  }

  lemma {:induction false} OnceSeen(c: Config, es: seq<Event>, j: nat)
    requires j <= |OpsOf(c, Begin(c), es)|
    ensures LogsSeen(Run(c, OpsOf(c, Begin(c), es)[..j]), History(c, es))
  {
    var ops := OpsOf(c, Begin(c), es);
    if j == |ops| {
      NowSeen(c, es);
      ClusterBelow(c, Begin(c), es);
      assert ops[..j] == ops;
    } else {
      var front := es[..|es| - 1];
      OnceSeen(c, front, j);
      assert ops[..j] == OpsOf(c, Begin(c), front)[..j];
      assert History(c, front).logs <= History(c, es).logs;
    }
  }

  /** The moment an acknowledgement in the leader's term stands for. */
  lemma AckedWhen(c: Config, ops: seq<Op>, n: NodeId, p: NodeId, index: nat) returns (j: nat)
    requires !c.forgets && (AtMostOneEligible(c) || 0 !in c.voters)
    requires var w := Run(c, ops);
             n in w.nodes && w.nodes[n].role == Leader && HasAck(w, p, n, w.nodes[n].term, index)
    ensures j <= |ops| && index <= |Run(c, ops).nodes[n].log|
    ensures HadLog(Run(c, ops[..j]), p, Run(c, ops).nodes[n].log[..index])
  {
    var w := Run(c, ops);
    var m :| m in w.sent && IsAck(m) && m.from == p && m.to == n && m.term == w.nodes[n].term && m.index == index;
    AcksAreTrue(c, ops, m);
    RunLedger(c, ops);
    assert w.history[m.term] == w.nodes[n].log;
    j :| 0 <= j <= |ops| && HadLog(Run(c, ops[..j]), p, w.nodes[n].log[..index]);
  }

  lemma AckedHad(c: Config, es: seq<Event>, n: NodeId, p: NodeId, k: nat, index: nat)
    requires !c.forgets && (AtMostOneEligible(c) || 0 !in c.voters)
    requires var sys := History(c, es);
             && n in sys.w.nodes && sys.w.nodes[n].role == Leader && k <= |sys.w.nodes[n].log|
             && HasAck(sys.w, p, n, sys.w.nodes[n].term, index) && k <= index
    ensures HadFirst(History(c, es), p, History(c, es).w.nodes[n].log[..k])
  {
    var log := History(c, es).w.nodes[n].log;
    ClusterBelow(c, Begin(c), es);
    var j := AckedWhen(c, OpsOf(c, Begin(c), es), n, p, index);
    OnceSeen(c, es, j);
    assert log[..k] <= log[..index];
  }

  /** Where terms have one leader and nothing is forgotten, a majority has had what a leader counts. */
  lemma MajorityHadIt(c: Config, es: seq<Event>, n: NodeId, k: nat)
    requires !c.forgets && (AtMostOneEligible(c) || 0 !in c.voters)
    requires CountsMajority(c, History(c, es), n, k)
    ensures MajorityHad(c, History(c, es), History(c, es).w.nodes[n].log[..k])
  {
    var sys := History(c, es);
    var s, t := sys.w.nodes[n], sys.tracks[n];
    HistoryBacked(c, es);
    ClusterBelow(c, Begin(c), es);
    StartFresh(c);
    ExecPosted(c, Start(c), OpsOf(c, Begin(c), es));
    NowSeen(c, es);
    assert BackedAt(c, sys.w, n, s, t);
    var had := Commit.Reaching(t.matched, t.matched.Keys, k) + {n};
    forall p: NodeId | p in had ensures HadFirst(sys, p, s.log[..k]) {
      if p != n {
        AckedHad(c, es, n, p, k, t.matched[p]);
      }
    }
    assert AllHad(c, sys, s.log[..k], had);
  }

  /** The commit index moves only with an acknowledgement that is counted, to the index that it leads to. */
  lemma CommitMoves(c: Config, sys: System, e: Event)
    requires e.Move? && DeliversAck(e.op) && Can(c, sys, e) && Exact(c, sys, e)
    requires Next(c, sys, e).tracks[Actor(e.op)].commit != sys.tracks[Actor(e.op)].commit
    ensures var n, sys' := Actor(e.op), Next(c, sys, e);
            && n in sys'.w.nodes && n in sys'.tracks && sys'.w.nodes[n].role == Leader
            && sys'.tracks[n].commit == e.quorumIndex && LogTerm(sys'.w.nodes[n].log, e.quorumIndex) == sys'.w.nodes[n].term
            && Commit.Acked(View(sys'.w.nodes[n], sys'.tracks[n]), e.quorumIndex) >= Majority(c)
  {
    var n, o := Actor(e.op), Effect(c, sys.w, e.op);
    var base := Base(c, n, sys.w.nodes[n], o, sys.tracks[n], e.op, e.commit);
    assert Counts(o.after, base, e.op);
    assert View(o.after, Next(c, sys, e).tracks[n]).matched == Counted(o.after, base, e.op).matched;
  }

  /** What a counted acknowledgement commits, each node of a majority had at some moment. */
  lemma CommitMeansHad(c: Config, es: seq<Event>, e: Event)
    requires !c.forgets && (AtMostOneEligible(c) || 0 !in c.voters)
    requires e.Move? && DeliversAck(e.op) && Can(c, History(c, es), e) && Exact(c, History(c, es), e)
    requires var n := Actor(e.op); History(c, es + [e]).tracks[n].commit != History(c, es).tracks[n].commit
    ensures var n, sys := Actor(e.op), History(c, es + [e]);
            && n in sys.w.nodes && sys.tracks[n].commit <= |sys.w.nodes[n].log|
            && MajorityHad(c, sys, sys.w.nodes[n].log[..sys.tracks[n].commit])
  {
    assert (es + [e])[..|es|] == es;
    CommitMoves(c, History(c, es), e);
    ClusterBelow(c, Begin(c), es + [e]);
    RunLedger(c, OpsOf(c, Begin(c), es + [e]));
    MajorityHadIt(c, es + [e], Actor(e.op), e.quorumIndex);
  }

  // ---------------------------------------------------------------- acknowledgements of other entries

  function Longest(entries: seq<Entry>): nat {
    if entries == [] then 0
    else
      var front, last := Longest(entries[..|entries| - 1]), |entries[|entries| - 1].data|;
      if last > front then last else front
  }

  lemma {:induction false} LongestBounds(entries: seq<Entry>, i: nat)
    requires i < |entries|
    ensures |entries[i].data| <= Longest(entries)
  {
    if i < |entries| - 1 {
      LongestBounds(entries[..|entries| - 1], i);
    }
  }

  ghost predicate Short(entries: seq<Entry>, bound: nat) {
    forall i :: 0 <= i < |entries| ==> |entries[i].data| <= bound
  }

  /** No log ever had an entry with more data than this. */
  ghost predicate AllShort(sys: System, bound: nat) {
    forall x :: x in sys.logs ==> Short(x.1, bound)
  }

  lemma {:induction false} SomeShort(some: set<(NodeId, seq<Entry>)>) returns (bound: nat)
    ensures forall x :: x in some ==> Short(x.1, bound)
  {
    bound := 0;
    if some != {} {
      var x := Pick(some);
      var rest := SomeShort(some - {x});
      forall i | 0 <= i < |x.1| ensures |x.1[i].data| <= Longest(x.1) {
        LongestBounds(x.1, i);
      }
      bound := rest + Longest(x.1);
    }
  }

  /** Leader a counts for its new log the acknowledgements of a longer one that it lost. */
  ghost predicate Hollow(c: Config, w: World, a: NodeId, done: set<NodeId>) {
    && a in c.voters && |c.voters| > 1 && done <= c.voters - {a} && |done| == |c.voters| / 2
    && Heads(c, w, a, 1, FirstLog(1)) && AcksSent(w, a, 1, 3, done)
  }

  /** It takes data nobody has seen before. */
  lemma TakesNew(c: Config, sys: System, a: NodeId, data: string) returns (es: seq<Event>)
    requires Tracked(sys) && Heads(c, sys.w, a, 1, FirstLog(1))
    requires sys.tracks[a].matched == Zeros(c, a)
    ensures var sys' := Play(c, sys, es);
            && Calm(c, sys, sys') && Heads(c, sys'.w, a, 1, SecondLog(1, data)) && sys.w.sent <= sys'.w.sent
            && sys'.tracks[a].matched == Zeros(c, a)
            && forall x :: x in sys'.logs ==> x in sys.logs || x.0 == a
  {
    es := LiftOne(c, sys, Propose(a, data));
    ExecOne(c, sys.w, Propose(a, data));
    ProposesSecond(c, sys.w, a, 1, data);
    assert Steady(c, sys, Play(c, sys, es), a);
  }

  lemma ToldCounts(c: Config, sys: System, a: NodeId, t: Term, log: seq<Entry>, done: set<NodeId>)
    requires Tracked(sys) && Heads(c, sys.w, a, t, log) && log != [] && done <= c.voters - {a}
    requires Told(c, sys.tracks[a], a, |log|, done) && |done| >= |c.voters| / 2
    ensures CountsMajority(c, sys, a, |log|)
  {
    var v := View(sys.w.nodes[a], sys.tracks[a]);
    assert Commit.Reaching(v.matched, v.matched.Keys, |log|) == done;
  }

  lemma NotShort(log: seq<Entry>, data: string, bound: nat)
    requires SecondLog(1, data) <= log && |data| > bound
    ensures !Short(log, bound)
  {
    assert log[2] == SecondLog(1, data)[2];
  }

  lemma OthersLack(c: Config, sys: System, before: System, a: NodeId, data: string, bound: nat)
    requires |c.voters| > 1 && AllShort(before, bound) && |data| > bound
    requires forall x :: x in sys.logs ==> x in before.logs || x.0 == a
    ensures !MajorityHad(c, sys, SecondLog(1, data))
  {
    var first := SecondLog(1, data);
    forall had | AllHad(c, sys, first, had) ensures false {
      assert |had - {a}| > 0;
      var p := Pick(had - {a});
      assert HadFirst(sys, p, first);
      var log :| (p, log) in sys.logs && first <= log;
      NotShort(log, data, bound);
    }
  }

  /** Only a ever had its log, of three entries, and it counts the old acknowledgements for it. */
  ghost predicate CountsHollow(c: Config, sys: System, a: NodeId) {
    CountsMajority(c, sys, a, 3) && !MajorityHad(c, sys, sys.w.nodes[a].log[..3])
  }

  /** Leader a has taken data nobody saw before, while old acknowledgements of three entries are on their way to it. */
  ghost predicate TookUnseen(c: Config, sys: System, before: System, a: NodeId, done: set<NodeId>, data: string, bound: nat) {
    && Tracked(sys) && a in c.voters && |c.voters| > 1 && done <= c.voters - {a} && |done| == |c.voters| / 2
    && Heads(c, sys.w, a, 1, SecondLog(1, data)) && AcksSent(sys.w, a, 1, 3, done)
    && a in sys.tracks && Told(c, sys.tracks[a], a, 3, {})
    && AllShort(before, bound) && |data| > bound
    && forall x :: x in sys.logs ==> x in before.logs || x.0 == a
  }

  lemma CountsOld(c: Config, sys: System, before: System, a: NodeId, done: set<NodeId>, data: string, bound: nat)
    returns (es: seq<Event>)
    requires TookUnseen(c, sys, before, a, done, data, bound)
    ensures CountsHollow(c, Play(c, sys, es), a)
  {
    var log := SecondLog(1, data);
    es := AcksCounted(c, sys, a, 1, log, done);
    var end := Play(c, sys, es);
    ToldCounts(c, end, a, 1, log, done);
    OthersLack(c, end, before, a, data, bound);
    assert log[..3] == log;
  }

  lemma TakesUnseen(c: Config, sys: System, a: NodeId, done: set<NodeId>)
    returns (es: seq<Event>, data: string, bound: nat)
    requires Tracked(sys) && Hollow(c, sys.w, a, done) && sys.tracks[a].matched == Zeros(c, a) && sys.tracks[a].applied == 0
    ensures TookUnseen(c, Play(c, sys, es), sys, a, done, data, bound)
  {
    bound := SomeShort(sys.logs);
    data := seq(bound + 1, _ => 'y');
    es := TakesNew(c, sys, a, data);
    assert Steady(c, sys, Play(c, sys, es), a);
    assert Known(c, a, 3, {}) == Zeros(c, a);
  }

  lemma HollowCounted(c: Config, ops: seq<Op>, a: NodeId, done: set<NodeId>) returns (es: seq<Event>)
    requires NoAcks(ops) && Hollow(c, Run(c, ops), a, done)
    ensures CountsHollow(c, History(c, es), a)
  {
    var before := Lift(c, Begin(c), ops);
    var sys := History(c, before);
    assert Steady(c, Begin(c), sys, a);
    var take, data, bound := TakesUnseen(c, sys, a, done);
    var count := CountsOld(c, Play(c, sys, take), sys, a, done, data, bound);
    PlayConcat(c, Begin(c), before, take);
    PlayConcat(c, Begin(c), before + take, count);
    es := before + take + count;
  }

  /** A restart: all forget, and a wins term 1 again. */
  lemma HollowByRestart(c: Config, a: NodeId, b: NodeId) returns (ops: seq<Op>, done: set<NodeId>)
    requires c.asks && c.forgets && EnoughVoters(c.voters, a) && b in c.voters - {a}
    ensures NoAcks(ops) && Hollow(c, Run(c, ops), a, done)
  {
    var copied;
    copied, done := CopiedOnce(c, a, b);
    var w := Run(c, copied);
    var restart := RestartAll(c, w, c.voters);
    var anew := Exec(c, w, restart);
    var win := WinFirst(c, anew, a);
    StartFresh(c);
    ExecPosted(c, Start(c), copied);
    ExecPosted(c, w, restart);
    ExecPosted(c, anew, win);
    ExecConcat(c, Start(c), copied, restart);
    ExecConcat(c, Start(c), copied + restart, win);
    ops := copied + restart + win;
  }

  lemma TakesAndCopies(c: Config, w: World, a: NodeId) returns (ops: seq<Op>, done: set<NodeId>)
    requires Heads(c, w, a, 1, FirstLog(1)) && |c.voters| > 1 && a in c.voters
    ensures NoAcks(ops) && Copied(c, Exec(c, w, ops), a, 1, SecondLog(1, "x"), done) && |done| == |c.voters| / 2
    ensures w.sent <= Exec(c, w, ops).sent
  {
    var take := Propose(a, "x");
    ProposesSecond(c, w, a, 1, "x");
    ExecOne(c, w, take);
    LogsNumbered(1, "x");
    assert |c.voters - {a}| == |c.voters| - 1;
    var b := Pick(c.voters - {a});
    var copy;
    copy, done := CopyMany(c, Exec(c, w, [take]), a, b, 1, SecondLog(1, "x"), |c.voters| / 2);
    ExecConcat(c, w, [take], copy);
    ops := [take] + copy;
  }

  /** An append of another leader of the term cuts the log of a short. */
  lemma CutByOther(c: Config, w: World, b: NodeId, a: NodeId, done: set<NodeId>) returns (ops: seq<Op>)
    requires Copied(c, w, a, 1, SecondLog(1, "x"), done) && |done| == |c.voters| / 2 && |c.voters| > 1
    requires a in c.voters && Whole(b, a, 1, FirstLog(1)) in w.sent
    ensures NoAcks(ops) && Hollow(c, Exec(c, w, ops), a, done)
  {
    var late := Deliver(Whole(b, a, 1, FirstLog(1)), false);
    LogsNumbered(1, "x");
    WholeTaken(c, w, b, a, 1, FirstLog(1));
    ExecOne(c, w, late);
    ops := [late];
  }

  /** Two leaders of term 1: node 0 cuts the log of a short after a copied it. */
  lemma HollowBySplit(c: Config, a: NodeId) returns (ops: seq<Op>, done: set<NodeId>)
    requires Splittable(c, a)
    ensures NoAcks(ops) && Hollow(c, Run(c, ops), a, done)
  {
    var split := SplitTerm(c, a);
    var w := Run(c, split);
    var send := Replicate(0, a, 0, 2);
    Sends(c, w, 0, a, 1, FirstLog(1));
    ExecOne(c, w, send);
    var sent := Exec(c, w, [send]);
    var copy;
    copy, done := TakesAndCopies(c, sent, a);
    var cut := CutByOther(c, Exec(c, sent, copy), 0, a, done);
    ExecConcat(c, Start(c), split, [send]);
    ExecConcat(c, Start(c), split + [send], copy);
    ExecConcat(c, Start(c), split + [send] + copy, cut);
    ops := split + [send] + copy + cut;
  }

  lemma HollowRun(c: Config) returns (ops: seq<Op>, a: NodeId, done: set<NodeId>)
    requires c.asks && |c.voters| > 1 && (c.forgets || (0 in c.voters && |c.voters| > 2))
    ensures NoAcks(ops) && Hollow(c, Run(c, ops), a, done)
  {
    assert |c.voters - {0}| >= |c.voters| - 1;
    var b := Pick(c.voters - {0});
    if 0 in c.voters && |c.voters| > 2 {
      a := b;
      ops, done := HollowBySplit(c, a);
    } else if 0 in c.voters {
      a := 0;
      ops, done := HollowByRestart(c, 0, b);
    } else {
      a := b;
      assert |c.voters - {a}| > 0;
      b := Pick(c.voters - {a});
      ops, done := HollowByRestart(c, a, b);
    }
  }

  /** Exactly when a majority of acknowledgements stands for a majority that had the entries. */
  lemma AcksMeanHadExactly(c: Config)
    ensures AcksMeanHad(c) <==> !c.asks || |c.voters| <= 1 || (!c.forgets && (0 !in c.voters || |c.voters| == 2))
  {
    if !c.asks || |c.voters| <= 1 {
      forall es, n: NodeId, k: nat ensures !CountsMajority(c, History(c, es), n, k) {
        ClusterBelow(c, Begin(c), es);
        NobodyEverLeads(c, OpsOf(c, Begin(c), es));
      }
    } else if !c.forgets && (0 !in c.voters || |c.voters| == 2) {
      forall es, n: NodeId, k: nat | CountsMajority(c, History(c, es), n, k)
        ensures MajorityHad(c, History(c, es), History(c, es).w.nodes[n].log[..k])
      {
        MajorityHadIt(c, es, n, k);
      }
    } else {
      var ops, a, done := HollowRun(c);
      var es := HollowCounted(c, ops, a, done);
    }
  }
}
