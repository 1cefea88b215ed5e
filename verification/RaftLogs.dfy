/**
 * What the logs of a cluster keep (src/cluster/raft/node.rs): when they match, and what the log
 * check of a vote does.
 */
module RaftLogs {
  import opened Basics
  import opened RaftNodes
  import opened RaftCluster
  import opened RaftElections

  // ---------------------------------------------------------------- what logs keep

  /** Entry i and all before it stand in the log of the leader of its term. */
  predicate TracedAt(h: map<Term, seq<Entry>>, log: seq<Entry>, i: nat)
    requires i < |log|
  {
    var t := log[i].term;
    t in h && i < |h[t]| && log[..i + 1] == h[t][..i + 1]
  }

  ghost predicate Traced(h: map<Term, seq<Entry>>, log: seq<Entry>) {
    forall i :: 0 <= i < |log| ==> TracedAt(h, log, i)
  }

  ghost predicate Bounded(log: seq<Entry>, t: Term) {
    forall i :: 0 <= i < |log| ==> log[i].term <= t && log[i].index == i + 1
  }

  ghost predicate LogsTraced(w: World) {
    forall n: NodeId :: n in w.nodes ==> Traced(w.history, w.nodes[n].log) && Bounded(w.nodes[n].log, w.nodes[n].term)
  }

  ghost predicate HistoryTraced(w: World) {
    forall t: Term :: t in w.history ==> Traced(w.history, w.history[t]) && Bounded(w.history[t], t)
  }

  function LedTerms(w: World): set<Term> {
    set l | l in w.leaders :: l.0
  }

  ghost predicate HistoryLed(w: World) {
    forall t: Term :: t in w.history ==> t == 0 || t in LedTerms(w)
  }

  ghost predicate LeaderLogs(w: World) {
    forall n: NodeId :: n in w.nodes && w.nodes[n].role == Leader ==>
      (w.nodes[n].term, n) in w.leaders && w.nodes[n].term in w.history && w.history[w.nodes[n].term] == w.nodes[n].log
  }

  /** A former leader never stands again in its term. */
  ghost predicate LeadersPast(w: World) {
    && (forall l :: l in w.leaders ==>
          && l.1 in w.nodes
          && (w.nodes[l.1].term > l.0 || (w.nodes[l.1].term == l.0 && w.nodes[l.1].role != Candidate)))
    && (forall n: NodeId :: n in w.nodes && Standing(w.nodes[n]) ==> w.nodes[n].term > 0)
  }

  /** The entries of an append come from the log of its term's leader. */
  predicate Sliced(h: map<Term, seq<Entry>>, m: Message) {
    && m.term > 0 && m.term in h
    && m.index + |m.entries| <= |h[m.term]|
    && m.entries == h[m.term][m.index..m.index + |m.entries|]
  }

  ghost predicate AppendsSliced(w: World) {
    forall m :: m in w.sent && m.kind == AppendEntries ==> Sliced(w.history, m) && (m.term, m.from) in w.leaders
  }

  ghost predicate Ledger(w: World) {
    LogsTraced(w) && HistoryTraced(w) && HistoryLed(w) && LeaderLogs(w) && LeadersPast(w) && AppendsSliced(w)
  }

  /** Logs of terms gain entries, and terms, only at the end. */
  ghost predicate Extends(h: map<Term, seq<Entry>>, h': map<Term, seq<Entry>>) {
    forall t: Term :: t in h ==> t in h' && h[t] <= h'[t]
  }

  lemma TracedExtends(h: map<Term, seq<Entry>>, h': map<Term, seq<Entry>>, log: seq<Entry>)
    requires Traced(h, log) && Extends(h, h')
    ensures Traced(h', log)
  {
    forall i | 0 <= i < |log| ensures TracedAt(h', log, i) {
      assert TracedAt(h, log, i);
      assert h[log[i].term][..i + 1] == h'[log[i].term][..i + 1];
    }
  }

  lemma SlicedExtends(h: map<Term, seq<Entry>>, h': map<Term, seq<Entry>>, m: Message)
    requires Sliced(h, m) && Extends(h, h')
    ensures Sliced(h', m)
  {
    assert h[m.term] == h'[m.term][..|h[m.term]|];
  }

  lemma TracedPrefix(h: map<Term, seq<Entry>>, log: seq<Entry>, k: nat)
    requires k <= |log| && Traced(h, log)
    ensures Traced(h, log[..k])
  {
    forall i | 0 <= i < k ensures TracedAt(h, log[..k], i) {
      assert TracedAt(h, log, i);
      assert log[..k][..i + 1] == log[..i + 1];
    }
  }

  predicate AllAbove(entries: seq<Entry>, next: nat) {
    entries == [] || (entries[|entries| - 1].index >= next && AllAbove(entries[..|entries| - 1], next))
  }

  lemma {:induction false} FromAll(entries: seq<Entry>, next: nat)
    requires AllAbove(entries, next)
    ensures From(entries, next) == entries
  {
    if entries != [] {
      FromAll(entries[..|entries| - 1], next);
    }
  }

  lemma {:induction false} NumberedAbove(led: seq<Entry>, t: Term, index: nat, count: nat)
    requires Bounded(led, t) && index + count <= |led|
    ensures AllAbove(led[index..index + count], index + 1)
  {
    if count > 0 {
      assert led[index..index + count][..count - 1] == led[index..index + count - 1];
      NumberedAbove(led, t, index, count - 1);
    }
  }

  lemma SlicePushed(led: seq<Entry>, m: Message)
    requires m.index + |m.entries| <= |led| && m.entries == led[m.index..m.index + |m.entries|]
    requires Bounded(led, m.term)
    ensures From(m.entries, m.index + 1) == m.entries
  {
    NumberedAbove(led, m.term, m.index, |m.entries|);
    FromAll(m.entries, m.index + 1);
  }

  /** Accepting an append leaves the log as it was, or makes it a prefix of the leader's. */
  lemma AppendedIsPrefix(h: map<Term, seq<Entry>>, log: seq<Entry>, m: Message)
    requires Traced(h, log) && Sliced(h, m) && Bounded(h[m.term], m.term) && Fits(log, m)
    ensures Appended(log, m) == if m.entries == [] then log else h[m.term][..m.index + |m.entries|]
  {
    if m.entries != [] {
      SlicePushed(h[m.term], m);
      FittingPrefix(h, log, m);
      PrefixGrows(h[m.term], m.index, |m.entries|);
    }
  }

  lemma PrefixGrows(s: seq<Entry>, i: nat, k: nat)
    requires i + k <= |s|
    ensures s[..i] + s[i..i + k] == s[..i + k]
  {
  }

  lemma FittingPrefix(h: map<Term, seq<Entry>>, log: seq<Entry>, m: Message)
    requires Traced(h, log) && Sliced(h, m) && Fits(log, m)
    ensures Take(log, m.index) == h[m.term][..m.index]
  {
    if m.index > 0 {
      assert TracedAt(h, log, m.index - 1);
    }
  }

  // ---------------------------------------------------------------- logs are kept

  ghost predicate AppendsOwn(w: World, n: NodeId, o: Outcome) {
    forall m :: m in o.out && m.kind == AppendEntries ==>
      Sliced(Record(w, n, o).history, m) && m.term == o.after.term && m.from == n && o.after.role == Leader
  }

  ghost predicate LogSound(w: World, n: NodeId, o: Outcome)
    requires n in w.nodes
  {
    var s, s', h := w.nodes[n], o.after, Record(w, n, o).history;
    && Extends(w.history, h)
    && Traced(h, s'.log) && Bounded(s'.log, s'.term)
    && s'.term >= s.term
    && (s'.role == Candidate ==> s'.term > s.term || s.role == Candidate)
    && (Standing(s') ==> s'.term > 0)
    && AppendsOwn(w, n, o)
  }

  lemma RecordTraced(w: World, n: NodeId, o: Outcome)
    requires Ledger(w) && n in w.nodes && LogSound(w, n, o)
    ensures LogsTraced(Record(w, n, o)) && HistoryTraced(Record(w, n, o))
  {
    var w' := Record(w, n, o);
    forall p: NodeId | p in w'.nodes && p != n ensures Traced(w'.history, w'.nodes[p].log) {
      TracedExtends(w.history, w'.history, w.nodes[p].log);
    }
    forall t: Term | t in w.history ensures Traced(w'.history, w.history[t]) {
      TracedExtends(w.history, w'.history, w.history[t]);
    }
  }

  lemma RecordLed(w: World, n: NodeId, o: Outcome)
    requires Ledger(w) && n in w.nodes && LogSound(w, n, o) && OneLeader(Record(w, n, o))
    ensures HistoryLed(Record(w, n, o)) && LeaderLogs(Record(w, n, o))
  {
    var w' := Record(w, n, o);
    forall t: Term | t in w'.history ensures t == 0 || t in LedTerms(w') {
      if t in w.history && t != 0 {
        assert t in LedTerms(w);
      } else if t != 0 {
        assert (t, n) in w'.leaders;
      }
    }
    forall p: NodeId | p in w'.nodes && w'.nodes[p].role == Leader
      ensures (w'.nodes[p].term, p) in w'.leaders
      ensures w'.nodes[p].term in w'.history && w'.history[w'.nodes[p].term] == w'.nodes[p].log
    {
      assert o.after.role == Leader ==> (o.after.term, n) in w'.leaders;
    }
  }

  lemma RecordPast(w: World, n: NodeId, o: Outcome)
    requires Ledger(w) && n in w.nodes && LogSound(w, n, o)
    ensures LeadersPast(Record(w, n, o)) && AppendsSliced(Record(w, n, o))
  {
    var w' := Record(w, n, o);
    forall m | m in w.sent && m.kind == AppendEntries ensures Sliced(w'.history, m) {
      SlicedExtends(w.history, w'.history, m);
    }
  }

  lemma SameHistory(w: World, n: NodeId, o: Outcome)
    requires Ledger(w) && n in w.nodes && o.after.log == w.nodes[n].log
    requires o.after.role == Leader ==> w.nodes[n].role == Leader && o.after.term == w.nodes[n].term
    ensures Record(w, n, o).history == w.history
  {
  }

  /** Steps that leave the log alone and win no election. */
  lemma QuietLogSound(w: World, n: NodeId, o: Outcome)
    requires Ledger(w) && n in w.nodes && o.after.log == w.nodes[n].log && o.after.term >= w.nodes[n].term
    requires o.after.role == Leader ==> w.nodes[n].role == Leader && o.after.term == w.nodes[n].term
    requires o.after.role == Candidate ==> w.nodes[n].role == Candidate || o.after.term > w.nodes[n].term
    requires forall m :: m in o.out && m.kind == AppendEntries ==>
               Sliced(w.history, m) && m.term == o.after.term && m.from == n && o.after.role == Leader
    ensures LogSound(w, n, o)
  {
    SameHistory(w, n, o);
  }

  /** A log that gains an entry of the leader's term becomes, or extends, the log of that term. */
  lemma LeaderLogSound(w: World, n: NodeId, o: Outcome, e: Entry)
    requires Ledger(w) && n in w.nodes
    requires o.after.log == w.nodes[n].log + [e] && o.after.term == w.nodes[n].term == e.term > 0
    requires e.index == |w.nodes[n].log| + 1 && o.after.role == Leader
    requires w.nodes[n].role == Leader || e.term !in w.history
    requires AppendsOwn(w, n, o)
    ensures LogSound(w, n, o)
  {
    var log, t := w.nodes[n].log, e.term;
    var h := Record(w, n, o).history;
    assert h[t] == log + [e];
    assert Extends(w.history, h);
    TracedExtends(w.history, h, log);
    forall i | 0 <= i < |log + [e]| ensures TracedAt(h, log + [e], i) {
      if i < |log| {
        assert TracedAt(h, log, i);
        assert (log + [e])[..i + 1] == log[..i + 1];
      }
    }
  }

  lemma TermIsNew(w: World, w': World, n: NodeId, t: Term)
    requires Ledger(w) && OneLeader(w') && w.leaders <= w'.leaders && (t, n) in w'.leaders
    requires n in w.nodes && w.nodes[n].role == Candidate && w.nodes[n].term == t
    ensures t !in w.history
  {
    assert (t, n) !in w.leaders && t > 0;
    assert forall l :: l in w.leaders && l.0 == t ==> l == (t, n);
  }

  lemma ReplicateLogSound(c: Config, w: World, op: Op)
    requires Ledger(w) && Enabled(c, w, op) && op.Replicate?
    ensures LogSound(w, op.node, Effect(c, w, op))
  {
    var o := Effect(c, w, op);
    assert forall m :: m in o.out ==> m == Slice(w.nodes[op.node], op.node, op.to, op.index, op.count);
    QuietLogSound(w, op.node, o);
  }

  lemma WonLogSound(c: Config, w: World, n: NodeId, votes: map<NodeId, bool>, o: Outcome)
    requires Ledger(w) && n in w.nodes && w.nodes[n].role == Candidate && OneLeader(Record(w, n, o))
    requires var l := Leading(w.nodes[n].(votes := votes), n); o == Outcome(l, FirstAppends(l, n, c.voters))
    ensures LogSound(w, n, o)
  {
    var s := w.nodes[n];
    TermIsNew(w, Record(w, n, o), n, s.term);
    assert forall x :: x in o.out ==> x.term == s.term && x.from == n && Sliced(Record(w, n, o).history, x);
    LeaderLogSound(w, n, o, Entry(|s.log| + 1, s.term, ""));
  }

  lemma VoteResponseLogSound(c: Config, w: World, n: NodeId, m: Message, o: Outcome)
    requires Ledger(w) && n in w.nodes && m.kind == VoteResponse
    requires o == OnVoteResponse(CaughtUp(w.nodes[n], m), n, c.voters, m) && OneLeader(Record(w, n, o))
    ensures LogSound(w, n, o)
  {
    var s := w.nodes[n];
    if o.after.role == Leader && s.role == Candidate {
      WonLogSound(c, w, n, o.after.votes, o);
    } else {
      QuietLogSound(w, n, o);
    }
  }

  /** Nobody sends appends to a leader in its own term. */
  lemma AppendsFindFollowers(c: Config, w: World, n: NodeId, m: Message)
    requires Posted(c, w) && OneLeader(w) && LeaderLogs(w) && AppendsSliced(w)
    requires n in w.nodes && m in w.sent && m.to == n && m.kind == AppendEntries && m.term == w.nodes[n].term
    ensures w.nodes[n].role != Leader
  {
    assert (m.term, m.from) in w.leaders && m.from != n;
  }

  lemma TakenTraced(w: World, n: NodeId, m: Message)
    requires LogsTraced(w) && HistoryTraced(w) && n in w.nodes && Sliced(w.history, m) && m.entries != []
    requires Fits(w.nodes[n].log, m)
    ensures var log := Appended(w.nodes[n].log, m); Traced(w.history, log) && Bounded(log, m.term)
  {
    var led, k := w.history[m.term], m.index + |m.entries|;
    AppendedIsPrefix(w.history, w.nodes[n].log, m);
    TracedPrefix(w.history, led, k);
    assert Bounded(led, m.term) ==> Bounded(led[..k], m.term);
  }

  lemma TakenLogSound(w: World, n: NodeId, m: Message, s: Local, o: Outcome)
    requires Ledger(w) && n in w.nodes && Sliced(w.history, m) && m.entries != []
    requires s == CaughtUp(w.nodes[n], m) && s.term == m.term && s.role != Leader && Fits(s.log, m)
    requires o.after == s.(leader := m.from, log := Appended(s.log, m))
    requires forall x :: x in o.out ==> x.kind != AppendEntries
    ensures LogSound(w, n, o)
  {
    TakenTraced(w, n, m);
    assert s.log == w.nodes[n].log && Record(w, n, o).history == w.history;
  }

  lemma AppendLogSound(c: Config, w: World, n: NodeId, m: Message)
    requires Posted(c, w) && OneLeader(w) && Ledger(w) && n in w.nodes && m in w.sent && m.to == n && m.kind == AppendEntries
    ensures LogSound(w, n, OnAppendEntries(CaughtUp(w.nodes[n], m), n, m))
  {
    var s := CaughtUp(w.nodes[n], m);
    var o := OnAppendEntries(s, n, m);
    if m.term < s.term || !Fits(s.log, m) || m.entries == [] {
      QuietLogSound(w, n, o);
    } else {
      if m.term == w.nodes[n].term {
        AppendsFindFollowers(c, w, n, m);
      }
      TakenLogSound(w, n, m, s, o);
    }
  }

  lemma OtherLogSound(c: Config, w: World, n: NodeId, m: Message, recent: bool)
    requires Ledger(w) && n in w.nodes && m.kind != AppendEntries && m.kind != VoteResponse
    ensures LogSound(w, n, OnMessage(w.nodes[n], n, c.voters, m, recent, c.asks))
  {
    var o := OnMessage(w.nodes[n], n, c.voters, m, recent, c.asks);
    assert o.after.log == w.nodes[n].log && o.after.term >= w.nodes[n].term;
    assert forall x :: x in o.out ==> x.kind != AppendEntries;
    QuietLogSound(w, n, o);
  }

  lemma DeliverLogSound(c: Config, w: World, n: NodeId, m: Message, recent: bool, o: Outcome)
    requires Posted(c, w) && OneLeader(w) && Ledger(w) && n in w.nodes && m in w.sent && m.to == n
    requires o == OnMessage(w.nodes[n], n, c.voters, m, recent, c.asks) && OneLeader(Record(w, n, o))
    ensures LogSound(w, n, o)
  {
    if m.kind == AppendEntries {
      AppendLogSound(c, w, n, m);
    } else if m.kind == VoteResponse {
      VoteResponseLogSound(c, w, n, m, o);
    } else {
      OtherLogSound(c, w, n, m, recent);
    }
  }

  lemma TimeoutLogSound(c: Config, w: World, n: NodeId)
    requires Ledger(w) && n in w.nodes && w.nodes[n].role != Leader
    ensures LogSound(w, n, OnTimeout(w.nodes[n], n, c.voters, c.preVote, c.asks))
  {
    QuietLogSound(w, n, OnTimeout(w.nodes[n], n, c.voters, c.preVote, c.asks));
  }

  lemma ProposeLogSound(w: World, n: NodeId, data: string)
    requires Ledger(w) && n in w.nodes && w.nodes[n].role == Leader
    ensures LogSound(w, n, OnPropose(w.nodes[n], data))
  {
    var s := w.nodes[n];
    LeaderLogSound(w, n, OnPropose(s, data), Entry(|s.log| + 1, s.term, data));
  }

  lemma EffectLogSound(c: Config, w: World, op: Op)
    requires !c.forgets && Posted(c, w) && OneLeader(w) && Ledger(w) && Enabled(c, w, op) && OneLeader(Step(c, w, op))
    ensures LogSound(w, Actor(op), Effect(c, w, op))
  {
    var n, o := Actor(op), Effect(c, w, op);
    match op
    case Timeout(_) => TimeoutLogSound(c, w, n);
    case Deliver(m, recent) => DeliverLogSound(c, w, n, m, recent, o);
    case Propose(_, data) => ProposeLogSound(w, n, data);
    case Replicate(_, _, _, _) => ReplicateLogSound(c, w, op);
    case Beat(_, _) => QuietLogSound(w, n, o);
    case StepDown(_) => QuietLogSound(w, n, o);
    case Restart(_) =>
  }

  /** A step of a run keeps logs traced, and logs of terms only gain entries. */
  lemma LedgerStep(c: Config, front: seq<Op>, op: Op)
    requires !c.forgets && (AtMostOneEligible(c) || 0 !in c.voters) && Ledger(Run(c, front))
    requires Enabled(c, Run(c, front), op)
    ensures LogSound(Run(c, front), Actor(op), Effect(c, Run(c, front), op))
    ensures OneLeader(Step(c, Run(c, front), op))
  {
    assert (front + [op])[..|front|] == front;
    StartFresh(c);
    ExecPosted(c, Start(c), front);
    OneLeaderAlways(c, front);
    OneLeaderAlways(c, front + [op]);
    EffectLogSound(c, Run(c, front), op);
  }

  /** Where terms have one leader and nothing is forgotten, logs follow the leaders' in every run. */
  lemma {:induction false} RunLedger(c: Config, ops: seq<Op>)
    requires !c.forgets && (AtMostOneEligible(c) || 0 !in c.voters)
    ensures Ledger(Run(c, ops))
  {
    if ops == [] {
      assert Traced(map[0 := FRESH.log], FRESH.log);
    } else {
      var front, op := ops[..|ops| - 1], ops[|ops| - 1];
      var w := Run(c, front);
      RunLedger(c, front);
      if Enabled(c, w, op) {
        LedgerStep(c, front, op);
        RecordTraced(w, Actor(op), Effect(c, w, op));
        RecordLed(w, Actor(op), Effect(c, w, op));
        RecordPast(w, Actor(op), Effect(c, w, op));
      }
    }
  }

  lemma TracedMatch(h: map<Term, seq<Entry>>, a: seq<Entry>, b: seq<Entry>, i: nat)
    requires Traced(h, a) && Traced(h, b) && i < |a| && i < |b| && a[i].term == b[i].term
    ensures a[..i + 1] == b[..i + 1]
  {
    assert TracedAt(h, a, i) && TracedAt(h, b, i);
  }

  // ---------------------------------------------------------------- acknowledgements

  /** No log is empty, and no append. */
  ghost predicate NoneEmpty(w: World) {
    && (forall n: NodeId :: n in w.nodes ==> w.nodes[n].log != [])
    && (forall m :: m in w.sent && m.kind == AppendEntries ==> m.entries != [])
  }

  lemma DeliverNoneEmpty(c: Config, w: World, n: NodeId, m: Message, recent: bool)
    requires NoneEmpty(w) && n in w.nodes
    ensures var o := OnMessage(w.nodes[n], n, c.voters, m, recent, c.asks);
            && (m.kind != AppendEntries ==> o.after.log != [])
            && (forall x :: x in o.out && x.kind == AppendEntries ==> x.entries != [])
  {
  }

  /** An append never empties a log. */
  lemma AppendedNotEmpty(log: seq<Entry>, m: Message)
    requires log != [] && (m.entries != [] ==> From(m.entries, m.index + 1) == m.entries)
    ensures Appended(log, m) != []
  {
  }

  lemma AppendNoneEmpty(w: World, n: NodeId, m: Message)
    requires HistoryTraced(w) && AppendsSliced(w) && NoneEmpty(w) && n in w.nodes && m in w.sent && m.kind == AppendEntries
    ensures OnAppendEntries(CaughtUp(w.nodes[n], m), n, m).after.log != []
  {
    var log, led := w.nodes[n].log, w.history[m.term];
    assert Sliced(w.history, m) && Bounded(led, m.term);
    SlicePushed(led, m);
    AppendedNotEmpty(log, m);
    assert CaughtUp(w.nodes[n], m).log == log;
  }

  lemma EffectNoneEmpty(c: Config, w: World, op: Op)
    requires Ledger(w) && NoneEmpty(w) && Enabled(c, w, op)
    ensures var o := Effect(c, w, op);
            && o.after.log != []
            && (forall x :: x in o.out && x.kind == AppendEntries ==> x.entries != [])
  {
    var n, o := Actor(op), Effect(c, w, op);
    if op.Deliver? {
      DeliverNoneEmpty(c, w, n, op.message, op.recent);
      if op.message.kind == AppendEntries {
        AppendNoneEmpty(w, n, op.message);
      }
    } else if op.Replicate? {
      assert forall x :: x in o.out ==> |x.entries| == op.count;
    } else {
      assert forall x :: x in o.out ==> x.kind != AppendEntries;
    }
  }

  lemma {:induction false} RunNoneEmpty(c: Config, ops: seq<Op>)
    requires !c.forgets && (AtMostOneEligible(c) || 0 !in c.voters)
    ensures NoneEmpty(Run(c, ops))
  {
    if ops != [] {
      var front, op := ops[..|ops| - 1], ops[|ops| - 1];
      RunNoneEmpty(c, front);
      RunLedger(c, front);
      if Enabled(c, Run(c, front), op) {
        EffectNoneEmpty(c, Run(c, front), op);
      }
    }
  }

  predicate IsAck(m: Message) {
    m.kind == AppendResponse && !m.reject
  }

  /** At some moment of the run the sender's log was the first `index` entries of the leader of that term. */
  ghost predicate AckTrue(c: Config, ops: seq<Op>, h: map<Term, seq<Entry>>, m: Message) {
    && m.term in h && m.index <= |h[m.term]|
    && exists k :: 0 <= k <= |ops| && HadLog(Run(c, ops[..k]), m.from, h[m.term][..m.index])
  }

  predicate HadLog(w: World, n: NodeId, log: seq<Entry>) {
    n in w.nodes && w.nodes[n].log == log
  }

  lemma AckLater(c: Config, ops: seq<Op>, h: map<Term, seq<Entry>>, h': map<Term, seq<Entry>>, m: Message)
    requires ops != [] && AckTrue(c, ops[..|ops| - 1], h, m) && Extends(h, h')
    ensures AckTrue(c, ops, h', m)
  {
    var front := ops[..|ops| - 1];
    var k :| 0 <= k <= |front| && HadLog(Run(c, front[..k]), m.from, h[m.term][..m.index]);
    assert front[..k] == ops[..k];
    assert h[m.term][..m.index] == h'[m.term][..m.index];
  }

  /** An acknowledgement that is sent is true of the log it leaves. */
  lemma AckSent(c: Config, w: World, op: Op, m: Message)
    requires Ledger(w) && NoneEmpty(w) && Enabled(c, w, op) && m in Effect(c, w, op).out && IsAck(m)
    ensures m.from == Actor(op) && m.term in w.history && m.index <= |w.history[m.term]|
    ensures Effect(c, w, op).after.log == w.history[m.term][..m.index]
  {
    var a := op.message;
    var s := CaughtUp(w.nodes[a.to], a);
    AppendedIsPrefix(w.history, s.log, a);
  }

  /** In every run, an acknowledged index stands for entries the follower had: exactly the leader's first ones. */
  lemma {:induction false} AcksAreTrue(c: Config, ops: seq<Op>, m: Message)
    requires !c.forgets && (AtMostOneEligible(c) || 0 !in c.voters)
    requires m in Run(c, ops).sent && IsAck(m)
    ensures AckTrue(c, ops, Run(c, ops).history, m)
  {
    var front, op := ops[..|ops| - 1], ops[|ops| - 1];
    var w := Run(c, front);
    RunLedger(c, front);
    RunNoneEmpty(c, front);
    if Enabled(c, w, op) {
      LedgerStep(c, front, op);
    }
    assert Extends(w.history, Run(c, ops).history);
    if m in w.sent {
      AcksAreTrue(c, front, m);
      AckLater(c, ops, w.history, Run(c, ops).history, m);
    } else {
      AckSent(c, w, op, m);
      assert ops[..|ops|] == ops;
      assert w.history[m.term][..m.index] == Run(c, ops).history[m.term][..m.index];
      assert HadLog(Run(c, ops[..|ops|]), m.from, Run(c, ops).history[m.term][..m.index]);
    }
  }

  // ---------------------------------------------------------------- logs match

  /** Two logs that agree on the term of an entry agree on it and on all before it. */
  ghost predicate Match(a: seq<Entry>, b: seq<Entry>) {
    forall i :: 0 <= i < |a| && i < |b| && a[i].term == b[i].term ==> a[..i + 1] == b[..i + 1]
  }

  ghost predicate AllMatch(w: World) {
    forall m: NodeId, n: NodeId :: m in w.nodes && n in w.nodes ==> Match(w.nodes[m].log, w.nodes[n].log)
  }

  ghost predicate AlwaysMatching(c: Config) {
    forall ops :: AllMatch(Run(c, ops))
  }

  lemma LedgerMatches(w: World)
    requires LogsTraced(w)
    ensures AllMatch(w)
  {
    forall m: NodeId, n: NodeId | m in w.nodes && n in w.nodes ensures Match(w.nodes[m].log, w.nodes[n].log) {
      var a, b := w.nodes[m].log, w.nodes[n].log;
      forall i | 0 <= i < |a| && i < |b| && a[i].term == b[i].term ensures a[..i + 1] == b[..i + 1] {
        TracedMatch(w.history, a, b, i);
      }
    }
  }

  lemma SilentMatches(w: World)
    requires Silent(w)
    ensures AllMatch(w)
  {
  }

  lemma ProposeAdds(c: Config, w: World, n: NodeId, data: string)
    requires n in w.nodes && w.nodes[n].role == Leader
    ensures var w' := Exec(c, w, [Propose(n, data)]);
            && Carries(w, w', {n}) && w'.nodes[n].term == w.nodes[n].term && w'.nodes[n].role == Leader
            && w'.nodes[n].log == w.nodes[n].log + [Entry(|w.nodes[n].log| + 1, w.nodes[n].term, data)]
  {
    ExecOne(c, w, Propose(n, data));
  }

  lemma Different(w: World, m: NodeId, n: NodeId, log: seq<Entry>, a: Entry, b: Entry)
    requires m in w.nodes && n in w.nodes && w.nodes[m].log == log + [a] && w.nodes[n].log == log + [b]
    requires a.term == b.term && a != b
    ensures !AllMatch(w)
  {
    assert (log + [a])[|log|].term == (log + [b])[|log|].term;
    assert (log + [a])[..|log| + 1] == log + [a] && (log + [b])[..|log| + 1] == log + [b];
    assert !Match(w.nodes[m].log, w.nodes[n].log);
  }

  /** Two leaders of one term take different proposals at one index. */
  lemma SplitLogs(c: Config, a: NodeId) returns (ops: seq<Op>)
    requires Splittable(c, a)
    ensures !AllMatch(Run(c, ops))
  {
    var split := SplitTerm(c, a);
    var w := Run(c, split);
    var x, y := [Propose(0, "x")], [Propose(a, "y")];
    ProposeAdds(c, w, 0, "x");
    ProposeAdds(c, Exec(c, w, x), a, "y");
    ExecConcat(c, w, x, y);
    ExecConcat(c, Start(c), split, x + y);
    ops := split + (x + y);
    Different(Run(c, ops), 0, a, WithNoOp(FRESH.log, 1), Entry(3, 1, "x"), Entry(3, 1, "y"));
  }

  // ---------------------------------------------------------------- a leader sends its log

  function Whole(a: NodeId, p: NodeId, t: Term, log: seq<Entry>): Message {
    Message(AppendEntries, a, p, t, 0, log, false)
  }

  lemma Sends(c: Config, w: World, a: NodeId, p: NodeId, t: Term, log: seq<Entry>)
    requires Heads(c, w, a, t, log) && log != [] && p in c.voters && p != a
    ensures var w' := Exec(c, w, [Replicate(a, p, 0, |log|)]);
            && Whole(a, p, t, log) in w'.sent && Carries(w, w', {}) && Heads(c, w', a, t, log)
            && (Leads(c, w, a, t, log) ==> Leads(c, w', a, t, log))
  {
    ExecOne(c, w, Replicate(a, p, 0, |log|));
    assert log[0..0 + |log|] == log;
  }

  function Ack(p: NodeId, a: NodeId, t: Term, index: nat): Message {
    Message(AppendResponse, p, a, t, index, [], false)
  }

  lemma TakesWhole(s: Local, a: NodeId, p: NodeId, t: Term, log: seq<Entry>)
    requires s.term <= t && log != [] && AllAbove(log, 1)
    ensures var m := Whole(a, p, t, log);
            var o := OnAppendEntries(CaughtUp(s, m), p, m);
            && o.after.log == log && o.after.term == t && o.out == {Ack(p, a, t, |log|)}
            && (LeadsTerm(o.after, t) <==> LeadsTerm(s, t))
  {
    FromAll(log, 1);
  }

  /** A node that receives a whole log takes and acknowledges it. */
  lemma WholeTaken(c: Config, w: World, a: NodeId, p: NodeId, t: Term, log: seq<Entry>)
    requires p in w.nodes && w.nodes[p].term <= t && Whole(a, p, t, log) in w.sent
    requires log != [] && AllAbove(log, 1)
    ensures var w' := Exec(c, w, [Deliver(Whole(a, p, t, log), false)]);
            && Carries(w, w', {p}) && w'.nodes[p].log == log && w'.nodes[p].term == t && Ack(p, a, t, |log|) in w'.sent
            && (LeadsTerm(w'.nodes[p], t) <==> LeadsTerm(w.nodes[p], t))
  {
    ExecOne(c, w, Deliver(Whole(a, p, t, log), false));
    TakesWhole(w.nodes[p], a, p, t, log);
  }

  function FirstLog(t: Term): seq<Entry> {
    WithNoOp(FRESH.log, t)
  }

  function SecondLog(t: Term, data: string): seq<Entry> {
    FirstLog(t) + [Entry(3, t, data)]
  }

  lemma LogsNumbered(t: Term, data: string)
    ensures AllAbove(FirstLog(t), 1) && AllAbove(SecondLog(t, data), 1)
  {
    assert FirstLog(t)[..1] == FRESH.log && FRESH.log[..0] == [];
    assert SecondLog(t, data)[..2] == FirstLog(t);
  }

  lemma ProposesSecond(c: Config, w: World, a: NodeId, t: Term, data: string)
    requires Heads(c, w, a, t, FirstLog(t))
    ensures var w' := Exec(c, w, [Propose(a, data)]);
            && Heads(c, w', a, t, SecondLog(t, data)) && Carries(w, w', {a})
            && (Leads(c, w, a, t, FirstLog(t)) ==> Leads(c, w', a, t, SecondLog(t, data)))
  {
    ProposeAdds(c, w, a, data);
  }

  // ---------------------------------------------------------------- logs after restarts

  /** Node a leads term 1, takes x and sends its log to b; then everybody restarts. */
  lemma SentAndForgotten(c: Config, a: NodeId, b: NodeId) returns (ops: seq<Op>)
    requires c.asks && c.forgets && EnoughVoters(c.voters, a) && b in c.voters && b != a
    ensures AllFresh(c, Run(c, ops)) && Whole(a, b, 1, SecondLog(1, "x")) in Run(c, ops).sent
  {
    StartFresh(c);
    var win := WinFirst(c, Start(c), a);
    var w1 := Run(c, win);
    var propose, send := [Propose(a, "x")], [Replicate(a, b, 0, 3)];
    ProposesSecond(c, w1, a, 1, "x");
    var w2 := Exec(c, w1, propose);
    Sends(c, w2, a, b, 1, SecondLog(1, "x"));
    var w3 := Exec(c, w2, send);
    var restart := RestartAll(c, w3, c.voters);
    ExecConcat(c, Start(c), win, propose);
    ExecConcat(c, Start(c), win + propose, send);
    ExecConcat(c, Start(c), win + propose + send, restart);
    ops := win + propose + send + restart;
  }

  /** It leads term 1 again and takes y. */
  lemma LedAgain(c: Config, w: World, a: NodeId) returns (ops: seq<Op>)
    requires c.asks && EnoughVoters(c.voters, a) && AllFresh(c, w) && Posted(c, w)
    ensures Leads(c, Exec(c, w, ops), a, 1, SecondLog(1, "y")) && w.sent <= Exec(c, w, ops).sent
  {
    var win := WinFirst(c, w, a);
    var propose := [Propose(a, "y")];
    ProposesSecond(c, Exec(c, w, win), a, 1, "y");
    ExecConcat(c, w, win, propose);
    ops := win + propose;
    ExecPosted(c, w, ops);
  }

  /** Meanwhile b takes the old log. */
  lemma ForgottenLogs(c: Config, a: NodeId, b: NodeId) returns (ops: seq<Op>)
    requires c.asks && c.forgets && EnoughVoters(c.voters, a) && b in c.voters && b != a
    ensures !AllMatch(Run(c, ops))
  {
    var before := SentAndForgotten(c, a, b);
    StartFresh(c);
    ExecPosted(c, Start(c), before);
    var again := LedAgain(c, Run(c, before), a);
    var w := Exec(c, Run(c, before), again);
    var late := [Deliver(Whole(a, b, 1, SecondLog(1, "x")), false)];
    LogsNumbered(1, "x");
    WholeTaken(c, w, a, b, 1, SecondLog(1, "x"));
    ExecConcat(c, Start(c), before, again);
    ExecConcat(c, Start(c), before + again, late);
    ops := before + again + late;
    Different(Run(c, ops), a, b, FirstLog(1), Entry(3, 1, "y"), Entry(3, 1, "x"));
  }

  /** Exactly when the logs of a cluster match in every run. */
  lemma LogMatching(c: Config)
    ensures AlwaysMatching(c) <==> !c.asks || |c.voters| <= 1 || (!c.forgets && (0 !in c.voters || |c.voters| == 2))
  {
    if !c.asks || |c.voters| <= 1 {
      forall ops ensures AllMatch(Run(c, ops)) {
        NobodyEverLeads(c, ops);
        SilentMatches(Run(c, ops));
      }
    } else if !c.forgets && (0 !in c.voters || |c.voters| == 2) {
      forall ops ensures AllMatch(Run(c, ops)) {
        RunLedger(c, ops);
        LedgerMatches(Run(c, ops));
      }
    } else {
      var ops := Mismatch(c);
      assert !AllMatch(Run(c, ops));
    }
  }

  lemma Mismatch(c: Config) returns (ops: seq<Op>)
    requires c.asks && |c.voters| > 1 && (c.forgets || (0 in c.voters && |c.voters| > 2))
    ensures !AllMatch(Run(c, ops))
  {
    var a := Pick(c.voters);
    assert |c.voters - {a}| > 0;
    var b := Pick(c.voters - {a});
    if 0 in c.voters && |c.voters| > 2 {
      ops := SplitLogs(c, if a == 0 then b else a);
    } else if 0 in c.voters {
      ops := ForgottenLogs(c, 0, if a == 0 then b else a);
    } else {
      ops := ForgottenLogs(c, a, b);
    }
  }

  // ---------------------------------------------------------------- the log check of a vote

  predicate TermLed(w: World, t: Term) {
    t == 0 || t in LedTerms(w)
  }

  ghost predicate EntriesLed(w: World, entries: seq<Entry>, t: Term) {
    forall i :: 0 <= i < |entries| ==> TermLed(w, entries[i].term) && entries[i].term <= t
  }

  /** Every entry anywhere is of a term that has been led, and not of a later term than its place. */
  ghost predicate AllLed(w: World) {
    && (forall n: NodeId :: n in w.nodes ==> EntriesLed(w, w.nodes[n].log, w.nodes[n].term))
    && (forall m :: m in w.sent && m.kind == AppendEntries ==> EntriesLed(w, m.entries, m.term))
  }

  /** What an outcome adds is led. */
  ghost predicate OutcomeLed(w: World, n: NodeId, o: Outcome) {
    && EntriesLed(Record(w, n, o), o.after.log, o.after.term)
    && (forall m :: m in o.out && m.kind == AppendEntries ==> EntriesLed(Record(w, n, o), m.entries, m.term))
  }

  lemma RecordKeepsLed(w: World, n: NodeId, o: Outcome)
    requires AllLed(w) && n in w.nodes && OutcomeLed(w, n, o)
    ensures AllLed(Record(w, n, o))
  {
    assert LedTerms(w) <= LedTerms(Record(w, n, o));
  }

  lemma LedMore(w: World, n: NodeId, o: Outcome, entries: seq<Entry>, t: Term)
    requires EntriesLed(w, entries, t) && t <= o.after.term
    ensures EntriesLed(Record(w, n, o), entries, o.after.term)
  {
    assert LedTerms(w) <= LedTerms(Record(w, n, o));
  }

  lemma QuietLed(w: World, n: NodeId, o: Outcome)
    requires AllLed(w) && n in w.nodes && o.after.log == w.nodes[n].log && o.after.term >= w.nodes[n].term
    requires forall m :: m in o.out ==> m.kind != AppendEntries
    ensures OutcomeLed(w, n, o)
  {
    LedMore(w, n, o, w.nodes[n].log, w.nodes[n].term);
  }

  predicate SliceOf(m: Message, log: seq<Entry>) {
    m.index + |m.entries| <= |log| && m.entries == log[m.index..m.index + |m.entries|]
  }

  lemma SliceLed(w: World, log: seq<Entry>, t: Term, m: Message)
    requires EntriesLed(w, log, t) && SliceOf(m, log)
    ensures EntriesLed(w, m.entries, t)
  {
    forall i | 0 <= i < |m.entries| ensures TermLed(w, m.entries[i].term) && m.entries[i].term <= t {
      assert m.entries[i] == log[m.index + i];
    }
  }

  /** What an outcome sends of a log. */
  ghost predicate SendsSlices(o: Outcome) {
    forall m :: m in o.out && m.kind == AppendEntries ==> m.term == o.after.term && SliceOf(m, o.after.log)
  }

  /** A leader's log, with at most one more entry, and any slice of it, is led once its own term is. */
  lemma LeaderLed(w: World, n: NodeId, o: Outcome, more: seq<Entry>)
    requires AllLed(w) && n in w.nodes && o.after.term == w.nodes[n].term && o.after.role == Leader
    requires o.after.log == w.nodes[n].log + more && |more| <= 1 && (more != [] ==> more[0].term == o.after.term)
    requires SendsSlices(o)
    ensures OutcomeLed(w, n, o)
  {
    var w', log := Record(w, n, o), w.nodes[n].log;
    LedMore(w, n, o, log, w.nodes[n].term);
    assert (o.after.term, n) in w'.leaders;
    assert EntriesLed(w', log + more, o.after.term);
    forall m | m in o.out && m.kind == AppendEntries ensures EntriesLed(w', m.entries, m.term) {
      SliceLed(w', o.after.log, o.after.term, m);
    }
  }

  lemma {:induction false} FromLed(w: World, entries: seq<Entry>, next: nat, t: Term)
    requires EntriesLed(w, entries, t)
    ensures EntriesLed(w, From(entries, next), t)
  {
    if entries != [] {
      FromLed(w, entries[..|entries| - 1], next, t);
    }
  }

  lemma AppendLed(w: World, n: NodeId, m: Message)
    requires AllLed(w) && n in w.nodes && m in w.sent && m.kind == AppendEntries
    ensures OutcomeLed(w, n, OnAppendEntries(CaughtUp(w.nodes[n], m), n, m))
  {
    var s := CaughtUp(w.nodes[n], m);
    var o := OnAppendEntries(s, n, m);
    LedMore(w, n, o, s.log, w.nodes[n].term);
    if m.term >= s.term {
      LedMore(w, n, o, m.entries, m.term);
      FromLed(Record(w, n, o), m.entries, m.index + 1, o.after.term);
    }
  }

  lemma FirstAppendsAreSlices(s: Local, n: NodeId, peers: set<NodeId>)
    requires s.log != []
    ensures SendsSlices(Outcome(s, FirstAppends(s, n, peers)))
  {
  }

  lemma NewLeaderLed(c: Config, w: World, n: NodeId, votes: map<NodeId, bool>)
    requires AllLed(w) && n in w.nodes
    ensures var l := Leading(w.nodes[n].(votes := votes), n);
            OutcomeLed(w, n, Outcome(l, FirstAppends(l, n, c.voters)))
  {
    var s := w.nodes[n];
    var l := Leading(s.(votes := votes), n);
    FirstAppendsAreSlices(l, n, c.voters);
    LeaderLed(w, n, Outcome(l, FirstAppends(l, n, c.voters)), [Entry(|s.log| + 1, s.term, "")]);
  }

  lemma WonLed(c: Config, w: World, n: NodeId, m: Message)
    requires AllLed(w) && n in w.nodes && m.kind == VoteResponse
    ensures OutcomeLed(w, n, OnVoteResponse(CaughtUp(w.nodes[n], m), n, c.voters, m))
  {
    var s, o := w.nodes[n], OnVoteResponse(CaughtUp(w.nodes[n], m), n, c.voters, m);
    if o.after.role == Leader && s.role == Candidate {
      NewLeaderLed(c, w, n, o.after.votes);
    } else {
      QuietLed(w, n, o);
    }
  }

  lemma DeliverLed(c: Config, w: World, n: NodeId, m: Message, recent: bool)
    requires AllLed(w) && n in w.nodes && m in w.sent
    ensures OutcomeLed(w, n, OnMessage(w.nodes[n], n, c.voters, m, recent, c.asks))
  {
    if m.kind == AppendEntries {
      AppendLed(w, n, m);
    } else if m.kind == VoteResponse {
      WonLed(c, w, n, m);
    } else {
      QuietLed(w, n, OnMessage(w.nodes[n], n, c.voters, m, recent, c.asks));
    }
  }

  lemma EffectLed(c: Config, w: World, op: Op)
    requires AllLed(w) && Enabled(c, w, op)
    ensures OutcomeLed(w, Actor(op), Effect(c, w, op))
  {
    var n, o := Actor(op), Effect(c, w, op);
    match op
    case Timeout(_) => QuietLed(w, n, o);
    case Deliver(m, recent) => DeliverLed(c, w, n, m, recent);
    case Propose(_, data) => LeaderLed(w, n, o, [Entry(|w.nodes[n].log| + 1, w.nodes[n].term, data)]);
    case Replicate(_, _, _, _) =>
      assert w.nodes[n].log + [] == w.nodes[n].log;
      LeaderLed(w, n, o, []);
    case Beat(_, _) => QuietLed(w, n, o);
    case StepDown(_) => QuietLed(w, n, o);
    case Restart(_) =>
  }

  lemma {:induction false} RunLed(c: Config, ops: seq<Op>)
    ensures AllLed(Run(c, ops))
  {
    if ops != [] {
      var w, op := Run(c, ops[..|ops| - 1]), ops[|ops| - 1];
      RunLed(c, ops[..|ops| - 1]);
      if Enabled(c, w, op) {
        EffectLed(c, w, op);
        RecordKeepsLed(w, Actor(op), Effect(c, w, op));
      }
    }
  }

  lemma RefusedInLedTerm(w: World, n: NodeId, m: Message)
    requires AllLed(w) && n in w.nodes && m.term > 0
    requires m.term >= w.nodes[n].term && !LogOk(w.nodes[n].log, m)
    ensures m.term in LedTerms(w)
  {
    var s := w.nodes[n];
    assert EntriesLed(w, s.log, s.term);
    assert s.log != [] ==> TermLed(w, s.log[|s.log| - 1].term);
  }

  /**
   * In every run of every cluster, the log check of a vote refuses only in terms that already have
   * a leader: a candidate with a stale log wins whatever its voters hold.
   */
  lemma LogCheckIsIdle(c: Config, ops: seq<Op>, n: NodeId, m: Message)
    requires n in Run(c, ops).nodes && m.term > 0
    requires m.term >= Run(c, ops).nodes[n].term && !LogOk(Run(c, ops).nodes[n].log, m)
    ensures m.term in LedTerms(Run(c, ops))
  {
    RunLed(c, ops);
    RefusedInLedTerm(Run(c, ops), n, m);
  }
}
