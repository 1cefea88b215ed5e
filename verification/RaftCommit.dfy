/**
 * Committing and handing over entries (`handle_append_response`, `advance_commit_index` and
 * `ready` in src/cluster/raft/node.rs): the part of a node that a leader uses.
 */
module RaftCommit {
  import opened Basics
  import opened RaftNodes

  /** `matched` holds the match index of every voter but the node itself. */
  datatype Tracking = Tracking(
    leads: bool, term: Term, log: seq<Entry>, matched: map<NodeId, nat>, commit: nat, applied: nat)

  // ---------------------------------------------------------------- the quorum index

  function AtLeast(s: seq<nat>, k: nat): nat {
    if s == [] then 0 else AtLeast(s[..|s| - 1], k) + if s[|s| - 1] >= k then 1 else 0
  }

  ghost predicate Descending(s: seq<nat>) {
    forall i, j :: 0 <= i < j < |s| ==> s[i] >= s[j]
  }

  function Inserted(s: seq<nat>, x: nat): seq<nat> {
    if s == [] || x <= s[|s| - 1] then s + [x]
    else Inserted(s[..|s| - 1], x) + [s[|s| - 1]]
  }

  /** The values sorted, largest first. */
  function Sorted(s: seq<nat>): seq<nat> {
    if s == [] then [] else Inserted(Sorted(s[..|s| - 1]), s[|s| - 1])
  }

  lemma AtLeastSnoc(s: seq<nat>, x: nat, k: nat)
    ensures AtLeast(s + [x], k) == AtLeast(s, k) + if x >= k then 1 else 0
  {
    assert (s + [x])[..|s|] == s;
  }

  lemma {:induction false} InsertedCount(s: seq<nat>, x: nat, k: nat)
    ensures |Inserted(s, x)| == |s| + 1
    ensures AtLeast(Inserted(s, x), k) == AtLeast(s, k) + if x >= k then 1 else 0
  {
    if s == [] || x <= s[|s| - 1] {
      AtLeastSnoc(s, x, k);
    } else {
      InsertedCount(s[..|s| - 1], x, k);
      AtLeastSnoc(Inserted(s[..|s| - 1], x), s[|s| - 1], k);
    }
  }

  predicate AllFrom(s: seq<nat>, low: nat) {
    forall i :: 0 <= i < |s| ==> s[i] >= low
  }

  lemma DescendingSnoc(s: seq<nat>, x: nat)
    requires Descending(s) && AllFrom(s, x)
    ensures Descending(s + [x])
  {
  }

  lemma {:induction false} InsertedDescends(s: seq<nat>, x: nat, low: nat)
    requires Descending(s) && AllFrom(s, low) && low <= x
    ensures Descending(Inserted(s, x)) && AllFrom(Inserted(s, x), low)
  {
    if s == [] || x <= s[|s| - 1] {
      DescendingSnoc(s, x);
    } else {
      InsertedDescends(s[..|s| - 1], x, s[|s| - 1]);
      DescendingSnoc(Inserted(s[..|s| - 1], x), s[|s| - 1]);
    }
  }

  lemma {:induction false} SortedKeeps(s: seq<nat>, k: nat)
    ensures Descending(Sorted(s)) && |Sorted(s)| == |s| && AtLeast(Sorted(s), k) == AtLeast(s, k)
  {
    if s != [] {
      SortedKeeps(s[..|s| - 1], k);
      InsertedCount(Sorted(s[..|s| - 1]), s[|s| - 1], k);
      InsertedDescends(Sorted(s[..|s| - 1]), s[|s| - 1], 0);
    }
  }

  /** In a descending list, place i reaches k exactly when more than i values do. */
  lemma {:induction false} PlaceReaches(s: seq<nat>, i: nat, k: nat)
    requires Descending(s) && i < |s|
    ensures s[i] >= k <==> AtLeast(s, k) > i
    ensures AtLeast(s, k) <= |s|
  {
    var front := s[..|s| - 1];
    if i < |front| {
      PlaceReaches(front, i, k);
    } else if front != [] {
      PlaceReaches(front, |front| - 1, k);
    }
  }

  function Reaching(m: map<NodeId, nat>, keys: set<NodeId>, k: nat): set<NodeId>
    requires keys <= m.Keys
  {
    set p | p in keys && m[p] >= k
  }

  /** How many nodes, the leader among them, are known to reach index k. */
  function Acked(s: Tracking, k: nat): nat {
    |Reaching(s.matched, s.matched.Keys, k)| + if |s.log| >= k then 1 else 0
  }

  /** k is the largest index that q nodes reach. */
  ghost predicate IsQuorumIndex(s: Tracking, q: nat, k: nat) {
    Acked(s, k) >= q && forall j: nat :: j > k ==> Acked(s, j) < q
  }

  lemma OneMoreReaching(m: map<NodeId, nat>, keys: set<NodeId>, p: NodeId, k: nat)
    requires keys <= m.Keys && p in m && p !in keys
    ensures |Reaching(m, keys + {p}, k)| == |Reaching(m, keys, k)| + if m[p] >= k then 1 else 0
  {
    assert Reaching(m, keys + {p}, k) == Reaching(m, keys, k) + if m[p] >= k then {p} else {};
  }

  /** Every value listed once. */
  ghost predicate Lists(values: seq<nat>, m: map<NodeId, nat>, keys: set<NodeId>) {
    && keys <= m.Keys && |values| == |keys|
    && forall k: nat :: AtLeast(values, k) == |Reaching(m, keys, k)|
  }

  lemma ListsOneMore(values: seq<nat>, m: map<NodeId, nat>, keys: set<NodeId>, p: NodeId)
    requires Lists(values, m, keys) && p in m && p !in keys
    ensures Lists(values + [m[p]], m, keys + {p})
  {
    forall k: nat ensures AtLeast(values + [m[p]], k) == |Reaching(m, keys + {p}, k)| {
      AtLeastSnoc(values, m[p], k);
      OneMoreReaching(m, keys, p, k);
    }
  }

  lemma SortedReaches(s: seq<nat>, i: nat, k: nat)
    requires i < |s|
    ensures |Sorted(s)| == |s| && (Sorted(s)[i] >= k <==> AtLeast(s, k) > i)
  {
    SortedKeeps(s, k);
    PlaceReaches(Sorted(s), i, k);
  }

  lemma ListedAcked(s: Tracking, values: seq<nat>, k: nat)
    requires Lists(values, s.matched, s.matched.Keys)
    ensures AtLeast(values + [|s.log|], k) == Acked(s, k)
  {
    AtLeastSnoc(values, |s.log|, k);
  }

  lemma SortedIsQuorumIndex(s: Tracking, values: seq<nat>, q: nat)
    requires Lists(values, s.matched, s.matched.Keys) && 0 < q <= |values| + 1
    ensures |Sorted(values + [|s.log|])| == |values| + 1
    ensures IsQuorumIndex(s, q, Sorted(values + [|s.log|])[q - 1])
  {
    var all := values + [|s.log|];
    ListedAcked(s, values, 0);
    SortedReaches(all, q - 1, 0);
    var top := Sorted(all)[q - 1];
    ListedAcked(s, values, top);
    SortedReaches(all, q - 1, top);
    forall j: nat | j > top ensures Acked(s, j) < q {
      ListedAcked(s, values, j);
      SortedReaches(all, q - 1, j);
    }
  }

  lemma {:induction false} Listing(m: map<NodeId, nat>, keys: set<NodeId>) returns (values: seq<nat>)
    requires keys <= m.Keys
    ensures Lists(values, m, keys)
  {
    values := [];
    if keys != {} {
      var p := Pick(keys);
      var rest := Listing(m, keys - {p});
      ListsOneMore(rest, m, keys - {p}, p);
      assert keys - {p} + {p} == keys;
      values := rest + [m[p]];
    }
  }

  lemma QuorumIndexExists(s: Tracking, q: nat) returns (k: nat)
    requires 0 < q <= |s.matched.Keys| + 1
    ensures IsQuorumIndex(s, q, k)
  {
    var values := Listing(s.matched, s.matched.Keys);
    SortedIsQuorumIndex(s, values, q);
    k := Sorted(values + [|s.log|])[q - 1];
  }

  // ---------------------------------------------------------------- the steps

  function Responded(s: Tracking, from: NodeId, term: Term, index: nat, reject: bool): Tracking {
    if !s.leads || term != s.term || from !in s.matched || reject || index <= s.matched[from] then s
    else s.(matched := s.matched[from := index])
  }

  /** Only an index of the leader's own term is committed. */
  function Advanced(s: Tracking, k: nat): Tracking {
    if s.leads && k > s.commit && LogTerm(s.log, k) == s.term then s.(commit := k) else s
  }

  /** The entries `ready` hands over: all after the last applied, however far the commit index is. */
  function Handover(s: Tracking): seq<Entry> {
    if s.leads && s.commit > s.applied && s.applied < |s.log| then s.log[s.applied..] else []
  }

  function AfterReady(s: Tracking): Tracking {
    if s.leads && s.commit > s.applied then s.(applied := s.commit) else s
  }

  class Committer {
    const voters: nat
    var leads: bool
    var term: Term
    var log: seq<Entry>
    var matched: map<NodeId, nat>
    var commit: nat
    var applied: nat

    ghost function Contents(): Tracking
      reads this
    {
      Tracking(leads, term, log, matched, commit, applied)
    }

    constructor (voters: nat, s: Tracking)
      ensures this.voters == voters && Contents() == s
    {
      this.voters := voters;
      leads, term, log, matched, commit, applied := s.leads, s.term, s.log, s.matched, s.commit, s.applied;
    }

    /** The match indexes in whatever order the map lists them, and the leader's own. */
    method QuorumIndex() returns (k: nat)
      requires voters / 2 + 1 <= |matched| + 1
      ensures IsQuorumIndex(Contents(), voters / 2 + 1, k)
    {
      var values: seq<nat> := [];
      var rest := matched.Keys;
      ghost var done: set<NodeId> := {};
      while rest != {}
        invariant done + rest == matched.Keys && done !! rest
        invariant Lists(values, matched, done)
        decreases |rest|
      {
        var p :| p in rest;
        ListsOneMore(values, matched, done, p);
        values := values + [matched[p]];
        rest, done := rest - {p}, done + {p};
      }
      assert done == matched.Keys;
      SortedIsQuorumIndex(Contents(), values, voters / 2 + 1);
      k := Sorted(values + [|log|])[voters / 2];
    }

    method AdvanceCommitIndex() returns (ghost k: nat)
      requires voters / 2 + 1 <= |matched| + 1
      modifies this`commit
      ensures IsQuorumIndex(old(Contents()), voters / 2 + 1, k)
      ensures Contents() == Advanced(old(Contents()), k)
    {
      var quorumIndex := QuorumIndex();
      k := quorumIndex;
      if !leads {
        return;
      }
      if quorumIndex > commit && LogTerm(log, quorumIndex) == term {
        commit := quorumIndex;
      }
    }

    method HandleAppendResponse(from: NodeId, t: Term, index: nat, reject: bool) returns (ghost k: nat)
      requires voters / 2 + 1 <= |matched| + 1
      modifies this`matched, this`commit
      ensures var s := Responded(old(Contents()), from, t, index, reject);
              && (leads && t == term && from in old(matched) && !reject ==>
                    IsQuorumIndex(s, voters / 2 + 1, k) && Contents() == Advanced(s, k))
              && (!(leads && t == term && from in old(matched) && !reject) ==> Contents() == old(Contents()))
    {
      k := 0;
      if !leads || t != term || from !in matched {
        return;
      }
      if !reject {
        if index > matched[from] {
          matched := matched[from := index];
          assert matched.Keys == old(matched).Keys;
        }
        assert |matched.Keys| == |matched| == |old(matched)|;
        k := AdvanceCommitIndex();
      }
    }

    /** The committed part of `ready`; a node that does not lead hands over nothing. */
    method Ready() returns (entries: seq<Entry>)
      modifies this`applied
      ensures entries == Handover(old(Contents())) && Contents() == AfterReady(old(Contents()))
    {
      entries := [];
      if !leads {
        return;
      }
      if commit > applied {
        var start := applied;
        if start < |log| {
          entries := log[start..];
        }
        applied := commit;
      }
    }
  }

  // ---------------------------------------------------------------- what is handed over

  lemma AckedFalls(s: Tracking, j: nat, k: nat)
    requires j <= k
    ensures Acked(s, k) <= Acked(s, j)
  {
    SubsetSize(Reaching(s.matched, s.matched.Keys, k), Reaching(s.matched, s.matched.Keys, j));
  }

  /** What `ready` hands over is acknowledged by a majority throughout exactly when the last entry of the log is. */
  lemma HandoverAcknowledged(s: Tracking, q: nat, k: nat)
    requires Handover(s) != [] && IsQuorumIndex(s, q, k)
    ensures (forall j: nat :: s.applied < j <= |s.log| ==> Acked(s, j) >= q) <==> |s.log| <= k
  {
    forall j: nat | s.applied < j <= |s.log| && j <= k ensures Acked(s, j) >= q {
      AckedFalls(s, j, k);
    }
    assert |s.log| > k ==> Acked(s, |s.log|) < q;
  }

  datatype Op = Propose(data: string) | Response(from: NodeId, index: nat, quorumIndex: nat) | Ready

  /** One step of a leader; a response carries the quorum index it leads to. */
  function Step(s: Tracking, op: Op): Tracking {
    match op
    case Propose(data) => s.(log := s.log + [Entry(|s.log| + 1, s.term, data)])
    case Response(from, index, k) => Advanced(Responded(s, from, s.term, index, false), k)
    case Ready => AfterReady(s)
  }

  function Exec(s: Tracking, ops: seq<Op>): Tracking {
    if ops == [] then s else Step(Exec(s, ops[..|ops| - 1]), ops[|ops| - 1])
  }

  /** Everything handed over, in order. */
  function Handed(s: Tracking, ops: seq<Op>): seq<Entry> {
    if ops == [] then []
    else
      Handed(s, ops[..|ops| - 1])
      + if ops[|ops| - 1].Ready? then Handover(Exec(s, ops[..|ops| - 1])) else []
  }

  /** Every `ready` with something new finds all of the log committed. */
  predicate AllCommitted(s: Tracking, ops: seq<Op>) {
    ops == []
    || (&& AllCommitted(s, ops[..|ops| - 1])
        && var now := Exec(s, ops[..|ops| - 1]);
           (ops[|ops| - 1].Ready? && now.commit > now.applied ==> now.commit == |now.log|))
  }

  /** Each entry after index a up to the last applied was handed over once, in order. */
  predicate Once(a: nat, handed: seq<Entry>, now: Tracking) {
    && a <= now.applied && |handed| == now.applied - a
    && (now.applied > a ==> now.applied <= |now.log| && handed == now.log[a..now.applied])
  }

  /** After every step of the run. */
  predicate AlwaysOnce(s: Tracking, ops: seq<Op>) {
    Once(s.applied, Handed(s, ops), Exec(s, ops)) && (ops == [] || AlwaysOnce(s, ops[..|ops| - 1]))
  }

  lemma ReadyOnce(a: nat, handed: seq<Entry>, now: Tracking)
    requires now.leads && Once(a, handed, now)
    ensures Once(a, handed + Handover(now), AfterReady(now)) <==> (now.commit > now.applied ==> now.commit == |now.log|)
  {
    if now.commit > now.applied && now.commit == |now.log| {
      assert now.log[a..now.commit] == now.log[a..now.applied] + now.log[now.applied..];
      assert now.applied == a ==> handed == [] && now.log[a..a] == [];
    } else {
      assert handed + [] == handed;
    }
  }

  lemma QuietOnce(a: nat, handed: seq<Entry>, now: Tracking, op: Op)
    requires Once(a, handed, now) && !op.Ready?
    ensures Once(a, handed, Step(now, op))
  {
    if op.Propose? && now.applied > a {
      assert Step(now, op).log[a..now.applied] == now.log[a..now.applied];
    }
  }

  lemma {:induction false} StillLeads(s: Tracking, ops: seq<Op>)
    ensures Exec(s, ops).leads == s.leads
  {
    if ops != [] {
      StillLeads(s, ops[..|ops| - 1]);
    }
  }

  /** A leader hands each entry over once and in order, all along, exactly when nothing is uncommitted at each `ready`. */
  lemma {:induction false} HandedOnceExactly(s: Tracking, ops: seq<Op>)
    requires s.leads
    ensures AlwaysOnce(s, ops) <==> AllCommitted(s, ops)
  {
    if ops != [] {
      var front, op := ops[..|ops| - 1], ops[|ops| - 1];
      HandedOnceExactly(s, front);
      StillLeads(s, front);
      if AlwaysOnce(s, front) {
        if op.Ready? {
          ReadyOnce(s.applied, Handed(s, front), Exec(s, front));
        } else {
          QuietOnce(s.applied, Handed(s, front), Exec(s, front), op);
          assert Handed(s, front) + [] == Handed(s, front);
        }
      }
    }
  }
}
