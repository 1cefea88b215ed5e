/**
 * Applying committed log entries (src/cluster/raft_apply.rs).
 *
 * Command decoding and address parsing are arbitrary functions. The shard map and version of the
 * topology, which depend on map order, are not part of the replicated state.
 */
module RaftApply {
  import opened Basics
  import Collections
  import Topology

  type Bytes = seq<bv8>

  datatype Command =
    | CreateCollection(name: string, dimension: nat)
    | DeleteCollection(name: string)
    | UpdateCollection(name: string)
    | RegisterNode(nodeId: string, address: string)
    | DeregisterNode(nodeId: string)
    | UpdateNodeStatus(nodeId: string, status: nat)
    | ReassignShards
    | UpdateClusterConfig
    | NoOp

  datatype EntryType = Normal | ConfigChange
  datatype LogEntry = LogEntry(index: nat, data: Bytes, entryType: EntryType)

  /** How bytes are read: `bincode` for commands, `SocketAddr::parse` for addresses. */
  datatype Reader = Reader(decode: Bytes -> Option<Command>, parse: string -> Option<string>)

  datatype Failure = BadCommand | BadAddress

  /** The replicated state. */
  datatype State = State(
    collections: map<string, Collections.Config>,
    nodes: map<string, Topology.NodeInfo>,
    lastApplied: nat)

  datatype Outcome = Outcome(state: State, failure: Option<Failure>)

  function Registered(id: string, address: string): Topology.NodeInfo {
    Topology.NodeInfo(id, address, Topology.Active, [], 0, 0, 0)
  }

  function ApplyCommand(reader: Reader, s: State, cmd: Command): Outcome {
    match cmd
    case CreateCollection(name, dimension) =>
      if name in s.collections then Outcome(s, None)
      else Outcome(s.(collections := s.collections[name := Collections.Config(dimension)]), None)
    case DeleteCollection(name) => Outcome(s.(collections := s.collections - {name}), None)
    case RegisterNode(id, address) =>
      (match reader.parse(address)
       case None => Outcome(s, Some(BadAddress))
       case Some(socket) => Outcome(s.(nodes := s.nodes[id := Registered(id, socket)]), None))
    case DeregisterNode(id) => Outcome(s.(nodes := s.nodes - {id}), None)
    case _ => Outcome(s, None)
  }

  function ApplyEntry(reader: Reader, s: State, e: LogEntry): Outcome {
    if e.entryType.ConfigChange? then Outcome(s.(lastApplied := e.index), None)
    else if e.data == [] then Outcome(s, None)
    else
      match reader.decode(e.data)
      case None => Outcome(s, Some(BadCommand))
      case Some(cmd) =>
        var r := ApplyCommand(reader, s, cmd);
        if r.failure.Some? then r else Outcome(r.state.(lastApplied := e.index), None)
  }

  /** Entries in order; the first that fails ends the batch and keeps what was applied before it. */
  function Apply(reader: Reader, s: State, es: seq<LogEntry>): Outcome
    decreases es
  {
    if es == [] then Outcome(s, None)
    else
      var r := ApplyEntry(reader, s, es[0]);
      if r.failure.Some? then r else Apply(reader, r.state, es[1..])
  }

  class RaftStateMachine {
    const reader: Reader
    const collections: Collections.CollectionManager
    const cluster: Topology.ClusterManager
    var lastApplied: nat

    ghost function Contents(): State
      reads this, collections, cluster.topology
    {
      State(collections.collections, cluster.topology.nodes, lastApplied)
    }

    constructor (reader: Reader, collections: Collections.CollectionManager, cluster: Topology.ClusterManager)
      ensures this.reader == reader && this.collections == collections && this.cluster == cluster
      ensures lastApplied == 0
    {
      this.reader, this.collections, this.cluster, lastApplied := reader, collections, cluster, 0;
    }

    method RunCommand(cmd: Command) returns (failure: Option<Failure>)
      modifies collections, cluster.topology, cluster.router.ring
      ensures Outcome(Contents(), failure) == ApplyCommand(reader, old(Contents()), cmd)
    {
      failure := None;
      match cmd
      case CreateCollection(name, dimension) =>
        if name in collections.collections {
          return;
        }
        var r := collections.CreateCollection(name, Collections.Config(dimension));
      case DeleteCollection(name) =>
        var r := collections.DeleteCollection(name);
      case RegisterNode(id, address) =>
        var socket := reader.parse(address);
        if socket == None {
          return Some(BadAddress);
        }
        var order := cluster.AddNode(Registered(id, socket.value));
      case DeregisterNode(id) =>
        var order := cluster.RemoveNode(id);
      case _ =>
    }

    method RunEntry(e: LogEntry) returns (failure: Option<Failure>)
      modifies this, collections, cluster.topology, cluster.router.ring
      ensures Outcome(Contents(), failure) == ApplyEntry(reader, old(Contents()), e)
    {
      if e.entryType.Normal? {
        if e.data == [] {
          return None;
        }
        var cmd := reader.decode(e.data);
        if cmd == None {
          return Some(BadCommand);
        }
        failure := RunCommand(cmd.value);
        if failure.Some? {
          return;
        }
      }
      lastApplied := e.index;
      failure := None;
    }

    method RunBatch(es: seq<LogEntry>) returns (failure: Option<Failure>)
      modifies this, collections, cluster.topology, cluster.router.ring
      ensures Outcome(Contents(), failure) == Apply(reader, old(Contents()), es)
    {
      for i := 0 to |es|
        invariant Apply(reader, old(Contents()), es) == Apply(reader, Contents(), es[i..])
      {
        failure := RunEntry(es[i]);
        if failure.Some? {
          return;
        }
        assert es[i..][1..] == es[i + 1..];
      }
      failure := None;
    }
  }

  // ---------------------------------------------------------------- failures and batching

  /** Whether an entry can be applied, which does not depend on the state. */
  predicate Sound(reader: Reader, e: LogEntry) {
    e.entryType.Normal? && e.data != [] ==>
      match reader.decode(e.data)
      case None => false
      case Some(RegisterNode(_, address)) => reader.parse(address).Some?
      case Some(_) => true
  }

  ghost predicate AllSound(reader: Reader, es: seq<LogEntry>) {
    forall i :: 0 <= i < |es| ==> Sound(reader, es[i])
  }

  /** A log fails exactly when one of its entries is unsound, and stops there. */
  lemma {:induction false} FailsAtFirstUnsound(reader: Reader, s: State, es: seq<LogEntry>)
    ensures Apply(reader, s, es).failure == None <==> AllSound(reader, es)
    ensures forall k :: 0 <= k < |es| && AllSound(reader, es[..k]) && !Sound(reader, es[k]) ==>
              Apply(reader, s, es).state == Apply(reader, s, es[..k]).state
    decreases es
  {
    if es != [] {
      var t := ApplyEntry(reader, s, es[0]).state;
      FailsAtFirstUnsound(reader, t, es[1..]);
      forall k | 0 <= k < |es| && AllSound(reader, es[..k]) && !Sound(reader, es[k])
        ensures Apply(reader, s, es).state == Apply(reader, s, es[..k]).state
      {
        if k > 0 {
          assert es[..k][0] == es[0];
          assert es[..k][1..] == es[1..][..k - 1];
          assert AllSound(reader, es[1..][..k - 1]);
        }
      }
    }
  }

  /** Two batches are one: the second runs on the result of the first unless that failed. */
  lemma {:induction false} ApplyConcat(reader: Reader, s: State, a: seq<LogEntry>, b: seq<LogEntry>)
    ensures Apply(reader, s, a + b)
            == if Apply(reader, s, a).failure.Some? then Apply(reader, s, a) else Apply(reader, Apply(reader, s, a).state, b)
    decreases a
  {
    if a == [] {
      assert a + b == b;
    } else {
      assert (a + b)[1..] == a[1..] + b;
      ApplyConcat(reader, ApplyEntry(reader, s, a[0]).state, a[1..], b);
    }
  }

  function ApplyBatches(reader: Reader, s: State, batches: seq<seq<LogEntry>>): Outcome
    decreases batches
  {
    if batches == [] then Outcome(s, None)
    else
      var r := Apply(reader, s, batches[0]);
      if r.failure.Some? then r else ApplyBatches(reader, r.state, batches[1..])
  }

  function Flatten(batches: seq<seq<LogEntry>>): seq<LogEntry> {
    if batches == [] then [] else batches[0] + Flatten(batches[1..])
  }

  /** However the log is cut into batches, the outcome is that of the whole log. */
  lemma {:induction false} BatchingIsInvisible(reader: Reader, s: State, batches: seq<seq<LogEntry>>)
    ensures ApplyBatches(reader, s, batches) == Apply(reader, s, Flatten(batches))
    decreases batches
  {
    if batches != [] {
      ApplyConcat(reader, s, batches[0], Flatten(batches[1..]));
      BatchingIsInvisible(reader, Apply(reader, s, batches[0]).state, batches[1..]);
    }
  }

  // ---------------------------------------------------------------- replay

  /** The commands a sound log carries out, in order. */
  function CommandOf(reader: Reader, e: LogEntry): Command {
    if e.entryType.ConfigChange? || e.data == [] then NoOp
    else match reader.decode(e.data) case None => NoOp case Some(cmd) => cmd
  }

  predicate Deletes(reader: Reader, es: seq<LogEntry>, name: string) {
    es != [] && (CommandOf(reader, es[0]) == DeleteCollection(name) || Deletes(reader, es[1..], name))
  }

  /** What one entry does to one collection. */
  lemma EntryOnCollection(reader: Reader, s: State, e: LogEntry, name: string)
    requires Sound(reader, e)
    ensures Get(ApplyEntry(reader, s, e).state.collections, name)
            == match CommandOf(reader, e)
               case DeleteCollection(n) => if n == name then None else Get(s.collections, name)
               case CreateCollection(n, d) =>
                 if n == name && name !in s.collections then Some(Collections.Config(d)) else Get(s.collections, name)
               case _ => Get(s.collections, name)
  {
  }

  /** What one entry does to one node record. */
  lemma EntryOnNode(reader: Reader, s: State, e: LogEntry, id: string)
    requires Sound(reader, e)
    ensures Get(ApplyEntry(reader, s, e).state.nodes, id)
            == match CommandOf(reader, e)
               case DeregisterNode(n) => if n == id then None else Get(s.nodes, id)
               case RegisterNode(n, address) =>
                 if n == id then Some(Registered(id, reader.parse(address).value)) else Get(s.nodes, id)
               case _ => Get(s.nodes, id)
  {
  }

  lemma ApplyFirst(reader: Reader, s: State, es: seq<LogEntry>)
    requires es != [] && Sound(reader, es[0])
    ensures Apply(reader, s, es) == Apply(reader, ApplyEntry(reader, s, es[0]).state, es[1..])
  {
  }

  /** A log without a deletion of the name keeps a collection that exists; with one, its outcome ignores the start. */
  lemma {:induction false} CollectionReplay(reader: Reader, s: State, t: State, es: seq<LogEntry>, name: string)
    requires AllSound(reader, es)
    ensures !Deletes(reader, es, name) && name in s.collections ==>
              Get(Apply(reader, s, es).state.collections, name) == Get(s.collections, name)
    ensures Deletes(reader, es, name) || Get(s.collections, name) == Get(t.collections, name) ==>
              Get(Apply(reader, s, es).state.collections, name) == Get(Apply(reader, t, es).state.collections, name)
    decreases es
  {
    if es != [] {
      var s', t' := ApplyEntry(reader, s, es[0]).state, ApplyEntry(reader, t, es[0]).state;
      assert Sound(reader, es[0]);
      EntryOnCollection(reader, s, es[0], name);
      EntryOnCollection(reader, t, es[0], name);
      ApplyFirst(reader, s, es);
      ApplyFirst(reader, t, es);
      CollectionReplay(reader, s', t', es[1..], name);
    }
  }

  predicate NamesNode(cmd: Command, id: string) {
    (cmd.RegisterNode? && cmd.nodeId == id) || cmd == DeregisterNode(id)
  }

  predicate TouchesNode(reader: Reader, es: seq<LogEntry>, id: string) {
    es != [] && (NamesNode(CommandOf(reader, es[0]), id) || TouchesNode(reader, es[1..], id))
  }

  /** A log that names a node fixes its record whatever the start; any other log leaves it. */
  lemma {:induction false} NodeReplay(reader: Reader, s: State, t: State, es: seq<LogEntry>, id: string)
    requires AllSound(reader, es)
    ensures !TouchesNode(reader, es, id) ==> Get(Apply(reader, s, es).state.nodes, id) == Get(s.nodes, id)
    ensures TouchesNode(reader, es, id) || Get(s.nodes, id) == Get(t.nodes, id) ==>
              Get(Apply(reader, s, es).state.nodes, id) == Get(Apply(reader, t, es).state.nodes, id)
    decreases es
  {
    if es != [] {
      var s', t' := ApplyEntry(reader, s, es[0]).state, ApplyEntry(reader, t, es[0]).state;
      assert Sound(reader, es[0]);
      EntryOnNode(reader, s, es[0], id);
      EntryOnNode(reader, t, es[0], id);
      ApplyFirst(reader, s, es);
      ApplyFirst(reader, t, es);
      NodeReplay(reader, s', t', es[1..], id);
    }
  }

  predicate Advances(e: LogEntry) {
    e.entryType.ConfigChange? || e.data != []
  }

  /** The index of the last entry that is not an empty no-op. */
  function LastAdvance(es: seq<LogEntry>, before: nat): nat {
    if es == [] then before
    else if Advances(es[|es| - 1]) then es[|es| - 1].index
    else LastAdvance(es[..|es| - 1], before)
  }

  lemma {:induction false} LastAppliedIsLastAdvance(reader: Reader, s: State, es: seq<LogEntry>)
    requires AllSound(reader, es)
    ensures Apply(reader, s, es).state.lastApplied == LastAdvance(es, s.lastApplied)
  {
    if es != [] {
      var front, last := es[..|es| - 1], es[|es| - 1];
      LastAppliedIsLastAdvance(reader, s, front);
      FailsAtFirstUnsound(reader, s, front);
      ApplyConcat(reader, s, front, [last]);
      assert es == front + [last] && [last][1..] == [];
      assert Sound(reader, last);
    }
  }

  lemma {:induction false} LastAdvanceAgain(es: seq<LogEntry>, before: nat)
    ensures LastAdvance(es, LastAdvance(es, before)) == LastAdvance(es, before)
  {
    if es != [] && !Advances(es[|es| - 1]) {
      LastAdvanceAgain(es[..|es| - 1], before);
    }
  }

  /** Applying a sound log a second time changes nothing. */
  lemma ReplayIsIdempotent(reader: Reader, s: State, es: seq<LogEntry>)
    requires AllSound(reader, es)
    ensures Apply(reader, Apply(reader, s, es).state, es) == Outcome(Apply(reader, s, es).state, None)
  {
    var t := Apply(reader, s, es).state;
    var u := Apply(reader, t, es).state;
    FailsAtFirstUnsound(reader, t, es);
    forall name ensures Get(u.collections, name) == Get(t.collections, name) {
      CollectionReplay(reader, s, t, es, name);
      CollectionReplay(reader, t, t, es, name);
    }
    forall id ensures Get(u.nodes, id) == Get(t.nodes, id) {
      NodeReplay(reader, s, t, es, id);
      NodeReplay(reader, t, t, es, id);
    }
    LastAppliedIsLastAdvance(reader, s, es);
    LastAppliedIsLastAdvance(reader, t, es);
    LastAdvanceAgain(es, s.lastApplied);
    SameLookups(u.collections, t.collections);
    SameLookups(u.nodes, t.nodes);
  }

  lemma SameLookups<V>(a: map<string, V>, b: map<string, V>)
    requires forall k :: Get(a, k) == Get(b, k)
    ensures a == b
  {
    forall k | k in a ensures k in b && a[k] == b[k] {
      assert Get(a, k) == Get(b, k);
    }
    forall k | k in b ensures k in a {
      assert Get(a, k) == Get(b, k);
    }
  }

  lemma UnsoundFails(reader: Reader, s: State, t: State, e: LogEntry)
    requires !Sound(reader, e)
    ensures ApplyEntry(reader, s, e).state == s
    ensures ApplyEntry(reader, s, e).failure.Some? && ApplyEntry(reader, t, e).failure == ApplyEntry(reader, s, e).failure
  {
  }

  /** The first unsound entry of a log that has one. */
  lemma {:induction false} FirstUnsound(reader: Reader, es: seq<LogEntry>) returns (k: nat)
    requires !AllSound(reader, es)
    ensures k < |es| && AllSound(reader, es[..k]) && !Sound(reader, es[k])
  {
    if !Sound(reader, es[0]) {
      k := 0;
    } else {
      assert !AllSound(reader, es[1..]) by {
        var i :| 0 <= i < |es| && !Sound(reader, es[i]);
        assert es[1..][i - 1] == es[i];
      }
      k := FirstUnsound(reader, es[1..]);
      k := k + 1;
      forall i | 0 <= i < k ensures Sound(reader, es[..k][i]) {
        assert i > 0 ==> es[i] == es[1..][..k - 1][i - 1];
      }
    }
  }

  /** A log that fails can be applied again: it gets as far and fails alike. */
  lemma FailsAlike(reader: Reader, s: State, b: seq<LogEntry>)
    requires !AllSound(reader, b)
    ensures Apply(reader, s, b).failure.Some?
    ensures forall c :: Apply(reader, s, b + c) == Apply(reader, s, b)
    ensures Apply(reader, Apply(reader, s, b).state, b) == Apply(reader, s, b)
  {
    var k := FirstUnsound(reader, b);
    var good, rest := b[..k], b[k..];
    var t := Apply(reader, s, good).state;
    assert b == good + rest;
    ReplayIsIdempotent(reader, s, good);
    FailsAtFirstUnsound(reader, s, good);
    ApplyConcat(reader, s, good, rest);
    ApplyConcat(reader, t, good, rest);
    UnsoundFails(reader, t, t, rest[0]);
    forall c ensures Apply(reader, s, b + c) == Apply(reader, s, b) {
      ApplyConcat(reader, s, b, c);
    }
  }

  /** A crash after a + b, then applying again from b on, ends as applying the whole log once. */
  lemma CrashReplay(reader: Reader, s: State, a: seq<LogEntry>, b: seq<LogEntry>, c: seq<LogEntry>)
    requires AllSound(reader, a)
    ensures Apply(reader, Apply(reader, s, a + b).state, b + c) == Apply(reader, s, a + b + c)
  {
    var t := Apply(reader, s, a).state;
    FailsAtFirstUnsound(reader, s, a);
    ApplyConcat(reader, s, a, b);
    ApplyConcat(reader, s, a, b + c);
    assert a + b + c == a + (b + c);
    if AllSound(reader, b) {
      FailsAtFirstUnsound(reader, t, b);
      ReplayIsIdempotent(reader, t, b);
      ApplyConcat(reader, Apply(reader, t, b).state, b, c);
      ApplyConcat(reader, t, b, c);
    } else {
      FailsAlike(reader, t, b);
      FailsAlike(reader, Apply(reader, t, b).state, b);
    }
  }
}
