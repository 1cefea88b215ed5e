/**
 * What a leave moves when positions may collide (`remove_node` in src/cluster/hash_ring.rs): it
 * deletes positions of the node even where another node has taken them over.
 */
module RingLeaves {
  import opened Basics
  import opened HashRing

  // ---------------------------------------------------------------- what a leave moves, collisions or not

  function AfterLeave(hash: Hash, v: nat, ring: Ring, node: NodeId): Ring {
    ring - Points(hash, node, v)
  }

  /** The positions a leave takes from other nodes. */
  predicate Taken(hash: Hash, v: nat, ring: Ring, node: NodeId, p: Position) {
    p in ring && p in Points(hash, node, v) && ring[p] != node
  }

  /** Each position taken from another node falls to that same node. */
  ghost predicate TakenFallBack(hash: Hash, v: nat, ring: Ring, node: NodeId) {
    forall p :: Taken(hash, v, ring, node, p) ==> OwnerOf(AfterLeave(hash, v, ring, node), p) == Some(ring[p])
  }

  /** No key of another node is moved. */
  ghost predicate MovesOnlyItsKeys(hash: Hash, v: nat, ring: Ring, node: NodeId) {
    forall h :: OwnerOf(ring, h) != Some(node) ==> OwnerOf(AfterLeave(hash, v, ring, node), h) == OwnerOf(ring, h)
  }

  lemma SuccessorIsUnique(ring: Ring, h: Position, p: Position, q: Position)
    requires IsSuccessor(ring, h, p) && IsSuccessor(ring, h, q)
    ensures p == q
  {
  }

  /** The owner of a key is the owner at its successor. */
  lemma OwnerAtSuccessor(ring: Ring, h: Position, p: Position)
    requires IsSuccessor(ring, h, p)
    ensures OwnerOf(ring, h) == Some(ring[p])
  {
    var q := OwnerIsSuccessor(ring, h);
    SuccessorIsUnique(ring, h, p, q);
  }

  lemma OwnerAtPosition(ring: Ring, p: Position)
    requires p in ring
    ensures OwnerOf(ring, p) == Some(ring[p])
  {
    OwnerAtSuccessor(ring, p, p);
  }

  lemma NoOwner(ring: Ring, h: Position)
    requires ring == map[]
    ensures OwnerOf(ring, h) == None
  {
    assert Values(ring) == [];
  }

  /** A successor that stays is the successor still. */
  lemma SuccessorStays(ring: Ring, kept: Ring, h: Position, p: Position)
    requires IsSuccessor(ring, h, p) && p in kept && kept.Keys <= ring.Keys
    ensures IsSuccessor(kept, h, p)
  {
  }

  /** A key whose successor is taken is served as that position is. */
  lemma SuccessorTaken(ring: Ring, kept: Ring, h: Position, p: Position)
    requires IsSuccessor(ring, h, p) && p !in kept && kept.Keys <= ring.Keys
    ensures OwnerOf(kept, h) == OwnerOf(kept, p)
  {
    if kept == map[] {
      NoOwner(kept, h);
      NoOwner(kept, p);
    } else {
      var q := OwnerIsSuccessor(kept, p);
      assert IsSuccessor(kept, h, q);
      OwnerAtSuccessor(kept, h, q);
    }
  }

  /** A leave moves no key of another node exactly when each position it takes from another falls back to that one. */
  lemma LeaveMovesKeys(hash: Hash, v: nat, ring: Ring, node: NodeId)
    ensures MovesOnlyItsKeys(hash, v, ring, node) <==> TakenFallBack(hash, v, ring, node)
  {
    var kept := AfterLeave(hash, v, ring, node);
    if MovesOnlyItsKeys(hash, v, ring, node) {
      forall p | Taken(hash, v, ring, node, p) ensures OwnerOf(kept, p) == Some(ring[p]) {
        OwnerAtPosition(ring, p);
      }
    }
    if TakenFallBack(hash, v, ring, node) {
      forall h | OwnerOf(ring, h) != Some(node) ensures OwnerOf(kept, h) == OwnerOf(ring, h) {
        OthersKeyStays(hash, v, ring, node, h);
      }
    }
  }

  lemma OthersKeyStays(hash: Hash, v: nat, ring: Ring, node: NodeId, h: Position)
    requires TakenFallBack(hash, v, ring, node) && OwnerOf(ring, h) != Some(node)
    ensures OwnerOf(AfterLeave(hash, v, ring, node), h) == OwnerOf(ring, h)
  {
    var kept := AfterLeave(hash, v, ring, node);
    if ring == map[] {
      NoOwner(ring, h);
      NoOwner(kept, h);
    } else {
      var p := OwnerIsSuccessor(ring, h);
      if p in kept {
        SuccessorStays(ring, kept, h, p);
        OwnerAtSuccessor(kept, h, p);
      } else {
        assert Taken(hash, v, ring, node, p);
        SuccessorTaken(ring, kept, h, p);
      }
    }
  }

  // ---------------------------------------------------------------- the same for whole replica lists

  /** One position of a walk: its owner, and whether it stays. */
  datatype Mark = Mark(owner: NodeId, stays: bool)

  function Owners(u: seq<Mark>): seq<NodeId> {
    if u == [] then [] else Owners(u[..|u| - 1]) + [u[|u| - 1].owner]
  }

  function Staying(u: seq<Mark>): seq<NodeId> {
    if u == [] then [] else Staying(u[..|u| - 1]) + if u[|u| - 1].stays then [u[|u| - 1].owner] else []
  }

  /** The other node whose position was taken since the last that stays. */
  function Pending(u: seq<Mark>, node: NodeId): Option<NodeId> {
    if u == [] || u[|u| - 1].stays then None
    else if u[|u| - 1].owner == node then Pending(u[..|u| - 1], node)
    else Some(u[|u| - 1].owner)
  }

  /** The positions taken in a row belong to one other node, which also has the next that stays. */
  predicate Smooth(u: seq<Mark>, node: NodeId) {
    u == []
    || (&& Smooth(u[..|u| - 1], node)
        && var last := u[|u| - 1];
           && (last.stays ==> last.owner != node)
           && (last.owner != node ==> Pending(u[..|u| - 1], node) in {None, Some(last.owner)}))
  }

  /** The one pending node, when the positions that stay have not shown it. */
  function Owed(u: seq<Mark>, node: NodeId): seq<NodeId> {
    match Pending(u, node)
    case None => []
    case Some(m) => if m in Staying(u) then [] else [m]
  }

  lemma {:induction false} PendingIsOther(u: seq<Mark>, node: NodeId)
    ensures Pending(u, node) != Some(node)
  {
    if u != [] {
      PendingIsOther(u[..|u| - 1], node);
    }
  }

  /** A smooth walk meets the others in the same order once the taken positions are gone. */
  lemma {:induction false} SmoothOrder(u: seq<Mark>, node: NodeId)
    requires Smooth(u, node)
    ensures Without(Distinct(Owners(u)), node) == Distinct(Staying(u)) + Owed(u, node)
  {
    if u != [] {
      var front, last := u[..|u| - 1], u[|u| - 1];
      SmoothOrder(front, node);
      SmoothStep(front, last, node, Distinct(Owners(front)), Distinct(Staying(front)));
      assert front + [last] == u;
    }
  }

  lemma DistinctSnoc(s: seq<NodeId>, x: NodeId)
    ensures Distinct(s + [x]) == if x in s then Distinct(s) else Distinct(s) + [x]
  {
    assert (s + [x])[..|s|] == s;
    DistinctElements(s);
    assert x in Distinct(s) <==> x in Elements(Distinct(s));
  }

  lemma WithoutSnoc(s: seq<NodeId>, x: NodeId, node: NodeId)
    ensures Without(s + [x], node) == if x == node then Without(s, node) else Without(s, node) + [x]
  {
    assert (s + [x])[..|s|] == s;
  }

  lemma OwnersSnoc(u: seq<Mark>, last: Mark)
    ensures Owners(u + [last]) == Owners(u) + [last.owner]
    ensures Staying(u + [last]) == Staying(u) + if last.stays then [last.owner] else []
  {
    assert (u + [last])[..|u|] == u;
  }

  /** An owner other than the node has been met exactly when it stays somewhere or is owed. */
  lemma MetOrOwed(u: seq<Mark>, node: NodeId, x: NodeId)
    requires Without(Distinct(Owners(u)), node) == Distinct(Staying(u)) + Owed(u, node) && x != node
    ensures x in Owners(u) <==> x in Staying(u) || x in Owed(u, node)
  {
    DistinctElements(Owners(u));
    DistinctElements(Staying(u));
    WithoutElements(Distinct(Owners(u)), node);
    ElementsConcat(Distinct(Staying(u)), Owed(u, node));
    assert x in Owners(u) <==> x in Elements(Owners(u));
    assert x in Staying(u) <==> x in Elements(Staying(u));
    assert x in Owed(u, node) <==> x in Elements(Owed(u, node));
  }

  /** What is owed before and after one more position of another node. */
  lemma OwedSnoc(front: seq<Mark>, last: Mark, node: NodeId)
    requires Smooth(front + [last], node)
    ensures last.owner == node ==> !last.stays && Owed(front + [last], node) == Owed(front, node)
    ensures last.owner != node ==> Owed(front, node) == [] || (Owed(front, node) == [last.owner] && last.owner !in Staying(front))
    ensures last.owner != node ==>
              Owed(front + [last], node) == if last.stays || last.owner in Staying(front) then [] else [last.owner]
  {
    assert (front + [last])[..|front|] == front;
    OwnersSnoc(front, last);
    assert Staying(front) + [] == Staying(front);
  }

  lemma SmoothStep(front: seq<Mark>, last: Mark, node: NodeId, owners: seq<NodeId>, staying: seq<NodeId>)
    requires Smooth(front + [last], node)
    requires owners == Distinct(Owners(front)) && staying == Distinct(Staying(front))
    requires Without(owners, node) == staying + Owed(front, node)
    ensures Without(Distinct(Owners(front + [last])), node) == Distinct(Staying(front + [last])) + Owed(front + [last], node)
  {
    var x := last.owner;
    OwnersSnoc(front, last);
    OwedSnoc(front, last, node);
    DistinctSnoc(Owners(front), x);
    WithoutSnoc(owners, x, node);
    if x == node {
      assert Staying(front) + [] == Staying(front);
    } else {
      MetOrOwed(front, node, x);
      OtherStep(front, last, node, owners, staying);
    }
  }

  lemma OtherStep(front: seq<Mark>, last: Mark, node: NodeId, owners: seq<NodeId>, staying: seq<NodeId>)
    requires last.owner != node && staying == Distinct(Staying(front))
    requires Without(owners, node) == staying + Owed(front, node)
    requires Owed(front, node) == [] || (Owed(front, node) == [last.owner] && last.owner !in Staying(front))
    ensures var met := last.owner in Staying(front) || last.owner in Owed(front, node);
            Without(owners, node) + (if met then [] else [last.owner])
            == Distinct(Staying(front) + if last.stays then [last.owner] else [])
               + if last.stays || last.owner in Staying(front) then [] else [last.owner]
  {
    DistinctSnoc(Staying(front), last.owner);
    assert Staying(front) + [] == Staying(front);
  }

  // ---------------------------------------------------------------- walks of a ring as marks

  function Marks(ring: Ring, kept: Ring, keys: set<Position>): seq<Mark>
    requires keys <= ring.Keys
  {
    if keys == {} then []
    else Marks(ring, kept, keys - {Max(keys)}) + [Mark(ring[Max(keys)], Max(keys) in kept)]
  }

  lemma {:induction false} MarksOwners(ring: Ring, kept: Ring, keys: set<Position>)
    requires keys <= ring.Keys
    ensures Owners(Marks(ring, kept, keys)) == InOrder(ring, keys)
  {
    if keys != {} {
      var m := Max(keys);
      MarksOwners(ring, kept, keys - {m});
      OwnersSnoc(Marks(ring, kept, keys - {m}), Mark(ring[m], m in kept));
    }
  }

  lemma {:induction false} MarksStaying(ring: Ring, kept: Ring, keys: set<Position>)
    requires keys <= ring.Keys && kept.Keys <= ring.Keys
    requires forall p :: p in kept ==> kept[p] == ring[p]
    ensures Staying(Marks(ring, kept, keys)) == InOrder(kept, keys * kept.Keys)
  {
    if keys == {} {
      assert keys * kept.Keys == {};
    } else {
      var m := Max(keys);
      var front := keys - {m};
      MarksStaying(ring, kept, front);
      OwnersSnoc(Marks(ring, kept, front), Mark(ring[m], m in kept));
      if m in kept {
        assert IsMax(m, keys * kept.Keys);
        assert keys * kept.Keys - {m} == front * kept.Keys;
      } else {
        assert keys * kept.Keys == front * kept.Keys;
        assert Staying(Marks(ring, kept, front)) + [] == Staying(Marks(ring, kept, front));
      }
    }
  }

  lemma {:induction false} OwnersConcat(u: seq<Mark>, w: seq<Mark>)
    ensures Owners(u + w) == Owners(u) + Owners(w)
  {
    if w == [] {
      assert u + w == u;
    } else {
      OwnersConcat(u, w[..|w| - 1]);
      assert (u + w)[..|u + w| - 1] == u + w[..|w| - 1];
    }
  }

  lemma {:induction false} StayingConcat(u: seq<Mark>, w: seq<Mark>)
    ensures Staying(u + w) == Staying(u) + Staying(w)
  {
    if w == [] {
      assert u + w == u;
    } else {
      StayingConcat(u, w[..|w| - 1]);
      assert (u + w)[..|u + w| - 1] == u + w[..|w| - 1];
    }
  }

  /** The node owns nothing but its own points, as after every history. */
  ghost predicate OwnsNoOther(hash: Hash, v: nat, ring: Ring, node: NodeId) {
    forall p :: p in ring && ring[p] == node ==> p in Points(hash, node, v)
  }

  lemma {:induction false} RunOwnsNoOther(hash: Hash, v: nat, ops: seq<Op>, node: NodeId)
    ensures OwnsNoOther(hash, v, Run(hash, v, ops).ring, node)
  {
    if ops != [] {
      RunOwnsNoOther(hash, v, ops[..|ops| - 1], node);
    }
  }

  /** A pending node is the one that keys at this position now go to. */
  predicate Answered(kept: Ring, u: seq<Mark>, node: NodeId, at: Position) {
    Pending(u, node).Some? ==> OwnerOf(kept, at) == Pending(u, node)
  }

  lemma SameOwner(ring: Ring, a: Position, b: Position)
    requires a <= b && forall p :: p in ring ==> p < a || b <= p
    ensures OwnerOf(ring, a) == OwnerOf(ring, b)
  {
    assert KeysFrom(ring, a) == KeysFrom(ring, b);
  }

  function Between(ring: Ring, lo: Position, hi: Position): set<Position> {
    set p | p in ring && lo <= p < hi
  }

  lemma SmoothOne(hash: Hash, v: nat, ring: Ring, node: NodeId, u: seq<Mark>, p: Position)
    requires TakenFallBack(hash, v, ring, node) && OwnsNoOther(hash, v, ring, node) && p in ring
    requires Smooth(u, node) && Answered(AfterLeave(hash, v, ring, node), u, node, p)
    ensures var kept := AfterLeave(hash, v, ring, node);
            var w := u + [Mark(ring[p], p in kept)];
            Smooth(w, node) && Answered(kept, w, node, p) && (p in kept ==> Pending(w, node) == None)
  {
    var kept := AfterLeave(hash, v, ring, node);
    var w := u + [Mark(ring[p], p in kept)];
    assert w[..|w| - 1] == u;
    if p in kept {
      OwnerAtPosition(kept, p);
    } else if ring[p] != node {
      assert Taken(hash, v, ring, node, p);
    }
  }

  lemma MarksSnoc(ring: Ring, kept: Ring, u: seq<Mark>, keys: set<Position>)
    requires keys != {} && keys <= ring.Keys
    ensures var top := Max(keys);
            u + Marks(ring, kept, keys) == u + Marks(ring, kept, keys - {top}) + [Mark(ring[top], top in kept)]
  {
  }

  /** Between the last position seen and the next nothing changes. */
  lemma AnsweredOn(kept: Ring, w: seq<Mark>, node: NodeId, at: Position, hi: Position)
    requires Answered(kept, w, node, at) && at <= hi
    requires Pending(w, node).Some? ==> forall p :: p in kept ==> p < at || hi <= p
    ensures Answered(kept, w, node, hi)
  {
    if Pending(w, node).Some? {
      SameOwner(kept, at, hi);
    }
  }

  /** The last of the positions in between adds one mark. */
  lemma SmoothTop(hash: Hash, v: nat, ring: Ring, node: NodeId, u: seq<Mark>, lo: Position, hi: Position)
    requires TakenFallBack(hash, v, ring, node) && OwnsNoOther(hash, v, ring, node) && Between(ring, lo, hi) != {}
    requires var kept, keys := AfterLeave(hash, v, ring, node), Between(ring, lo, hi);
             var w := u + Marks(ring, kept, keys - {Max(keys)});
             Smooth(w, node) && Answered(kept, w, node, Max(keys))
    ensures var kept := AfterLeave(hash, v, ring, node);
            var w := u + Marks(ring, kept, Between(ring, lo, hi));
            Smooth(w, node) && Answered(kept, w, node, hi)
  {
    var kept, keys := AfterLeave(hash, v, ring, node), Between(ring, lo, hi);
    var top := Max(keys);
    var w := u + Marks(ring, kept, keys - {top});
    SmoothOne(hash, v, ring, node, w, top);
    MarksSnoc(ring, kept, u, keys);
    forall p | p in kept && top < p ensures hi <= p {
      assert p !in keys;
    }
    AnsweredOn(kept, w + [Mark(ring[top], top in kept)], node, top, hi);
  }

  lemma {:induction false} SmoothMarks(hash: Hash, v: nat, ring: Ring, node: NodeId, u: seq<Mark>, lo: Position, hi: Position)
    requires TakenFallBack(hash, v, ring, node) && OwnsNoOther(hash, v, ring, node) && lo <= hi
    requires Smooth(u, node) && Answered(AfterLeave(hash, v, ring, node), u, node, lo)
    ensures var kept := AfterLeave(hash, v, ring, node);
            var w := u + Marks(ring, kept, Between(ring, lo, hi));
            Smooth(w, node) && Answered(kept, w, node, hi)
    decreases |Between(ring, lo, hi)|
  {
    var kept, keys := AfterLeave(hash, v, ring, node), Between(ring, lo, hi);
    if keys == {} {
      assert u + Marks(ring, kept, keys) == u;
      forall p | p in kept && lo <= p ensures hi <= p {
        assert p !in keys;
      }
      AnsweredOn(kept, u, node, lo, hi);
    } else {
      assert Between(ring, lo, Max(keys)) == keys - {Max(keys)};
      SmoothMarks(hash, v, ring, node, u, lo, Max(keys));
      SmoothTop(hash, v, ring, node, u, lo, hi);
    }
  }

  /** Past the last position keys go to the first. */
  lemma OwnerWraps(ring: Ring, first: Position, last: Position)
    requires forall p :: p in ring ==> first <= p < last
    ensures OwnerOf(ring, first) == OwnerOf(ring, last)
  {
    assert KeysFrom(ring, first) == ring.Keys && KeysFrom(ring, last) == {};
  }

  lemma Bounds(ring: Ring, h: Position) returns (first: Position, last: Position)
    ensures first <= h < last && forall p :: p in ring ==> first <= p < last
  {
    var all := ring.Keys + {h};
    var low := map p | p in all :: "";
    first := InOrderStartsLowest(low, all);
    last := Max(all) + 1;
    assert h in all && forall p :: p in ring ==> p in all;
  }

  function Turn(ring: Ring, kept: Ring, h: Position): seq<Mark> {
    Marks(ring, kept, KeysFrom(ring, h)) + Marks(ring, kept, KeysBefore(ring, h))
  }

  lemma TurnReads(hash: Hash, v: nat, ring: Ring, node: NodeId, h: Position)
    ensures var kept := AfterLeave(hash, v, ring, node);
            && Owners(Turn(ring, kept, h)) == Clockwise(ring, h)
            && Staying(Turn(ring, kept, h)) == Clockwise(kept, h)
  {
    var kept := AfterLeave(hash, v, ring, node);
    var from, before := KeysFrom(ring, h), KeysBefore(ring, h);
    OwnersConcat(Marks(ring, kept, from), Marks(ring, kept, before));
    StayingConcat(Marks(ring, kept, from), Marks(ring, kept, before));
    MarksOwners(ring, kept, from);
    MarksOwners(ring, kept, before);
    MarksStaying(ring, kept, from);
    MarksStaying(ring, kept, before);
    assert from * kept.Keys == KeysFrom(kept, h) && before * kept.Keys == KeysBefore(kept, h);
  }

  lemma TurnSmooth(hash: Hash, v: nat, ring: Ring, node: NodeId, h: Position)
    requires TakenFallBack(hash, v, ring, node) && OwnsNoOther(hash, v, ring, node)
    ensures var kept := AfterLeave(hash, v, ring, node);
            Smooth(Turn(ring, kept, h), node) && Answered(kept, Turn(ring, kept, h), node, h)
  {
    var kept := AfterLeave(hash, v, ring, node);
    var first, last := Bounds(ring, h);
    assert Between(ring, h, last) == KeysFrom(ring, h) && Between(ring, first, h) == KeysBefore(ring, h);
    SmoothMarks(hash, v, ring, node, [], h, last);
    var u := Marks(ring, kept, KeysFrom(ring, h));
    assert [] + u == u;
    OwnerWraps(kept, first, last);
    SmoothMarks(hash, v, ring, node, u, first, h);
  }

  /** Whoever serves a key is on its walk. */
  lemma OwnerOnWalk(ring: Ring, h: Position)
    ensures OwnerOf(ring, h).Some? ==> OwnerOf(ring, h).value in Clockwise(ring, h)
  {
    OneOwner(ring, h);
    FirstOwnersShape(ring, h, 1, 1);
    ClockwiseVisitsAll(ring, h);
    if OwnerOf(ring, h).Some? {
      assert OwnerOf(ring, h).value in Elements(FirstOwners(ring, h, 1));
      assert OwnerOf(ring, h).value in Elements(Clockwise(ring, h));
    }
  }

  /** Then the walk meets the others in the same order as before. */
  lemma LeaveKeepsOrder(hash: Hash, v: nat, ring: Ring, node: NodeId, h: Position)
    requires TakenFallBack(hash, v, ring, node) && OwnsNoOther(hash, v, ring, node)
    ensures Distinct(Clockwise(AfterLeave(hash, v, ring, node), h)) == Without(Distinct(Clockwise(ring, h)), node)
  {
    var kept := AfterLeave(hash, v, ring, node);
    TurnReads(hash, v, ring, node, h);
    TurnSmooth(hash, v, ring, node, h);
    SmoothOrder(Turn(ring, kept, h), node);
    OwnerOnWalk(kept, h);
    assert Owed(Turn(ring, kept, h), node) == [];
    assert Distinct(Clockwise(kept, h)) + [] == Distinct(Clockwise(kept, h));
  }

  /** This replica list after the leave is the one-longer old list with the node dropped. */
  predicate ShiftsList(hash: Hash, v: nat, ring: Ring, node: NodeId, h: Position, count: nat) {
    FirstOwners(AfterLeave(hash, v, ring, node), h, count) == Take(Without(FirstOwners(ring, h, count + 1), node), count)
  }

  ghost predicate ShiftsAllLists(hash: Hash, v: nat, ring: Ring, node: NodeId) {
    forall h, count: nat :: ShiftsList(hash, v, ring, node, h, count)
  }

  lemma ListsShowOwners(hash: Hash, v: nat, ring: Ring, node: NodeId, p: Position)
    requires ShiftsList(hash, v, ring, node, p, 1) && Taken(hash, v, ring, node, p)
    ensures OwnerOf(AfterLeave(hash, v, ring, node), p) == Some(ring[p])
  {
    var kept, was := AfterLeave(hash, v, ring, node), FirstOwners(ring, p, 2);
    OwnerAtPosition(ring, p);
    OneOwner(ring, p);
    OneOwner(kept, p);
    FirstOwnersShape(ring, p, 1, 2);
    StartsWith(was, ring[p], node);
    assert FirstOwners(kept, p, 1) == [ring[p]];
  }

  lemma StartsWith(s: seq<NodeId>, x: NodeId, node: NodeId)
    requires [x] <= s && x != node
    ensures Take(Without(s, node), 1) == [x]
  {
    assert s == [x] + s[1..];
    WithoutConcat([x], s[1..], node);
    assert [x][..0] == [];
  }

  /**
   * After every history, collisions or not, these are the same: the leave moves no key of another node;
   * each position it takes from another falls back to that one; every replica list only drops the node.
   */
  lemma LeaveMovesExactly(hash: Hash, v: nat, ops: seq<Op>, node: NodeId)
    ensures var ring := Run(hash, v, ops).ring;
            && (MovesOnlyItsKeys(hash, v, ring, node) <==> TakenFallBack(hash, v, ring, node))
            && (ShiftsAllLists(hash, v, ring, node) <==> TakenFallBack(hash, v, ring, node))
  {
    var ring := Run(hash, v, ops).ring;
    LeaveMovesKeys(hash, v, ring, node);
    RunOwnsNoOther(hash, v, ops, node);
    if TakenFallBack(hash, v, ring, node) {
      forall h, count: nat ensures ShiftsList(hash, v, ring, node, h, count) {
        LeaveKeepsOrder(hash, v, ring, node, h);
        DistinctElements(Clockwise(ring, h));
        TakeWithout(Distinct(Clockwise(ring, h)), node, count);
      }
    }
    if ShiftsAllLists(hash, v, ring, node) {
      forall p | Taken(hash, v, ring, node, p) ensures OwnerOf(AfterLeave(hash, v, ring, node), p) == Some(ring[p]) {
        assert ShiftsList(hash, v, ring, node, p, 1);
        ListsShowOwners(hash, v, ring, node, p);
      }
    }
  }

  /** A leave that moves too much: b took over the one position of a, and when a leaves the key there goes to c. */
  lemma LeaveMovesTooMuch(a: NodeId, b: NodeId, c: NodeId)
    requires a != b && b != c && a != c
    ensures var hash: Hash := key => if key == VirtualKey(c, 0) then 1 else 0;
            var ring := Run(hash, 1, [Add(a), Add(b), Add(c)]).ring;
            && OwnerOf(ring, 0) == Some(b) && OwnerOf(AfterLeave(hash, 1, ring, a), 0) == Some(c)
            && !MovesOnlyItsKeys(hash, 1, ring, a)
  {
    var hash: Hash := key => if key == VirtualKey(c, 0) then 1 else 0;
    OnePoint(hash, a, c);
    OnePoint(hash, b, c);
    OnePoint(hash, c, c);
    AddTwo(hash, 1, a, b);
    assert [Add(a), Add(b), Add(c)][..2] == [Add(a), Add(b)];
    var ring := Run(hash, 1, [Add(a), Add(b), Add(c)]).ring;
    assert c !in [a, b];
    assert ring == map[0 := b, 1 := c];
    var kept := AfterLeave(hash, 1, ring, a);
    assert kept == map[1 := c];
    OwnerAtPosition(ring, 0);
    assert IsSuccessor(kept, 0, 1);
    OwnerAtSuccessor(kept, 0, 1);
  }

  lemma OnePoint(hash: Hash, n: NodeId, c: NodeId)
    requires forall key :: hash(key) == if key == VirtualKey(c, 0) then 1 else 0
    ensures Points(hash, n, 1) == {if n == c then 1 else 0}
  {
    if n != c && VirtualKey(n, 0) == VirtualKey(c, 0) {
      VirtualKeyInjective(n, 0, c, 0);
    }
    assert Points(hash, n, 1) == {hash(VirtualKey(n, 0))};
  }
}
