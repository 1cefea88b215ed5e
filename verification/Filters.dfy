/**
 * Payload filters (src/filter.rs).
 *
 * JSON floats are reals, and lower-casing is an arbitrary function on strings.
 */
module Filters {
  import opened Basics

  type Id = nat

  datatype Num = Int(i: int) | Float(r: real)
  datatype Value =
    | Null
    | Bool(b: bool)
    | Number(n: Num)
    | String(s: string)
    | Array(items: seq<Value>)
    | Object(fields: map<string, Value>)

  type Payload = map<string, Value>

  datatype Match =
    | Keyword(word: string)
    | IntegerValue(value: int)
    | Integer(integer: int)
    | Text(text: string)
    | Range(gt: Option<real>, gte: Option<real>, lt: Option<real>, lte: Option<real>)

  datatype Condition =
    | Field(key: string, match_: Match)
    | Nested(filter: Filter)
    | HasId(ids: seq<Id>)

  datatype Clause = Missing | Given(conditions: seq<Condition>)

  datatype Filter = Filter(must: Clause, should: Clause, mustNot: Clause)

  /** How text is lower-cased. */
  type Lower = string -> string

  // ---------------------------------------------------------------- values

  /** serde's `as_i64`. */
  function AsInt(v: Value): Option<int> {
    match v
    case Number(Int(i)) => if -0x8000_0000_0000_0000 <= i < 0x8000_0000_0000_0000 then Some(i) else None
    case _ => None
  }

  /** serde's `as_f64`, without rounding. */
  function AsReal(v: Value): Option<real> {
    match v
    case Number(Int(i)) => Some(i as real)
    case Number(Float(r)) => Some(r)
    case _ => None
  }

  predicate OccursAt(s: string, t: string, i: nat) {
    i + |t| <= |s| && s[i..i + |t|] == t
  }

  predicate Contains(s: string, t: string) {
    exists i :: 0 <= i <= |s| && OccursAt(s, t, i)
  }

  /** A number passes when it meets every bound that is given. */
  predicate InRange(m: Match, n: real)
    requires m.Range?
  {
    && (m.gt.Some? ==> n > m.gt.value)
    && (m.gte.Some? ==> n >= m.gte.value)
    && (m.lt.Some? ==> n < m.lt.value)
    && (m.lte.Some? ==> n <= m.lte.value)
  }

  predicate MatchesValue(lower: Lower, m: Match, v: Value) {
    match m
    case Keyword(word) =>
      v == String(word) || (v.Array? && String(word) in v.items)
    case IntegerValue(k) =>
      AsInt(v) == Some(k) || (v.Array? && exists i :: 0 <= i < |v.items| && AsInt(v.items[i]) == Some(k))
    case Integer(k) => AsInt(v) == Some(k)
    case Text(text) => v.String? && Contains(lower(v.s), lower(text))
    case Range(_, _, _, _) => AsReal(v).Some? && InRange(m, AsReal(v).value)
  }

  // ---------------------------------------------------------------- keys

  /** `key.split('.')`. */
  function Split(s: string): (parts: seq<string>)
    ensures parts != []
  {
    if s == [] then [""]
    else if s[0] == '.' then [""] + Split(s[1..])
    else
      var rest := Split(s[1..]);
      [[s[0]] + rest[0]] + rest[1..]
  }

  predicate Projects(part: string) {
    |part| >= 2 && part[|part| - 2..] == "[]"
  }

  /** `trim_end_matches("[]")`. */
  function Trimmed(part: string): string {
    if Projects(part) then Trimmed(part[..|part| - 2]) else part
  }

  function Child(v: Option<Value>, part: string): Option<Value> {
    match v
    case Some(Object(m)) => Get(m, part)
    case _ => None
  }

  /** Following the parts one object at a time. */
  function Walk(v: Option<Value>, parts: seq<string>): Option<Value>
    decreases parts
  {
    if parts == [] then v else Walk(Child(v, parts[0]), parts[1..])
  }

  /** The parts a lookup follows: it stops at the first projected part, taken without its brackets. */
  function Followed(parts: seq<string>): seq<string> {
    if parts == [] then []
    else if Projects(parts[0]) then [Trimmed(parts[0])]
    else [parts[0]] + Followed(parts[1..])
  }

  /** Where the walk stands before part i. */
  function From(payload: Payload, current: Option<Value>, i: nat): Option<Value> {
    if i == 0 then Some(Object(payload)) else current
  }

  lemma WalkStep(v: Option<Value>, parts: seq<string>, i: nat)
    requires i < |parts|
    ensures Walk(v, parts[i..]) == Walk(Child(v, parts[i]), parts[i + 1..])
  {
    assert parts[i..][1..] == parts[i + 1..];
  }

  lemma FollowStep(v: Option<Value>, parts: seq<string>, i: nat)
    requires i < |parts|
    ensures Walk(v, Followed(parts[i..]))
            == if Projects(parts[i]) then Child(v, Trimmed(parts[i])) else Walk(Child(v, parts[i]), Followed(parts[i + 1..]))
  {
    assert parts[i..][1..] == parts[i + 1..];
    if Projects(parts[i]) {
      assert Followed(parts[i..])[1..] == [];
    } else {
      assert Followed(parts[i..])[1..] == Followed(parts[i + 1..]);
    }
  }

  function Lookup(payload: Payload, key: string): Option<Value> {
    Walk(Some(Object(payload)), Followed(Split(key)))
  }

  // ---------------------------------------------------------------- what a filter says

  ghost predicate AllMet(lower: Lower, c: Clause, id: Id, payload: Option<Payload>)
    decreases c
  {
    c.Given? ==> forall i :: 0 <= i < |c.conditions| ==> Meets(lower, c.conditions[i], id, payload)
  }

  ghost predicate SomeMet(lower: Lower, c: Clause, id: Id, payload: Option<Payload>)
    decreases c
  {
    c.Given? && exists i :: 0 <= i < |c.conditions| && Meets(lower, c.conditions[i], id, payload)
  }

  predicate Empty(c: Clause) {
    c.Given? ==> c.conditions == []
  }

  /** All of `must`, some of `should` unless it is empty, none of `must_not`. */
  ghost predicate Holds(lower: Lower, f: Filter, id: Id, payload: Option<Payload>)
    decreases f
  {
    && AllMet(lower, f.must, id, payload)
    && (Empty(f.should) || SomeMet(lower, f.should, id, payload))
    && !SomeMet(lower, f.mustNot, id, payload)
  }

  ghost predicate Meets(lower: Lower, c: Condition, id: Id, payload: Option<Payload>)
    decreases c
  {
    match c
    case Field(key, m) =>
      payload.Some? && Lookup(payload.value, key).Some? && MatchesValue(lower, m, Lookup(payload.value, key).value)
    case Nested(f) => Holds(lower, f, id, payload)
    case HasId(ids) => id in ids
  }

  // ---------------------------------------------------------------- the evaluator

  class FilterEvaluator {
    const lower: Lower

    constructor (lower: Lower)
      ensures this.lower == lower
    {
      this.lower := lower;
    }

    /** Early exits: a failed `must`, a failed `should`, a met `must_not`. */
    method Matches(f: Filter, id: Id, payload: Option<Payload>) returns (yes: bool)
      ensures yes == Holds(lower, f, id, payload)
      decreases f
    {
      if f.must.Given? {
        for i := 0 to |f.must.conditions|
          invariant forall k :: 0 <= k < i ==> Meets(lower, f.must.conditions[k], id, payload)
        {
          var met := EvaluateCondition(f.must.conditions[i], id, payload);
          if !met {
            return false;
          }
        }
      }
      if f.should.Given? && f.should.conditions != [] {
        var any := false;
        for i := 0 to |f.should.conditions|
          invariant any == exists k :: 0 <= k < i && Meets(lower, f.should.conditions[k], id, payload)
        {
          any := EvaluateCondition(f.should.conditions[i], id, payload);
          if any {
            break;
          }
        }
        if !any {
          return false;
        }
      }
      if f.mustNot.Given? {
        for i := 0 to |f.mustNot.conditions|
          invariant forall k :: 0 <= k < i ==> !Meets(lower, f.mustNot.conditions[k], id, payload)
        {
          var met := EvaluateCondition(f.mustNot.conditions[i], id, payload);
          if met {
            return false;
          }
        }
      }
      yes := true;
    }

    method EvaluateCondition(c: Condition, id: Id, payload: Option<Payload>) returns (yes: bool)
      ensures yes == Meets(lower, c, id, payload)
      decreases c
    {
      match c
      case Field(key, m) =>
        if payload == None {
          return false;
        }
        var v := GetNestedValue(payload.value, key);
        if v == None {
          return false;
        }
        if m.Range? {
          yes := EvaluateRange(m, v.value);
        } else {
          yes := MatchesValue(lower, m, v.value);
        }
      case Nested(f) =>
        yes := Matches(f, id, payload);
      case HasId(ids) =>
        yes := id in ids;
    }

    method GetNestedValue(payload: Payload, key: string) returns (current: Option<Value>)
      ensures current == Lookup(payload, key)
    {
      var parts := Split(key);
      current := None;
      if Contains(key, "[]") {
        for i := 0 to |parts|
          invariant Lookup(payload, key) == Walk(From(payload, current, i), Followed(parts[i..]))
        {
          FollowStep(From(payload, current, i), parts, i);
          if Projects(parts[i]) {
            var arrayKey := Trimmed(parts[i]);
            return if i == 0 then Get(payload, arrayKey) else Child(current, arrayKey);
          }
          current := if i == 0 then Get(payload, parts[i]) else Child(current, parts[i]);
        }
      } else {
        NoBracketsFollowed(key);
        for i := 0 to |parts|
          invariant Lookup(payload, key) == Walk(From(payload, current, i), parts[i..])
        {
          WalkStep(From(payload, current, i), parts, i);
          current := if i == 0 then Get(payload, parts[i]) else Child(current, parts[i]);
        }
      }
    }

    method EvaluateRange(m: Match, v: Value) returns (yes: bool)
      requires m.Range?
      ensures yes == MatchesValue(lower, m, v)
    {
      var num := AsReal(v);
      if num == None {
        return false;
      }
      var n := num.value;
      yes := true;
      if m.gt.Some? {
        yes := yes && n > m.gt.value;
      }
      if m.gte.Some? {
        yes := yes && n >= m.gte.value;
      }
      if m.lt.Some? {
        yes := yes && n < m.lt.value;
      }
      if m.lte.Some? {
        yes := yes && n <= m.lte.value;
      }
    }
  }

  // ---------------------------------------------------------------- lookups compose

  predicate NoneProjects(parts: seq<string>) {
    parts == [] || (!Projects(parts[0]) && NoneProjects(parts[1..]))
  }

  lemma ContainsTail(s: string, t: string)
    requires s != [] && Contains(s[1..], t)
    ensures Contains(s, t)
  {
    var i :| 0 <= i <= |s[1..]| && OccursAt(s[1..], t, i);
    assert s[1..][i..i + |t|] == s[i + 1..i + 1 + |t|];
    assert OccursAt(s, t, i + 1);
  }

  lemma {:induction false} FirstPartIsPrefix(s: string)
    ensures Split(s)[0] <= s
  {
    if s != [] {
      FirstPartIsPrefix(s[1..]);
    }
  }

  lemma BracketsShow(part: string, s: string)
    requires part <= s && Projects(part)
    ensures Contains(s, "[]")
  {
    assert s[|part| - 2..|part|] == part[|part| - 2..];
    assert OccursAt(s, "[]", |part| - 2);
  }

  /** A part that ends in brackets shows in the key. */
  lemma {:induction false} NoBrackets(s: string)
    requires !Contains(s, "[]")
    ensures NoneProjects(Split(s))
  {
    FirstPartIsPrefix(s);
    var parts := Split(s);
    if Projects(parts[0]) {
      BracketsShow(parts[0], s);
    }
    if s != [] {
      if Contains(s[1..], "[]") {
        ContainsTail(s, "[]");
      }
      NoBrackets(s[1..]);
      assert parts[1..] == if s[0] == '.' then Split(s[1..]) else Split(s[1..])[1..];
    }
  }

  lemma {:induction false} FollowedAll(parts: seq<string>)
    requires NoneProjects(parts)
    ensures Followed(parts) == parts
  {
    if parts != [] {
      FollowedAll(parts[1..]);
    }
  }

  lemma NoBracketsFollowed(key: string)
    requires !Contains(key, "[]")
    ensures Followed(Split(key)) == Split(key)
  {
    NoBrackets(key);
    FollowedAll(Split(key));
  }

  lemma {:induction false} SplitDotted(p: string, q: string)
    ensures Split(p + "." + q) == Split(p) + Split(q)
  {
    var key := p + "." + q;
    if p == [] {
      assert key[1..] == q;
    } else {
      assert key[1..] == p[1..] + "." + q;
      SplitDotted(p[1..], q);
    }
  }

  lemma {:induction false} WalkConcat(v: Option<Value>, a: seq<string>, b: seq<string>)
    ensures Walk(v, a + b) == Walk(Walk(v, a), b)
    decreases a
  {
    if a == [] {
      assert a + b == b;
    } else {
      assert (a + b)[1..] == a[1..] + b;
      WalkConcat(Child(v, a[0]), a[1..], b);
    }
  }

  lemma {:induction false} WalkFromNothing(v: Option<Value>, parts: seq<string>)
    requires parts != [] && !(v.Some? && v.value.Object?)
    ensures Walk(v, parts) == None
    decreases parts
  {
    if |parts| > 1 {
      WalkFromNothing(None, parts[1..]);
    }
  }

  lemma {:induction false} FollowedConcat(a: seq<string>, b: seq<string>)
    ensures Followed(a + b) == if NoneProjects(a) then a + Followed(b) else Followed(a)
  {
    if a == [] {
      assert a + b == b && a + Followed(b) == Followed(b);
    } else {
      assert (a + b)[1..] == a[1..] + b;
      FollowedConcat(a[1..], b);
    }
  }

  /** Looking up p.q is looking up q in the object found at p, unless a part of p projects; then q is ignored. */
  lemma LookupComposes(payload: Payload, p: string, q: string)
    ensures NoneProjects(Split(p)) ==>
              Lookup(payload, p + "." + q)
              == match Lookup(payload, p) case Some(Object(m)) => Lookup(m, q) case _ => None
    ensures !NoneProjects(Split(p)) ==> Lookup(payload, p + "." + q) == Lookup(payload, p)
    ensures !Contains(p, "[]") ==> NoneProjects(Split(p))
  {
    SplitDotted(p, q);
    FollowedConcat(Split(p), Split(q));
    if !Contains(p, "[]") {
      NoBrackets(p);
    }
    if NoneProjects(Split(p)) {
      FollowedAll(Split(p));
      WalkConcat(Some(Object(payload)), Split(p), Followed(Split(q)));
      var found := Lookup(payload, p);
      if !(found.Some? && found.value.Object?) {
        WalkFromNothing(found, Followed(Split(q)));
      }
    }
  }

  // ---------------------------------------------------------------- order does not matter

  /** The same conditions in any order and number, at every depth. */
  ghost predicate Alike(f: Filter, g: Filter)
    decreases f
  {
    AlikeClause(f.must, g.must) && AlikeClause(f.should, g.should) && AlikeClause(f.mustNot, g.mustNot)
  }

  /** An empty clause and a missing one are alike. */
  ghost predicate AlikeClause(a: Clause, b: Clause)
    decreases a, 1
  {
    if Empty(a) || Empty(b) then Empty(a) && Empty(b)
    else
      && (forall i :: 0 <= i < |a.conditions| ==> LikedBy(a.conditions[i], b.conditions))
      && (forall j :: 0 <= j < |b.conditions| ==> Likes(a, b.conditions[j]))
  }

  ghost predicate LikedBy(c: Condition, list: seq<Condition>)
    decreases c, 1
  {
    exists j :: 0 <= j < |list| && AlikeCondition(c, list[j])
  }

  ghost predicate Likes(a: Clause, d: Condition)
    decreases a, 0
  {
    a.Given? && exists i :: 0 <= i < |a.conditions| && AlikeCondition(a.conditions[i], d)
  }

  ghost predicate AlikeCondition(c: Condition, d: Condition)
    decreases c, 0
  {
    if c.Nested? && d.Nested? then Alike(c.filter, d.filter) else c == d
  }

  /** Some condition of the list gives the same answer as c. */
  ghost predicate Echoed(lower: Lower, c: Condition, list: seq<Condition>, id: Id, payload: Option<Payload>) {
    exists j :: 0 <= j < |list| && Meets(lower, list[j], id, payload) == Meets(lower, c, id, payload)
  }

  ghost predicate AllEchoed(lower: Lower, a: seq<Condition>, b: seq<Condition>, id: Id, payload: Option<Payload>) {
    forall i :: 0 <= i < |a| ==> Echoed(lower, a[i], b, id, payload)
  }

  lemma EchoesAgree(lower: Lower, a: Clause, b: Clause, id: Id, payload: Option<Payload>)
    requires a.Given? && b.Given? && AllEchoed(lower, a.conditions, b.conditions, id, payload)
    ensures AllMet(lower, b, id, payload) ==> AllMet(lower, a, id, payload)
    ensures SomeMet(lower, a, id, payload) ==> SomeMet(lower, b, id, payload)
  {
  }

  /** Order and repetition mean nothing, however deep. */
  lemma {:induction false} OrderIsIrrelevant(lower: Lower, f: Filter, g: Filter, id: Id, payload: Option<Payload>)
    requires Alike(f, g)
    ensures Holds(lower, f, id, payload) == Holds(lower, g, id, payload)
    decreases f
  {
    AlikeClausesAgree(lower, f.must, g.must, id, payload);
    AlikeClausesAgree(lower, f.should, g.should, id, payload);
    AlikeClausesAgree(lower, f.mustNot, g.mustNot, id, payload);
  }

  lemma {:induction false} AlikeClausesAgree(lower: Lower, a: Clause, b: Clause, id: Id, payload: Option<Payload>)
    requires AlikeClause(a, b)
    ensures Empty(a) == Empty(b)
    ensures AllMet(lower, a, id, payload) == AllMet(lower, b, id, payload)
    ensures SomeMet(lower, a, id, payload) == SomeMet(lower, b, id, payload)
    decreases a, 2
  {
    if !Empty(a) {
      AlikeForth(lower, a, b, id, payload);
      AlikeBack(lower, a, b, id, payload);
      EchoesAgree(lower, a, b, id, payload);
      EchoesAgree(lower, b, a, id, payload);
    }
  }

  lemma {:induction false} AlikeForth(lower: Lower, a: Clause, b: Clause, id: Id, payload: Option<Payload>)
    requires AlikeClause(a, b) && !Empty(a) && !Empty(b)
    ensures AllEchoed(lower, a.conditions, b.conditions, id, payload)
    decreases a, 0
  {
    forall i | 0 <= i < |a.conditions| ensures Echoed(lower, a.conditions[i], b.conditions, id, payload) {
      LikedEchoed(lower, a.conditions[i], b.conditions, id, payload);
    }
  }

  lemma {:induction false} AlikeBack(lower: Lower, a: Clause, b: Clause, id: Id, payload: Option<Payload>)
    requires AlikeClause(a, b) && !Empty(a) && !Empty(b)
    ensures AllEchoed(lower, b.conditions, a.conditions, id, payload)
    decreases a, 1
  {
    forall j | 0 <= j < |b.conditions| ensures Echoed(lower, b.conditions[j], a.conditions, id, payload) {
      LikesEchoed(lower, a, b.conditions[j], id, payload);
    }
  }

  lemma {:induction false} LikedEchoed(lower: Lower, c: Condition, list: seq<Condition>, id: Id, payload: Option<Payload>)
    requires LikedBy(c, list)
    ensures Echoed(lower, c, list, id, payload)
    decreases c, 1
  {
    var j :| 0 <= j < |list| && AlikeCondition(c, list[j]);
    AlikeConditionsAgree(lower, c, list[j], id, payload);
  }

  lemma {:induction false} LikesEchoed(lower: Lower, a: Clause, d: Condition, id: Id, payload: Option<Payload>)
    requires Likes(a, d)
    ensures Echoed(lower, d, a.conditions, id, payload)
    decreases a, 0
  {
    var i :| 0 <= i < |a.conditions| && AlikeCondition(a.conditions[i], d);
    AlikeConditionsAgree(lower, a.conditions[i], d, id, payload);
  }

  lemma {:induction false} AlikeConditionsAgree(lower: Lower, c: Condition, d: Condition, id: Id, payload: Option<Payload>)
    requires AlikeCondition(c, d)
    ensures Meets(lower, c, id, payload) == Meets(lower, d, id, payload)
    decreases c, 0
  {
    if c.Nested? && d.Nested? {
      OrderIsIrrelevant(lower, c.filter, d.filter, id, payload);
    }
  }
}
