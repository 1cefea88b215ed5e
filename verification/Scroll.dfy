/**
 * Scroll paging over a collection (`scroll_points` in src/api/qdrant_compat.rs).
 *
 * A page reads one storage; other requests may change it between pages. Payloads, the filter
 * (accepted and ignored by the source) and the name check are not modelled.
 */
module Scroll {
  import opened Basics
  import Collections

  type Id = Collections.Id
  type Storage = map<Id, Collections.Vector>

  /** Ids one page looks at, at most. */
  const REACH: nat := 100_001
  const MAX_LIMIT: nat := 10_000

  datatype Point = Point(id: Id, vector: seq<real>)
  datatype Page = Page(points: seq<Point>, next: Option<Id>)
  datatype Response = Ok(page: Page) | LimitTooSmall | LimitTooLarge | CollectionNotFound

  function PointOf(storage: Storage, id: Id, withVector: bool): Point
    requires id in storage
  {
    Point(id, if withVector then storage[id].data else [])
  }

  /** The live points with ids in [lo, hi), by increasing id. */
  function Points(storage: Storage, lo: Id, hi: Id, withVector: bool): seq<Point>
    decreases hi
  {
    if hi <= lo then []
    else
      Points(storage, lo, hi - 1, withVector)
      + if hi - 1 in storage then [PointOf(storage, hi - 1, withVector)] else []
  }

  /** A page shows the live points of [start, end); it is full and names `end`, or it gave up after REACH ids. */
  ghost predicate IsPage(storage: Storage, start: Id, limit: nat, withVector: bool, page: Page, end: Id) {
    && start < end <= start + REACH
    && page.points == Points(storage, start, end, withVector)
    && if page.next.Some? then page.next.value == end && |page.points| == limit && end - 1 in storage
       else end == start + REACH && |page.points| < limit
  }

  method ScrollPoints(collection: Option<Storage>, offset: Option<Id>, limit: nat, withVector: bool)
      returns (r: Response, ghost end: Id)
    ensures r == LimitTooSmall <==> limit == 0
    ensures r == LimitTooLarge <==> limit > MAX_LIMIT
    ensures r == CollectionNotFound <==> 0 < limit <= MAX_LIMIT && collection == None
    ensures r.Ok? ==>
              IsPage(collection.value, if offset.Some? then offset.value else 0, limit, withVector, r.page, end)
  {
    end := 0;
    if limit == 0 {
      return LimitTooSmall, 0;
    }
    if limit > MAX_LIMIT {
      return LimitTooLarge, 0;
    }
    if collection == None {
      return CollectionNotFound, 0;
    }
    var storage := collection.value;
    var start := if offset.Some? then offset.value else 0;
    var points: seq<Point>, next: Option<Id>, current, collected := [], None, start, 0;
    while collected < limit
      invariant start <= current <= start + 100_000
      invariant collected == |points| <= limit
      invariant points == Points(storage, start, current, withVector)
      invariant next == if collected < limit then None else Some(current)
      invariant collected == limit ==> start < current && current - 1 in storage
      decreases start + REACH - current
    {
      if current in storage {
        points := points + [PointOf(storage, current, withVector)];
        collected := collected + 1;
      }
      current := current + 1;
      if collected == limit {
        next := Some(current);
      }
      if current > start + 100_000 {
        break;
      }
    }
    end := current;
    r := Ok(Page(points, next));
  }

  // ---------------------------------------------------------------- one page

  ghost predicate Rising(ps: seq<Point>) {
    forall i, j :: 0 <= i < j < |ps| ==> ps[i].id < ps[j].id
  }

  predicate Shows(ps: seq<Point>, id: Id) {
    exists i :: 0 <= i < |ps| && ps[i].id == id
  }

  lemma {:induction false} PointsAreLive(storage: Storage, lo: Id, hi: Id, withVector: bool)
    ensures Rising(Points(storage, lo, hi, withVector))
    ensures forall id: nat :: Shows(Points(storage, lo, hi, withVector), id) <==> lo <= id < hi && id in storage
    ensures forall p :: p in Points(storage, lo, hi, withVector) ==>
              p.id in storage && p == PointOf(storage, p.id, withVector)
    decreases hi
  {
    if lo < hi {
      PointsAreLive(storage, lo, hi - 1, withVector);
      var front, all := Points(storage, lo, hi - 1, withVector), Points(storage, lo, hi, withVector);
      forall i | 0 <= i < |front| ensures front[i].id < hi - 1 {
        assert Shows(front, front[i].id);
      }
      var last := if hi - 1 in storage then [PointOf(storage, hi - 1, withVector)] else [];
      forall id: nat ensures Shows(all, id) <==> Shows(front, id) || (id == hi - 1 && id in storage) {
        ShowsConcat(front, last, id);
        assert last != [] ==> last[0].id == hi - 1;
      }
    }
  }

  lemma ShowsConcat(a: seq<Point>, b: seq<Point>, id: Id)
    ensures Shows(a + b, id) <==> Shows(a, id) || Shows(b, id)
  {
    if i :| 0 <= i < |a| && a[i].id == id {
      assert (a + b)[i].id == id;
    }
    if i :| 0 <= i < |b| && b[i].id == id {
      assert (a + b)[|a| + i].id == id;
    }
  }

  lemma {:induction false} PointsSplit(storage: Storage, lo: Id, mid: Id, hi: Id, withVector: bool)
    requires lo <= mid <= hi
    ensures Points(storage, lo, hi, withVector) == Points(storage, lo, mid, withVector) + Points(storage, mid, hi, withVector)
    decreases hi
  {
    if mid < hi {
      PointsSplit(storage, lo, mid, hi - 1, withVector);
    }
  }

  lemma EarlierEndImpossible(storage: Storage, start: Id, limit: nat, withVector: bool, p: Page, e: Id, q: Page, f: Id)
    requires IsPage(storage, start, limit, withVector, p, e) && IsPage(storage, start, limit, withVector, q, f)
    ensures f <= e
  {
    if e < f {
      PointsSplit(storage, start, e, f, withVector);
    }
  }

  /** A request has one answer. */
  lemma PageDetermined(storage: Storage, start: Id, limit: nat, withVector: bool, p: Page, e: Id, q: Page, f: Id)
    requires IsPage(storage, start, limit, withVector, p, e) && IsPage(storage, start, limit, withVector, q, f)
    ensures p == q && e == f
  {
    EarlierEndImpossible(storage, start, limit, withVector, p, e, q, f);
    EarlierEndImpossible(storage, start, limit, withVector, q, f, p, e);
  }

  /** A page that names no next one has shown everything from its start exactly when nothing lives beyond its reach. */
  lemma LastPageComplete(storage: Storage, start: Id, limit: nat, withVector: bool, page: Page, end: Id)
    requires IsPage(storage, start, limit, withVector, page, end) && page.next == None
    ensures (forall id :: id in storage && start <= id ==> Shows(page.points, id))
            <==> forall id :: id in storage ==> id < start + REACH
  {
    PointsAreLive(storage, start, end, withVector);
  }

  // ---------------------------------------------------------------- following the pages

  /** One page of a walk: the storage it met, what it returned and where it stopped. */
  datatype Visit = Visit(storage: Storage, limit: nat, page: Page, end: Id)

  /** Each page starts at the offset the one before it named. */
  ghost predicate Follows(visits: seq<Visit>, start: Id, withVector: bool)
    decreases visits
  {
    visits != [] ==>
      var v := visits[0];
      && IsPage(v.storage, start, v.limit, withVector, v.page, v.end)
      && (|visits| > 1 ==> v.page.next == Some(v.end) && Follows(visits[1..], v.end, withVector))
  }

  function Shown(visits: seq<Visit>): seq<Point> {
    if visits == [] then [] else visits[0].page.points + Shown(visits[1..])
  }

  function EndOf(visits: seq<Visit>, start: Id): Id {
    if visits == [] then start else visits[|visits| - 1].end
  }

  lemma RisingConcat(a: seq<Point>, b: seq<Point>, mid: Id)
    requires Rising(a) && Rising(b)
    requires forall id: nat :: Shows(a, id) ==> id < mid
    requires forall id: nat :: Shows(b, id) ==> mid <= id
    ensures Rising(a + b)
  {
    forall i, j | 0 <= i < |a| && 0 <= j < |b| ensures a[i].id < b[j].id {
      assert Shows(a, a[i].id) && Shows(b, b[j].id);
    }
  }

  /** Along the pages ids only rise, and stay within what was scanned. */
  lemma {:induction false} WalkRises(visits: seq<Visit>, start: Id, withVector: bool)
    requires Follows(visits, start, withVector)
    ensures Rising(Shown(visits))
    ensures forall id: nat :: Shows(Shown(visits), id) ==> start <= id < EndOf(visits, start)
    ensures start <= EndOf(visits, start)
    decreases visits
  {
    if visits != [] {
      var v, rest := visits[0], Shown(visits[1..]);
      PointsAreLive(v.storage, start, v.end, withVector);
      if |visits| == 1 {
        assert Shown(visits) == v.page.points;
      } else {
        WalkRises(visits[1..], v.end, withVector);
        RisingConcat(v.page.points, rest, v.end);
        forall id: nat ensures Shows(Shown(visits), id) <==> Shows(v.page.points, id) || Shows(rest, id) {
          ShowsConcat(v.page.points, rest, id);
        }
      }
    }
  }

  /** An id that lives in every storage the walk met and was passed by it is shown, once since ids rise. */
  lemma {:induction false} WalkMissesNothing(visits: seq<Visit>, start: Id, withVector: bool, id: Id)
    requires Follows(visits, start, withVector)
    requires forall i :: 0 <= i < |visits| ==> id in visits[i].storage
    requires start <= id < EndOf(visits, start)
    ensures Shows(Shown(visits), id)
    decreases visits
  {
    var v := visits[0];
    PointsAreLive(v.storage, start, v.end, withVector);
    ShowsConcat(v.page.points, Shown(visits[1..]), id);
    if id >= v.end {
      WalkMissesNothing(visits[1..], v.end, withVector, id);
    }
  }

  /** Only points live at the time of their page are shown. */
  lemma {:induction false} WalkShowsLive(visits: seq<Visit>, start: Id, withVector: bool, p: Point)
    requires Follows(visits, start, withVector) && p in Shown(visits)
    ensures exists i :: 0 <= i < |visits| && p.id in visits[i].storage
                        && p == PointOf(visits[i].storage, p.id, withVector)
    decreases visits
  {
    var v := visits[0];
    PointsAreLive(v.storage, start, v.end, withVector);
    if p !in v.page.points {
      WalkShowsLive(visits[1..], v.end, withVector, p);
      var i :| 0 <= i < |visits[1..]| && p.id in visits[1..][i].storage
               && p == PointOf(visits[1..][i].storage, p.id, withVector);
      assert visits[i + 1] == visits[1..][i];
    }
  }

  /** A finished walk over an unchanging storage has shown every live id from its start exactly when none lives
      at or beyond its end. */
  lemma FinishedWalkEnds(visits: seq<Visit>, storage: Storage, start: Id, withVector: bool)
    requires visits != [] && Follows(visits, start, withVector)
    requires forall i :: 0 <= i < |visits| ==> visits[i].storage == storage
    requires visits[|visits| - 1].page.next == None
    ensures (forall id :: id in storage && start <= id ==> Shows(Shown(visits), id))
            <==> forall id :: id in storage ==> id < EndOf(visits, start)
  {
    WalkRises(visits, start, withVector);
    forall id | id in storage && start <= id < EndOf(visits, start) ensures Shows(Shown(visits), id) {
      WalkMissesNothing(visits, start, withVector, id);
    }
  }

  // ---------------------------------------------------------------- completeness from the storage alone

  /** How many ids live in [lo, hi). */
  function Live(storage: Storage, lo: Id, hi: Id): nat
    decreases hi
  {
    if hi <= lo then 0 else Live(storage, lo, hi - 1) + if hi - 1 in storage then 1 else 0
  }

  function LiveFrom(storage: Storage, start: Id): set<Id> {
    set id | id in storage && start <= id
  }

  /** Just past the id that fills a page of `limit`, or the reach of the page. */
  function PageEnd(storage: Storage, start: Id, limit: nat, hi: Id): Id
    requires start <= hi
    decreases hi
  {
    if hi == start then hi
    else if Live(storage, start, hi - 1) >= limit then PageEnd(storage, start, limit, hi - 1)
    else hi
  }

  predicate FullPage(storage: Storage, start: Id, limit: nat) {
    Live(storage, start, start + REACH) >= limit
  }

  function NextStart(storage: Storage, start: Id, limit: nat): Id {
    PageEnd(storage, start, limit, start + REACH)
  }

  lemma {:induction false} PageEndFills(storage: Storage, start: Id, limit: nat, hi: Id)
    requires 0 < limit <= Live(storage, start, hi) && start <= hi
    ensures var e := PageEnd(storage, start, limit, hi);
            start < e <= hi && Live(storage, start, e) == limit && e - 1 in storage
    decreases hi
  {
    if Live(storage, start, hi - 1) >= limit {
      PageEndFills(storage, start, limit, hi - 1);
    }
  }

  lemma {:induction false} PointsCount(storage: Storage, lo: Id, hi: Id, withVector: bool)
    ensures |Points(storage, lo, hi, withVector)| == Live(storage, lo, hi)
    decreases hi
  {
    if lo < hi {
      PointsCount(storage, lo, hi - 1, withVector);
    }
  }

  lemma {:induction false} LiveGrows(storage: Storage, lo: Id, mid: Id, hi: Id)
    requires mid <= hi
    ensures Live(storage, lo, mid) <= Live(storage, lo, hi)
    decreases hi
  {
    if mid < hi {
      LiveGrows(storage, lo, mid, hi - 1);
    }
  }

  /** Which pages are full, and where they end, follows from the storage. */
  lemma PageFromStorage(storage: Storage, start: Id, limit: nat, withVector: bool, page: Page, end: Id)
    requires limit > 0 && IsPage(storage, start, limit, withVector, page, end)
    ensures page.next.Some? <==> FullPage(storage, start, limit)
    ensures page.next.Some? ==> end == NextStart(storage, start, limit)
    ensures page.next == None ==> end == start + REACH
  {
    PointsCount(storage, start, end, withVector);
    LiveGrows(storage, start, end, start + REACH);
    if FullPage(storage, start, limit) {
      PageEndFills(storage, start, limit, start + REACH);
      var e := NextStart(storage, start, limit);
      if e < end {
        LiveGrows(storage, start, e, end - 1);
      } else if end < e {
        LiveGrows(storage, start, end, e - 1);
      }
    }
  }

  lemma PageTakesSome(storage: Storage, start: Id, limit: nat)
    requires limit > 0 && FullPage(storage, start, limit)
    ensures LiveFrom(storage, NextStart(storage, start, limit)) < LiveFrom(storage, start)
  {
    PageEndFills(storage, start, limit, start + REACH);
    assert NextStart(storage, start, limit) - 1 in LiveFrom(storage, start);
  }

  /** From each page start in turn: a page that is not full has nothing living beyond its reach. */
  predicate NoGap(storage: Storage, start: Id, limit: nat)
    requires limit > 0
    decreases LiveFrom(storage, start)
  {
    if FullPage(storage, start, limit) then
      PageTakesSome(storage, start, limit);
      NoGap(storage, NextStart(storage, start, limit), limit)
    else forall id :: id in storage ==> id < start + REACH
  }

  lemma {:induction false} NoGapIsEnd(visits: seq<Visit>, storage: Storage, start: Id, limit: nat, withVector: bool)
    requires limit > 0 && visits != [] && Follows(visits, start, withVector)
    requires forall i :: 0 <= i < |visits| ==> visits[i].storage == storage && visits[i].limit == limit
    requires visits[|visits| - 1].page.next == None
    ensures NoGap(storage, start, limit) <==> forall id :: id in storage ==> id < EndOf(visits, start)
    decreases visits
  {
    var v := visits[0];
    PageFromStorage(storage, start, limit, withVector, v.page, v.end);
    if |visits| > 1 {
      NoGapIsEnd(visits[1..], storage, v.end, limit, withVector);
    }
  }

  /** A finished walk with one limit over an unchanging storage has shown every live id from its start exactly when
      the storage has no gap on the way. */
  lemma FinishedWalkComplete(visits: seq<Visit>, storage: Storage, start: Id, limit: nat, withVector: bool)
    requires limit > 0 && visits != [] && Follows(visits, start, withVector)
    requires forall i :: 0 <= i < |visits| ==> visits[i].storage == storage && visits[i].limit == limit
    requires visits[|visits| - 1].page.next == None
    ensures (forall id :: id in storage && start <= id ==> Shows(Shown(visits), id)) <==> NoGap(storage, start, limit)
  {
    FinishedWalkEnds(visits, storage, start, withVector);
    NoGapIsEnd(visits, storage, start, limit, withVector);
  }

  // ---------------------------------------------------------------- walks end

  lemma {:induction false} LiveIsCount(storage: Storage, lo: Id, hi: Id)
    requires lo <= hi
    ensures |LiveFrom(storage, lo)| == Live(storage, lo, hi) + |LiveFrom(storage, hi)|
    decreases hi
  {
    if lo < hi {
      LiveIsCount(storage, lo, hi - 1);
      assert LiveFrom(storage, hi - 1) == LiveFrom(storage, hi) + if hi - 1 in storage then {hi - 1} else {};
    }
  }

  /** A full page takes `limit` of the live ids ahead. */
  lemma FullPageTakes(storage: Storage, start: Id, limit: nat)
    requires limit > 0 && FullPage(storage, start, limit)
    ensures |LiveFrom(storage, start)| == limit + |LiveFrom(storage, NextStart(storage, start, limit))|
  {
    PageEndFills(storage, start, limit, start + REACH);
    LiveIsCount(storage, start, NextStart(storage, start, limit));
  }

  /** Every walk over an unchanging storage has at most (live ids / limit) + 1 pages. */
  lemma WalkIsShort(visits: seq<Visit>, storage: Storage, start: Id, limit: nat, withVector: bool)
    requires limit > 0 && visits != [] && Follows(visits, start, withVector)
    requires forall i :: 0 <= i < |visits| ==> visits[i].storage == storage && visits[i].limit == limit
    ensures |visits| <= |LiveFrom(storage, start)| / limit + 1
  {
    FullPagesCount(visits, storage, start, limit, withVector);
    QuotientBound(|visits| - 1, limit, |LiveFrom(storage, start)|);
  }

  lemma {:induction false} FullPagesCount(visits: seq<Visit>, storage: Storage, start: Id, limit: nat, withVector: bool)
    requires limit > 0 && visits != [] && Follows(visits, start, withVector)
    requires forall i :: 0 <= i < |visits| ==> visits[i].storage == storage && visits[i].limit == limit
    ensures (|visits| - 1) * limit <= |LiveFrom(storage, start)|
    decreases visits
  {
    if |visits| > 1 {
      var v := visits[0];
      PageFromStorage(storage, start, limit, withVector, v.page, v.end);
      FullPageTakes(storage, start, limit);
      FullPagesCount(visits[1..], storage, v.end, limit, withVector);
      assert (|visits| - 1) * limit == (|visits[1..]| - 1) * limit + limit;
    }
  }

  /** Every request within the limits has a page. */
  lemma PageExists(storage: Storage, start: Id, limit: nat, withVector: bool) returns (page: Page, end: Id)
    requires limit > 0
    ensures IsPage(storage, start, limit, withVector, page, end)
  {
    if FullPage(storage, start, limit) {
      PageEndFills(storage, start, limit, start + REACH);
      end := NextStart(storage, start, limit);
      PointsCount(storage, start, end, withVector);
      page := Page(Points(storage, start, end, withVector), Some(end));
    } else {
      end := start + REACH;
      PointsCount(storage, start, end, withVector);
      page := Page(Points(storage, start, end, withVector), None);
    }
  }

  /** Following the offsets over an unchanging storage comes to a last page. */
  lemma {:induction false} WalkFinishes(storage: Storage, start: Id, limit: nat, withVector: bool) returns (visits: seq<Visit>)
    requires limit > 0
    ensures visits != [] && Follows(visits, start, withVector)
    ensures forall i :: 0 <= i < |visits| ==> visits[i].storage == storage && visits[i].limit == limit
    ensures visits[|visits| - 1].page.next == None
    ensures |visits| <= |LiveFrom(storage, start)| / limit + 1
    decreases |LiveFrom(storage, start)|
  {
    var page, end := PageExists(storage, start, limit, withVector);
    PageFromStorage(storage, start, limit, withVector, page, end);
    var first := Visit(storage, limit, page, end);
    visits := [first];
    if page.next.Some? {
      FullPageTakes(storage, start, limit);
      var rest := WalkFinishes(storage, end, limit, withVector);
      visits := [first] + rest;
      assert visits[1..] == rest;
    }
    WalkIsShort(visits, storage, start, limit, withVector);
  }

  lemma FirstTwoShown(ps: seq<Point>)
    requires |ps| >= 2 && Rising(ps)
    ensures Shows(ps, ps[0].id) && Shows(ps, ps[1].id) && ps[0].id < ps[1].id
  {
  }

  /** Two points far apart: the walk from zero ends after the first and never shows the second. */
  lemma FarPointIsLost(v: Collections.Vector, limit: nat, withVector: bool, page: Page, end: Id)
    requires limit >= 2 && IsPage(map[0 := v, 200_000 := v], 0, limit, withVector, page, end)
    ensures page.next == None && !Shows(page.points, 200_000)
  {
    PointsAreLive(map[0 := v, 200_000 := v], 0, end, withVector);
    if |page.points| >= 2 {
      FirstTwoShown(page.points);
    }
  }
}
