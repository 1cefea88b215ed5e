/**
 * The per-client request limiter (src/api/middleware.rs).
 *
 * Each operation is one step under the lock and takes the clock as an argument. Times and
 * durations are natural numbers in one unit.
 */
module RateLimiter {
  import opened Basics

  type Client = string
  type Time = nat

  datatype Config = Config(maxRequests: nat, window: nat)
  datatype Window = Window(count: nat, start: Time)
  type Clients = map<Client, Window>

  /** `now.duration_since(start)`, which saturates at zero. */
  function Elapsed(start: Time, now: Time): nat {
    if now < start then 0 else now - start
  }

  predicate Expired(cfg: Config, w: Window, now: Time) {
    Elapsed(w.start, now) >= cfg.window
  }

  predicate Open(cfg: Config, cs: Clients, c: Client, now: Time) {
    c in cs && !Expired(cfg, cs[c], now)
  }

  predicate Allows(cfg: Config, cs: Clients, c: Client, now: Time) {
    Open(cfg, cs, c, now) ==> cs[c].count < cfg.maxRequests
  }

  function AfterCall(cfg: Config, cs: Clients, c: Client, now: Time): Clients {
    if !Open(cfg, cs, c, now) then cs[c := Window(1, now)]
    else if cs[c].count < cfg.maxRequests then cs[c := Window(cs[c].count + 1, cs[c].start)]
    else cs
  }

  function Remaining(cfg: Config, cs: Clients, c: Client, now: Time): nat {
    if !Open(cfg, cs, c, now) then cfg.maxRequests
    else if cfg.maxRequests < cs[c].count then 0
    else cfg.maxRequests - cs[c].count
  }

  function Cleaned(cfg: Config, cs: Clients, now: Time): Clients {
    map c | c in cs && Elapsed(cs[c].start, now) < cfg.window * 2 :: cs[c]
  }

  class RateLimiter {
    const config: Config
    var clients: Clients

    constructor (config: Config)
      ensures this.config == config && clients == map[]
    {
      this.config := config;
      clients := map[];
    }

    method IsAllowed(client: Client, now: Time) returns (allowed: bool)
      modifies this
      ensures allowed == Allows(config, old(clients), client, now)
      ensures clients == AfterCall(config, old(clients), client, now)
    {
      if client in clients {
        var w := clients[client];
        if Elapsed(w.start, now) >= config.window {
          clients := clients[client := Window(1, now)];
          allowed := true;
        } else if w.count >= config.maxRequests {
          allowed := false;
        } else {
          clients := clients[client := Window(w.count + 1, w.start)];
          allowed := true;
        }
      } else {
        clients := clients[client := Window(1, now)];
        allowed := true;
      }
    }

    function RemainingRequests(client: Client, now: Time): nat
      reads this
    {
      Remaining(config, clients, client, now)
    }

    method CleanupExpired(now: Time)
      modifies this
      ensures clients == Cleaned(config, old(clients), now)
    {
      clients := map c | c in clients && Elapsed(clients[c].start, now) < config.window * 2 :: clients[c];
    }
  }

  // ---------------------------------------------------------------- runs

  datatype Event =
    | Call(client: Client, now: Time)
    | Query(client: Client, now: Time)
    | Cleanup(now: Time)

  datatype Answer = Allowed(yes: bool) | Left(requests: nat)

  function Step(cfg: Config, cs: Clients, e: Event): Clients {
    match e
    case Call(c, now) => AfterCall(cfg, cs, c, now)
    case Query(_, _) => cs
    case Cleanup(now) => Cleaned(cfg, cs, now)
  }

  function Run(cfg: Config, es: seq<Event>): Clients {
    if es == [] then map[] else Step(cfg, Run(cfg, es[..|es| - 1]), es[|es| - 1])
  }

  function Respond(cfg: Config, cs: Clients, e: Event): seq<Answer> {
    match e
    case Call(c, now) => [Allowed(Allows(cfg, cs, c, now))]
    case Query(c, now) => [Left(Remaining(cfg, cs, c, now))]
    case Cleanup(_) => []
  }

  /** Everything the callers of a run were told, in order. */
  function Answers(cfg: Config, es: seq<Event>): seq<Answer> {
    if es == [] then []
    else Answers(cfg, es[..|es| - 1]) + Respond(cfg, Run(cfg, es[..|es| - 1]), es[|es| - 1])
  }

  /** The clock never goes back. */
  ghost predicate Ordered(es: seq<Event>) {
    forall i, j :: 0 <= i < j < |es| ==> es[i].now <= es[j].now
  }

  /** An ordered run that `now` does not precede. */
  ghost predicate Before(es: seq<Event>, now: Time) {
    Ordered(es) && (es != [] ==> es[|es| - 1].now <= now)
  }

  predicate Admits(cfg: Config, cs: Clients, e: Event, c: Client, lo: int, hi: int) {
    e.Call? && e.client == c && lo <= e.now < hi && Allows(cfg, cs, c, e.now)
  }

  /** How many calls of c the run admitted at times in [lo, hi). */
  function Admitted(cfg: Config, es: seq<Event>, c: Client, lo: int, hi: int): nat {
    if es == [] then 0
    else
      Admitted(cfg, es[..|es| - 1], c, lo, hi)
      + if Admits(cfg, Run(cfg, es[..|es| - 1]), es[|es| - 1], c, lo, hi) then 1 else 0
  }

  // ---------------------------------------------------------------- the admission bound

  lemma {:induction false} AdmittedSplits(cfg: Config, es: seq<Event>, c: Client, lo: int, mid: int, hi: int)
    requires lo <= mid <= hi
    ensures Admitted(cfg, es, c, lo, hi) == Admitted(cfg, es, c, lo, mid) + Admitted(cfg, es, c, mid, hi)
  {
    if es != [] {
      AdmittedSplits(cfg, es[..|es| - 1], c, lo, mid, hi);
    }
  }

  /** The most calls one window admits: a window opened by a call admits that call even when the maximum is zero. */
  function PerWindow(cfg: Config): nat {
    if cfg.maxRequests == 0 then 1 else cfg.maxRequests
  }

  function Entry(cs: Clients, c: Client): Option<Window> {
    if c in cs then Some(cs[c]) else None
  }

  /** What an entry of client c says about the admissions of a run that has reached time `now`. */
  ghost predicate EntryExplains(cfg: Config, es: seq<Event>, c: Client, entry: Option<Window>, now: Time) {
    match entry
    case None =>
      forall lo: int, hi: int :: now <= lo + cfg.window ==> Admitted(cfg, es, c, lo, hi) == 0
    case Some(w) =>
      && 1 <= w.count <= PerWindow(cfg)
      && w.start <= now
      && 1 <= Admitted(cfg, es, c, w.start, w.start + 1)
      && (forall hi: int :: w.start + cfg.window <= hi ==> Admitted(cfg, es, c, w.start, hi) == w.count)
      && (forall lo: int :: w.start < lo + cfg.window ==> Admitted(cfg, es, c, lo, w.start) < PerWindow(cfg))
  }

  ghost predicate Explains(cfg: Config, es: seq<Event>, c: Client, now: Time) {
    EntryExplains(cfg, es, c, Entry(Run(cfg, es), c), now)
  }

  lemma AfterWindowNothing(cfg: Config, es: seq<Event>, c: Client, now: Time, lo: int, hi: int)
    requires Explains(cfg, es, c, now) && c in Run(cfg, es)
    requires Run(cfg, es)[c].start + cfg.window <= lo
    ensures Admitted(cfg, es, c, lo, hi) == 0
  {
    if lo <= hi {
      AdmittedSplits(cfg, es, c, Run(cfg, es)[c].start, lo, hi);
    } else {
      EmptyInterval(cfg, es, c, lo, hi);
    }
  }

  lemma {:induction false} EmptyInterval(cfg: Config, es: seq<Event>, c: Client, lo: int, hi: int)
    requires hi <= lo
    ensures Admitted(cfg, es, c, lo, hi) == 0
  {
    if es != [] {
      EmptyInterval(cfg, es[..|es| - 1], c, lo, hi);
    }
  }

  /** Strictly inside an old window its opening call is not counted. */
  lemma InsideWindow(cfg: Config, es: seq<Event>, c: Client, now: Time, lo: int, hi: int)
    requires Explains(cfg, es, c, now) && c in Run(cfg, es)
    requires Run(cfg, es)[c].start < lo
    ensures Admitted(cfg, es, c, lo, hi) < Run(cfg, es)[c].count
  {
    var w := Run(cfg, es)[c];
    var top := if hi < w.start + cfg.window then w.start + cfg.window else hi;
    if lo <= hi {
      AdmittedSplits(cfg, es, c, w.start, w.start + 1, top);
      AdmittedSplits(cfg, es, c, w.start + 1, lo, top);
      AdmittedSplits(cfg, es, c, lo, hi, top);
    } else {
      EmptyInterval(cfg, es, c, lo, hi);
    }
  }

  /** A call that opens a new window. */
  lemma ExplainsOpening(cfg: Config, es: seq<Event>, c: Client)
    requires cfg.window > 0 && es != []
    requires es[|es| - 1].Call? && es[|es| - 1].client == c
    requires Explains(cfg, es[..|es| - 1], c, es[|es| - 1].now)
    requires !Open(cfg, Run(cfg, es[..|es| - 1]), c, es[|es| - 1].now)
    ensures Explains(cfg, es, c, es[|es| - 1].now)
  {
    var front, now := es[..|es| - 1], es[|es| - 1].now;
    var cs := Run(cfg, front);
    forall lo: int | now < lo + cfg.window ensures Admitted(cfg, es, c, lo, now) < PerWindow(cfg) {
      if c in cs {
        InsideWindow(cfg, front, c, now, lo, now);
      }
    }
    forall hi: int | now < hi ensures Admitted(cfg, es, c, now, hi) == 1 {
      if c in cs {
        AfterWindowNothing(cfg, front, c, now, now, hi);
      }
    }
  }

  /** An event that does not admit c leaves what is known about c's admissions. */
  lemma ExplainsQuiet(cfg: Config, es: seq<Event>, c: Client, entry: Option<Window>)
    requires es != []
    requires EntryExplains(cfg, es[..|es| - 1], c, entry, es[|es| - 1].now)
    requires var e := es[|es| - 1];
             !(e.Call? && e.client == c && Allows(cfg, Run(cfg, es[..|es| - 1]), c, e.now))
    ensures EntryExplains(cfg, es, c, entry, es[|es| - 1].now)
  {
    var front := es[..|es| - 1];
    match entry
    case None =>
      forall lo: int, hi: int | es[|es| - 1].now <= lo + cfg.window ensures Admitted(cfg, es, c, lo, hi) == 0 {
      }
    case Some(w) =>
      forall lo: int | w.start < lo + cfg.window ensures Admitted(cfg, es, c, lo, w.start) < PerWindow(cfg) {
      }
      forall hi: int | w.start + cfg.window <= hi ensures Admitted(cfg, es, c, w.start, hi) == w.count {
      }
  }

  /** A call admitted within an open window. */
  lemma ExplainsCounting(cfg: Config, es: seq<Event>, c: Client)
    requires es != [] && es[|es| - 1].Call? && es[|es| - 1].client == c
    requires Explains(cfg, es[..|es| - 1], c, es[|es| - 1].now)
    requires Open(cfg, Run(cfg, es[..|es| - 1]), c, es[|es| - 1].now)
    requires Run(cfg, es[..|es| - 1])[c].count < cfg.maxRequests
    ensures Explains(cfg, es, c, es[|es| - 1].now)
  {
    var front := es[..|es| - 1];
    var w := Run(cfg, front)[c];
    assert Run(cfg, es)[c] == Window(w.count + 1, w.start);
    forall lo: int ensures Admitted(cfg, es, c, lo, w.start) == Admitted(cfg, front, c, lo, w.start) {
    }
    forall hi: int | w.start + cfg.window <= hi
      ensures Admitted(cfg, es, c, w.start, hi) == Admitted(cfg, front, c, w.start, hi) + 1
    {
    }
  }

  lemma ExplainsStep(cfg: Config, es: seq<Event>, c: Client)
    requires cfg.window > 0 && es != []
    requires Explains(cfg, es[..|es| - 1], c, es[|es| - 1].now)
    ensures Explains(cfg, es, c, es[|es| - 1].now)
  {
    var front, e := es[..|es| - 1], es[|es| - 1];
    var cs := Run(cfg, front);
    if e.Call? && e.client == c && !Open(cfg, cs, c, e.now) {
      ExplainsOpening(cfg, es, c);
    } else if e.Call? && e.client == c && cs[c].count < cfg.maxRequests {
      ExplainsCounting(cfg, es, c);
    } else if e.Cleanup? && c in cs && c !in Cleaned(cfg, cs, e.now) {
      forall lo: int, hi: int | e.now <= lo + cfg.window ensures Admitted(cfg, es, c, lo, hi) == 0 {
        AfterWindowNothing(cfg, front, c, e.now, lo, hi);
      }
    } else {
      ExplainsQuiet(cfg, es, c, Entry(cs, c));
      assert Entry(Run(cfg, es), c) == Entry(cs, c);
    }
  }

  lemma {:induction false} RunExplains(cfg: Config, es: seq<Event>, c: Client, now: Time)
    requires cfg.window > 0 && Before(es, now)
    ensures Explains(cfg, es, c, now)
  {
    if es != [] {
      RunExplains(cfg, es[..|es| - 1], c, es[|es| - 1].now);
      ExplainsStep(cfg, es, c);
    }
  }

  /** The admissions of an interval of one window length that has the newest event in it. */
  lemma NewestBound(cfg: Config, es: seq<Event>, c: Client, t: int)
    requires cfg.window > 0 && es != [] && Ordered(es)
    requires t <= es[|es| - 1].now < t + cfg.window
    ensures Admitted(cfg, es, c, t, t + cfg.window) < 2 * PerWindow(cfg)
  {
    var now := es[|es| - 1].now;
    RunExplains(cfg, es, c, now);
    if c in Run(cfg, es) {
      var w := Run(cfg, es)[c];
      if t < w.start {
        AdmittedSplits(cfg, es, c, t, w.start, t + cfg.window);
        AdmittedSplits(cfg, es, c, w.start, t + cfg.window, w.start + cfg.window);
      } else if t == w.start {
      } else {
        InsideWindow(cfg, es, c, now, t, t + cfg.window);
      }
    }
  }

  /** Over every run, no half-open interval of one window length admits more than 2·max - 1 calls of a client. */
  lemma {:induction false} AdmissionBound(cfg: Config, es: seq<Event>, c: Client, t: int)
    requires Ordered(es)
    ensures Admitted(cfg, es, c, t, t + cfg.window) <= 2 * PerWindow(cfg) - 1
  {
    if cfg.window == 0 {
      EmptyInterval(cfg, es, c, t, t);
    } else if es != [] {
      if t <= es[|es| - 1].now < t + cfg.window {
        NewestBound(cfg, es, c, t);
      } else {
        AdmissionBound(cfg, es[..|es| - 1], c, t);
      }
    }
  }

  /** One more admitted call. */
  lemma CallOnce(cfg: Config, es: seq<Event>, c: Client, now: Time, lo: int, hi: int) returns (more: seq<Event>)
    requires Before(es, now) && Allows(cfg, Run(cfg, es), c, now)
    ensures Before(more, now)
    ensures Entry(Run(cfg, more), c) == Entry(AfterCall(cfg, Run(cfg, es), c, now), c)
    ensures Admitted(cfg, more, c, lo, hi) == Admitted(cfg, es, c, lo, hi) + if lo <= now < hi then 1 else 0
  {
    more := es + [Call(c, now)];
    assert more[..|es|] == es;
  }

  /** k more calls admitted at one instant of an open window. */
  lemma {:induction false} CallMany(cfg: Config, es: seq<Event>, c: Client, now: Time, w: Window, k: nat, lo: int, hi: int)
      returns (more: seq<Event>)
    requires Before(es, now) && Entry(Run(cfg, es), c) == Some(w)
    requires !Expired(cfg, w, now) && w.count + k <= cfg.maxRequests
    ensures Before(more, now)
    ensures Entry(Run(cfg, more), c) == Some(Window(w.count + k, w.start))
    ensures Admitted(cfg, more, c, lo, hi) == Admitted(cfg, es, c, lo, hi) + if lo <= now < hi then k else 0
  {
    more := es;
    if k > 0 {
      more := CallMany(cfg, es, c, now, w, k - 1, lo, hi);
      more := CallOnce(cfg, more, c, now, lo, hi);
    }
  }

  /** The bound is reached whenever windows are at least two instants long. */
  lemma AdmissionBoundReached(cfg: Config, c: Client) returns (es: seq<Event>)
    requires cfg.maxRequests > 0 && cfg.window >= 2
    ensures Ordered(es)
    ensures Admitted(cfg, es, c, cfg.window - 1, 2 * cfg.window - 1) == 2 * PerWindow(cfg) - 1
  {
    var w, m, lo, hi := cfg.window, cfg.maxRequests, cfg.window - 1, 2 * cfg.window - 1;
    es := CallOnce(cfg, [], c, 0, lo, hi);
    es := CallMany(cfg, es, c, w - 1, Window(1, 0), m - 1, lo, hi);
    es := CallOnce(cfg, es, c, w, lo, hi);
    es := CallMany(cfg, es, c, w, Window(1, w), m - 1, lo, hi);
  }

  /** The calls of c admitted in the window length from t on. */
  function AdmittedFrom(cfg: Config, es: seq<Event>, c: Client, t: int): nat {
    Admitted(cfg, es, c, t, t + cfg.window)
  }

  /** A sliding window: no interval of one window length admits more than `max_requests` calls of a client. */
  ghost predicate Sliding(cfg: Config) {
    forall es, c, t: int :: Ordered(es) ==> AdmittedFrom(cfg, es, c, t) <= cfg.maxRequests
  }

  /** A window of one instant admits at most `max_requests` calls at that instant. */
  lemma {:induction false} OneInstant(cfg: Config, es: seq<Event>, c: Client, t: int)
    requires cfg.window == 1 && Ordered(es)
    ensures Admitted(cfg, es, c, t, t + 1) <= PerWindow(cfg)
  {
    if es != [] {
      var now := es[|es| - 1].now;
      if now != t {
        OneInstant(cfg, es[..|es| - 1], c, t);
      } else {
        RunExplains(cfg, es, c, now);
        assert Admitted(cfg, es, c, t, t + 1) <= PerWindow(cfg) by {
          if c in Run(cfg, es) && Run(cfg, es)[c].start < t {
            AfterWindowNothing(cfg, es, c, now, t, t + 1);
          }
        }
      }
    }
  }

  lemma OneCallAdmitted(cfg: Config, c: Client)
    ensures Admitted(cfg, [Call(c, 0)], c, 0, cfg.window) == if cfg.window > 0 then 1 else 0
  {
    assert [Call(c, 0)][..0] == [];
  }

  /** Exactly when the fixed windows amount to a sliding one. */
  lemma SlidingExactly(cfg: Config)
    ensures Sliding(cfg) <==> cfg.window == 0 || cfg.maxRequests == 1 || (cfg.window == 1 && cfg.maxRequests > 0)
  {
    if cfg.window == 0 || cfg.maxRequests == 1 || (cfg.window == 1 && cfg.maxRequests > 0) {
      forall es, c, t: int | Ordered(es) ensures AdmittedFrom(cfg, es, c, t) <= cfg.maxRequests {
        if cfg.window == 0 {
          EmptyInterval(cfg, es, c, t, t);
        } else if cfg.maxRequests == 1 {
          AdmissionBound(cfg, es, c, t);
        } else {
          OneInstant(cfg, es, c, t);
        }
      }
    } else if cfg.maxRequests == 0 {
      OneCallAdmitted(cfg, "");
      assert Ordered([Call("", 0)]) && AdmittedFrom(cfg, [Call("", 0)], "", 0) > cfg.maxRequests;
    } else {
      var es := AdmissionBoundReached(cfg, "");
      assert cfg.window - 1 + cfg.window == 2 * cfg.window - 1;
      assert AdmittedFrom(cfg, es, "", cfg.window - 1) > cfg.maxRequests;
    }
  }

  lemma {:induction false} NothingLater(cfg: Config, es: seq<Event>, c: Client, now: Time, hi: int)
    requires Before(es, now)
    ensures Admitted(cfg, es, c, now + 1, hi) == 0
  {
    if es != [] {
      NothingLater(cfg, es[..|es| - 1], c, now, hi);
    }
  }

  /** A refused call was preceded by `max_requests` admissions less than one window ago. */
  lemma RefusalIsEarned(cfg: Config, es: seq<Event>, c: Client, now: Time) returns (lo: int)
    requires Before(es, now) && !Allows(cfg, Run(cfg, es), c, now)
    ensures now - cfg.window < lo <= now
    ensures Admitted(cfg, es, c, lo, now + 1) >= cfg.maxRequests
  {
    var w := Run(cfg, es)[c];
    lo := w.start;
    RunExplains(cfg, es, c, now);
    NothingLater(cfg, es, c, now, w.start + cfg.window);
    AdmittedSplits(cfg, es, c, w.start, now + 1, w.start + cfg.window);
  }

  // ---------------------------------------------------------------- cleaning is invisible

  /** The entry of c as far as any operation at `now` can tell. */
  function Visible(cfg: Config, cs: Clients, c: Client, now: Time): Option<Window> {
    if Open(cfg, cs, c, now) then Some(cs[c]) else None
  }

  ghost predicate Alike(cfg: Config, a: Clients, b: Clients, now: Time) {
    forall c, later: Time :: now <= later ==> Visible(cfg, a, c, later) == Visible(cfg, b, c, later)
  }

  function WithoutCleanups(es: seq<Event>): seq<Event> {
    if es == [] then []
    else
      WithoutCleanups(es[..|es| - 1]) + if es[|es| - 1].Cleanup? then [] else [es[|es| - 1]]
  }

  lemma CleanedAlike(cfg: Config, cs: Clients, now: Time)
    ensures Alike(cfg, Cleaned(cfg, cs, now), cs, now)
  {
  }

  lemma AlikeTransitive(cfg: Config, a: Clients, b: Clients, d: Clients, now: Time)
    requires Alike(cfg, a, b, now) && Alike(cfg, b, d, now)
    ensures Alike(cfg, a, d, now)
  {
    forall c, later: Time | now <= later ensures Visible(cfg, a, c, later) == Visible(cfg, d, c, later) {
      assert Visible(cfg, a, c, later) == Visible(cfg, b, c, later);
    }
  }

  lemma AlikeLater(cfg: Config, a: Clients, b: Clients, now: Time, later: Time)
    requires Alike(cfg, a, b, now) && now <= later
    ensures Alike(cfg, a, b, later)
  {
  }

  lemma AlikeStep(cfg: Config, a: Clients, b: Clients, e: Event)
    requires Alike(cfg, a, b, e.now) && !e.Cleanup?
    ensures Alike(cfg, Step(cfg, a, e), Step(cfg, b, e), e.now)
    ensures Respond(cfg, a, e) == Respond(cfg, b, e)
  {
    if !e.Query? {
      var a', b' := Step(cfg, a, e), Step(cfg, b, e);
      assert Visible(cfg, a, e.client, e.now) == Visible(cfg, b, e.client, e.now);
      forall c, later: Time | e.now <= later ensures Visible(cfg, a', c, later) == Visible(cfg, b', c, later) {
        assert Visible(cfg, a, c, later) == Visible(cfg, b, c, later);
      }
    } else {
      assert Visible(cfg, a, e.client, e.now) == Visible(cfg, b, e.client, e.now);
    }
  }

  /** Dropping every cleanup from a run changes no answer, so cleanups may be inserted anywhere. */
  lemma {:induction false} CleanupsInvisible(cfg: Config, es: seq<Event>, now: Time)
    requires Before(es, now)
    ensures Alike(cfg, Run(cfg, es), Run(cfg, WithoutCleanups(es)), now)
    ensures Answers(cfg, es) == Answers(cfg, WithoutCleanups(es))
  {
    if es != [] {
      var front, e := es[..|es| - 1], es[|es| - 1];
      CleanupsInvisible(cfg, front, e.now);
      var bare := WithoutCleanups(front);
      if e.Cleanup? {
        assert bare + [] == bare;
        CleanedAlike(cfg, Run(cfg, front), e.now);
        AlikeTransitive(cfg, Run(cfg, es), Run(cfg, front), Run(cfg, bare), e.now);
      } else {
        assert (bare + [e])[..|bare|] == bare;
        AlikeStep(cfg, Run(cfg, front), Run(cfg, bare), e);
      }
      AlikeLater(cfg, Run(cfg, es), Run(cfg, WithoutCleanups(es)), e.now, now);
    }
  }

  // ---------------------------------------------------------------- the remaining quota

  /** How many of k further calls at one instant succeed. */
  function Successes(cfg: Config, cs: Clients, c: Client, now: Time, k: nat): nat
    decreases k
  {
    if k == 0 then 0
    else
      (if Allows(cfg, cs, c, now) then 1 else 0) + Successes(cfg, AfterCall(cfg, cs, c, now), c, now, k - 1)
  }

  lemma {:induction false} OpenSuccesses(cfg: Config, cs: Clients, c: Client, now: Time, k: nat)
    requires Open(cfg, cs, c, now)
    ensures Successes(cfg, cs, c, now, k) == if k <= Remaining(cfg, cs, c, now) then k else Remaining(cfg, cs, c, now)
    decreases k
  {
    if k > 0 {
      OpenSuccesses(cfg, AfterCall(cfg, cs, c, now), c, now, k - 1);
    }
  }

  lemma {:induction false} ZeroWindowSuccesses(cfg: Config, cs: Clients, c: Client, now: Time, k: nat)
    requires cfg.window == 0
    ensures Successes(cfg, cs, c, now, k) == k
    decreases k
  {
    if k > 0 {
      ZeroWindowSuccesses(cfg, AfterCall(cfg, cs, c, now), c, now, k - 1);
    }
  }

  lemma FreshSuccesses(cfg: Config, cs: Clients, c: Client, now: Time, k: nat)
    requires cfg.window > 0 && !Open(cfg, cs, c, now)
    ensures Successes(cfg, cs, c, now, k) == if k <= PerWindow(cfg) then k else PerWindow(cfg)
  {
    if k > 0 {
      OpenSuccesses(cfg, AfterCall(cfg, cs, c, now), c, now, k - 1);
    }
  }

  /** `remaining_requests` is the number of further calls that succeed at that instant, unless windows have no length
      or the maximum is zero and the next call opens a window. */
  lemma RemainingIsExact(cfg: Config, cs: Clients, c: Client, now: Time)
    ensures (forall k: nat :: Successes(cfg, cs, c, now, k)
                              == if k <= Remaining(cfg, cs, c, now) then k else Remaining(cfg, cs, c, now))
            <==> cfg.window > 0 && (cfg.maxRequests > 0 || Open(cfg, cs, c, now))
  {
    var left := Remaining(cfg, cs, c, now);
    forall k: nat
      ensures Successes(cfg, cs, c, now, k)
              == if cfg.window == 0 then k
                 else if Open(cfg, cs, c, now) then (if k <= left then k else left)
                 else if k <= PerWindow(cfg) then k else PerWindow(cfg)
    {
      if cfg.window == 0 {
        ZeroWindowSuccesses(cfg, cs, c, now, k);
      } else if Open(cfg, cs, c, now) {
        OpenSuccesses(cfg, cs, c, now, k);
      } else {
        FreshSuccesses(cfg, cs, c, now, k);
      }
    }
    assert cfg.window == 0 ==> Successes(cfg, cs, c, now, left + 1) == left + 1;
    assert cfg.window > 0 && !Open(cfg, cs, c, now) ==> Successes(cfg, cs, c, now, PerWindow(cfg)) == PerWindow(cfg);
  }
}
