/**
 * Epochs, fencing tokens and admission-controlled failovers (src/cluster/failover.rs).
 *
 * A failover is three steps, so that failovers of several threads may interleave: it is
 * admitted, its action takes effect, and it is finished and logged. Admission (the check and
 * the count) is one step. The clock is an argument.
 */
module Failover {
  import opened Basics

  type NodeId = nat
  type Time = nat

  const U64: nat := 0x1_0000_0000_0000_0000

  datatype Epoch = Epoch(value: nat)
  datatype FencingToken = FencingToken(epoch: Epoch, node: NodeId, term: nat)
  datatype Validity = Valid | EpochMismatch(provided: Epoch, required: Epoch)

  /** `fetch_add(1)` on an `AtomicU64` wraps. */
  function Incremented(e: Epoch): Epoch {
    Epoch(if e.value + 1 < U64 then e.value + 1 else 0)
  }

  function Validate(token: FencingToken, min: Epoch): Validity {
    if token.epoch.value >= min.value then Valid else EpochMismatch(token.epoch, min)
  }

  datatype Config = Config(autoFailover: bool, maxConcurrent: nat, cooldown: nat, maxLog: nat)
  datatype Policy = Automatic | Manual | Disabled
  datatype Action = PromoteLeader(shard: nat, leader: NodeId) | ReplaceNode(failed: NodeId) | Rebalance
  datatype Event = Event(timestamp: Time, action: Action, success: bool)

  /** The manager with the epoch it raises; `admitted` and `acted` hold the failovers in flight. */
  datatype State = State(
    policy: Policy,
    active: nat,
    last: Option<Time>,
    log: seq<Event>,
    epoch: Epoch,
    admitted: multiset<Action>,
    acted: multiset<Action>)

  const INITIAL := State(Automatic, 0, None, [], Epoch(0), multiset{}, multiset{})

  predicate CanFailover(cfg: Config, policy: Policy, active: nat, last: Option<Time>, now: Time) {
    && policy == Automatic
    && cfg.autoFailover
    && active < cfg.maxConcurrent
    && (last.Some? ==> (if now < last.value then 0 else now - last.value) >= cfg.cooldown)
  }

  /** The newest n elements. */
  function Newest<T>(s: seq<T>, n: nat): seq<T> {
    if |s| <= n then s else s[|s| - n..]
  }

  function AfterAction(e: Epoch, a: Action): Epoch {
    if a.PromoteLeader? then Incremented(e) else e
  }

  // ---------------------------------------------------------------- the objects

  class HealthMonitor {
    const localNode: NodeId
    var current: Epoch

    constructor (localNode: NodeId)
      ensures this.localNode == localNode && current == Epoch(0)
    {
      this.localNode, current := localNode, Epoch(0);
    }

    method IncrementEpoch() returns (e: Epoch)
      modifies this
      ensures current == e == Incremented(old(current))
    {
      current := Epoch(if current.value + 1 < U64 then current.value + 1 else 0);
      e := current;
    }

    function GetFencingToken(term: nat): FencingToken
      reads this
    {
      FencingToken(current, localNode, term)
    }

    function ValidateToken(token: FencingToken): Validity
      reads this
    {
      Validate(token, current)
    }
  }

  class FailoverManager {
    const config: Config
    const monitor: HealthMonitor
    var active: nat
    var last: Option<Time>
    var policy: Policy
    var log: seq<Event>

    /** The state, given the failovers other threads have in flight. */
    ghost function Seen(admitted: multiset<Action>, acted: multiset<Action>): State
      reads this, monitor
    {
      State(policy, active, last, log, monitor.current, admitted, acted)
    }

    constructor (config: Config, monitor: HealthMonitor)
      ensures this.config == config && this.monitor == monitor
      ensures Seen(multiset{}, multiset{}) == INITIAL.(epoch := monitor.current)
    {
      this.config, this.monitor := config, monitor;
      active, last, policy, log := 0, None, Automatic, [];
    }

    method LogEvent(event: Event)
      modifies this`log
      ensures log == Newest(old(log) + [event], config.maxLog)
    {
      log := log + [event];
      ghost var all := log;
      while |log| > config.maxLog
        invariant |log| <= |all| && log == all[|all| - |log|..]
        invariant |log| >= |Newest(all, config.maxLog)|
      {
        log := log[1..];
      }
    }

    method SetPolicy(p: Policy)
      modifies this`policy
      ensures policy == p
    {
      policy := p;
    }

    /** A failover is refused and changes nothing, or is exactly the three steps. */
    method ExecuteFailover(action: Action, now: Time, end: Time,
                           ghost admitted: multiset<Action>, ghost acted: multiset<Action>) returns (ok: bool)
      modifies this, monitor
      ensures ok == CanFailover(config, old(policy), old(active), old(last), now)
      ensures !ok ==> Seen(admitted, acted) == old(Seen(admitted, acted))
      ensures ok ==> Seen(admitted, acted)
                     == Run(config, old(Seen(admitted, acted)), [Begin(action, now), Act(action), Finish(action, end)])
    {
      ghost var s0 := Seen(admitted, acted);
      if !CanFailover(config, policy, active, last, now) {
        return false;
      }
      active := active + 1;
      last := Some(now);
      assert Seen(admitted + multiset{action}, acted) == Next(config, s0, Begin(action, now));
      ghost var s1 := Seen(admitted + multiset{action}, acted);
      if action.PromoteLeader? {
        var e := monitor.IncrementEpoch();
      }
      assert admitted + multiset{action} - multiset{action} == admitted;
      assert Seen(admitted, acted + multiset{action}) == Next(config, s1, Act(action));
      ghost var s2 := Seen(admitted, acted + multiset{action});
      active := active - 1;
      LogEvent(Event(end, action, true));
      assert acted + multiset{action} - multiset{action} == acted;
      assert Seen(admitted, acted) == Next(config, s2, Finish(action, end));
      RunThree(config, s0, Begin(action, now), Act(action), Finish(action, end));
      ok := true;
    }
  }

  // ---------------------------------------------------------------- runs

  datatype Step =
    | Begin(action: Action, now: Time)
    | Act(action: Action)
    | Finish(action: Action, now: Time)
    | SetPolicy(policy: Policy)
    | Raise  // `increment_epoch` called from outside

  /** A step that is not enabled changes nothing: a refused admission, or work that was never admitted. */
  function Next(cfg: Config, s: State, step: Step): State {
    match step
    case Begin(a, now) =>
      if CanFailover(cfg, s.policy, s.active, s.last, now)
      then s.(active := s.active + 1, last := Some(now), admitted := s.admitted + multiset{a})
      else s
    case Act(a) =>
      if a in s.admitted
      then s.(epoch := AfterAction(s.epoch, a), admitted := s.admitted - multiset{a}, acted := s.acted + multiset{a})
      else s
    case Finish(a, now) =>
      if a in s.acted && s.active > 0
      then s.(active := s.active - 1,
              acted := s.acted - multiset{a},
              log := Newest(s.log + [Event(now, a, true)], cfg.maxLog))
      else s
    case SetPolicy(p) => s.(policy := p)
    case Raise => s.(epoch := Incremented(s.epoch))
  }

  function Run(cfg: Config, s: State, steps: seq<Step>): State {
    if steps == [] then s
    else Next(cfg, Run(cfg, s, steps[..|steps| - 1]), steps[|steps| - 1])
  }

  lemma RunThree(cfg: Config, s: State, a: Step, b: Step, c: Step)
    ensures Run(cfg, s, [a, b, c]) == Next(cfg, Next(cfg, Next(cfg, s, a), b), c)
  {
    assert [a, b, c][..2] == [a, b] && [a, b][..1] == [a] && [a][..0] == [];
    assert Run(cfg, s, [a]) == Next(cfg, s, a);
    assert Run(cfg, s, [a, b]) == Next(cfg, Run(cfg, s, [a]), b);
  }

  /** In-flight failovers are counted and never exceed the maximum. */
  ghost predicate Counted(cfg: Config, s: State) {
    s.active == |s.admitted| + |s.acted| <= cfg.maxConcurrent
  }

  lemma {:induction false} RunCounted(cfg: Config, steps: seq<Step>)
    ensures Counted(cfg, Run(cfg, INITIAL, steps))
  {
    if steps != [] {
      RunCounted(cfg, steps[..|steps| - 1]);
    }
  }

  // ---------------------------------------------------------------- the event log

  /** Every failover finished in the run, in order. */
  function Finished(cfg: Config, steps: seq<Step>): seq<Event> {
    if steps == [] then []
    else
      var front, step := steps[..|steps| - 1], steps[|steps| - 1];
      if step.Finish? && step.action in Run(cfg, INITIAL, front).acted
      then Finished(cfg, front) + [Event(step.now, step.action, true)]
      else Finished(cfg, front)
  }

  lemma NewestAgain<T>(s: seq<T>, x: T, n: nat)
    ensures Newest(Newest(s, n) + [x], n) == Newest(s + [x], n)
  {
  }

  lemma {:induction false} LogIsNewestFinished(cfg: Config, steps: seq<Step>)
    ensures Run(cfg, INITIAL, steps).log == Newest(Finished(cfg, steps), cfg.maxLog)
  {
    if steps != [] {
      var front, step := steps[..|steps| - 1], steps[|steps| - 1];
      LogIsNewestFinished(cfg, front);
      RunCounted(cfg, front);
      if step.Finish? {
        NewestAgain(Finished(cfg, front), Event(step.now, step.action, true), cfg.maxLog);
      }
    }
  }

  // ---------------------------------------------------------------- the cooldown

  ghost predicate Ordered(steps: seq<Step>) {
    forall i, j :: 0 <= i < j < |steps| && steps[i].Begin? && steps[j].Begin? ==> steps[i].now <= steps[j].now
  }

  /** The times at which failovers were admitted, in order. */
  function Starts(cfg: Config, steps: seq<Step>): seq<Time> {
    if steps == [] then []
    else
      var front, step := steps[..|steps| - 1], steps[|steps| - 1];
      var s := Run(cfg, INITIAL, front);
      if step.Begin? && CanFailover(cfg, s.policy, s.active, s.last, step.now)
      then Starts(cfg, front) + [step.now]
      else Starts(cfg, front)
  }

  lemma {:induction false} StartsAreAttempts(cfg: Config, steps: seq<Step>, i: nat) returns (k: nat)
    requires i < |Starts(cfg, steps)|
    ensures k < |steps| && steps[k].Begin? && steps[k].now == Starts(cfg, steps)[i]
  {
    var front := steps[..|steps| - 1];
    if i < |Starts(cfg, front)| {
      k := StartsAreAttempts(cfg, front, i);
    } else {
      k := |steps| - 1;
    }
  }

  lemma StepLast(cfg: Config, s: State, step: Step)
    ensures Next(cfg, s, step).last
            == if step.Begin? && CanFailover(cfg, s.policy, s.active, s.last, step.now) then Some(step.now) else s.last
  {
  }

  lemma {:induction false} LastIsNewestStart(cfg: Config, steps: seq<Step>)
    ensures var starts := Starts(cfg, steps);
            Run(cfg, INITIAL, steps).last == if starts == [] then None else Some(starts[|starts| - 1])
  {
    if steps != [] {
      LastIsNewestStart(cfg, steps[..|steps| - 1]);
      StepLast(cfg, Run(cfg, INITIAL, steps[..|steps| - 1]), steps[|steps| - 1]);
    }
  }

  lemma AdmittedLate(cfg: Config, s: State, last: Time, now: Time)
    requires CanFailover(cfg, s.policy, s.active, s.last, now) && s.last == Some(last) && last <= now
    ensures now >= last + cfg.cooldown
  {
  }

  /** A new start is the last step's time, and the last of the earlier starts is on record. */
  lemma NewStart(cfg: Config, steps: seq<Step>, j: nat)
    requires steps != [] && 0 < j < |Starts(cfg, steps)|
    requires j == |Starts(cfg, steps[..|steps| - 1])|
    ensures var front, step := steps[..|steps| - 1], steps[|steps| - 1];
            var s := Run(cfg, INITIAL, front);
            && step.Begin? && CanFailover(cfg, s.policy, s.active, s.last, step.now)
            && Starts(cfg, steps)[j] == step.now && Starts(cfg, steps)[j - 1] == Starts(cfg, front)[j - 1]
            && s.last == Some(Starts(cfg, front)[j - 1])
  {
    var front, step := steps[..|steps| - 1], steps[|steps| - 1];
    var was := Starts(cfg, front);
    LastIsNewestStart(cfg, front);
    assert Starts(cfg, steps) == was + [step.now];
    assert (was + [step.now])[j] == step.now && (was + [step.now])[j - 1] == was[j - 1];
  }

  lemma {:induction false} NextStartLater(cfg: Config, steps: seq<Step>, j: nat)
    requires Ordered(steps) && 0 < j < |Starts(cfg, steps)|
    ensures Starts(cfg, steps)[j] >= Starts(cfg, steps)[j - 1] + cfg.cooldown
  {
    var front, step := steps[..|steps| - 1], steps[|steps| - 1];
    if j < |Starts(cfg, front)| {
      NextStartLater(cfg, front, j);
    } else {
      NewStart(cfg, steps, j);
      var k := StartsAreAttempts(cfg, front, j - 1);
      assert steps[k].now <= step.now;
      AdmittedLate(cfg, Run(cfg, INITIAL, front), Starts(cfg, front)[j - 1], step.now);
    }
  }

  /** Admissions i and j lie at least (j - i) cooldowns apart. */
  lemma {:induction false} StartsApart(cfg: Config, steps: seq<Step>, i: nat, j: nat)
    requires Ordered(steps) && i <= j < |Starts(cfg, steps)|
    ensures Starts(cfg, steps)[j] >= Starts(cfg, steps)[i] + Times(j - i, cfg.cooldown)
  {
    if i < j {
      StartsApart(cfg, steps, i, j - 1);
      NextStartLater(cfg, steps, j);
    }
  }

  /** n · d by repeated addition. */
  function Times(n: nat, d: nat): nat {
    if n == 0 then 0 else Times(n - 1, d) + d
  }

  lemma {:induction false} TimesIsProduct(n: nat, d: nat)
    ensures Times(n, d) == n * d
  {
    if n > 0 {
      TimesIsProduct(n - 1, d);
      assert n * d == (n - 1) * d + d;
    }
  }

  /** A span of length L holds at most L / cooldown + 1 admissions. */
  lemma StartsInSpan(cfg: Config, steps: seq<Step>, t: Time, length: nat, i: nat, j: nat)
    requires Ordered(steps) && cfg.cooldown > 0
    requires i <= j < |Starts(cfg, steps)|
    requires t <= Starts(cfg, steps)[i] && Starts(cfg, steps)[j] <= t + length
    ensures j - i + 1 <= length / cfg.cooldown + 1
  {
    StartsApart(cfg, steps, i, j);
    TimesIsProduct(j - i, cfg.cooldown);
    QuotientBound(j - i, cfg.cooldown, length);
  }

  // ---------------------------------------------------------------- fencing

  /** How often the run raised the epoch. */
  function Raises(cfg: Config, s: State, steps: seq<Step>): nat {
    if steps == [] then 0
    else
      var front, step := steps[..|steps| - 1], steps[|steps| - 1];
      Raises(cfg, s, front)
      + if step.Raise? || (step.Act? && step.action.PromoteLeader? && step.action in Run(cfg, s, front).admitted)
        then 1 else 0
  }

  lemma StepRaises(cfg: Config, s: State, step: Step)
    ensures Next(cfg, s, step).epoch
            == if step.Raise? || (step.Act? && step.action.PromoteLeader? && step.action in s.admitted)
               then Incremented(s.epoch) else s.epoch
  {
  }

  /** The epoch is this count kept in 64 bits, wrapped at most once. */
  predicate Shows(e: Epoch, n: nat) {
    e.value == (if n < U64 then n else n - U64) < U64
  }

  lemma ShowsNext(e: Epoch, n: nat)
    requires Shows(e, n) && n + 1 < 2 * U64
    ensures Shows(Incremented(e), n + 1)
  {
  }

  lemma {:induction false} EpochCountsRaises(cfg: Config, s: State, steps: seq<Step>)
    requires s.epoch.value < U64 && Raises(cfg, s, steps) < U64
    ensures Shows(Run(cfg, s, steps).epoch, s.epoch.value + Raises(cfg, s, steps))
  {
    if steps != [] {
      var front := steps[..|steps| - 1];
      EpochCountsRaises(cfg, s, front);
      StepRaises(cfg, Run(cfg, s, front), steps[|steps| - 1]);
      ShowsNext(Run(cfg, s, front).epoch, s.epoch.value + Raises(cfg, s, front));
    }
  }

  lemma ValidAfter(token: FencingToken, raises: nat, now: Epoch)
    requires token.epoch.value < U64 && raises < U64 && Shows(now, token.epoch.value + raises)
    ensures Validate(token, now) == Valid <==> raises == 0 || token.epoch.value + raises >= U64
  {
  }

  /** A token still validates after further steps exactly when none of them raised the epoch, or the counter wrapped. */
  lemma TokenLifetime(cfg: Config, s: State, steps: seq<Step>, token: FencingToken)
    requires token.epoch == s.epoch && s.epoch.value < U64 && Raises(cfg, s, steps) < U64
    ensures Validate(token, Run(cfg, s, steps).epoch) == Valid
            <==> Raises(cfg, s, steps) == 0 || s.epoch.value + Raises(cfg, s, steps) >= U64
  {
    EpochCountsRaises(cfg, s, steps);
    ValidAfter(token, Raises(cfg, s, steps), Run(cfg, s, steps).epoch);
  }

  lemma {:induction false} RaisesGrow(cfg: Config, s: State, steps: seq<Step>, k: nat)
    requires k < |steps|
    requires steps[k].Act? && steps[k].action.PromoteLeader? && steps[k].action in Run(cfg, s, steps[..k]).admitted
    ensures Raises(cfg, s, steps) >= 1
  {
    var front := steps[..|steps| - 1];
    if k < |front| {
      assert front[..k] == steps[..k];
      RaisesGrow(cfg, s, front, k);
    }
  }

  /** Once a promotion has taken effect, every token issued before it stays invalid (until the counter wraps). */
  lemma PromotionFencesOff(cfg: Config, s: State, steps: seq<Step>, k: nat, token: FencingToken)
    requires token.epoch == s.epoch && s.epoch.value + Raises(cfg, s, steps) < U64
    requires k < |steps|
    requires steps[k].Act? && steps[k].action.PromoteLeader? && steps[k].action in Run(cfg, s, steps[..k]).admitted
    ensures Validate(token, Run(cfg, s, steps).epoch) == EpochMismatch(token.epoch, Run(cfg, s, steps).epoch)
  {
    RaisesGrow(cfg, s, steps, k);
    TokenLifetime(cfg, s, steps, token);
  }
}
