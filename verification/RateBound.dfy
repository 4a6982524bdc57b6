/**
 The two guardrail bounds under every interleaving. The rate limit is tested when a repair is
 admitted but recorded only after the whole recipe has run, and a cooldown is tested before
 an action is tried but recorded only after it succeeded; in between, a goroutine holds one
 of the permits. So a window holds at most `limit - 1 + permits` repairs of a rule, and at
 most `permits` successes of an action.
 */
module RateBound {
  import opened Guardrails
  import opened RepairInvariants
  import opened RepairProtocol
  import opened Tally
  import opened Windows

  // ---- repairs per hour ----

  /** One for a goroutine that passed the rate limit of the rule and has not recorded its repair yet. */
  function InFlight(rule: string): Proc -> nat {
    (p: Proc) =>
      if (p.Admitted? || p.Announcing? || p.Running? || p.Executing? || p.Finished?) && p.rule.name == rule
      then 1 else 0
  }

  /** The kept history of the rule is a suffix of its complete log, missing only entries over an hour old. */
  ghost predicate HistoryKept(s: State, rule: string) {
    && Sorted(Log(s.repairs, rule)) && UpTo(Log(s.repairs, rule), s.clock)
    && SuffixKept(s.guard.History(rule), Log(s.repairs, rule), s.clock - HOUR)
  }

  ghost predicate RateKept(cfg: Config, s: State, rule: string, limit: int) {
    && rule in s.guard.maxRepairs && s.guard.maxRepairs[rule] == limit
    && HistoryKept(s, rule)
    && Gated(Log(s.repairs, rule), s.clock, Sum(s.procs, InFlight(rule)), HOUR, limit, cfg.permits)
  }

  lemma PruneHistory(s: State, rule: string)
    requires HistoryKept(s, rule)
    ensures var pruned, log := After(s.guard.History(rule), s.clock - HOUR), Log(s.repairs, rule);
            && pruned == After(log, s.clock - HOUR)
            && SuffixKept(pruned, log, s.clock - HOUR)
            && SuffixKept(pruned + [s.clock], log + [s.clock], s.clock - HOUR)
  {
    PrunedIsSuffix(s.guard.History(rule), Log(s.repairs, rule), s.clock - HOUR, s.clock - HOUR);
    ExtendSuffix(After(s.guard.History(rule), s.clock - HOUR), Log(s.repairs, rule), s.clock - HOUR, s.clock);
  }

  /** What an effect does to the kept history and the complete log of a rule. */
  lemma PerformLogs(cfg: Config, s: State, effect: Effect, ok: bool, rule: string)
    ensures var t, kept := Perform(cfg, s, effect, ok), s.guard.History(rule);
            && t.clock == s.clock && t.guard.maxRepairs == s.guard.maxRepairs
            && t.guard.History(rule) ==
                 (if effect == LogRepair(rule) then After(kept, s.clock - HOUR) + [s.clock]
                  else if effect == Prune(rule) && rule in s.guard.maxRepairs then After(kept, s.clock - HOUR)
                  else kept)
            && Log(t.repairs, rule) ==
                 (if effect == LogRepair(rule) then Log(s.repairs, rule) + [s.clock] else Log(s.repairs, rule))
  {
  }

  lemma PerformHistory(cfg: Config, s: State, effect: Effect, ok: bool, rule: string)
    requires HistoryKept(s, rule)
    ensures HistoryKept(Perform(cfg, s, effect, ok), rule)
  {
    PerformLogs(cfg, s, effect, ok, rule);
    var t := Perform(cfg, s, effect, ok);
    if effect == LogRepair(rule) {
      PruneHistory(s, rule);
      AppendSorted(Log(s.repairs, rule), s.clock);
    } else {
      assert Log(t.repairs, rule) == Log(s.repairs, rule);
      if t.guard.History(rule) != s.guard.History(rule) {
        PruneHistory(s, rule);
      }
    }
  }

  /** What ChooseRate says about a goroutine's step from `p` to `q`. */
  ghost predicate RateRelated(s: State, p: Proc, q: Proc, effect: Effect, rule: string) {
    match effect
    case Prune(r) =>
      InFlight(rule)(p) == 0 && (InFlight(rule)(q) == 1 ==> r == rule && s.guard.UnderLimit(rule, s.clock))
    case LogRepair(r) => InFlight(rule)(q) == 0 && (InFlight(rule)(p) == 1 <==> r == rule)
    case _ => InFlight(rule)(q) <= InFlight(rule)(p)
  }

  /** How one step of a goroutine relates to the gate of a rule. */
  lemma ChooseRate(cfg: Config, s: State, p: Proc, yes: bool, ok: bool, rule: string)
    ensures RateRelated(s, p, Choose(cfg, s, p, yes, ok).0, Choose(cfg, s, p, yes, ok).1, rule)
  {
  }

  /** How one step changes the number of repairs of the rule in flight. */
  lemma InFlightChange(s: State, i: nat, q: Proc, effect: Effect, rule: string)
    requires i < |s.procs| && RateRelated(s, s.procs[i], q, effect, rule)
    ensures var before, after := Sum(s.procs, InFlight(rule)), Sum(s.procs[i := q], InFlight(rule));
            && (if effect == LogRepair(rule) then after == before - 1 else after <= before + 1)
            && (before < after ==> s.guard.UnderLimit(rule, s.clock))
  {
    var p := s.procs[i];
    SumUpdate(s.procs, i, q, InFlight(rule));
    SumPositive(s.procs, i, InFlight(rule));
    assert InFlight(rule)(p) <= 1 && InFlight(rule)(q) <= 1;
  }

  lemma UnderLimitHasRoom(s: State, rule: string, limit: int)
    requires HistoryKept(s, rule) && rule in s.guard.maxRepairs && s.guard.maxRepairs[rule] == limit
    requires s.guard.UnderLimit(rule, s.clock)
    ensures CountAfter(Log(s.repairs, rule), s.clock - HOUR) < limit
  {
    PruneHistory(s, rule);
  }

  lemma PerformGate(cfg: Config, s: State, i: nat, q: Proc, effect: Effect, rule: string, limit: int)
    requires RateKept(cfg, s, rule, limit) && i < |s.procs|
    requires Sum(s.procs[i := q], InFlight(rule)) <= cfg.permits
    requires RateRelated(s, s.procs[i], q, effect, rule)
    ensures var log := if effect == LogRepair(rule) then Log(s.repairs, rule) + [s.clock] else Log(s.repairs, rule);
            Gated(log, s.clock, Sum(s.procs[i := q], InFlight(rule)), HOUR, limit, cfg.permits)
  {
    var before, after := Sum(s.procs, InFlight(rule)), Sum(s.procs[i := q], InFlight(rule));
    InFlightChange(s, i, q, effect, rule);
    if before < after {
      UnderLimitHasRoom(s, rule, limit);
    }
    GateStep(Log(s.repairs, rule), s.clock, before, after, effect == LogRepair(rule), HOUR, limit, cfg.permits);
  }

  lemma PerformRate(cfg: Config, s: State, i: nat, q: Proc, effect: Effect, ok: bool, rule: string, limit: int)
    requires RateKept(cfg, s, rule, limit) && i < |s.procs|
    requires Sum(s.procs[i := q], InFlight(rule)) <= cfg.permits
    requires RateRelated(s, s.procs[i], q, effect, rule)
    ensures RateKept(cfg, Perform(cfg, s, effect, ok).(procs := s.procs[i := q]), rule, limit)
  {
    PerformHistory(cfg, s, effect, ok, rule);
    PerformLogs(cfg, s, effect, ok, rule);
    PerformGate(cfg, s, i, q, effect, rule, limit);
    var t := Perform(cfg, s, effect, ok);
    assert HistoryKept(t.(procs := s.procs[i := q]), rule);
  }

  /** The permits bound whatever at most the permit holders do. */
  lemma HoldersBound(cfg: Config, s: State, i: nat, yes: bool, ok: bool, f: Proc -> nat)
    requires PermitsCounted(cfg, s) && Enabled(cfg, s, Go(i, yes, ok)) && forall p :: f(p) <= Holds(p)
    ensures Sum(s.procs[i := Choose(cfg, s, s.procs[i], yes, ok).0], f) <= cfg.permits
  {
    var (q, effect) := Choose(cfg, s, s.procs[i], yes, ok);
    ChoosePermits(cfg, s, s.procs[i], yes, ok);
    PerformPermits(cfg, s, i, q, effect, ok);
    SumBounds(s.procs[i := q], f, Holds);
  }

  lemma GoRate(cfg: Config, s: State, i: nat, yes: bool, ok: bool, rule: string, limit: int)
    requires PermitsCounted(cfg, s) && RateKept(cfg, s, rule, limit) && Enabled(cfg, s, Go(i, yes, ok))
    ensures RateKept(cfg, Move(cfg, s, i, yes, ok), rule, limit)
  {
    var (q, effect) := Choose(cfg, s, s.procs[i], yes, ok);
    HoldersBound(cfg, s, i, yes, ok, InFlight(rule));
    ChooseRate(cfg, s, s.procs[i], yes, ok, rule);
    PerformRate(cfg, s, i, q, effect, ok, rule, limit);
  }

  lemma FetchRate(cfg: Config, s: State, rule: string, limit: int)
    requires RateKept(cfg, s, rule, limit) && s.loop.Got?
    ensures RateKept(cfg, Step(cfg, s, Fetch), rule, limit)
  {
    if s.loop.check in s.mgr.active {
      SumAppend(s.procs, Waiting(s.mgr.active[s.loop.check]), InFlight(rule));
    }
  }

  lemma TickRate(cfg: Config, s: State, to: int, rule: string, limit: int)
    requires RateKept(cfg, s, rule, limit) && s.clock <= to
    ensures RateKept(cfg, Step(cfg, s, Tick(to)), rule, limit)
  {
    UpToLater(Log(s.repairs, rule), s.clock, to);
    SuffixLater(s.guard.History(rule), Log(s.repairs, rule), s.clock - HOUR, to - HOUR);
    GateTick(Log(s.repairs, rule), s.clock, to, Sum(s.procs, InFlight(rule)), HOUR, limit, cfg.permits);
  }

  lemma RateStep(cfg: Config, s: State, l: Label, rule: string, limit: int)
    requires Fresh(cfg) && rule in cfg.guard.maxRepairs && cfg.guard.maxRepairs[rule] == limit && 1 <= limit
    requires PermitsCounted(cfg, s) && RateKept(cfg, s, rule, limit)
    ensures RateKept(cfg, Step(cfg, s, l), rule, limit)
  {
    if Enabled(cfg, s, l) {
      match l {
        case Go(i, yes, ok) => GoRate(cfg, s, i, yes, ok, rule, limit);
        case Fetch => FetchRate(cfg, s, rule, limit);
        case Tick(to) => TickRate(cfg, s, to, rule, limit);
        case Restart(_, _) => GateOpens(s.clock, HOUR, limit, cfg.permits);
        case _ =>
      }
    }
  }

  lemma {:induction false} RateKeptAlways(cfg: Config, s: State, labels: seq<Label>, rule: string, limit: int)
    requires Initial(cfg, s) && rule in cfg.guard.maxRepairs && cfg.guard.maxRepairs[rule] == limit && 1 <= limit
    ensures RateKept(cfg, Exec(cfg, s, labels), rule, limit)
  {
    if labels == [] {
      GateOpens(s.clock, HOUR, limit, cfg.permits);
    } else {
      var n := |labels| - 1;
      RateKeptAlways(cfg, s, labels[..n], rule, limit);
      Accounting(cfg, s, labels[..n]);
      RateStep(cfg, Exec(cfg, s, labels[..n]), labels[n], rule, limit);
    }
  }

  /**
   However the goroutines interleave, no hour of a process holds more than `limit - 1 + permits` repairs of a rule.
   */
  lemma RepairsPerHour(cfg: Config, s: State, labels: seq<Label>, rule: string, t: int)
    requires Initial(cfg, s) && rule in cfg.guard.maxRepairs && 1 <= cfg.guard.maxRepairs[rule]
    ensures var n := InWindow(Log(Exec(cfg, s, labels).repairs, rule), 60 * 60 * 1_000_000_000, t);
            && n <= cfg.guard.maxRepairs[rule] - 1 + cfg.permits
            && (cfg.permits == PERMITS ==> n <= cfg.guard.maxRepairs[rule] + 9)
            && (cfg.permits == 1 ==> n <= cfg.guard.maxRepairs[rule])
  {
    RateKeptAlways(cfg, s, labels, rule, cfg.guard.maxRepairs[rule]);
  }

  /** A rule whose repairs are all at least an hour old is under its limit. */
  lemma OldRepairsDoNotCount(cfg: Config, s: State, rule: string, limit: int)
    requires RateKept(cfg, s, rule, limit) && 1 <= limit && UpTo(Log(s.repairs, rule), s.clock - HOUR)
    ensures s.guard.UnderLimit(rule, s.clock)
  {
    PruneHistory(s, rule);
    NoneAfter(Log(s.repairs, rule), s.clock - HOUR);
  }

  /** The limit never shuts a rule out for good: once an hour has passed the rule is under its limit again. */
  lemma {:induction false} LimitReopens(cfg: Config, s: State, labels: seq<Label>, rule: string, to: int)
    requires Initial(cfg, s) && rule in cfg.guard.maxRepairs && 1 <= cfg.guard.maxRepairs[rule]
    requires Exec(cfg, s, labels).clock + 60 * 60 * 1_000_000_000 <= to
    ensures var t := Step(cfg, Exec(cfg, s, labels), Tick(to)); t.clock == to && t.guard.UnderLimit(rule, t.clock)
  {
    var u := Exec(cfg, s, labels);
    RateKeptAlways(cfg, s, labels, rule, cfg.guard.maxRepairs[rule]);
    TickRate(cfg, u, to, rule, cfg.guard.maxRepairs[rule]);
    UpToLater(Log(u.repairs, rule), u.clock, to - HOUR);
    OldRepairsDoNotCount(cfg, Step(cfg, u, Tick(to)), rule, cfg.guard.maxRepairs[rule]);
  }

  // ---- cooldowns ----

  /** One for a goroutine that is trying the action. */
  function Trying(action: string): Proc -> nat {
    (p: Proc) => if p.Executing? && p.step.actionName == action then 1 else 0
  }

  /** The guardrails remember exactly the last entry of the complete log of the action's successes. */
  ghost predicate LastKept(s: State, action: string) {
    var log := Log(s.executions, action);
    && Sorted(log) && UpTo(log, s.clock)
    && (if log == [] then action !in s.guard.lastExecution
        else action in s.guard.lastExecution && s.guard.lastExecution[action] == log[|log| - 1])
  }

  ghost predicate CooldownKept(cfg: Config, s: State, action: string, cooldown: int) {
    && action in s.guard.cooldowns && s.guard.cooldowns[action] == cooldown
    && LastKept(s, action)
    && Gated(Log(s.executions, action), s.clock, Sum(s.procs, Trying(action)), cooldown, 1, cfg.permits)
  }

  /** What one step of a goroutine from `p` to `q` may do about the action. */
  ghost predicate CooldownRelated(s: State, p: Proc, q: Proc, effect: Effect, action: string) {
    && (effect.LogAction? ==> Trying(action)(q) == 0 && (Trying(action)(p) == 1 <==> effect.action == action))
    && (!effect.LogAction? && Trying(action)(q) == 1 && Trying(action)(p) == 0 ==>
          effect.Silent? && s.guard.CheckAction(action, s.clock).Permitted?)
  }

  lemma ChooseCooldown(cfg: Config, s: State, p: Proc, yes: bool, ok: bool, action: string)
    ensures CooldownRelated(s, p, Choose(cfg, s, p, yes, ok).0, Choose(cfg, s, p, yes, ok).1, action)
  {
  }

  /** A permitted action has no success within its cooldown. */
  lemma PermittedIsCool(s: State, action: string, cooldown: int)
    requires LastKept(s, action) && action in s.guard.cooldowns && s.guard.cooldowns[action] == cooldown
    requires s.guard.CheckAction(action, s.clock).Permitted?
    ensures CountAfter(Log(s.executions, action), s.clock - cooldown) == 0
  {
    LastIsLatest(Log(s.executions, action), s.clock - cooldown);
    NoneAfter(Log(s.executions, action), s.clock - cooldown);
  }

  /** What an effect does to the last execution and the complete log of an action. */
  lemma PerformExecutionLogs(cfg: Config, s: State, effect: Effect, ok: bool, action: string)
    ensures var t := Perform(cfg, s, effect, ok);
            && t.clock == s.clock && t.guard.cooldowns == s.guard.cooldowns
            && if effect == LogAction(action)
               then Log(t.executions, action) == Log(s.executions, action) + [s.clock] && LastAt(t, action, s.clock)
               else Log(t.executions, action) == Log(s.executions, action) && SameLast(s, t, action)
  {
  }

  ghost predicate LastAt(s: State, action: string, at: int) {
    action in s.guard.lastExecution && s.guard.lastExecution[action] == at
  }

  ghost predicate SameLast(s: State, t: State, action: string) {
    && (action in t.guard.lastExecution <==> action in s.guard.lastExecution)
    && (action in t.guard.lastExecution ==> t.guard.lastExecution[action] == s.guard.lastExecution[action])
  }

  lemma LastAppended(s: State, t: State, action: string)
    requires LastKept(s, action) && t.clock == s.clock
    requires Log(t.executions, action) == Log(s.executions, action) + [s.clock] && LastAt(t, action, s.clock)
    ensures LastKept(t, action)
  {
    AppendSorted(Log(s.executions, action), s.clock);
  }

  lemma LastUnchanged(s: State, t: State, action: string)
    requires LastKept(s, action) && t.clock == s.clock
    requires Log(t.executions, action) == Log(s.executions, action) && SameLast(s, t, action)
    ensures LastKept(t, action)
  {
  }

  lemma PerformKeepsLast(cfg: Config, s: State, effect: Effect, ok: bool, action: string)
    requires LastKept(s, action)
    ensures LastKept(Perform(cfg, s, effect, ok), action)
  {
    PerformExecutionLogs(cfg, s, effect, ok, action);
    if effect == LogAction(action) {
      LastAppended(s, Perform(cfg, s, effect, ok), action);
    } else {
      LastUnchanged(s, Perform(cfg, s, effect, ok), action);
    }
  }

  /** How one step changes the number of goroutines trying the action. */
  lemma TryingChange(s: State, i: nat, q: Proc, effect: Effect, action: string)
    requires i < |s.procs| && CooldownRelated(s, s.procs[i], q, effect, action)
    ensures var before, after := Sum(s.procs, Trying(action)), Sum(s.procs[i := q], Trying(action));
            && (if effect == LogAction(action) then after == before - 1 else after <= before + 1)
            && (before < after ==> s.guard.CheckAction(action, s.clock).Permitted?)
  {
    var p := s.procs[i];
    SumUpdate(s.procs, i, q, Trying(action));
    SumPositive(s.procs, i, Trying(action));
    assert Trying(action)(p) <= 1 && Trying(action)(q) <= 1;
  }

  lemma PerformTrying(s: State, i: nat, q: Proc, effect: Effect, action: string, log: seq<int>, cooldown: int,
                      permits: nat)
    requires i < |s.procs| && CooldownRelated(s, s.procs[i], q, effect, action)
    requires Gated(log, s.clock, Sum(s.procs, Trying(action)), cooldown, 1, permits)
    requires s.guard.CheckAction(action, s.clock).Permitted? ==> CountAfter(log, s.clock - cooldown) == 0
    requires Sum(s.procs[i := q], Trying(action)) <= permits
    ensures Gated(if effect == LogAction(action) then log + [s.clock] else log, s.clock,
                  Sum(s.procs[i := q], Trying(action)), cooldown, 1, permits)
  {
    TryingChange(s, i, q, effect, action);
    GateStep(log, s.clock, Sum(s.procs, Trying(action)), Sum(s.procs[i := q], Trying(action)),
             effect == LogAction(action), cooldown, 1, permits);
  }

  lemma PerformCooldown(cfg: Config, s: State, i: nat, q: Proc, effect: Effect, ok: bool, action: string, cooldown: int)
    requires CooldownKept(cfg, s, action, cooldown) && i < |s.procs|
    requires Sum(s.procs[i := q], Trying(action)) <= cfg.permits
    requires CooldownRelated(s, s.procs[i], q, effect, action)
    ensures CooldownKept(cfg, Perform(cfg, s, effect, ok).(procs := s.procs[i := q]), action, cooldown)
  {
    PerformExecutionLogs(cfg, s, effect, ok, action);
    PerformKeepsLast(cfg, s, effect, ok, action);
    if s.guard.CheckAction(action, s.clock).Permitted? {
      PermittedIsCool(s, action, cooldown);
    }
    PerformTrying(s, i, q, effect, action, Log(s.executions, action), cooldown, cfg.permits);
    assert LastKept(Perform(cfg, s, effect, ok).(procs := s.procs[i := q]), action);
  }

  lemma GoCooldown(cfg: Config, s: State, i: nat, yes: bool, ok: bool, action: string, cooldown: int)
    requires PermitsCounted(cfg, s) && CooldownKept(cfg, s, action, cooldown) && Enabled(cfg, s, Go(i, yes, ok))
    ensures CooldownKept(cfg, Move(cfg, s, i, yes, ok), action, cooldown)
  {
    var (q, effect) := Choose(cfg, s, s.procs[i], yes, ok);
    HoldersBound(cfg, s, i, yes, ok, Trying(action));
    ChooseCooldown(cfg, s, s.procs[i], yes, ok, action);
    PerformCooldown(cfg, s, i, q, effect, ok, action, cooldown);
  }

  lemma FetchCooldown(cfg: Config, s: State, action: string, cooldown: int)
    requires CooldownKept(cfg, s, action, cooldown) && s.loop.Got?
    ensures CooldownKept(cfg, Step(cfg, s, Fetch), action, cooldown)
  {
    if s.loop.check in s.mgr.active {
      SumAppend(s.procs, Waiting(s.mgr.active[s.loop.check]), Trying(action));
    }
  }

  lemma TickCooldown(cfg: Config, s: State, to: int, action: string, cooldown: int)
    requires CooldownKept(cfg, s, action, cooldown) && s.clock <= to
    ensures CooldownKept(cfg, Step(cfg, s, Tick(to)), action, cooldown)
  {
    UpToLater(Log(s.executions, action), s.clock, to);
    GateTick(Log(s.executions, action), s.clock, to, Sum(s.procs, Trying(action)), cooldown, 1, cfg.permits);
  }

  lemma CooldownStep(cfg: Config, s: State, l: Label, action: string, cooldown: int)
    requires Fresh(cfg) && action in cfg.guard.cooldowns && cfg.guard.cooldowns[action] == cooldown
    requires PermitsCounted(cfg, s) && CooldownKept(cfg, s, action, cooldown)
    ensures CooldownKept(cfg, Step(cfg, s, l), action, cooldown)
  {
    if Enabled(cfg, s, l) {
      match l {
        case Go(i, yes, ok) => GoCooldown(cfg, s, i, yes, ok, action, cooldown);
        case Fetch => FetchCooldown(cfg, s, action, cooldown);
        case Tick(to) => TickCooldown(cfg, s, to, action, cooldown);
        case Restart(_, _) => GateOpens(s.clock, cooldown, 1, cfg.permits);
        case _ =>
      }
    }
  }

  lemma {:induction false} CooldownKeptAlways(cfg: Config, s: State, labels: seq<Label>, action: string, cooldown: int)
    requires Initial(cfg, s) && action in cfg.guard.cooldowns && cfg.guard.cooldowns[action] == cooldown
    ensures CooldownKept(cfg, Exec(cfg, s, labels), action, cooldown)
  {
    if labels == [] {
      GateOpens(s.clock, cooldown, 1, cfg.permits);
    } else {
      var n := |labels| - 1;
      CooldownKeptAlways(cfg, s, labels[..n], action, cooldown);
      Accounting(cfg, s, labels[..n]);
      CooldownStep(cfg, Exec(cfg, s, labels[..n]), labels[n], action, cooldown);
    }
  }

  /** No window of a cooldown's length holds more successes of its action than there are permits. */
  lemma SuccessesPerCooldown(cfg: Config, s: State, labels: seq<Label>, action: string, t: int)
    requires Initial(cfg, s) && action in cfg.guard.cooldowns
    ensures InWindow(Log(Exec(cfg, s, labels).executions, action), cfg.guard.cooldowns[action], t) <= cfg.permits
  {
    CooldownKeptAlways(cfg, s, labels, action, cfg.guard.cooldowns[action]);
  }

  /** A cooldown ends: once its length has passed since the last success, it no longer holds the action back. */
  lemma CooldownEnds(cfg: Config, s: State, labels: seq<Label>, action: string, to: int)
    requires Initial(cfg, s) && action in cfg.guard.cooldowns && Exec(cfg, s, labels).clock <= to
    ensures var log, t := Log(Exec(cfg, s, labels).executions, action), Step(cfg, Exec(cfg, s, labels), Tick(to));
            && t.clock == to
            && (log == [] || log[|log| - 1] + cfg.guard.cooldowns[action] <= to ==>
                  t.guard.CheckAction(action, t.clock) != CoolingDown)
  {
    CooldownKeptAlways(cfg, s, labels, action, cfg.guard.cooldowns[action]);
  }

  /** With a single permit, successive successes of an action are at least its cooldown apart. */
  lemma SerialSuccessesApart(cfg: Config, s: State, labels: seq<Label>, action: string, i: nat, j: nat)
    requires Initial(cfg, s) && action in cfg.guard.cooldowns && cfg.permits == 1
    requires i < j < |Log(Exec(cfg, s, labels).executions, action)|
    ensures var log := Log(Exec(cfg, s, labels).executions, action);
            log[i] + cfg.guard.cooldowns[action] <= log[j]
  {
    var cooldown := cfg.guard.cooldowns[action];
    var log := Log(Exec(cfg, s, labels).executions, action);
    CooldownKeptAlways(cfg, s, labels, action, cooldown);
    if 0 < cooldown {
      SuccessesPerCooldown(cfg, s, labels, action, log[j]);
      SpacedApart(log, cooldown, i, j);
    } else {
      SortedAt(log, i, j);
    }
  }
}
