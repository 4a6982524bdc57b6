/**
 Whole runs of the guardrails: the rate limit answers from a pruned history exactly as it
 would from the complete log, and the action lists admit nothing that was not listed.
 */
module Pruning {
  import opened Guardrails
  import opened Windows
  import opened Wrappers

  datatype Call =
    | CheckRate(rule: string, at: int)
    | RecordRepair(rule: string, at: int, later: int)
    | CheckAction(action: string, at: int)
    | RecordAction(action: string, at: int)
    | SetLimit(rule: string, limit: int)
    | SetCooldown(action: string, duration: int)
    | Allow(action: string)

  function Step(s: GuardState, call: Call): GuardState {
    match call
    case CheckRate(rule, at) => s.Pruned(rule, at)
    case RecordRepair(rule, at, later) => s.RecordRepair(rule, at, later)
    case CheckAction(_, _) => s
    case RecordAction(action, at) => s.RecordActionExecution(action, at)
    case SetLimit(rule, limit) => s.SetMaxRepairsPerHour(rule, limit)
    case SetCooldown(action, duration) => s.SetCooldown(action, duration)
    case Allow(action) => s.AllowAction(action)
  }

  function Run(calls: seq<Call>): GuardState {
    if calls == [] then INITIAL else Step(Run(calls[..|calls| - 1]), calls[|calls| - 1])
  }

  /** The last clock reading of the run; `start` when there was none. */
  function Clock(calls: seq<Call>, start: int): int {
    if calls == [] then start else
    match calls[|calls| - 1]
    case CheckRate(_, at) => at
    case RecordRepair(_, _, later) => later
    case CheckAction(_, at) => at
    case RecordAction(_, at) => at
    case _ => Clock(calls[..|calls| - 1], start)
  }

  /** The clock readings of the run never go back. */
  ghost predicate Timely(calls: seq<Call>, start: int) {
    calls == [] ||
    (var before, call := calls[..|calls| - 1], calls[|calls| - 1];
     && Timely(before, start)
     && (call.CheckRate? || call.RecordRepair? || call.CheckAction? || call.RecordAction? ==>
         Clock(before, start) <= call.at)
     && (call.RecordRepair? ==> call.at <= call.later))
  }

  /** Every repair of the rule that was ever recorded, oldest first, never pruned. */
  function FullLog(calls: seq<Call>, rule: string): seq<int> {
    if calls == [] then [] else Extended(FullLog(calls[..|calls| - 1], rule), calls[|calls| - 1], rule)
  }

  function Extended(log: seq<int>, call: Call, rule: string): seq<int> {
    if call.RecordRepair? && call.rule == rule then log + [call.later] else log
  }

  /** Whether the call prunes the history of the rule. */
  predicate Prunes(s: GuardState, call: Call, rule: string) {
    && (call.RecordRepair? || (call.CheckRate? && rule in s.maxRepairs))
    && call.rule == rule
  }

  /** The history of a rule before the call extends it: pruned or not. */
  function Remaining(s: GuardState, call: Call, rule: string): seq<int> {
    if Prunes(s, call, rule) then After(s.History(rule), call.at - HOUR) else s.History(rule)
  }

  /** One call prunes the history of a rule, prunes and extends it, or leaves it alone. */
  lemma HistoryStep(s: GuardState, call: Call, rule: string)
    ensures Step(s, call).History(rule) == Extended(Remaining(s, call, rule), call, rule)
  {
  }

  lemma PrunedRemains(history: seq<int>, log: seq<int>, before: int, at: int, after: int)
    requires Sorted(log) && SuffixKept(history, log, before - HOUR) && before <= at <= after
    ensures SuffixKept(After(history, at - HOUR), log, after - HOUR)
  {
    PrunedIsSuffix(history, log, before - HOUR, at - HOUR);
    SuffixLater(After(history, at - HOUR), log, at - HOUR, after - HOUR);
  }

  lemma RemainingIsSuffix(s: GuardState, call: Call, rule: string, log: seq<int>, before: int, after: int)
    requires Sorted(log) && SuffixKept(s.History(rule), log, before - HOUR) && before <= after
    requires Prunes(s, call, rule) ==> before <= call.at <= after
    ensures SuffixKept(Remaining(s, call, rule), log, after - HOUR)
  {
    if Prunes(s, call, rule) {
      PrunedRemains(s.History(rule), log, before, call.at, after);
    } else {
      SuffixLater(s.History(rule), log, before - HOUR, after - HOUR);
    }
  }

  lemma ExtendedSuffix(kept: seq<int>, log: seq<int>, call: Call, rule: string, horizon: int)
    requires SuffixKept(kept, log, horizon)
    ensures SuffixKept(Extended(kept, call, rule), Extended(log, call, rule), horizon)
  {
    if call.RecordRepair? {
      ExtendSuffix(kept, log, horizon, call.later);
    }
  }

  /** One call keeps the history of a rule a suffix of its full log. */
  lemma SuffixStep(s: GuardState, call: Call, rule: string, log: seq<int>, before: int, after: int)
    requires Sorted(log) && SuffixKept(s.History(rule), log, before - HOUR) && before <= after
    requires Prunes(s, call, rule) ==> before <= call.at <= after
    ensures SuffixKept(Step(s, call).History(rule), Extended(log, call, rule), after - HOUR)
  {
    HistoryStep(s, call, rule);
    RemainingIsSuffix(s, call, rule, log, before, after);
    ExtendedSuffix(Remaining(s, call, rule), log, call, rule, after - HOUR);
  }

  /** The last call of a timely run reads the clock no earlier than the calls before it. */
  lemma ClockMoves(calls: seq<Call>, start: int)
    requires Timely(calls, start) && calls != []
    ensures var before, call := calls[..|calls| - 1], calls[|calls| - 1];
            && Timely(before, start) && Clock(before, start) <= Clock(calls, start)
            && (call.CheckRate? || call.RecordRepair? ==> Clock(before, start) <= call.at <= Clock(calls, start))
            && (call.RecordAction? ==> Clock(before, start) <= call.at == Clock(calls, start))
            && (call.RecordRepair? ==> call.later == Clock(calls, start))
  {
  }

  lemma ExtendedSorted(log: seq<int>, call: Call, rule: string, before: int, after: int)
    requires Sorted(log) && UpTo(log, before) && before <= after && (call.RecordRepair? ==> call.later == after)
    ensures Sorted(Extended(log, call, rule)) && UpTo(Extended(log, call, rule), after)
  {
    UpToLater(log, before, after);
    AppendSorted(log, after);
  }

  lemma {:induction false} LogIsSorted(calls: seq<Call>, start: int, rule: string)
    requires Timely(calls, start)
    ensures Sorted(FullLog(calls, rule)) && UpTo(FullLog(calls, rule), Clock(calls, start))
  {
    if calls != [] {
      var before, call := calls[..|calls| - 1], calls[|calls| - 1];
      ClockMoves(calls, start);
      LogIsSorted(before, start, rule);
      ExtendedSorted(FullLog(before, rule), call, rule, Clock(before, start), Clock(calls, start));
    }
  }

  lemma {:induction false} HistoryStaysSuffix(calls: seq<Call>, start: int, rule: string)
    requires Timely(calls, start)
    ensures SuffixKept(Run(calls).History(rule), FullLog(calls, rule), Clock(calls, start) - HOUR)
  {
    if calls != [] {
      var before, call := calls[..|calls| - 1], calls[|calls| - 1];
      ClockMoves(calls, start);
      HistoryStaysSuffix(before, start, rule);
      LogIsSorted(before, start, rule);
      SuffixStep(Run(before), call, rule, FullLog(before, rule), Clock(before, start), Clock(calls, start));
    }
  }

  /**
   The kept history is always the end of the full log, which is sorted, and only entries at least an hour old are
   missing.
   */
  lemma HistoryIsSuffix(calls: seq<Call>, start: int, rule: string)
    requires Timely(calls, start)
    ensures var kept, log := Run(calls).History(rule), FullLog(calls, rule);
            && Sorted(log) && |kept| <= |log|
            && (forall i :: 0 <= i < |kept| ==> kept[i] == log[|log| - |kept| + i])
            && forall i :: 0 <= i < |log| - |kept| ==> log[i] <= Clock(calls, start) - HOUR
  {
    LogIsSorted(calls, start, rule);
    HistoryStaysSuffix(calls, start, rule);
    SuffixMeans(Run(calls).History(rule), FullLog(calls, rule), Clock(calls, start) - HOUR);
  }

  /** Pruning is invisible: each rate-limit answer is the one the complete log would give. */
  lemma PruningInvisible(calls: seq<Call>, start: int, rule: string, now: int)
    requires Timely(calls, start) && Clock(calls, start) <= now
    ensures Run(calls).UnderLimit(rule, now) <==>
            (rule in Run(calls).maxRepairs ==>
               CountAfter(FullLog(calls, rule), now - 60 * 60 * 1_000_000_000) < Run(calls).maxRepairs[rule])
  {
    HistoryStaysSuffix(calls, start, rule);
    PruneSuffix(Run(calls).History(rule), FullLog(calls, rule), Clock(calls, start) - HOUR, now - HOUR);
  }

  // ---- verdicts ----

  /** Every execution of the action that was ever recorded, oldest first. */
  function Executions(calls: seq<Call>, action: string): seq<int> {
    if calls == [] then [] else
    var before, call := Executions(calls[..|calls| - 1], action), calls[|calls| - 1];
    if call.RecordAction? && call.action == action then before + [call.at] else before
  }

  /** The cooldown last set for the action, if any was. */
  function LastCooldown(calls: seq<Call>, action: string): Option<int> {
    if calls == [] then None else
    var call := calls[|calls| - 1];
    if call.SetCooldown? && call.action == action
    then Some(call.duration)
    else LastCooldown(calls[..|calls| - 1], action)
  }

  /** The guardrails remember of an action its last cooldown and the last of its executions. */
  ghost predicate Remembered(s: GuardState, action: string, cooldown: Option<int>, log: seq<int>) {
    && (if cooldown == None then action !in s.cooldowns
        else action in s.cooldowns && s.cooldowns[action] == cooldown.value)
    && (if log == [] then action !in s.lastExecution
        else action in s.lastExecution && s.lastExecution[action] == log[|log| - 1])
  }

  lemma {:induction false} RunRemembers(calls: seq<Call>, action: string)
    ensures Remembered(Run(calls), action, LastCooldown(calls, action), Executions(calls, action))
  {
    if calls != [] {
      RunRemembers(calls[..|calls| - 1], action);
    }
  }

  lemma {:induction false} ExecutionsSorted(calls: seq<Call>, start: int, action: string)
    requires Timely(calls, start)
    ensures Sorted(Executions(calls, action)) && UpTo(Executions(calls, action), Clock(calls, start))
  {
    if calls != [] {
      var before, call := calls[..|calls| - 1], calls[|calls| - 1];
      ClockMoves(calls, start);
      ExecutionsSorted(before, start, action);
      UpToLater(Executions(before, action), Clock(before, start), Clock(calls, start));
      if call.RecordAction? && call.action == action {
        AppendSorted(Executions(before, action), call.at);
      }
    }
  }

  /** Whether the last entry of a sorted log lies after the cutoff tells whether any does. */
  lemma LastTells(log: seq<int>, cutoff: int)
    requires Sorted(log)
    ensures CountAfter(log, cutoff) == 0 <==> log == [] || log[|log| - 1] <= cutoff
  {
    if log != [] && log[|log| - 1] <= cutoff {
      LastIsLatest(log, cutoff);
      NoneAfter(log, cutoff);
    }
  }

  /**
   What the action lists say after a run: an action is forbidden until it is allowed, and one not built in is not
   allowed until then.
   */
  lemma {:induction false} ListsAfter(calls: seq<Call>, action: string)
    ensures action in Run(calls).forbidden <==> action in DEFAULT_FORBIDDEN && Allow(action) !in calls
    ensures action in Run(calls).allowed <==> action in DEFAULT_ALLOWED || Allow(action) in calls
    ensures Run(calls).allowed != {}
  {
    if calls == [] {
      assert "wait" in INITIAL.allowed;
    } else {
      var before, call := calls[..|calls| - 1], calls[|calls| - 1];
      ListsAfter(before, action);
      assert calls == before + [call];
    }
  }

  /**
   The verdict on an action after any timely run: the lists decide first, and an action they let through is cooling down
   exactly when it was given a cooldown and some execution of it lies within the last one given.
   */
  lemma VerdictAfter(calls: seq<Call>, start: int, action: string, now: int)
    requires Timely(calls, start) && Clock(calls, start) <= now
    ensures var cooldown := LastCooldown(calls, action);
            Run(calls).CheckAction(action, now) ==
            if action in DEFAULT_FORBIDDEN && Allow(action) !in calls then Forbidden
            else if action !in DEFAULT_ALLOWED && Allow(action) !in calls then NotAllowed
            else if cooldown.Some? && 0 < CountAfter(Executions(calls, action), now - cooldown.value) then CoolingDown
            else Permitted
  {
    var log, cooldown := Executions(calls, action), LastCooldown(calls, action);
    ListsAfter(calls, action);
    RunRemembers(calls, action);
    ExecutionsSorted(calls, start, action);
    if cooldown.Some? {
      LastTells(log, now - cooldown.value);
    }
  }

  /** An action can only ever be permitted if it is built in or was explicitly allowed during the run. */
  lemma {:induction false} OnlyListedActions(calls: seq<Call>, action: string, now: int)
    ensures Run(calls).allowed != {} && Run(calls).allowed !! Run(calls).forbidden
    ensures action in Run(calls).allowed <==> action in DEFAULT_ALLOWED || Allow(action) in calls
    ensures Run(calls).CheckAction(action, now).Permitted? ==> action in DEFAULT_ALLOWED || Allow(action) in calls
  {
    ListsAfter(calls, action);
    ListsApart(calls);
  }

  lemma {:induction false} ListsApart(calls: seq<Call>)
    ensures Run(calls).allowed !! Run(calls).forbidden
  {
    if calls == [] {
      DefaultsApart();
    } else {
      ListsApart(calls[..|calls| - 1]);
    }
  }

  lemma DefaultsApart()
    ensures INITIAL.allowed !! INITIAL.forbidden
  {
  }
}
