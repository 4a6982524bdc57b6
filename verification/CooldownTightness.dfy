/**
 The cooldown bound is exact too: as many goroutines as there are permits all find the action
 cool before any of them has run it, and then all run it at one instant.
 */
module CooldownTightness {
  import opened Incidents
  import opened RepairInvariants
  import opened RepairProtocol
  import opened Tally
  import opened Tightness
  import opened Windows

  /** A runnable rule whose recipe begins with a registered, permitted action that has a cooldown. */
  ghost predicate Cooled(cfg: Config, check: string, action: string) {
    && Runnable(cfg, check)
    && var steps := cfg.recipes[cfg.rules[check].recipe];
       && steps != [] && steps[0].actionName == action && !steps[0].onFailureOnly && 0 <= steps[0].retries
       && action in cfg.registry && action !in cfg.guard.forbidden
       && (cfg.guard.allowed == {} || action in cfg.guard.allowed)
       && action in cfg.guard.cooldowns && 1 <= cfg.guard.cooldowns[action]
  }

  // ---- before the first repair starts ----

  /** The settings of the guardrails never change during a run. */
  ghost predicate SettingsKept(cfg: Config, s: State) {
    && s.guard.allowed == cfg.guard.allowed && s.guard.forbidden == cfg.guard.forbidden
    && s.guard.cooldowns == cfg.guard.cooldowns
  }

  /** As long as no repair has started, nothing has been executed. */
  ghost predicate NothingRun(s: State) {
    s.started == 0 ==> s.executions == map[] && s.guard.lastExecution == map[]
  }

  lemma PerformExecutes(cfg: Config, s: State, effect: Effect, ok: bool)
    ensures var t := Perform(cfg, s, effect, ok);
            && t.guard.allowed == s.guard.allowed && t.guard.forbidden == s.guard.forbidden
            && t.guard.cooldowns == s.guard.cooldowns
            && s.started <= t.started
            && (!effect.LogAction? ==> t.executions == s.executions && t.guard.lastExecution == s.guard.lastExecution)
  {
  }

  lemma OnlyExecutingLogs(cfg: Config, s: State, p: Proc, yes: bool, ok: bool)
    ensures Choose(cfg, s, p, yes, ok).1.LogAction? ==> p.Executing?
  {
  }

  lemma NothingRunStep(cfg: Config, s: State, l: Label)
    requires Fresh(cfg) && RepairsAddUp(s) && SettingsKept(cfg, s) && NothingRun(s)
    ensures SettingsKept(cfg, Step(cfg, s, l)) && NothingRun(Step(cfg, s, l))
  {
    if Enabled(cfg, s, l) && l.Go? {
      PerformExecutes(cfg, s, Choose(cfg, s, s.procs[l.i], l.yes, l.ok).1, l.ok);
      OnlyExecutingLogs(cfg, s, s.procs[l.i], l.yes, l.ok);
      SumPositive(s.procs, l.i, UnderWay);
    }
  }

  lemma {:induction false} NothingRunAlways(cfg: Config, s: State, labels: seq<Label>)
    requires Initial(cfg, s)
    ensures SettingsKept(cfg, Exec(cfg, s, labels)) && NothingRun(Exec(cfg, s, labels))
  {
    if labels != [] {
      var n := |labels| - 1;
      NothingRunAlways(cfg, s, labels[..n]);
      Accounting(cfg, s, labels[..n]);
      NothingRunStep(cfg, Exec(cfg, s, labels[..n]), labels[n]);
    }
  }

  // ---- trying the action ----

  /** Goroutine `i` moved, and neither the clock nor the guardrails did. */
  ghost predicate Unguarded(s: State, t: State, i: nat) {
    && i < |s.procs| == |t.procs| && t.procs == s.procs[i := t.procs[i]]
    && t.clock == s.clock && t.guard == s.guard && t.executions == s.executions
  }

  /** The goroutine is trying the first step of its recipe. */
  ghost predicate Trying(cfg: Config, p: Proc, check: string) {
    check in cfg.rules && cfg.rules[check].recipe in cfg.recipes &&
    var steps := cfg.recipes[cfg.rules[check].recipe];
    p.Executing? && steps != [] && p.step == steps[0] && p.attempt == 0
  }

  /** On the way from the rate limit to the first step of the recipe. */
  ghost predicate Starting(cfg: Config, p: Proc, check: string) {
    && check in cfg.rules && cfg.rules[check].recipe in cfg.recipes
    && (p.Admitted? || p.Announcing? || p.Running?) && p.rule == cfg.rules[check]
    && (p.Announcing? ==> p.steps == cfg.recipes[cfg.rules[check].recipe])
    && (p.Running? ==> p.steps == cfg.recipes[cfg.rules[check].recipe] && !p.previousFailed)
  }

  lemma StartingMoves(cfg: Config, s: State, i: nat, check: string, action: string)
    requires Cooled(cfg, check, action) && i < |s.procs| && Starting(cfg, s.procs[i], check)
    requires s.guard.CheckAction(action, s.clock).Permitted?
    ensures var t := Step(cfg, s, Go(i, true, true));
            && Unguarded(s, t, i) && Left(cfg, t.procs[i]) < Left(cfg, s.procs[i])
            && (Starting(cfg, t.procs[i], check) || Trying(cfg, t.procs[i], check))
  {
    var p := s.procs[i];
    if p.Admitted? {
      OneEvent(s.mgr, p.snap.checkName, Repairing, s.clock, true);
    }
    StartingPerforms(cfg, s, Choose(cfg, s, p, true, true).1);
  }

  lemma StartingPerforms(cfg: Config, s: State, effect: Effect)
    requires effect.Mark? || effect.Send? || effect.CountStart? || effect.Silent?
    ensures var t := Perform(cfg, s, effect, true);
            t.clock == s.clock && t.guard == s.guard && t.executions == s.executions && t.procs == s.procs
  {
  }

  lemma {:induction false} Try(cfg: Config, s: State, i: nat, check: string, action: string)
    returns (labels: seq<Label>)
    requires Cooled(cfg, check, action) && i < |s.procs| && Starting(cfg, s.procs[i], check)
    requires s.guard.CheckAction(action, s.clock).Permitted?
    ensures var t := Exec(cfg, s, labels); Unguarded(s, t, i) && Trying(cfg, t.procs[i], check)
    decreases Left(cfg, s.procs[i])
  {
    var l := Go(i, true, true);
    var t := Step(cfg, s, l);
    StartingMoves(cfg, s, i, check, action);
    var rest := [];
    if Starting(cfg, t.procs[i], check) {
      rest := Try(cfg, t, i, check, action);
    }
    labels := [l] + rest;
    ExecFirst(cfg, s, l, rest);
  }

  // ---- the run ----

  /**
   The first `run` goroutines have run the action, those up to `trying` are trying it, the others have been admitted.
   */
  ghost predicate Poised(cfg: Config, s: State, check: string, action: string, run: nat, trying: nat) {
    && run <= trying <= |s.procs|
    && (forall i :: run <= i < trying ==> Trying(cfg, s.procs[i], check))
    && (forall i :: trying <= i < |s.procs| ==> Starting(cfg, s.procs[i], check))
    && (run == 0 ==> s.guard.CheckAction(action, s.clock).Permitted?)
    && Log(s.executions, action) == seq(run, _ => s.clock)
  }

  lemma TryAll(cfg: Config, s: State, check: string, action: string) returns (labels: seq<Label>)
    requires Cooled(cfg, check, action) && Poised(cfg, s, check, action, 0, 0)
    ensures var t := Exec(cfg, s, labels); Poised(cfg, t, check, action, 0, |t.procs|) && |t.procs| == |s.procs|
  {
    labels := [];
    for k := 0 to |s.procs|
      invariant var t := Exec(cfg, s, labels); Poised(cfg, t, check, action, 0, k) && |t.procs| == |s.procs|
    {
      var more := Try(cfg, Exec(cfg, s, labels), k, check, action);
      ExecConcat(cfg, s, labels, more);
      labels := labels + more;
    }
  }

  /** The action of a goroutine that is trying it succeeds, however hot it is by then. */
  lemma Succeed(cfg: Config, s: State, check: string, action: string, run: nat)
    requires Cooled(cfg, check, action) && Poised(cfg, s, check, action, run, |s.procs|) && run < |s.procs|
    ensures var t := Step(cfg, s, Go(run, true, true));
            Poised(cfg, t, check, action, run + 1, |t.procs|) && |t.procs| == |s.procs|
  {
    var p, t := s.procs[run], Step(cfg, s, Go(run, true, true));
    assert Trying(cfg, p, check);
    assert Choose(cfg, s, p, true, true).1 == LogAction(action);
    assert t.procs[run + 1..] == s.procs[run + 1..];
    assert Log(t.executions, action) == Log(s.executions, action) + [s.clock];
    assert seq(run, _ => s.clock) + [s.clock] == seq(run + 1, _ => s.clock);
  }

  lemma SucceedAll(cfg: Config, s: State, check: string, action: string) returns (labels: seq<Label>)
    requires Cooled(cfg, check, action) && Poised(cfg, s, check, action, 0, |s.procs|)
    ensures var t := Exec(cfg, s, labels); Poised(cfg, t, check, action, |t.procs|, |t.procs|) && |t.procs| == |s.procs|
  {
    labels := [];
    for k := 0 to |s.procs|
      invariant var t := Exec(cfg, s, labels); Poised(cfg, t, check, action, k, |t.procs|) && |t.procs| == |s.procs|
    {
      Succeed(cfg, Exec(cfg, s, labels), check, action, k);
      assert (labels + [Go(k, true, true)])[..|labels|] == labels;
      labels := labels + [Go(k, true, true)];
    }
  }

  /** The goroutines of a check whose rule has recorded nothing are all admitted, and nothing has been executed yet. */
  lemma AdmitEnough(cfg: Config, s: State, check: string, action: string) returns (labels: seq<Label>)
    requires Initial(cfg, s) && Cooled(cfg, check, action) && check !in s.mgr.active
    ensures var t := Exec(cfg, s, labels); Poised(cfg, t, check, action, 0, 0) && |t.procs| == cfg.permits
  {
    var id := s.mgr.idCounter + 1;
    var a := SpawnAll(cfg, s, check, id, cfg.permits);
    var b := AdmitAll(cfg, Exec(cfg, s, a), check, id, 0);
    labels := a + b;
    ExecConcat(cfg, s, a, b);
    NothingRunAlways(cfg, s, labels);
  }

  /**
   From any initial state where the check has no incident there is a run in which every permit's goroutine runs the
   action within one cooldown.
   */
  lemma CooldownBoundIsReached(cfg: Config, s: State, check: string, action: string) returns (labels: seq<Label>)
    requires Initial(cfg, s) && Cooled(cfg, check, action) && check !in s.mgr.active
    ensures var t := Exec(cfg, s, labels);
            InWindow(Log(t.executions, action), cfg.guard.cooldowns[action], t.clock) == cfg.permits
  {
    var a := AdmitEnough(cfg, s, check, action);
    var b := TryAll(cfg, Exec(cfg, s, a), check, action);
    ExecConcat(cfg, s, a, b);
    var c := SucceedAll(cfg, Exec(cfg, s, a + b), check, action);
    ExecConcat(cfg, s, a + b, c);
    labels := a + b + c;
    var t := Exec(cfg, s, labels);
    AllNow(Log(t.executions, action), cfg.guard.cooldowns[action], t.clock);
  }
}
