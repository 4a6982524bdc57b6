/**
 What every step of the repair protocol keeps: the semaphore counts its holders, the metrics
 add up, and a goroutine that got past the Open test holds an Open snapshot and its rule.
 */
module RepairInvariants {
  import opened Incidents
  import opened RepairProtocol
  import opened Tally
  import Recipes
  import opened Wrappers

  // ---- runs ----

  lemma {:induction false} ExecConcat(cfg: Config, s: State, a: seq<Label>, b: seq<Label>)
    ensures Exec(cfg, s, a + b) == Exec(cfg, Exec(cfg, s, a), b)
  {
    if b == [] {
      assert a + b == a;
    } else {
      var n := |b| - 1;
      assert (a + b)[..|a| + n] == a + b[..n];
      ExecConcat(cfg, s, a, b[..n]);
    }
  }

  lemma ExecFirst(cfg: Config, s: State, l: Label, rest: seq<Label>)
    ensures Exec(cfg, s, [l] + rest) == Exec(cfg, Step(cfg, s, l), rest)
  {
    ExecConcat(cfg, s, [l], rest);
    assert [l][..0] == [];
    assert Exec(cfg, s, [l]) == Step(cfg, s, l);
  }

  // ---- permits ----

  function Holds(p: Proc): nat {
    if p.Waiting? || p.Done? then 0 else 1
  }

  ghost predicate PermitsCounted(cfg: Config, s: State) {
    s.held == Sum(s.procs, Holds) && s.held <= cfg.permits
  }

  lemma ChoosePermits(cfg: Config, s: State, p: Proc, yes: bool, ok: bool)
    ensures var (q, effect) := Choose(cfg, s, p, yes, ok);
            && Holds(q) + (if effect.ReturnPermit? then 1 else 0) == Holds(p) + (if effect.TakePermit? then 1 else 0)
            && (effect.TakePermit? <==> p.Waiting? && yes)
  {
  }

  lemma PerformPermits(cfg: Config, s: State, i: nat, q: Proc, effect: Effect, ok: bool)
    requires PermitsCounted(cfg, s) && i < |s.procs|
    requires Holds(q) + (if effect.ReturnPermit? then 1 else 0) ==
               Holds(s.procs[i]) + (if effect.TakePermit? then 1 else 0)
    requires effect.TakePermit? ==> s.held < cfg.permits
    ensures PermitsCounted(cfg, Perform(cfg, s, effect, ok).(procs := s.procs[i := q]))
  {
    SumUpdate(s.procs, i, q, Holds);
  }

  lemma {:induction false} PermitsStep(cfg: Config, s: State, l: Label)
    requires PermitsCounted(cfg, s)
    ensures PermitsCounted(cfg, Step(cfg, s, l))
  {
    if Enabled(cfg, s, l) {
      if l.Go? {
        var (q, effect) := Choose(cfg, s, s.procs[l.i], l.yes, l.ok);
        ChoosePermits(cfg, s, s.procs[l.i], l.yes, l.ok);
        PerformPermits(cfg, s, l.i, q, effect, l.ok);
      } else if l.Fetch? && s.loop.check in s.mgr.active {
        SumAppend(s.procs, Waiting(s.mgr.active[s.loop.check]), Holds);
      }
    }
  }

  // ---- accounting ----

  /** Between RecordRepairStarted and RecordRepairCompleted. */
  function UnderWay(p: Proc): nat {
    if p.Running? || p.Executing? || p.Finished? || p.Recorded? then 1 else 0
  }

  ghost predicate RepairsAddUp(s: State) {
    s.started == s.completed + Sum(s.procs, UnderWay)
  }

  lemma ChooseUnderWay(cfg: Config, s: State, p: Proc, yes: bool, ok: bool)
    ensures var (q, effect) := Choose(cfg, s, p, yes, ok);
            UnderWay(q) + (if effect.CountComplete? then 1 else 0) ==
              UnderWay(p) + (if effect.CountStart? then 1 else 0)
  {
  }

  lemma PerformUnderWay(cfg: Config, s: State, i: nat, q: Proc, effect: Effect, ok: bool)
    requires RepairsAddUp(s) && i < |s.procs|
    requires UnderWay(q) + (if effect.CountComplete? then 1 else 0) ==
               UnderWay(s.procs[i]) + (if effect.CountStart? then 1 else 0)
    ensures RepairsAddUp(Perform(cfg, s, effect, ok).(procs := s.procs[i := q]))
  {
    SumUpdate(s.procs, i, q, UnderWay);
  }

  lemma RepairsAddUpStep(cfg: Config, s: State, l: Label)
    requires RepairsAddUp(s)
    ensures RepairsAddUp(Step(cfg, s, l))
  {
    if Enabled(cfg, s, l) {
      if l.Go? {
        var (q, effect) := Choose(cfg, s, s.procs[l.i], l.yes, l.ok);
        ChooseUnderWay(cfg, s, s.procs[l.i], l.yes, l.ok);
        PerformUnderWay(cfg, s, l.i, q, effect, l.ok);
      } else if l.Fetch? && s.loop.check in s.mgr.active {
        SumAppend(s.procs, Waiting(s.mgr.active[s.loop.check]), UnderWay);
      }
    }
  }

  ghost predicate IncidentsAddUp(m: ManagerState, rehydrated: nat) {
    && m.KeysMatch()
    && m.openedCount + rehydrated == m.resolvedCount + |m.active|
  }

  lemma ResultAddsUp(m: ManagerState, rehydrated: nat, result: CheckResult, now: int, ok: bool)
    requires IncidentsAddUp(m, rehydrated)
    ensures IncidentsAddUp(m.ProcessResult(result, now, ok).0, rehydrated)
  {
    if result.status == Healthy && result.name in m.active {
      ResolveAddsUp(m, rehydrated, m.active[result.name], now, ok);
    } else if result.status == Degraded || result.status == CheckFailed {
      UnhealthyAddsUp(m, rehydrated, result, now, ok);
    }
  }

  lemma ResolveAddsUp(m: ManagerState, rehydrated: nat, inc: Record, now: int, ok: bool)
    requires IncidentsAddUp(m, rehydrated) && inc.checkName in m.active
    ensures IncidentsAddUp(m.Resolve(inc, now, ok).0, rehydrated)
  {
    assert (m.active - {inc.checkName}).Keys == m.active.Keys - {inc.checkName};
  }

  lemma UnhealthyAddsUp(m: ManagerState, rehydrated: nat, result: CheckResult, now: int, ok: bool)
    requires IncidentsAddUp(m, rehydrated)
    ensures IncidentsAddUp(m.Unhealthy(result, now, ok).0, rehydrated)
  {
  }

  lemma StatusAddsUp(m: ManagerState, rehydrated: nat, check: string, status: Status, now: int, ok: bool)
    requires IncidentsAddUp(m, rehydrated) && status != Resolved
    ensures IncidentsAddUp(m.SetStatus(check, status, now, now, ok, ok).0, rehydrated)
  {
  }

  lemma {:induction false} LoadKeysMatch(listed: seq<Record>)
    ensures forall c :: c in Load(map[], listed) ==> Load(map[], listed)[c].checkName == c
  {
    if listed != [] {
      LoadKeysMatch(listed[..|listed| - 1]);
    }
  }

  lemma IncidentsAddUpStep(cfg: Config, s: State, l: Label)
    requires IncidentsAddUp(s.mgr, s.rehydrated)
    ensures var t := Step(cfg, s, l); IncidentsAddUp(t.mgr, t.rehydrated)
  {
    if Enabled(cfg, s, l) {
      match l {
        case Result(result, ok) => ResultAddsUp(s.mgr, s.rehydrated, result, s.clock, ok);
        case Go(i, yes, ok) => MoveAddsUp(cfg, s, i, yes, ok);
        case Restart(_, listed) => LoadKeysMatch(listed);
        case _ =>
      }
    }
  }

  lemma MoveAddsUp(cfg: Config, s: State, i: nat, yes: bool, ok: bool)
    requires i < |s.procs| && IncidentsAddUp(s.mgr, s.rehydrated)
    ensures var t := Move(cfg, s, i, yes, ok); IncidentsAddUp(t.mgr, t.rehydrated)
  {
    var effect := Choose(cfg, s, s.procs[i], yes, ok).1;
    if effect.Mark? {
      StatusAddsUp(s.mgr, s.rehydrated, effect.check, effect.status, s.clock, ok);
    }
  }

  /**
   In every reachable state: opened plus rehydrated incidents are the resolved plus the active ones, repairs started
   are the completed ones plus the goroutines under way, and those are never more than the permits.
   */
  lemma {:induction false} Accounting(cfg: Config, s: State, labels: seq<Label>)
    requires Initial(cfg, s)
    ensures var t := Exec(cfg, s, labels);
            && t.mgr.openedCount + t.rehydrated == t.mgr.resolvedCount + |t.mgr.active|
            && t.started == t.completed + Sum(t.procs, UnderWay)
            && Sum(t.procs, UnderWay) <= t.held <= cfg.permits
            && PermitsCounted(cfg, t) && RepairsAddUp(t) && IncidentsAddUp(t.mgr, t.rehydrated)
  {
    if labels != [] {
      var n := |labels| - 1;
      Accounting(cfg, s, labels[..n]);
      PermitsStep(cfg, Exec(cfg, s, labels[..n]), labels[n]);
      RepairsAddUpStep(cfg, Exec(cfg, s, labels[..n]), labels[n]);
      IncidentsAddUpStep(cfg, Exec(cfg, s, labels[..n]), labels[n]);
    }
    SumBounds(Exec(cfg, s, labels).procs, UnderWay, Holds);
  }

  // ---- goroutines ----

  /** Past the Open test: the rule is the check's rule and the snapshot was Open. */
  ghost predicate PastOpenTest(p: Proc) {
    !p.Waiting? && !p.Holding? && !p.Releasing? && !p.Concluding? && !p.Done?
  }

  /**
   Past the Open test a goroutine holds an Open snapshot and its check's rule; in its recipe, results and remaining
   steps make up that rule's recipe, and the forward flag is the backward scan of the results.
   */
  ghost predicate ProcSound(cfg: Config, p: Proc) {
    && (PastOpenTest(p) ==>
          p.snap.status == Open && p.snap.checkName in cfg.rules && p.rule == cfg.rules[p.snap.checkName])
    && (p.Announcing? ==> p.rule.recipe in cfg.recipes && p.steps == cfg.recipes[p.rule.recipe])
    && (p.Running? ==>
          && p.rule.recipe in cfg.recipes
          && Remaining(cfg.recipes[p.rule.recipe], |p.results|, p.steps)
          && p.previousFailed == Recipes.LastFailed(p.results))
    && (p.Executing? ==>
          && p.rule.recipe in cfg.recipes
          && Remaining(cfg.recipes[p.rule.recipe], |p.results|, [p.step] + p.rest)
          && !(p.step.onFailureOnly && !Recipes.LastFailed(p.results))
          && p.attempt <= if p.step.retries < 0 then 0 else 1 + p.step.retries)
  }

  /** `rest` are the steps of `recipe` after the first `n`. */
  ghost predicate Remaining(recipe: seq<Recipes.RecipeStep>, n: nat, rest: seq<Recipes.RecipeStep>) {
    n + |rest| == |recipe| && forall k :: 0 <= k < |rest| ==> rest[k] == recipe[n + k]
  }

  ghost predicate AllSound(cfg: Config, s: State) {
    forall i :: 0 <= i < |s.procs| ==> ProcSound(cfg, s.procs[i])
  }

  /** With one more result and one step fewer a goroutine is sound again. */
  lemma RunsOn(cfg: Config, p: Proc, rest: seq<Recipes.RecipeStep>, sr: Recipes.StepResult)
    requires ProcSound(cfg, p) && (p.Running? || p.Executing?)
    requires Remaining(cfg.recipes[p.rule.recipe], |p.results| + 1, rest)
    ensures var flag := Recipes.FlagAfter(Recipes.LastFailed(p.results), sr);
            ProcSound(cfg, Running(p.snap, p.rule, rest, p.results + [sr], flag))
  {
    Recipes.Extend(p.results, sr);
  }

  lemma RestRemains(recipe: seq<Recipes.RecipeStep>, n: nat, steps: seq<Recipes.RecipeStep>)
    requires Remaining(recipe, n, steps) && steps != []
    ensures Remaining(recipe, n + 1, steps[1..])
  {
  }

  lemma StepSound(cfg: Config, s: State, p: Proc)
    requires ProcSound(cfg, p) && p.Running? && p.steps != []
    ensures ProcSound(cfg, ChooseStep(cfg, s, p.snap, p.rule, p.steps, p.results, p.previousFailed))
  {
    var step, rest := p.steps[0], p.steps[1..];
    RestRemains(cfg.recipes[p.rule.recipe], |p.results|, p.steps);
    RunsOn(cfg, p, rest, Recipes.SkippedResult(step));
    RunsOn(cfg, p, rest, Ended(step, Recipes.Failed, 0, Some(Recipes.Blocked)));
    RunsOn(cfg, p, rest, Ended(step, Recipes.Failed, 0, Some(Recipes.NotRegistered)));
  }

  lemma AttemptSound(cfg: Config, p: Proc, yes: bool)
    requires ProcSound(cfg, p) && p.Executing?
    ensures ProcSound(cfg, ChooseAttempt(p.snap, p.rule, p.step, p.rest, p.results, p.attempt, yes).0)
  {
    RestRemains(cfg.recipes[p.rule.recipe], |p.results|, [p.step] + p.rest);
    assert ([p.step] + p.rest)[1..] == p.rest;
    var error := Some(Recipes.Exhausted(1 + p.step.retries));
    RunsOn(cfg, p, p.rest, Ended(p.step, Recipes.Failed, p.attempt, error));
    RunsOn(cfg, p, p.rest, Ended(p.step, Recipes.Success, p.attempt + 1, None));
  }

  lemma ChooseSound(cfg: Config, s: State, p: Proc, yes: bool, ok: bool)
    requires ProcSound(cfg, p)
    ensures ProcSound(cfg, Choose(cfg, s, p, yes, ok).0)
  {
    if p.Running? && p.steps != [] {
      StepSound(cfg, s, p);
    } else if p.Executing? {
      AttemptSound(cfg, p, yes);
    }
  }

  lemma SoundStep(cfg: Config, s: State, l: Label)
    requires AllSound(cfg, s)
    ensures AllSound(cfg, Step(cfg, s, l))
  {
    if Enabled(cfg, s, l) && l.Go? {
      ChooseSound(cfg, s, s.procs[l.i], l.yes, l.ok);
    }
  }

  lemma {:induction false} GoroutinesSound(cfg: Config, s: State, labels: seq<Label>)
    requires Initial(cfg, s)
    ensures AllSound(cfg, Exec(cfg, s, labels))
  {
    if labels != [] {
      GoroutinesSound(cfg, s, labels[..|labels| - 1]);
      SoundStep(cfg, Exec(cfg, s, labels[..|labels| - 1]), labels[|labels| - 1]);
    }
  }

  /** The status a goroutine's step sets on its check: Repairing when it begins, and by the verdict when it ends. */
  function StatusSet(cfg: Config, p: Proc): Option<Status> {
    if p.Admitted? && p.rule.recipe in cfg.recipes then Some(Repairing)
    else if p.Completed? then Some(if p.success then Verifying else Failed)
    else None
  }

  /** The incident of check `c` when its status has just been set, if `status` is for that check. */
  function Marked(m: ManagerState, c: string, check: string, status: Status, now: int): Record
    requires c in m.active
  {
    if c == check then m.active[c].(status := status, updatedAt := now) else m.active[c]
  }

  /**
   Nothing but the active incidents and their stored forms differs, and of those forms at most that of `inc`, saved as
   it is.
   */
  ghost predicate OnlySaved(m: ManagerState, t: ManagerState, inc: Record, ok: bool) {
    t == m.(active := t.active, store := if ok then m.store[inc.id := inc] else m.store)
  }

  lemma MarkSetsStatus(m: ManagerState, check: string, status: Status, now: int, ok: bool)
    requires m.KeysMatch() && status != Resolved
    ensures var t := m.SetStatus(check, status, now, now, ok, ok).0;
            && t.active.Keys == m.active.Keys
            && (forall c :: c in m.active ==> t.active[c] == Marked(m, c, check, status, now))
            && (check !in m.active ==> t == m)
            && (check in m.active ==> OnlySaved(m, t, Marked(m, check, check, status, now), ok))
  {
  }

  lemma OnlyMarksTouchIncidents(cfg: Config, s: State, effect: Effect, ok: bool)
    requires !effect.Mark?
    ensures Perform(cfg, s, effect, ok).mgr == s.mgr
  {
  }

  /**
   A goroutine changes nothing of any incident but the status of its own check's active one, exactly at those two steps.
   */
  lemma MoveSetsStatus(cfg: Config, s: State, i: nat, yes: bool, ok: bool)
    requires i < |s.procs| && s.mgr.KeysMatch()
    ensures var t, mark := Move(cfg, s, i, yes, ok), StatusSet(cfg, s.procs[i]);
            && (mark == None ==> t.mgr == s.mgr)
            && (mark.Some? ==>
                  && t.mgr.active.Keys == s.mgr.active.Keys
                  && (forall c :: c in s.mgr.active ==>
                        t.mgr.active[c] == Marked(s.mgr, c, s.procs[i].snap.checkName, mark.value, s.clock))
                  && var check := s.procs[i].snap.checkName;
                     if check in s.mgr.active
                     then OnlySaved(s.mgr, t.mgr, Marked(s.mgr, check, check, mark.value, s.clock), ok)
                     else t.mgr == s.mgr)
  {
    var p := s.procs[i];
    var effect := Choose(cfg, s, p, yes, ok).1;
    ChooseMark(cfg, s, p, yes, ok);
    if effect.Mark? {
      MarkSetsStatus(s.mgr, effect.check, effect.status, s.clock, ok);
    } else {
      OnlyMarksTouchIncidents(cfg, s, effect, ok);
    }
  }

  lemma ChooseMark(cfg: Config, s: State, p: Proc, yes: bool, ok: bool)
    ensures Choose(cfg, s, p, yes, ok).1.Mark? <==> StatusSet(cfg, p).Some?
    ensures StatusSet(cfg, p).Some? ==> Choose(cfg, s, p, yes, ok).1 == Mark(p.snap.checkName, StatusSet(cfg, p).value)
  {
  }

  /** An action's execution is recorded exactly at the step that adds a success of it to the results. */
  lemma SuccessIsRecorded(cfg: Config, s: State, p: Proc, yes: bool, ok: bool)
    requires p.Running? || p.Executing?
    ensures var (q, effect) := Choose(cfg, s, p, yes, ok);
            && (q.Running? && q.results != p.results ==>
                  && |q.results| == |p.results| + 1
                  && (q.results[|p.results|].status == Recipes.Success <==> effect.LogAction?)
                  && (effect.LogAction? ==> effect.action == q.results[|p.results|].actionName))
            && (effect.LogAction? ==> q.Running? && q.results != p.results)
  {
    var q := Choose(cfg, s, p, yes, ok).0;
    if q.Running? && q.results != p.results {
      assert q.results == p.results + [q.results[|p.results|]];
    }
  }
}
