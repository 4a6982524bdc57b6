/**
 The repair goroutines run the recipe interpreter. What a run answers to a goroutine (the guardrails' verdict and the
 registry's for each step it comes to, and the outcome of each attempt it makes) is read off the labels of the run, and
 its results are the interpreter's in exactly the world that gives these answers.
 */
module RecipeRuns {
  import opened RepairInvariants
  import opened RepairProtocol
  import opened Wrappers
  import Recipes

  // ---- the story of a goroutine ----

  /** The answers goroutine `i` has heard in a run, step by step of its recipe. */
  ghost function Story(cfg: Config, s: State, labels: seq<Label>, i: nat): seq<Recipes.Answers> {
    if labels == [] then [] else
    var n := |labels| - 1;
    Continued(cfg, Exec(cfg, s, labels[..n]), labels[n], i, Story(cfg, s, labels[..n], i))
  }

  /** What one label of the run adds to a story; a restart ends all goroutines and their stories. */
  ghost function Continued(cfg: Config, s: State, l: Label, i: nat, story: seq<Recipes.Answers>): seq<Recipes.Answers> {
    if !Enabled(cfg, s, l) then story
    else if l.Restart? then []
    else if l.Go? && l.i == i then Heard(cfg, s, s.procs[i], l.yes, story)
    else story
  }

  /** Coming to a step, a goroutine hears of the guardrails and the registry; making an attempt, how it went. */
  function Heard(cfg: Config, s: State, p: Proc, yes: bool, story: seq<Recipes.Answers>): seq<Recipes.Answers> {
    match p
    case Running(_, _, steps, _, _) =>
      if steps == [] then story
      else
        var action := steps[0].actionName;
        story + [Recipes.Answers(!s.guard.CheckAction(action, s.clock).Permitted?, action in cfg.registry, [])]
    case Executing(_, _, step, _, _, attempt) =>
      if attempt < 1 + step.retries && story != [] then
        var last := story[|story| - 1];
        story[|story| - 1 := last.(outcomes := last.outcomes + [yes])]
      else story
    case _ => story
  }

  /** The results of a goroutine follow from its story; amid a step, it has only heard of failed attempts so far. */
  ghost predicate ProcTold(cfg: Config, p: Proc, story: seq<Recipes.Answers>) {
    match p
    case Running(_, rule, _, results, _) =>
      rule.recipe in cfg.recipes && Recipes.Told(cfg.recipes[rule.recipe], story, results)
    case Executing(_, rule, _, _, results, attempt) =>
      && rule.recipe in cfg.recipes && |story| == |results| + 1
      && Recipes.Told(cfg.recipes[rule.recipe], story[..|results|], results)
      && var last := story[|results|];
         !last.blocked && last.registered && |last.outcomes| == attempt && last.OnlyFailures()
    case Waiting(_) => story == []
    case Holding(_) => story == []
    case Admitted(_, _) => story == []
    case Announcing(_, _, _, _) => story == []
    case _ => true
  }

  lemma {:induction false} StepTold(cfg: Config, s: State, p: Proc, yes: bool, story: seq<Recipes.Answers>)
    requires ProcSound(cfg, p) && ProcTold(cfg, p, story) && p.Running? && p.steps != []
    ensures ProcTold(cfg, ChooseStep(cfg, s, p.snap, p.rule, p.steps, p.results, p.previousFailed),
                     Heard(cfg, s, p, yes, story))
  {
    var q := ChooseStep(cfg, s, p.snap, p.rule, p.steps, p.results, p.previousFailed);
    var after := Heard(cfg, s, p, yes, story);
    var a := after[|story|];
    assert after == story + [a] && p.steps[0] == cfg.recipes[p.rule.recipe][|p.results|];
    if q.Running? {
      var sr := q.results[|p.results|];
      assert q.results == p.results + [sr];
      Recipes.ToldNext(cfg.recipes[p.rule.recipe], story, p.results, a, sr);
    } else {
      assert after[..|p.results|] == story;
    }
  }

  /** One more failed attempt leaves the earlier answers as they were. */
  lemma {:induction false} AttemptFailed(cfg: Config, s: State, p: Proc, story: seq<Recipes.Answers>)
    requires ProcSound(cfg, p) && ProcTold(cfg, p, story) && p.Executing? && p.attempt < 1 + p.step.retries
    ensures ProcTold(cfg, p.(attempt := p.attempt + 1), Heard(cfg, s, p, false, story))
  {
    assert Heard(cfg, s, p, false, story)[..|p.results|] == story[..|p.results|];
  }

  /** The step ends: its result follows from all its answers. */
  lemma {:induction false} StepEnds(cfg: Config, p: Proc, story: seq<Recipes.Answers>, a: Recipes.Answers,
                                    sr: Recipes.StepResult)
    requires ProcSound(cfg, p) && ProcTold(cfg, p, story) && p.Executing?
    requires sr == Recipes.Outcome(p.step, a.World()) && sr.attempts == |a.outcomes|
    ensures Recipes.Told(cfg.recipes[p.rule.recipe], story[|p.results| := a], p.results + [sr])
  {
    var recipe := cfg.recipes[p.rule.recipe];
    assert ([p.step] + p.rest)[0] == recipe[|p.results|];
    Recipes.ToldNext(recipe, story[..|p.results|], p.results, a, sr);
    assert story[|p.results| := a] == story[..|p.results|] + [a];
  }

  lemma {:induction false} ExhaustedTold(cfg: Config, p: Proc, story: seq<Recipes.Answers>)
    requires ProcSound(cfg, p) && ProcTold(cfg, p, story) && p.Executing? && 1 + p.step.retries <= p.attempt
    ensures var error := Some(Recipes.Exhausted(1 + p.step.retries));
            var results := p.results + [Ended(p.step, Recipes.Failed, p.attempt, error)];
            ProcTold(cfg, Running(p.snap, p.rule, p.rest, results, true), story)
  {
    var last := story[|p.results|];
    Recipes.FailureTold(p.step, last);
    StepEnds(cfg, p, story, last, Recipes.Outcome(p.step, last.World()));
    assert story[|p.results| := last] == story;
  }

  lemma {:induction false} SucceededTold(cfg: Config, s: State, p: Proc, story: seq<Recipes.Answers>)
    requires ProcSound(cfg, p) && ProcTold(cfg, p, story) && p.Executing? && p.attempt < 1 + p.step.retries
    ensures var results := p.results + [Ended(p.step, Recipes.Success, p.attempt + 1, None)];
            ProcTold(cfg, Running(p.snap, p.rule, p.rest, results, false), Heard(cfg, s, p, true, story))
  {
    var last := story[|p.results|];
    var a := last.(outcomes := last.outcomes + [true]);
    Recipes.SuccessTold(p.step, a);
    StepEnds(cfg, p, story, a, Recipes.Outcome(p.step, a.World()));
  }

  lemma {:induction false} AttemptTold(cfg: Config, s: State, p: Proc, yes: bool, story: seq<Recipes.Answers>)
    requires ProcSound(cfg, p) && ProcTold(cfg, p, story) && p.Executing?
    ensures ProcTold(cfg, ChooseAttempt(p.snap, p.rule, p.step, p.rest, p.results, p.attempt, yes).0,
                     Heard(cfg, s, p, yes, story))
  {
    if 1 + p.step.retries <= p.attempt {
      ExhaustedTold(cfg, p, story);
    } else if yes {
      SucceededTold(cfg, s, p, story);
    } else {
      AttemptFailed(cfg, s, p, story);
    }
  }

  lemma {:induction false} ChooseTold(cfg: Config, s: State, p: Proc, yes: bool, ok: bool, story: seq<Recipes.Answers>)
    requires ProcSound(cfg, p) && ProcTold(cfg, p, story)
    ensures ProcTold(cfg, Choose(cfg, s, p, yes, ok).0, Heard(cfg, s, p, yes, story))
  {
    if p.Running? && p.steps != [] {
      StepTold(cfg, s, p, yes, story);
    } else if p.Executing? {
      AttemptTold(cfg, s, p, yes, story);
    }
  }

  /** Goroutines that do not exist yet have no story. */
  lemma {:induction false} NoStoryYet(cfg: Config, s: State, labels: seq<Label>, i: nat)
    requires |Exec(cfg, s, labels).procs| <= i
    ensures Story(cfg, s, labels, i) == []
  {
    if labels != [] {
      var n := |labels| - 1;
      if |Exec(cfg, s, labels[..n]).procs| <= i {
        NoStoryYet(cfg, s, labels[..n], i);
      } else {
        OnlyRestartEnds(cfg, Exec(cfg, s, labels[..n]), labels[n]);
      }
    }
  }

  lemma OnlyRestartEnds(cfg: Config, s: State, l: Label)
    ensures |Step(cfg, s, l).procs| < |s.procs| ==> Enabled(cfg, s, l) && l.Restart?
  {
  }

  /** A goroutine after a step is one of before, moved or not, or a new one that waits. */
  lemma ProcAfter(cfg: Config, s: State, l: Label, i: nat)
    requires i < |Step(cfg, s, l).procs|
    ensures var q := Step(cfg, s, l).procs[i];
            if |s.procs| <= i then q.Waiting? && !(l.Go? && Enabled(cfg, s, l) && l.i == i)
            else if Enabled(cfg, s, l) && l.Go? && l.i == i then q == Choose(cfg, s, s.procs[i], l.yes, l.ok).0
            else q == s.procs[i] && !(Enabled(cfg, s, l) && l.Restart?)
  {
  }

  /** In every reachable state the results of every goroutine follow from its story. */
  lemma {:induction false} GoroutinesTold(cfg: Config, s: State, labels: seq<Label>, i: nat)
    requires Initial(cfg, s) && i < |Exec(cfg, s, labels).procs|
    ensures ProcTold(cfg, Exec(cfg, s, labels).procs[i], Story(cfg, s, labels, i))
  {
    if labels != [] {
      var n := |labels| - 1;
      var t, l := Exec(cfg, s, labels[..n]), labels[n];
      ProcAfter(cfg, t, l, i);
      GoroutinesSound(cfg, s, labels[..n]);
      if |t.procs| <= i {
        NoStoryYet(cfg, s, labels[..n], i);
      } else {
        GoroutinesTold(cfg, s, labels[..n], i);
        ChooseTold(cfg, t, t.procs[i], l.Go? && l.yes, l.Go? && l.ok, Story(cfg, s, labels[..n], i));
      }
    }
  }

  /**
   In every reachable state a goroutine at the end of its recipe has, for each step, heard one answer of the guardrails
   and the registry and the outcomes of exactly the attempts its result counts; its results are those of the recursive
   semantics in the world of these answers, and its verdict is the forward flag of that run.
   */
  lemma {:induction false} GoroutineRunsInterpreter(cfg: Config, s: State, labels: seq<Label>, i: nat)
    requires Initial(cfg, s) && i < |Exec(cfg, s, labels).procs|
    requires Exec(cfg, s, labels).procs[i].Running? && Exec(cfg, s, labels).procs[i].steps == []
    ensures var p, story := Exec(cfg, s, labels).procs[i], Story(cfg, s, labels, i);
            && p.rule.recipe in cfg.recipes && |story| == |p.results| == |cfg.recipes[p.rule.recipe]|
            && (forall k :: 0 <= k < |story| ==> p.results[k].attempts == |story[k].outcomes|)
            && p.results == Recipes.Semantics(cfg.recipes[p.rule.recipe], Recipes.Worlds(story), false)
            && Choose(cfg, Exec(cfg, s, labels), p, true, true).0 ==
                 Finished(p.snap, p.rule,
                          !Recipes.FinalFlag(cfg.recipes[p.rule.recipe], Recipes.Worlds(story), false))
  {
    GoroutinesSound(cfg, s, labels);
    GoroutinesTold(cfg, s, labels, i);
    var p, story := Exec(cfg, s, labels).procs[i], Story(cfg, s, labels, i);
    Recipes.ToldIsSemantics(cfg.recipes[p.rule.recipe], story, p.results);
    forall k | 0 <= k < |story|
      ensures p.results[k].attempts == |story[k].outcomes|
    {
      Recipes.ToldAt(cfg.recipes[p.rule.recipe], story, p.results, k);
    }
    Recipes.VerdictIsFinalFlag(cfg.recipes[p.rule.recipe], Recipes.Worlds(story));
  }

  // ---- the retry loop ----

  function Failures(i: nat, n: nat, ok: bool): seq<Label> {
    if n == 0 then [] else [Go(i, false, ok)] + Failures(i, n - 1, ok)
  }

  lemma FailOnce(cfg: Config, s: State, i: nat, ok: bool)
    requires i < |s.procs| && s.procs[i].Executing? && s.procs[i].attempt <= s.procs[i].step.retries
    ensures Step(cfg, s, Go(i, false, ok)).procs == s.procs[i := s.procs[i].(attempt := s.procs[i].attempt + 1)]
  {
  }

  lemma {:induction false} FailTimes(cfg: Config, s: State, i: nat, n: nat, ok: bool)
    requires i < |s.procs| && s.procs[i].Executing?
    requires 0 < n ==> s.procs[i].attempt + n <= 1 + s.procs[i].step.retries
    ensures Exec(cfg, s, Failures(i, n, ok)).procs == s.procs[i := s.procs[i].(attempt := s.procs[i].attempt + n)]
    decreases n
  {
    if n != 0 {
      var t := Step(cfg, s, Go(i, false, ok));
      FailOnce(cfg, s, i, ok);
      FailTimes(cfg, t, i, n - 1, ok);
      ExecFirst(cfg, s, Go(i, false, ok), Failures(i, n - 1, ok));
    }
  }

  lemma FailThen(cfg: Config, s: State, i: nat, n: nat, l: Label, ok: bool)
    ensures Exec(cfg, s, Failures(i, n, ok) + [l]) == Step(cfg, Exec(cfg, s, Failures(i, n, ok)), l)
  {
    assert (Failures(i, n, ok) + [l])[..|Failures(i, n, ok)|] == Failures(i, n, ok);
  }

  /** What one attempt, or the end of the attempts, makes of a goroutine. */
  lemma AttemptEnds(cfg: Config, s: State, i: nat, yes: bool, ok: bool)
    requires i < |s.procs| && s.procs[i].Executing?
    ensures var p, t := s.procs[i], Step(cfg, s, Go(i, yes, ok));
            && |t.procs| == |s.procs|
            && t.procs[i] == ChooseAttempt(p.snap, p.rule, p.step, p.rest, p.results, p.attempt, yes).0
  {
  }

  /**
   A step whose attempts fail before attempt `k` and succeed at it ends with success after exactly `k + 1` of them.
   */
  lemma RetriesUntilSuccess(cfg: Config, s: State, i: nat, k: nat, ok: bool)
    requires i < |s.procs| && s.procs[i].Executing? && s.procs[i].attempt == 0 && k <= s.procs[i].step.retries
    ensures var p, t := s.procs[i], Exec(cfg, s, Failures(i, k, ok) + [Go(i, true, ok)]);
            && |t.procs| == |s.procs|
            && t.procs[i] ==
                 Running(p.snap, p.rule, p.rest, p.results + [Ended(p.step, Recipes.Success, k + 1, None)], false)
  {
    FailTimes(cfg, s, i, k, ok);
    FailThen(cfg, s, i, k, Go(i, true, ok), ok);
    AttemptEnds(cfg, Exec(cfg, s, Failures(i, k, ok)), i, true, ok);
  }

  /** And with failure only after all attempts that are allowed have failed. */
  lemma RetriesExhausted(cfg: Config, s: State, i: nat, yes: bool, ok: bool)
    requires i < |s.procs| && s.procs[i].Executing? && s.procs[i].attempt == 0
    ensures var p := s.procs[i];
            var n := if p.step.retries < 0 then 0 else 1 + p.step.retries;
            var t := Exec(cfg, s, Failures(i, n, ok) + [Go(i, yes, ok)]);
            var error := Some(Recipes.Exhausted(1 + p.step.retries));
            && |t.procs| == |s.procs|
            && t.procs[i] ==
                 Running(p.snap, p.rule, p.rest, p.results + [Ended(p.step, Recipes.Failed, n, error)], true)
  {
    var n := if s.procs[i].step.retries < 0 then 0 else 1 + s.procs[i].step.retries;
    FailTimes(cfg, s, i, n, ok);
    FailThen(cfg, s, i, n, Go(i, yes, ok), ok);
    AttemptEnds(cfg, Exec(cfg, s, Failures(i, n, ok)), i, yes, ok);
  }

  // ---- the end of the event loop ----

  /** A cancel can end the event loop from anywhere, after at most the incident it is looking up. */
  lemma CancelStopsLoop(cfg: Config, s: State)
    ensures var t := Step(cfg, Step(cfg, s, Cancel), Fetch);
            var u := Step(cfg, t, Stop);
            && u.loop == Stopped && u.procs == t.procs
            && t.procs == if s.loop.Got? && s.loop.check in s.mgr.active
                          then s.procs + [Waiting(s.mgr.active[s.loop.check])] else s.procs
  {
    assert Step(cfg, s, Cancel) == s.(cancelled := true);
  }

  /** Once the engine's loop has returned, no goroutine is spawned any more in that process. */
  lemma {:induction false} StoppedSpawnsNothing(cfg: Config, s: State, labels: seq<Label>)
    requires s.loop == Stopped && forall k :: 0 <= k < |labels| ==> !labels[k].Restart?
    ensures Exec(cfg, s, labels).loop == Stopped && |Exec(cfg, s, labels).procs| == |s.procs|
  {
    if labels != [] {
      var n := |labels| - 1;
      StoppedSpawnsNothing(cfg, s, labels[..n]);
      StaysStopped(cfg, Exec(cfg, s, labels[..n]), labels[n]);
    }
  }

  lemma StaysStopped(cfg: Config, s: State, l: Label)
    requires s.loop == Stopped && !l.Restart?
    ensures Step(cfg, s, l).loop == Stopped && |Step(cfg, s, l).procs| == |s.procs|
  {
    if l.Go? && l.i < |s.procs| {
      MoveSpawnsNothing(cfg, s, l.i, l.yes, l.ok);
    }
  }

  lemma MoveSpawnsNothing(cfg: Config, s: State, i: nat, yes: bool, ok: bool)
    requires i < |s.procs|
    ensures Move(cfg, s, i, yes, ok).loop == s.loop && |Move(cfg, s, i, yes, ok).procs| == |s.procs|
  {
  }
}
