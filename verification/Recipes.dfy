/**
 The recipe interpreter of the repair engine: a retrying step executor, conditional
 skipping, and a backward scan for the verdict. What the world answers (guardrail
 verdicts, registry lookups, action outcomes and durations) is an arbitrary oracle,
 one `StepWorld` per step, because other goroutines share the guardrails.
 */
module Recipes {
  import opened Wrappers

  /** The timeout and the parameters go to the action unread; a timed-out attempt is one that fails. */
  datatype RecipeStep = RecipeStep(
    name: string, actionName: string, retries: int, onFailureOnly: bool, timeout: int, params: map<string, string>)

  datatype RecipeStatus = Pending | Running | Success | Failed | Skipped

  datatype Failure = Blocked | NotRegistered | Exhausted(maxAttempts: int)

  datatype StepResult = StepResult(
    stepName: string, actionName: string, status: RecipeStatus, attempts: int, duration: int, error: Option<Failure>)

  datatype RecipeResult = RecipeResult(status: RecipeStatus, stepResults: seq<StepResult>, error: Option<Failure>)

  /** The guardrail and registry answers for one step, and the outcome and duration of each attempt. */
  datatype StepWorld = StepWorld(blocked: bool, registered: bool, succeeds: int -> bool, elapsed: int -> int)

  // ---- one step ----

  /** How many attempts are made in all, when attempt `k` is about to be made and at most `max` are allowed. */
  function Tries(w: StepWorld, k: nat, max: int): (n: nat)
    ensures k <= n && (n <= max || n == k)
    ensures forall j :: k <= j < n - 1 ==> !w.succeeds(j)
    ensures (k < n && w.succeeds(n - 1)) || (max <= n && forall j :: k <= j < n ==> !w.succeeds(j))
    decreases max - k
  {
    if max <= k then k
    else if w.succeeds(k) then k + 1
    else Tries(w, k + 1, max)
  }

  function TotalElapsed(w: StepWorld, n: nat): int {
    if n == 0 then 0 else TotalElapsed(w, n - 1) + w.elapsed(n - 1)
  }

  /** The result of executing a step, without a loop. */
  function Outcome(step: RecipeStep, w: StepWorld): StepResult {
    if w.blocked then
      StepResult(step.name, step.actionName, Failed, 0, 0, Some(Blocked))
    else if !w.registered then
      StepResult(step.name, step.actionName, Failed, 0, 0, Some(NotRegistered))
    else
      var n := Tries(w, 0, 1 + step.retries);
      if 0 < n && w.succeeds(n - 1) then
        StepResult(step.name, step.actionName, Success, n, TotalElapsed(w, n), None)
      else
        StepResult(step.name, step.actionName, Failed, n, TotalElapsed(w, n), Some(Exhausted(1 + step.retries)))
  }

  method ExecuteStep(step: RecipeStep, w: StepWorld) returns (sr: StepResult, recorded: bool)
    ensures sr == Outcome(step, w)
    ensures recorded <==> sr.status == Success
    ensures w.blocked ==> sr.status == Failed && sr.attempts == 0 && sr.error == Some(Blocked)
    ensures !w.blocked && !w.registered ==> sr.status == Failed && sr.attempts == 0 && sr.error == Some(NotRegistered)
    ensures recorded ==> !w.blocked && w.registered
  {
    recorded := false;
    sr := StepResult(step.name, step.actionName, Pending, 0, 0, None);
    if w.blocked {
      sr := sr.(status := Failed, error := Some(Blocked));
      return;
    }
    if !w.registered {
      sr := sr.(status := Failed, error := Some(NotRegistered));
      return;
    }
    var maxAttempts := 1 + step.retries;
    var attempt := 0;
    while attempt < maxAttempts
      invariant 0 <= attempt && Tries(w, 0, maxAttempts) == Tries(w, attempt, maxAttempts)
      invariant sr == StepResult(step.name, step.actionName, Pending, attempt, TotalElapsed(w, attempt), None)
      invariant forall j :: 0 <= j < attempt ==> !w.succeeds(j)
      invariant !recorded
    {
      sr := sr.(attempts := attempt + 1, duration := sr.duration + w.elapsed(attempt));
      if w.succeeds(attempt) {
        sr := sr.(status := Success);
        recorded := true;
        return;
      }
      attempt := attempt + 1;
    }
    sr := sr.(status := Failed, error := Some(Exhausted(maxAttempts)));
  }

  /**
   A blocked or unregistered step is never attempted. Any other succeeds on its first successful attempt, and fails only
   after every allowed attempt has failed; its duration is that of the attempts made.
   */
  lemma StepOutcome(step: RecipeStep, w: StepWorld)
    ensures var sr := Outcome(step, w);
            && sr.stepName == step.name && sr.actionName == step.actionName
            && (w.blocked ==> sr.status == Failed && sr.attempts == 0 && sr.error == Some(Blocked))
            && (!w.blocked && !w.registered ==>
                  sr.status == Failed && sr.attempts == 0 && sr.error == Some(NotRegistered))
    ensures Outcome(step, w).status == Success <==>
              !w.blocked && w.registered && exists k :: 0 <= k <= step.retries && w.succeeds(k)
    ensures Outcome(step, w).status == Success ==>
              var n := Outcome(step, w).attempts;
              1 <= n <= 1 + step.retries && w.succeeds(n - 1) && forall j :: 0 <= j < n - 1 ==> !w.succeeds(j)
    ensures Outcome(step, w).status == Failed && !w.blocked && w.registered ==>
              && Outcome(step, w).attempts == (if step.retries < 0 then 0 else 1 + step.retries)
              && Outcome(step, w).error == Some(Exhausted(1 + step.retries))
    ensures 0 <= Outcome(step, w).attempts && Outcome(step, w).duration == TotalElapsed(w, Outcome(step, w).attempts)
  {
    var n := Tries(w, 0, 1 + step.retries);
    if exists k :: 0 <= k <= step.retries && w.succeeds(k) {
      var k :| 0 <= k <= step.retries && w.succeeds(k);
      assert 0 < n && w.succeeds(n - 1);
    }
  }

  /** Attempts that all take as long take that long times their number. */
  lemma {:induction false} ElapsedAddsUp(w: StepWorld, n: nat, each: int)
    requires forall k :: 0 <= k < n ==> w.elapsed(k) == each
    ensures TotalElapsed(w, n) == n * each
  {
    if n != 0 {
      ElapsedAddsUp(w, n - 1, each);
    }
  }

  // ---- a whole recipe ----

  function SkippedResult(step: RecipeStep): StepResult {
    StepResult(step.name, step.actionName, Skipped, 0, 0, None)
  }

  /** Whether the last executed step failed, found by scanning backward over skipped ones. */
  function LastFailed(results: seq<StepResult>): bool {
    if results == [] then false else
    var last := results[|results| - 1];
    if last.status == Skipped then LastFailed(results[..|results| - 1]) else last.status == Failed
  }

  /** The error of the last executed step. */
  function LastError(results: seq<StepResult>): Option<Failure> {
    if results == [] then None else
    var last := results[|results| - 1];
    if last.status == Skipped then LastError(results[..|results| - 1])
    else if last.status == Failed then last.error else None
  }

  /** The result of one step, given whether the last executed step failed. */
  function ResultFor(step: RecipeStep, w: StepWorld, failed: bool): StepResult {
    if step.onFailureOnly && !failed then SkippedResult(step) else Outcome(step, w)
  }

  /** Whether the last executed step failed, one result later. */
  function FlagAfter(failed: bool, sr: StepResult): bool {
    if sr.status == Skipped then failed else sr.status == Failed
  }

  /** The recursive semantics: the results of the remaining steps. */
  function Semantics(steps: seq<RecipeStep>, worlds: seq<StepWorld>, failed: bool): (results: seq<StepResult>)
    requires |steps| == |worlds|
    ensures |results| == |steps|
  {
    if steps == [] then [] else
    var sr := ResultFor(steps[0], worlds[0], failed);
    [sr] + Semantics(steps[1..], worlds[1..], FlagAfter(failed, sr))
  }

  /** The actions whose execution is recorded for cooldown tracking, in order. */
  function Succeeded(results: seq<StepResult>): seq<string> {
    if results == [] then [] else
    var n := |results| - 1;
    Succeeded(results[..n]) + if results[n].status == Success then [results[n].actionName] else []
  }

  lemma Extend(results: seq<StepResult>, sr: StepResult)
    ensures LastFailed(results + [sr]) == FlagAfter(LastFailed(results), sr)
    ensures Succeeded(results + [sr]) == Succeeded(results) + if sr.status == Success then [sr.actionName] else []
  {
    assert (results + [sr])[..|results|] == results;
  }

  method ExecuteRecipe(steps: seq<RecipeStep>, worlds: seq<StepWorld>)
    returns (result: RecipeResult, recorded: seq<string>)
    requires |steps| == |worlds|
    ensures result.stepResults == Semantics(steps, worlds, false)
    ensures result.status == if LastFailed(result.stepResults) then Failed else Success
    ensures result.error == LastError(result.stepResults)
    ensures recorded == Succeeded(result.stepResults)
    ensures result.status == Failed <==> result.error.Some?
  {
    result := RecipeResult(Running, [], None);
    recorded := [];
    var previousFailed := false;
    ghost var semantics := Semantics(steps, worlds, false);
    for i := 0 to |steps|
      invariant result.error == None && result.stepResults == semantics[..i]
      invariant previousFailed == LastFailed(result.stepResults)
      invariant recorded == Succeeded(result.stepResults)
    {
      var step := steps[i];
      ResultIs(steps, worlds, semantics, i);
      Extend(result.stepResults, semantics[i]);
      if step.onFailureOnly && !previousFailed {
        result := result.(stepResults := result.stepResults + [SkippedResult(step)]);
        continue;
      }
      var sr, record := ExecuteStep(step, worlds[i]);
      if record {
        recorded := recorded + [step.actionName];
      }
      result := result.(stepResults := result.stepResults + [sr]);
      if sr.status == Failed {
        previousFailed := true;
        continue;
      }
      previousFailed := false;
    }
    FailuresHaveErrors(steps, worlds);
    var error: Option<Failure>;
    var failed: bool;
    failed, error := Verdict(result.stepResults);
    result := result.(status := if failed then Failed else Success, error := error);
  }

  /** The second loop of the interpreter: the overall status is that of the last step that was not skipped. */
  method Verdict(results: seq<StepResult>) returns (failed: bool, error: Option<Failure>)
    ensures failed == LastFailed(results) && error == LastError(results)
  {
    failed, error := false, None;
    var i := |results| - 1;
    assert results[..|results|] == results;
    while 0 <= i
      invariant -1 <= i < |results| && !failed && error == None
      invariant LastFailed(results) == LastFailed(results[..i + 1])
      invariant LastError(results) == LastError(results[..i + 1])
    {
      var sr := results[i];
      assert results[..i + 1][..i] == results[..i];
      if sr.status == Skipped {
        i := i - 1;
        continue;
      }
      if sr.status == Failed {
        failed, error := true, sr.error;
      }
      break;
    }
  }

  /** The verdict and the error are those of the last result that was not skipped. */
  lemma {:induction false} VerdictIsLastExecuted(results: seq<StepResult>, k: nat)
    requires k < |results| && results[k].status != Skipped
    requires forall j :: k < j < |results| ==> results[j].status == Skipped
    ensures LastFailed(results) <==> results[k].status == Failed
    ensures LastError(results) == if results[k].status == Failed then results[k].error else None
  {
    if k < |results| - 1 {
      VerdictIsLastExecuted(results[..|results| - 1], k);
    }
  }

  /** A recipe none of whose steps was executed succeeds. */
  lemma {:induction false} NothingExecutedSucceeds(results: seq<StepResult>)
    requires forall j :: 0 <= j < |results| ==> results[j].status == Skipped
    ensures !LastFailed(results) && LastError(results) == None
  {
    if results != [] {
      NothingExecutedSucceeds(results[..|results| - 1]);
    }
  }

  lemma {:induction false} ErrorsTell(results: seq<StepResult>)
    requires forall j :: 0 <= j < |results| && results[j].status == Failed ==> results[j].error.Some?
    ensures LastFailed(results) <==> LastError(results).Some?
  {
    if results != [] {
      ErrorsTell(results[..|results| - 1]);
    }
  }

  /** A recipe fails exactly when it reports an error. */
  lemma {:induction false} FailuresHaveErrors(steps: seq<RecipeStep>, worlds: seq<StepWorld>)
    requires |steps| == |worlds|
    ensures var results := Semantics(steps, worlds, false); LastFailed(results) <==> LastError(results).Some?
  {
    var results := Semantics(steps, worlds, false);
    forall j | 0 <= j < |results| && results[j].status == Failed
      ensures results[j].error.Some?
    {
      ResultIs(steps, worlds, results, j);
      StepOutcome(steps[j], worlds[j]);
    }
    ErrorsTell(results);
  }

  // ---- what the semantics means ----

  /** The flag the forward loop carries at its end. */
  function FinalFlag(steps: seq<RecipeStep>, worlds: seq<StepWorld>, failed: bool): bool
    requires |steps| == |worlds|
  {
    if steps == [] then failed
    else FinalFlag(steps[1..], worlds[1..], FlagAfter(failed, ResultFor(steps[0], worlds[0], failed)))
  }

  /** The backward scan, started before some earlier results, agrees with the forward flag. */
  lemma {:induction false} ScanIsFlag(steps: seq<RecipeStep>, worlds: seq<StepWorld>, earlier: seq<StepResult>)
    requires |steps| == |worlds|
    ensures LastFailed(earlier + Semantics(steps, worlds, LastFailed(earlier))) ==
              FinalFlag(steps, worlds, LastFailed(earlier))
    decreases |steps|
  {
    if steps == [] {
      assert earlier + [] == earlier;
    } else {
      var results := Semantics(steps, worlds, LastFailed(earlier));
      Extend(earlier, results[0]);
      assert earlier + results == (earlier + [results[0]]) + results[1..];
      ScanIsFlag(steps[1..], worlds[1..], earlier + [results[0]]);
    }
  }

  /** The verdict found by the backward scan is the flag the forward loop ends with. */
  lemma {:induction false} VerdictIsFinalFlag(steps: seq<RecipeStep>, worlds: seq<StepWorld>)
    requires |steps| == |worlds|
    ensures LastFailed(Semantics(steps, worlds, false)) == FinalFlag(steps, worlds, false)
  {
    ScanIsFlag(steps, worlds, []);
    assert [] + Semantics(steps, worlds, false) == Semantics(steps, worlds, false);
  }

  /** The semantics one step on: the rest is the semantics of the remaining steps after the longer results. */
  lemma {:induction false} SemanticsFirst(steps: seq<RecipeStep>, worlds: seq<StepWorld>, earlier: seq<StepResult>)
    requires |steps| == |worlds| && steps != []
    ensures var results := Semantics(steps, worlds, LastFailed(earlier));
            && results[0] == ResultFor(steps[0], worlds[0], LastFailed(earlier))
            && results[1..] == Semantics(steps[1..], worlds[1..], LastFailed(earlier + [results[0]]))
  {
    Extend(earlier, Semantics(steps, worlds, LastFailed(earlier))[0]);
  }

  /** Result `i`, told by the results before it. */
  lemma {:induction false} ResultAt(steps: seq<RecipeStep>, worlds: seq<StepWorld>, earlier: seq<StepResult>, i: nat)
    requires |steps| == |worlds| && i < |steps|
    ensures var results := Semantics(steps, worlds, LastFailed(earlier));
            results[i] == ResultFor(steps[i], worlds[i], LastFailed(earlier + results[..i]))
    decreases |steps|
  {
    var results := Semantics(steps, worlds, LastFailed(earlier));
    SemanticsFirst(steps, worlds, earlier);
    if i == 0 {
      assert earlier + results[..0] == earlier;
    } else {
      ResultAt(steps[1..], worlds[1..], earlier + [results[0]], i - 1);
      FirstMovesOver(earlier, results, i);
    }
  }

  lemma {:induction false} FirstMovesOver<T>(earlier: seq<T>, results: seq<T>, i: nat)
    requires 0 < i <= |results|
    ensures earlier + results[..i] == (earlier + [results[0]]) + results[1..][..i - 1]
  {
  }

  lemma OutcomeNotSkipped(step: RecipeStep, w: StepWorld)
    ensures Outcome(step, w).status == Success || Outcome(step, w).status == Failed
  {
  }

  /** A step is skipped exactly when it is on-failure-only and the last executed step before it did not fail. */
  lemma {:induction false} ResultIs(steps: seq<RecipeStep>, worlds: seq<StepWorld>, results: seq<StepResult>, i: nat)
    requires |steps| == |worlds| && i < |steps| && results == Semantics(steps, worlds, false)
    ensures results[i] == ResultFor(steps[i], worlds[i], LastFailed(results[..i]))
    ensures results[i].stepName == steps[i].name && results[i].actionName == steps[i].actionName
    ensures results[i].status == Skipped <==> steps[i].onFailureOnly && !LastFailed(results[..i])
    ensures results[i].status != Skipped ==> results[i] == Outcome(steps[i], worlds[i])
  {
    ResultAt(steps, worlds, [], i);
    assert [] + results[..i] == results[..i];
    StepOutcome(steps[i], worlds[i]);
    OutcomeNotSkipped(steps[i], worlds[i]);
  }

  predicate Fails(step: RecipeStep, w: StepWorld) {
    Outcome(step, w).status == Failed
  }

  ghost predicate AllFail(steps: seq<RecipeStep>, worlds: seq<StepWorld>, lo: nat, hi: nat)
    requires |steps| == |worlds| && lo <= hi <= |steps|
  {
    forall k :: lo <= k < hi ==> Fails(steps[k], worlds[k])
  }

  /**
   A block of on-failure-only steps is an ordered fallback: entered after a failure, a step of it is executed
   exactly when every earlier one of the block failed; entered otherwise, the whole block is skipped.
   */
  lemma {:induction false} FallbackBlock(steps: seq<RecipeStep>, worlds: seq<StepWorld>, lo: nat, i: nat)
    requires |steps| == |worlds| && lo <= i < |steps|
    requires forall k :: lo <= k <= i ==> steps[k].onFailureOnly
    ensures var results := Semantics(steps, worlds, false);
            if LastFailed(results[..lo]) && AllFail(steps, worlds, lo, i)
            then results[i] == Outcome(steps[i], worlds[i]) && results[i].status != Skipped
            else results[i] == SkippedResult(steps[i])
  {
    var results := Semantics(steps, worlds, false);
    FlagInBlock(steps, worlds, results, lo, i);
    ResultIs(steps, worlds, results, i);
  }

  /** Inside such a block the flag stays up until the first success, and never comes up by itself. */
  lemma {:induction false} FlagInBlock(steps: seq<RecipeStep>, worlds: seq<StepWorld>, results: seq<StepResult>,
                                       lo: nat, i: nat)
    requires |steps| == |worlds| && lo <= i <= |steps| && results == Semantics(steps, worlds, false)
    requires forall k :: lo <= k < i ==> steps[k].onFailureOnly
    ensures LastFailed(results[..i]) <==> LastFailed(results[..lo]) && AllFail(steps, worlds, lo, i)
  {
    if lo < i {
      FlagInBlock(steps, worlds, results, lo, i - 1);
      ResultIs(steps, worlds, results, i - 1);
      LastStep(results, i);
      assert AllFail(steps, worlds, lo, i) <==> AllFail(steps, worlds, lo, i - 1) && Fails(steps[i - 1], worlds[i - 1]);
    }
  }

  lemma LastStep(results: seq<StepResult>, i: nat)
    requires 0 < i <= |results|
    ensures LastFailed(results[..i]) == FlagAfter(LastFailed(results[..i - 1]), results[i - 1])
  {
    Extend(results[..i - 1], results[i - 1]);
    assert results[..i] == results[..i - 1] + [results[i - 1]];
  }

  // ---- what the world answered ----

  /** The answers one step has heard so far: the guardrails', the registry's, and the outcome of each attempt made. */
  datatype Answers = Answers(blocked: bool, registered: bool, outcomes: seq<bool>)
  {
    /** A world that gives these answers; durations do not matter here. */
    function World(): StepWorld {
      StepWorld(blocked, registered, (j: int) => 0 <= j < |outcomes| && outcomes[j], (_: int) => 0)
    }

    /** All attempts heard of so far failed. */
    ghost predicate OnlyFailures() {
      forall j :: 0 <= j < |outcomes| ==> !outcomes[j]
    }
  }

  function Worlds(story: seq<Answers>): seq<StepWorld> {
    seq(|story|, k requires 0 <= k < |story| => story[k].World())
  }

  /** Each result follows from the answers to its step, and was given after exactly the attempts they tell of. */
  ghost predicate Told(recipe: seq<RecipeStep>, story: seq<Answers>, results: seq<StepResult>) {
    |story| == |results| <= |recipe| &&
    (results == [] ||
     (var n := |results| - 1;
      && Told(recipe, story[..n], results[..n])
      && results[n] == ResultFor(recipe[n], story[n].World(), LastFailed(results[..n]))
      && results[n].attempts == |story[n].outcomes|))
  }

  lemma {:induction false} ToldAt(recipe: seq<RecipeStep>, story: seq<Answers>, results: seq<StepResult>, k: nat)
    requires Told(recipe, story, results) && k < |results|
    ensures results[k] == ResultFor(recipe[k], story[k].World(), LastFailed(results[..k]))
    ensures results[k].attempts == |story[k].outcomes|
  {
    var n := |results| - 1;
    if k < n {
      ToldAt(recipe, story[..n], results[..n], k);
      assert results[..n][..k] == results[..k];
    }
  }

  lemma {:induction false} ToldNext(recipe: seq<RecipeStep>, story: seq<Answers>, results: seq<StepResult>,
                                    a: Answers, sr: StepResult)
    requires Told(recipe, story, results) && |results| < |recipe|
    requires sr == ResultFor(recipe[|results|], a.World(), LastFailed(results)) && sr.attempts == |a.outcomes|
    ensures Told(recipe, story + [a], results + [sr])
  {
    assert (results + [sr])[..|results|] == results && (story + [a])[..|story|] == story;
  }

  /** Told results of a whole recipe are its semantics in the world that gave the answers. */
  lemma {:induction false} ToldIsSemantics(recipe: seq<RecipeStep>, story: seq<Answers>, results: seq<StepResult>)
    requires Told(recipe, story, results) && |results| == |recipe|
    ensures results == Semantics(recipe, Worlds(story), false)
  {
    var semantics := Semantics(recipe, Worlds(story), false);
    forall k | 0 <= k < |results| && results[..k] == semantics[..k]
      ensures results[k] == semantics[k]
    {
      ToldAt(recipe, story, results, k);
      ResultIs(recipe, Worlds(story), semantics, k);
    }
    AgreeStepwise(results, semantics, |results|);
    assert results[..|results|] == results && semantics[..|results|] == semantics;
  }

  /** Two sequences that agree wherever they agreed before agree throughout. */
  lemma {:induction false} AgreeStepwise<T>(a: seq<T>, b: seq<T>, n: nat)
    requires n <= |a| == |b| && forall k :: 0 <= k < |a| && a[..k] == b[..k] ==> a[k] == b[k]
    ensures a[..n] == b[..n]
  {
    if n != 0 {
      AgreeStepwise(a, b, n - 1);
      assert a[..n] == a[..n - 1] + [a[n - 1]] && b[..n] == b[..n - 1] + [b[n - 1]];
    }
  }

  /** A step that was run ends in success when only its last attempt succeeded. */
  lemma SuccessTold(step: RecipeStep, a: Answers)
    requires !a.blocked && a.registered && 0 < |a.outcomes| <= 1 + step.retries
    requires a.outcomes[|a.outcomes| - 1] && forall j :: 0 <= j < |a.outcomes| - 1 ==> !a.outcomes[j]
    ensures Outcome(step, a.World()) == StepResult(step.name, step.actionName, Success, |a.outcomes|, 0, None)
  {
    var w := a.World();
    assert w.succeeds(|a.outcomes| - 1);
    StepOutcome(step, w);
    ElapsedAddsUp(w, |a.outcomes|, 0);
  }

  /** And in failure when all its attempts failed. */
  lemma FailureTold(step: RecipeStep, a: Answers)
    requires !a.blocked && a.registered && a.OnlyFailures()
    requires |a.outcomes| == if step.retries < 0 then 0 else 1 + step.retries
    ensures Outcome(step, a.World()) ==
            StepResult(step.name, step.actionName, Failed, |a.outcomes|, 0, Some(Exhausted(1 + step.retries)))
  {
    StepOutcome(step, a.World());
    OutcomeNotSkipped(step, a.World());
    ElapsedAddsUp(a.World(), |a.outcomes|, 0);
  }
}
