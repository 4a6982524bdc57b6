/**
 The repair protocol as a transition system: the incident manager's loop, the event channel,
 the engine's event loop and its repair goroutines, the semaphore and the guardrails.

 Every mutex-protected method body is one step, and so is every channel operation: in
 particular an event is emitted in a step of its own, after the lock was released. The
 steps of all goroutines interleave freely. The value-level operations are the ones that
 `Incidents.Manager`, `Guardrails.Guardrails` and the recipe interpreter are proved against.
 */
module RepairProtocol {
  import opened Incidents
  import Guardrails
  import Recipes
  import Recovery
  import opened Wrappers

  const PERMITS: nat := 10
  const EVENT_CAPACITY: nat := 256

  datatype Rule = Rule(name: string, recipe: string)

  /** What LoadConfig leaves behind: rules by check, recipes by name, registered actions, and the fresh guardrails. */
  datatype Config = Config(
    rules: map<string, Rule>,
    recipes: map<string, seq<Recipes.RecipeStep>>,
    registry: set<string>,
    guard: Guardrails.GuardState,
    permits: nat,
    capacity: nat)

  /**
   A repair goroutine: its program counter, with the local variables still in use. `snap` is the captured incident.
   */
  datatype Proc =
    | Waiting(snap: Record)
    | Holding(snap: Record)
    | Admitted(snap: Record, rule: Rule)
    | Announcing(snap: Record, rule: Rule, steps: seq<Recipes.RecipeStep>, out: seq<Event>)
    | Running(snap: Record, rule: Rule, steps: seq<Recipes.RecipeStep>, results: seq<Recipes.StepResult>,
              previousFailed: bool)
    | Executing(snap: Record, rule: Rule, step: Recipes.RecipeStep, rest: seq<Recipes.RecipeStep>,
                results: seq<Recipes.StepResult>, attempt: nat)
    | Finished(snap: Record, rule: Rule, success: bool)
    | Recorded(snap: Record, rule: Rule, success: bool)
    | Completed(snap: Record, rule: Rule, success: bool)
    | Concluding(snap: Record, out: seq<Event>)
    | Releasing(snap: Record)
    | Done(snap: Record)

  /** The engine's event loop: waiting, holding a received Opened or Updated event, or returned. */
  datatype Loop = Idle | Got(check: string) | Stopped

  /**
   `out` is what the manager's loop still has to emit. `rehydrated`, `repairs` and `executions` are history
   variables: the incidents loaded at the start of this process, and the complete time logs of recorded repairs
   per rule and of recorded action successes per action.
   */
  datatype State = State(
    clock: int,
    mgr: ManagerState,
    out: seq<Event>,
    queue: seq<Event>,
    loop: Loop,
    cancelled: bool,
    procs: seq<Proc>,
    held: int,
    guard: Guardrails.GuardState,
    started: nat,
    completed: nat,
    rehydrated: nat,
    repairs: map<string, seq<int>>,
    executions: map<string, seq<int>>)

  function Log(logs: map<string, seq<int>>, key: string): seq<int> {
    if key in logs then logs[key] else []
  }

  function Logged(logs: map<string, seq<int>>, key: string, at: int): map<string, seq<int>> {
    logs[key := Log(logs, key) + [at]]
  }

  /**
   `yes` settles a goroutine's free choice: permit or time-out, action success or failure. `ok` tells if its saves
   succeed.
   */
  datatype Label =
    | Tick(to: int)
    | Result(result: CheckResult, ok: bool)
    | ManagerEmit
    | Receive
    | Fetch
    | Cancel
    | Stop
    | Go(i: nat, yes: bool, ok: bool)
    | Restart(millis: int, listed: seq<Record>)

  predicate Repairable(e: Event) {
    e.kind == OpenedEvent || e.kind == UpdatedEvent
  }

  ghost predicate Enabled(cfg: Config, s: State, l: Label) {
    match l
    case Tick(to) => s.clock <= to
    case Result(_, _) => s.out == []
    case ManagerEmit => s.out != []
    case Receive => s.loop == Idle && s.queue != []
    case Fetch => s.loop.Got?
    case Cancel => !s.cancelled
    case Stop => s.cancelled && s.loop == Idle
    case Go(i, yes, _) => i < |s.procs| && !s.procs[i].Done? && (s.procs[i].Waiting? && yes ==> s.held < cfg.permits)
    case Restart(_, listed) => Recovery.Lists(listed, s.mgr.store)
  }

  function Apply(cfg: Config, s: State, l: Label): State
    requires Enabled(cfg, s, l)
  {
    match l
    case Tick(to) => s.(clock := to)
    case Result(result, ok) =>
      var (m, events) := s.mgr.ProcessResult(result, s.clock, ok);
      s.(mgr := m, out := events)
    case ManagerEmit => s.(queue := Emit(s.queue, cfg.capacity, s.out[0]), out := s.out[1..])
    case Receive =>
      var e := s.queue[0];
      s.(queue := s.queue[1..], loop := if Repairable(e) then Got(e.incident.checkName) else Idle)
    case Fetch =>
      if s.loop.check in s.mgr.active
      then s.(loop := Idle, procs := s.procs + [Waiting(s.mgr.active[s.loop.check])])
      else s.(loop := Idle)
    case Cancel => s.(cancelled := true)
    case Stop => s.(loop := Stopped)
    case Go(i, yes, ok) => Move(cfg, s, i, yes, ok)
    case Restart(millis, listed) => Boot(cfg, s.clock, Recovery.Restart(s.mgr, millis, listed))
  }

  /** A process that just started on a manager. */
  function Boot(cfg: Config, clock: int, m: ManagerState): State {
    State(clock, m, [], [], Idle, false, [], 0, cfg.guard, 0, 0, |m.active|, map[], map[])
  }

  /** What one step of a goroutine does to the shared state. */
  datatype Effect =
    | Silent
    | TakePermit
    | ReturnPermit
    | Prune(rule: string)
    | Mark(check: string, status: Status)
    | Send(event: Event)
    | CountStart
    | CountComplete
    | LogAction(action: string)
    | LogRepair(rule: string)

  /** One step of goroutine `i`: its next position, and the effect of the step. */
  function Move(cfg: Config, s: State, i: nat, yes: bool, ok: bool): State
    requires i < |s.procs|
  {
    var (q, effect) := Choose(cfg, s, s.procs[i], yes, ok);
    Perform(cfg, s, effect, ok).(procs := s.procs[i := q])
  }

  function Perform(cfg: Config, s: State, effect: Effect, ok: bool): State {
    match effect
    case Silent => s
    case TakePermit => s.(held := s.held + 1)
    case ReturnPermit => s.(held := s.held - 1)
    case Prune(rule) => s.(guard := s.guard.Pruned(rule, s.clock))
    case Mark(check, status) => s.(mgr := s.mgr.SetStatus(check, status, s.clock, s.clock, ok, ok).0)
    case Send(event) => s.(queue := Emit(s.queue, cfg.capacity, event))
    case CountStart => s.(started := s.started + 1)
    case CountComplete => s.(completed := s.completed + 1)
    case LogAction(action) =>
      s.(guard := s.guard.RecordActionExecution(action, s.clock), executions := Logged(s.executions, action, s.clock))
    case LogRepair(rule) =>
      s.(guard := s.guard.RecordRepair(rule, s.clock, s.clock), repairs := Logged(s.repairs, rule, s.clock))
  }

  function Choose(cfg: Config, s: State, p: Proc, yes: bool, ok: bool): (Proc, Effect) {
    match p
    case Waiting(snap) => if yes then (Holding(snap), TakePermit) else (Done(snap), Silent)
    case Holding(snap) => ChooseAdmission(cfg, s, snap)
    case Admitted(snap, rule) =>
      if rule.recipe !in cfg.recipes then (Releasing(snap), Silent) else
      (Announcing(snap, rule, cfg.recipes[rule.recipe], Announced(s, snap.checkName, Repairing, ok)),
       Mark(snap.checkName, Repairing))
    case Announcing(snap, rule, steps, out) =>
      if out == [] then (Running(snap, rule, steps, [], false), CountStart)
      else (Announcing(snap, rule, steps, out[1..]), Send(out[0]))
    case Running(snap, rule, steps, results, previousFailed) =>
      if steps == [] then (Finished(snap, rule, !Recipes.LastFailed(results)), Silent)
      else (ChooseStep(cfg, s, snap, rule, steps, results, previousFailed), Silent)
    case Executing(snap, rule, step, rest, results, attempt) =>
      ChooseAttempt(snap, rule, step, rest, results, attempt, yes)
    case Finished(snap, rule, success) => (Recorded(snap, rule, success), LogRepair(rule.name))
    case Recorded(snap, rule, success) => (Completed(snap, rule, success), CountComplete)
    case Completed(snap, rule, success) =>
      var status := if success then Verifying else Failed;
      (Concluding(snap, Announced(s, snap.checkName, status, ok)), Mark(snap.checkName, status))
    case Concluding(snap, out) =>
      if out == [] then (Releasing(snap), Silent) else (Concluding(snap, out[1..]), Send(out[0]))
    case Releasing(snap) => (Done(snap), ReturnPermit)
    case Done(snap) => (p, Silent)
  }

  /** The events SetStatus leaves to be emitted once the lock is released. */
  function Announced(s: State, check: string, status: Status, ok: bool): seq<Event> {
    s.mgr.SetStatus(check, status, s.clock, s.clock, ok, ok).1
  }

  /** The head of handleIncident: the rule lookup, the Open test on the snapshot, and the rate limit. */
  function ChooseAdmission(cfg: Config, s: State, snap: Record): (Proc, Effect) {
    if snap.checkName !in cfg.rules || snap.status != Open then (Releasing(snap), Silent) else
    var rule := cfg.rules[snap.checkName];
    (if s.guard.UnderLimit(rule.name, s.clock) then Admitted(snap, rule) else Releasing(snap), Prune(rule.name))
  }

  /** The next step of the recipe is skipped, refused, or begun. */
  function ChooseStep(cfg: Config, s: State, snap: Record, rule: Rule, steps: seq<Recipes.RecipeStep>,
                      results: seq<Recipes.StepResult>, previousFailed: bool): Proc
    requires steps != []
  {
    var step, rest := steps[0], steps[1..];
    if step.onFailureOnly && !previousFailed then
      Running(snap, rule, rest, results + [Recipes.SkippedResult(step)], previousFailed)
    else if !s.guard.CheckAction(step.actionName, s.clock).Permitted? then
      Running(snap, rule, rest, results + [Ended(step, Recipes.Failed, 0, Some(Recipes.Blocked))], true)
    else if step.actionName !in cfg.registry then
      Running(snap, rule, rest, results + [Ended(step, Recipes.Failed, 0, Some(Recipes.NotRegistered))], true)
    else
      Executing(snap, rule, step, rest, results, 0)
  }

  /** The retry loop: attempts run out, succeed, or fail and leave the next one. */
  function ChooseAttempt(snap: Record, rule: Rule, step: Recipes.RecipeStep, rest: seq<Recipes.RecipeStep>,
                         results: seq<Recipes.StepResult>, attempt: nat, yes: bool): (Proc, Effect) {
    if 1 + step.retries <= attempt then
      var error := Recipes.Exhausted(1 + step.retries);
      (Running(snap, rule, rest, results + [Ended(step, Recipes.Failed, attempt, Some(error))], true), Silent)
    else if yes then
      (Running(snap, rule, rest, results + [Ended(step, Recipes.Success, attempt + 1, None)], false),
       LogAction(step.actionName))
    else
      (Executing(snap, rule, step, rest, results, attempt + 1), Silent)
  }

  /** A step's result; durations are not part of the protocol. */
  function Ended(step: Recipes.RecipeStep, status: Recipes.RecipeStatus, attempts: nat,
                 error: Option<Recipes.Failure>): Recipes.StepResult {
    Recipes.StepResult(step.name, step.actionName, status, attempts, 0, error)
  }

  // ---- runs ----

  /** A label that is not enabled changes nothing, so every sequence of labels is a run. */
  ghost function Step(cfg: Config, s: State, l: Label): State {
    if Enabled(cfg, s, l) then Apply(cfg, s, l) else s
  }

  ghost function Exec(cfg: Config, s: State, labels: seq<Label>): State {
    if labels == [] then s else
    var n := |labels| - 1;
    Step(cfg, Exec(cfg, s, labels[..n]), labels[n])
  }

  /** Fresh guardrails have recorded nothing. */
  ghost predicate Fresh(cfg: Config) {
    cfg.guard.history == map[] && cfg.guard.lastExecution == map[]
  }

  /** A run starts with a process booted on a manager whose lifecycle counters are zero. */
  ghost predicate Initial(cfg: Config, s: State) {
    && Fresh(cfg)
    && s == Boot(cfg, s.clock, s.mgr)
    && s.mgr.KeysMatch()
    && s.mgr.openedCount == 0 && s.mgr.resolvedCount == 0
  }
}
