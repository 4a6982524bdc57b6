/**
 The hourly bound is exact, and one incident can be repaired many times: for every
 configuration with a limited rule there is a run in which a single incident is repaired
 `limit - 1 + permits` times at one instant. The incident fails that often before any
 goroutine marks it, every goroutine keeps its Open snapshot, all but the last `permits`
 of them run one after the other, and those last ones pass the rate limit together.
 */
module Tightness {
  import opened Guardrails
  import opened Incidents
  import opened RateBound
  import opened RepairInvariants
  import opened RepairProtocol
  import opened Windows
  import Recipes

  // ---- driving one goroutine ----

  /** Goroutine `i` moved, and this is what its moves added to the rule's records, the starts and the permits taken. */
  ghost predicate Moved(s: State, t: State, i: nat, rule: string, records: nat, starts: nat, permits: int) {
    && i < |s.procs| == |t.procs| && t.procs == s.procs[i := t.procs[i]]
    && t.procs[i].snap == s.procs[i].snap
    && t.clock == s.clock && t.guard.maxRepairs == s.guard.maxRepairs
    && t.held == s.held + permits && t.started == s.started + starts
    && |t.guard.History(rule)| <= |s.guard.History(rule)| + records
    && Log(t.repairs, rule) == Log(s.repairs, rule) + seq(records, _ => s.clock)
  }

  lemma PerformMoved(cfg: Config, s: State, i: nat, q: Proc, effect: Effect, ok: bool, rule: string)
    requires i < |s.procs| && q.snap == s.procs[i].snap
    ensures Moved(s, Perform(cfg, s, effect, ok).(procs := s.procs[i := q]), i, rule,
                  if effect == LogRepair(rule) then 1 else 0, if effect.CountStart? then 1 else 0,
                  if effect.TakePermit? then 1 else if effect.ReturnPermit? then -1 else 0)
  {
    PerformLogs(cfg, s, effect, ok, rule);
    if effect != LogRepair(rule) {
      assert Log(s.repairs, rule) + [] == Log(s.repairs, rule);
    }
  }

  lemma MovedTwice(s: State, t: State, u: State, i: nat, rule: string, a: nat, b: nat, c: nat, d: nat, e: int, f: int)
    requires Moved(s, t, i, rule, a, c, e) && Moved(t, u, i, rule, b, d, f)
    ensures Moved(s, u, i, rule, a + b, c + d, e + f)
  {
    assert seq(a, _ => s.clock) + seq(b, _ => s.clock) == seq(a + b, _ => s.clock);
  }

  lemma MovedNot(s: State, i: nat, rule: string)
    requires i < |s.procs|
    ensures Moved(s, s, i, rule, 0, 0, 0)
  {
    assert Log(s.repairs, rule) + [] == Log(s.repairs, rule);
  }

  function RecipeLength(steps: seq<Recipes.RecipeStep>): nat {
    3 * |steps|
  }

  /** How many moves an admitted goroutine is from its end, when every action it tries succeeds. */
  function Left(cfg: Config, p: Proc): nat {
    match p
    case Admitted(_, rule) => 11 + if rule.recipe in cfg.recipes then RecipeLength(cfg.recipes[rule.recipe]) else 0
    case Announcing(_, _, steps, out) => 9 + |out| + RecipeLength(steps)
    case Running(_, _, steps, _, _) => 8 + RecipeLength(steps)
    case Executing(_, _, _, rest, _, _) => 9 + RecipeLength(rest)
    case Finished(_, _, _) => 6
    case Recorded(_, _, _) => 5
    case Completed(_, _, _) => 4
    case Concluding(_, out) => 2 + |out|
    case Releasing(_) => 1
    case _ => 0
  }

  /** A goroutine of the rule that can be driven until it has recorded its repair, or to its end. */
  ghost predicate Drivable(cfg: Config, p: Proc, rule: string) {
    && !p.Waiting? && !p.Holding?
    && (PastOpenTest(p) ==> p.rule.name == rule)
    && (p.Admitted? ==> p.rule.recipe in cfg.recipes)
  }

  function Owes(p: Proc): nat {
    if p.Admitted? || p.Announcing? || p.Running? || p.Executing? || p.Finished? then 1 else 0
  }

  function WillStart(p: Proc): nat {
    if p.Admitted? || p.Announcing? then 1 else 0
  }

  lemma OneEvent(m: ManagerState, check: string, status: Status, now: int, ok: bool)
    ensures status != Resolved ==> |m.SetStatus(check, status, now, now, ok, ok).1| <= 1
  {
  }

  lemma StepDriven(cfg: Config, s: State, p: Proc)
    requires p.Running? && p.steps != []
    ensures var q := ChooseStep(cfg, s, p.snap, p.rule, p.steps, p.results, p.previousFailed);
            (q.Running? || q.Executing?) && q.rule == p.rule && q.snap == p.snap && Left(cfg, q) < Left(cfg, p)
  {
  }

  lemma ChooseDriven(cfg: Config, s: State, p: Proc, rule: string)
    requires Drivable(cfg, p, rule) && !p.Done? && (p.Executing? ==> p.attempt == 0)
    ensures var (q, effect) := Choose(cfg, s, p, true, true);
            && Drivable(cfg, q, rule) && Left(cfg, q) < Left(cfg, p) && q.snap == p.snap
            && Owes(p) == Owes(q) + (if effect == LogRepair(rule) then 1 else 0)
            && WillStart(p) == WillStart(q) + (if effect.CountStart? then 1 else 0)
            && !effect.TakePermit? && (effect.ReturnPermit? <==> q.Done?)
            && (q.Executing? ==> q.attempt == 0)
            && (Owes(p) == 1 ==> Owes(q) == 1 || q.Recorded?)
  {
    if p.Admitted? {
      OneEvent(s.mgr, p.snap.checkName, Repairing, s.clock, true);
    } else if p.Completed? {
      OneEvent(s.mgr, p.snap.checkName, if p.success then Verifying else Failed, s.clock, true);
    } else if p.Running? && p.steps != [] {
      StepDriven(cfg, s, p);
    }
  }

  /** One move towards the end, all tries and saves succeeding. */
  lemma DriveOnce(cfg: Config, s: State, i: nat, rule: string)
    requires i < |s.procs| && Drivable(cfg, s.procs[i], rule) && !s.procs[i].Done?
    requires s.procs[i].Executing? ==> s.procs[i].attempt == 0
    ensures var t := Step(cfg, s, Go(i, true, true));
            && |t.procs| == |s.procs|
            && var p, q := s.procs[i], t.procs[i];
               && Drivable(cfg, q, rule) && Left(cfg, q) < Left(cfg, p) && (q.Executing? ==> q.attempt == 0)
               && Owes(q) <= Owes(p) && WillStart(q) <= WillStart(p) && (Owes(p) == 1 ==> Owes(q) == 1 || q.Recorded?)
               && Moved(s, t, i, rule, Owes(p) - Owes(q), WillStart(p) - WillStart(q), if q.Done? then -1 else 0)
  {
    var (q, effect) := Choose(cfg, s, s.procs[i], true, true);
    ChooseDriven(cfg, s, s.procs[i], rule);
    PerformMoved(cfg, s, i, q, effect, true, rule);
  }

  /** Moves of one goroutine only, whose tries and saves all succeed. */
  ghost predicate Driven(labels: seq<Label>, i: nat) {
    forall k :: 0 <= k < |labels| ==> labels[k] == Go(i, true, true)
  }

  /** Labels of one process whose saves all succeed. */
  ghost predicate AllSaved(labels: seq<Label>) {
    forall k :: 0 <= k < |labels| ==>
      !labels[k].Restart? && (labels[k].Result? ==> labels[k].ok) && (labels[k].Go? ==> labels[k].ok)
  }

  lemma DrivenFirst(rest: seq<Label>, i: nat)
    requires Driven(rest, i)
    ensures Driven([Go(i, true, true)] + rest, i)
  {
  }

  /** Drives a goroutine until it has recorded its repair, or on to its end. */
  lemma {:induction false} Drive(cfg: Config, s: State, i: nat, rule: string, toEnd: bool) returns (labels: seq<Label>)
    requires i < |s.procs| && Drivable(cfg, s.procs[i], rule) && (s.procs[i].Executing? ==> s.procs[i].attempt == 0)
    requires !toEnd ==> Owes(s.procs[i]) == 1 || s.procs[i].Recorded?
    ensures var p, t := s.procs[i], Exec(cfg, s, labels);
            && Moved(s, t, i, rule, Owes(p), WillStart(p), if toEnd && !p.Done? then -1 else 0)
            && (if toEnd then t.procs[i].Done? else t.procs[i].Recorded?)
    ensures Driven(labels, i)
    decreases Left(cfg, s.procs[i])
  {
    var p := s.procs[i];
    if (toEnd && p.Done?) || (!toEnd && p.Recorded?) {
      labels := [];
      MovedNot(s, i, rule);
    } else {
      var t := Step(cfg, s, Go(i, true, true));
      DriveOnce(cfg, s, i, rule);
      var q := t.procs[i];
      var rest := Drive(cfg, t, i, rule, toEnd);
      labels := [Go(i, true, true)] + rest;
      DrivenFirst(rest, i);
      ExecFirst(cfg, s, Go(i, true, true), rest);
      MovedTwice(s, t, Exec(cfg, s, labels), i, rule, Owes(p) - Owes(q), Owes(q), WillStart(p) - WillStart(q),
                 WillStart(q),
                 if q.Done? then -1 else 0, if toEnd && !q.Done? then -1 else 0);
    }
  }

  /** The limit of the rule, if it has one, allows more than `n` repairs. */
  ghost predicate HasRoom(guard: GuardState, rule: string, n: nat) {
    rule in guard.maxRepairs ==> n < guard.maxRepairs[rule]
  }

  /** A waiting goroutine with an Open snapshot takes a free permit and passes the rate limit. */
  lemma Admit(cfg: Config, s: State, i: nat) returns (labels: seq<Label>)
    requires i < |s.procs| && s.procs[i].Waiting? && s.procs[i].snap.status == Open && s.held < cfg.permits
    requires s.procs[i].snap.checkName in cfg.rules
    requires HasRoom(s.guard, cfg.rules[s.procs[i].snap.checkName].name,
                     |s.guard.History(cfg.rules[s.procs[i].snap.checkName].name)|)
    ensures var rule, t := cfg.rules[s.procs[i].snap.checkName], Exec(cfg, s, labels);
            Moved(s, t, i, rule.name, 0, 0, 1) && t.procs[i] == Admitted(s.procs[i].snap, rule)
    ensures Driven(labels, i)
  {
    var l, snap := Go(i, true, true), s.procs[i].snap;
    var rule := cfg.rules[snap.checkName];
    var t := Step(cfg, s, l);
    PerformMoved(cfg, s, i, Holding(snap), TakePermit, true, rule.name);
    var u := Step(cfg, t, l);
    assert Choose(cfg, t, t.procs[i], true, true) == (Admitted(snap, rule), Prune(rule.name));
    PerformMoved(cfg, t, i, Admitted(snap, rule), Prune(rule.name), true, rule.name);
    MovedTwice(s, t, u, i, rule.name, 0, 0, 0, 0, 1, 0);
    labels := [l, l];
    ExecFirst(cfg, s, l, [l]);
    ExecFirst(cfg, t, l, []);
    assert [l] + [l] == labels && [l] + [] == [l];
  }

  // ---- the run ----

  /** A rule that can run, and whose limit, if it has one, allows some repair. */
  ghost predicate Runnable(cfg: Config, check: string) {
    && check in cfg.rules && cfg.rules[check].recipe in cfg.recipes
    && HasRoom(cfg.guard, cfg.rules[check].name, 0)
    && 1 <= cfg.permits && 1 <= cfg.capacity
  }

  /** A runnable rule that has a limit. */
  ghost predicate Limited(cfg: Config, check: string) {
    Runnable(cfg, check) && cfg.rules[check].name in cfg.guard.maxRepairs
  }

  /**
   All goroutines hold an Open snapshot of incident `id`: the first `done` have ended, those up to `recorded` have
   recorded their repair, those up to `admitted` have passed the rate limit, the others are waiting.
   */
  ghost predicate Shape(cfg: Config, s: State, check: string, id: int, done: nat, recorded: nat, admitted: nat)
    requires check in cfg.rules
  {
    && done <= recorded <= admitted <= |s.procs|
    && (forall i :: 0 <= i < |s.procs| ==>
          && s.procs[i].snap.id == id && s.procs[i].snap.checkName == check && s.procs[i].snap.status == Open
          && (if i < done then s.procs[i].Done?
              else if i < recorded then s.procs[i].Recorded?
              else if i < admitted then s.procs[i] == Admitted(s.procs[i].snap, cfg.rules[check])
              else s.procs[i].Waiting?))
    && s.held == admitted - done
    && s.started == recorded
    && s.guard.maxRepairs == cfg.guard.maxRepairs
    && |s.guard.History(cfg.rules[check].name)| <= recorded
    && Log(s.repairs, cfg.rules[check].name) == seq(recorded, _ => s.clock)
  }

  /** While fewer than the limit are recorded, a single goroutine can run from waiting to its end. */
  lemma RunAlone(cfg: Config, s: State, check: string, id: int, n: nat) returns (labels: seq<Label>)
    requires Runnable(cfg, check) && Shape(cfg, s, check, id, n, n, n)
    requires n < |s.procs| && HasRoom(cfg.guard, cfg.rules[check].name, n)
    ensures var t := Exec(cfg, s, labels); Shape(cfg, t, check, id, n + 1, n + 1, n + 1) && |t.procs| == |s.procs|
  {
    var rule := cfg.rules[check].name;
    var first := Admit(cfg, s, n);
    var t := Exec(cfg, s, first);
    var second := Drive(cfg, t, n, rule, true);
    labels := first + second;
    ExecConcat(cfg, s, first, second);
    MovedTwice(s, t, Exec(cfg, s, labels), n, rule, 0, 1, 0, 1, 1, -1);
    assert seq(n, _ => s.clock) + seq(1, _ => s.clock) == seq(n + 1, _ => s.clock);
  }

  /** With a permit free and fewer than the limit recorded, one more goroutine passes the rate limit. */
  lemma AdmitNext(cfg: Config, s: State, check: string, id: int, n: nat, a: nat) returns (labels: seq<Label>)
    requires Runnable(cfg, check) && Shape(cfg, s, check, id, n, n, a)
    requires a < |s.procs| && HasRoom(cfg.guard, cfg.rules[check].name, n) && a - n < cfg.permits
    ensures var t := Exec(cfg, s, labels); Shape(cfg, t, check, id, n, n, a + 1) && |t.procs| == |s.procs|
  {
    labels := Admit(cfg, s, a);
    assert seq(n, _ => s.clock) + seq(0, _ => s.clock) == seq(n, _ => s.clock);
  }

  /** Every admitted goroutine records, whatever the limit says by then. */
  lemma RecordNext(cfg: Config, s: State, check: string, id: int, n: nat, r: nat, a: nat) returns (labels: seq<Label>)
    requires Runnable(cfg, check) && Shape(cfg, s, check, id, n, r, a) && r < a
    ensures var t := Exec(cfg, s, labels); Shape(cfg, t, check, id, n, r + 1, a) && |t.procs| == |s.procs|
  {
    labels := Drive(cfg, s, r, cfg.rules[check].name, false);
    assert seq(r, _ => s.clock) + seq(1, _ => s.clock) == seq(r + 1, _ => s.clock);
  }

  /** The loops are idle and the check's incident, open already or next to be opened, has this identifier. */
  ghost predicate Receptive(s: State, check: string, id: int) {
    && s.out == [] && s.queue == [] && s.loop == Idle
    && (if check in s.mgr.active
        then var inc := s.mgr.active[check]; inc.status == Open && inc.id == id && inc.checkName == check
        else id == s.mgr.idCounter + 1)
  }

  /** A failed result leaves the incident open and announces it by one repairable event. */
  lemma FailureAnnounced(s: State, check: string, id: int)
    requires Receptive(s, check, id)
    ensures var (m, events) := s.mgr.ProcessResult(CheckResult(check, "", CheckFailed), s.clock, true);
            && check in m.active && m.active[check].status == Open && m.active[check].id == id
            && m.active[check].checkName == check
            && |events| == 1 && Repairable(events[0]) && events[0].incident == m.active[check]
  {
  }

  /** A queued repairable event makes a goroutine that holds the check's active incident. */
  lemma EventSpawns(cfg: Config, s: State, check: string)
    requires s.out == [] && s.loop == Idle && |s.queue| == 1 && Repairable(s.queue[0])
    requires s.queue[0].incident.checkName == check && check in s.mgr.active
    ensures Exec(cfg, s, [Receive, Fetch]) == s.(queue := [], procs := s.procs + [Waiting(s.mgr.active[check])])
  {
    var t := Step(cfg, s, Receive);
    assert t == s.(queue := [], loop := Got(check));
    ExecFirst(cfg, s, Receive, [Fetch]);
    ExecFirst(cfg, t, Fetch, []);
    assert [Receive] + [Fetch] == [Receive, Fetch] && [Fetch] + [] == [Fetch];
  }

  /** A failed result and its event, emitted into an empty channel. */
  lemma ResultEmits(cfg: Config, s: State, result: CheckResult)
    requires s.out == [] && s.queue == [] && 1 <= cfg.capacity
    requires |s.mgr.ProcessResult(result, s.clock, true).1| == 1
    ensures var (m, events) := s.mgr.ProcessResult(result, s.clock, true);
            Exec(cfg, s, [Result(result, true), ManagerEmit]) == s.(mgr := m, queue := events)
  {
    var (m, events) := s.mgr.ProcessResult(result, s.clock, true);
    var t := Step(cfg, s, Result(result, true));
    assert t == s.(mgr := m, out := events);
    assert Step(cfg, t, ManagerEmit) == s.(mgr := m, queue := events);
    ExecFirst(cfg, s, Result(result, true), [ManagerEmit]);
    ExecFirst(cfg, t, ManagerEmit, []);
    assert [Result(result, true)] + [ManagerEmit] == [Result(result, true), ManagerEmit];
    assert [ManagerEmit] + [] == [ManagerEmit];
  }

  /** One failed result: emitted, received, and captured by a new waiting goroutine. */
  lemma FailOnce(cfg: Config, s: State, check: string, id: int) returns (labels: seq<Label>)
    requires Runnable(cfg, check) && Shape(cfg, s, check, id, 0, 0, 0) && Receptive(s, check, id)
    ensures var t := Exec(cfg, s, labels);
            Shape(cfg, t, check, id, 0, 0, 0) && Receptive(t, check, id) && |t.procs| == |s.procs| + 1
    ensures check in Exec(cfg, s, labels).mgr.active
    ensures AllSaved(labels)
  {
    var result := CheckResult(check, "", CheckFailed);
    FailureAnnounced(s, check, id);
    ResultEmits(cfg, s, result);
    var t := Exec(cfg, s, [Result(result, true), ManagerEmit]);
    EventSpawns(cfg, t, check);
    labels := [Result(result, true), ManagerEmit] + [Receive, Fetch];
    ExecConcat(cfg, s, [Result(result, true), ManagerEmit], [Receive, Fetch]);
  }

  lemma {:induction false} AllNow(log: seq<int>, span: int, t: int)
    requires 0 < span && forall i :: 0 <= i < |log| ==> log[i] == t
    ensures InWindow(log, span, t) == |log|
  {
    if log != [] {
      AllNow(log[..|log| - 1], span, t);
    }
  }

  lemma SpawnAll(cfg: Config, s: State, check: string, id: int, n: nat) returns (labels: seq<Label>)
    requires Runnable(cfg, check) && Shape(cfg, s, check, id, 0, 0, 0) && Receptive(s, check, id) && |s.procs| == 0
    ensures var t := Exec(cfg, s, labels); Shape(cfg, t, check, id, 0, 0, 0) && |t.procs| == n
  {
    labels := [];
    for k := 0 to n
      invariant var t := Exec(cfg, s, labels);
                Shape(cfg, t, check, id, 0, 0, 0) && Receptive(t, check, id) && |t.procs| == k
    {
      var more := FailOnce(cfg, Exec(cfg, s, labels), check, id);
      ExecConcat(cfg, s, labels, more);
      labels := labels + more;
    }
  }

  lemma RunSerially(cfg: Config, s: State, check: string, id: int, n: nat) returns (labels: seq<Label>)
    requires Runnable(cfg, check) && Shape(cfg, s, check, id, 0, 0, 0)
    requires n <= |s.procs| && (0 < n ==> HasRoom(cfg.guard, cfg.rules[check].name, n - 1))
    ensures var t := Exec(cfg, s, labels); Shape(cfg, t, check, id, n, n, n) && |t.procs| == |s.procs|
  {
    labels := [];
    for k := 0 to n
      invariant var t := Exec(cfg, s, labels); Shape(cfg, t, check, id, k, k, k) && |t.procs| == |s.procs|
    {
      var more := RunAlone(cfg, Exec(cfg, s, labels), check, id, k);
      ExecConcat(cfg, s, labels, more);
      labels := labels + more;
    }
  }

  lemma AdmitAll(cfg: Config, s: State, check: string, id: int, n: nat) returns (labels: seq<Label>)
    requires Runnable(cfg, check) && Shape(cfg, s, check, id, n, n, n)
    requires |s.procs| == n + cfg.permits && HasRoom(cfg.guard, cfg.rules[check].name, n)
    ensures var t := Exec(cfg, s, labels); Shape(cfg, t, check, id, n, n, |t.procs|) && |t.procs| == |s.procs|
  {
    labels := [];
    for a := n to |s.procs|
      invariant var t := Exec(cfg, s, labels); Shape(cfg, t, check, id, n, n, a) && |t.procs| == |s.procs|
    {
      var more := AdmitNext(cfg, Exec(cfg, s, labels), check, id, n, a);
      ExecConcat(cfg, s, labels, more);
      labels := labels + more;
    }
  }

  lemma RecordAll(cfg: Config, s: State, check: string, id: int, n: nat) returns (labels: seq<Label>)
    requires Runnable(cfg, check) && Shape(cfg, s, check, id, n, n, |s.procs|)
    ensures var t := Exec(cfg, s, labels); Shape(cfg, t, check, id, n, |t.procs|, |t.procs|) && |t.procs| == |s.procs|
  {
    labels := [];
    for r := n to |s.procs|
      invariant var t := Exec(cfg, s, labels); Shape(cfg, t, check, id, n, r, |t.procs|) && |t.procs| == |s.procs|
    {
      var more := RecordNext(cfg, Exec(cfg, s, labels), check, id, n, r, |s.procs|);
      ExecConcat(cfg, s, labels, more);
      labels := labels + more;
    }
  }

  /**
   From any initial state where the check has no incident there is a run with one incident, repaired
   `limit - 1 + permits` times within an hour: the bound is reached, and neither "once per incident" nor
   "at most the limit per hour" holds of the concurrent engine.
   */
  lemma BoundIsReached(cfg: Config, s: State, check: string) returns (labels: seq<Label>)
    requires Initial(cfg, s) && Limited(cfg, check) && check !in s.mgr.active
    ensures var t, rule := Exec(cfg, s, labels), cfg.rules[check].name;
            var n := cfg.guard.maxRepairs[rule] - 1 + cfg.permits;
            && InWindow(Log(t.repairs, rule), HOUR, t.clock) == n
            && t.started == n && |t.procs| == n
            && forall i :: 0 <= i < n ==> t.procs[i].snap.id == s.mgr.idCounter + 1
  {
    var rule, id := cfg.rules[check].name, s.mgr.idCounter + 1;
    var limit := cfg.guard.maxRepairs[rule];
    var a := SpawnAll(cfg, s, check, id, limit - 1 + cfg.permits);
    var s1 := Exec(cfg, s, a);
    var b := RunSerially(cfg, s1, check, id, limit - 1);
    var s2 := Exec(cfg, s1, b);
    var c := AdmitAll(cfg, s2, check, id, limit - 1);
    var s3 := Exec(cfg, s2, c);
    var d := RecordAll(cfg, s3, check, id, limit - 1);
    var t := Exec(cfg, s3, d);
    labels := ((a + b) + c) + d;
    ExecConcat(cfg, s, a, b);
    ExecConcat(cfg, s, a + b, c);
    ExecConcat(cfg, s, (a + b) + c, d);
    AllNow(Log(t.repairs, rule), HOUR, t.clock);
  }

  /** So every run keeps every hour of a limited rule within its limit exactly when repairs are serial. */
  lemma LimitKeptIffSerial(cfg: Config, s: State, check: string)
    requires Initial(cfg, s) && Limited(cfg, check) && check !in s.mgr.active
    ensures var rule := cfg.rules[check].name;
            cfg.permits == 1 <==>
            forall labels: seq<Label>, t: int ::
              InWindow(Log(Exec(cfg, s, labels).repairs, rule), HOUR, t) <= cfg.guard.maxRepairs[rule]
  {
    var rule := cfg.rules[check].name;
    if cfg.permits == 1 {
      forall labels: seq<Label>, t: int
        ensures InWindow(Log(Exec(cfg, s, labels).repairs, rule), HOUR, t) <= cfg.guard.maxRepairs[rule]
      {
        RepairsPerHour(cfg, s, labels, rule, t);
      }
    } else {
      var labels := BoundIsReached(cfg, s, check);
      var t := Exec(cfg, s, labels);
      assert cfg.guard.maxRepairs[rule] < InWindow(Log(t.repairs, rule), HOUR, t.clock);
    }
  }

  /** Without a limit nothing bounds the repairs of one incident, not even one after the other. */
  lemma UnlimitedIsUnbounded(cfg: Config, s: State, check: string, n: nat) returns (labels: seq<Label>)
    requires Initial(cfg, s) && Runnable(cfg, check) && check !in s.mgr.active
    requires cfg.rules[check].name !in cfg.guard.maxRepairs
    ensures var t, rule := Exec(cfg, s, labels), cfg.rules[check].name;
            && InWindow(Log(t.repairs, rule), HOUR, t.clock) == n
            && t.started == n && |t.procs| == n
            && forall i :: 0 <= i < n ==> t.procs[i].snap.id == s.mgr.idCounter + 1 && t.procs[i].Done?
  {
    var id := s.mgr.idCounter + 1;
    var a := SpawnAll(cfg, s, check, id, n);
    var b := RunSerially(cfg, Exec(cfg, s, a), check, id, n);
    labels := a + b;
    ExecConcat(cfg, s, a, b);
    var t := Exec(cfg, s, labels);
    AllNow(Log(t.repairs, cfg.rules[check].name), HOUR, t.clock);
  }
}
