/** The weighted measure that falls on every internal step, until nothing but the clock can move. */
module Settling {
  import opened Incidents
  import opened Quiescence
  import opened RepairInvariants
  import opened RepairProtocol
  import opened Tally
  import Recipes

  /** More than the steps a goroutine can take for one recipe step, with all its retries. */
  function StepWork(step: Recipes.RecipeStep): nat {
    if step.retries < 0 then 2 else 3 + step.retries
  }

  function RecipeWork(steps: seq<Recipes.RecipeStep>): nat {
    if steps == [] then 0 else StepWork(steps[0]) + RecipeWork(steps[1..])
  }

  /** The work left once a repair is recorded and counted, with the light Updated event it may emit. */
  const CONCLUDE_WORK: nat := 9

  function AdmitWork(cfg: Config, rule: Rule): nat {
    if rule.recipe in cfg.recipes then CONCLUDE_WORK + 7 + RecipeWork(cfg.recipes[rule.recipe]) else 2
  }

  function HoldWork(cfg: Config, check: string, open: bool): nat {
    if open && check in cfg.rules then AdmitWork(cfg, cfg.rules[check]) + 1 else 2
  }

  function WaitWork(cfg: Config, check: string, open: bool): nat {
    HoldWork(cfg, check, open) + 1
  }

  /**
   A repairable event weighs as much as the goroutine it can lead to: heavy while its check is Open, light otherwise.
   */
  function EventCost(cfg: Config, m: ManagerState, e: Event): nat {
    if Repairable(e) then WaitWork(cfg, e.incident.checkName, OpenAt(m, e.incident.checkName)) + 2 else 1
  }

  function EventWork(cfg: Config, m: ManagerState): Event -> nat {
    (e: Event) => EventCost(cfg, m, e)
  }

  function PendingWork(cfg: Config, m: ManagerState): Event -> nat {
    (e: Event) => EventCost(cfg, m, e) + 1
  }

  function LoopWork(cfg: Config, m: ManagerState): Loop -> nat {
    (l: Loop) => match l
      case Idle => 1
      case Got(check) => WaitWork(cfg, check, OpenAt(m, check)) + 2
      case Stopped => 0
  }

  function ProcWork(cfg: Config, m: ManagerState, p: Proc): nat {
    match p
    case Waiting(snap) => WaitWork(cfg, snap.checkName, snap.status == Open)
    case Holding(snap) => HoldWork(cfg, snap.checkName, snap.status == Open)
    case Admitted(_, rule) => AdmitWork(cfg, rule)
    case Announcing(_, _, steps, out) => CONCLUDE_WORK + 4 + RecipeWork(steps) + Sum(out, PendingWork(cfg, m))
    case Running(_, _, steps, _, _) => CONCLUDE_WORK + 3 + RecipeWork(steps)
    case Executing(_, _, step, rest, _, attempt) =>
      CONCLUDE_WORK + 4 + RecipeWork(rest) + if attempt <= step.retries then 1 + step.retries - attempt else 0
    case Finished(_, _, _) => CONCLUDE_WORK + 2
    case Recorded(_, _, _) => CONCLUDE_WORK + 1
    case Completed(_, _, _) => CONCLUDE_WORK
    case Concluding(_, out) => 2 + Sum(out, PendingWork(cfg, m))
    case Releasing(_) => 1
    case Done(_) => 0
  }

  function Works(cfg: Config, m: ManagerState): Weights {
    Weights(EventWork(cfg, m), PendingWork(cfg, m), LoopWork(cfg, m), p => ProcWork(cfg, m, p))
  }

  function Measure(cfg: Config, s: State): nat {
    Works(cfg, s.mgr).Total(s) + if s.cancelled then 0 else 1
  }

  lemma WorksShrink(cfg: Config, n: ManagerState, m: ManagerState)
    requires FewerOpen(n, m)
    ensures Works(cfg, n).AtMost(Works(cfg, m))
  {
    forall e
      ensures EventWork(cfg, n)(e) <= EventWork(cfg, m)(e)
    {
    }
    forall p
      ensures ProcWork(cfg, n, p) <= ProcWork(cfg, m, p)
    {
      if p.Announcing? || p.Concluding? {
        SumBounds(p.out, PendingWork(cfg, n), PendingWork(cfg, m));
      }
    }
  }

  /** What a status change announces weighs at most a light Updated event, and less when the change starts a repair. */
  lemma MarkWork(cfg: Config, m: ManagerState, check: string, status: Status, now: int, ok: bool)
    requires m.KeysMatch() && status != Open && status != Resolved
    ensures var (n, events) := m.SetStatus(check, status, now, now, ok, ok);
            Sum(events, PendingWork(cfg, n)) <= if status == Verifying then 6 else 2
  {
    var (n, events) := m.SetStatus(check, status, now, now, ok, ok);
    MarkEffect(m, check, status, now, ok);
    if events != [] {
      SumTail(events, PendingWork(cfg, n));
    }
  }

  lemma ChooseWorkMark(cfg: Config, s: State, p: Proc, yes: bool, ok: bool)
    requires s.mgr.KeysMatch() && (p.Admitted? || p.Completed?)
    ensures var (q, effect) := Choose(cfg, s, p, yes, ok);
            ProcWork(cfg, Perform(cfg, s, effect, ok).mgr, q) < ProcWork(cfg, s.mgr, p) && !effect.Send?
  {
    MarkWork(cfg, s.mgr, p.snap.checkName, if p.Admitted? then Repairing else if p.success then Verifying else Failed,
             s.clock, ok);
  }

  lemma ChooseWorkSend(cfg: Config, s: State, p: Proc, yes: bool, ok: bool)
    requires p.Announcing? || p.Concluding?
    ensures var (q, effect) := Choose(cfg, s, p, yes, ok);
            ProcWork(cfg, s.mgr, q) + SentWeight(Works(cfg, s.mgr), effect) < ProcWork(cfg, s.mgr, p) && !effect.Mark?
  {
    if p.out != [] {
      SumTail(p.out, PendingWork(cfg, s.mgr));
    }
  }

  lemma ChooseWorkLocal(cfg: Config, s: State, p: Proc, yes: bool, ok: bool)
    requires !p.Announcing? && !p.Concluding? && !p.Admitted? && !p.Completed? && !p.Done?
    ensures var (q, effect) := Choose(cfg, s, p, yes, ok);
            ProcWork(cfg, s.mgr, q) < ProcWork(cfg, s.mgr, p) && !effect.Send? && !effect.Mark?
  {
  }

  lemma ChooseWork(cfg: Config, s: State, p: Proc, yes: bool, ok: bool)
    requires s.mgr.KeysMatch() && !p.Done?
    ensures var (q, effect) := Choose(cfg, s, p, yes, ok);
            var n := Perform(cfg, s, effect, ok).mgr;
            ProcWork(cfg, n, q) + SentWeight(Works(cfg, n), effect) + 1 <= ProcWork(cfg, s.mgr, p)
  {
    if p.Admitted? || p.Completed? {
      ChooseWorkMark(cfg, s, p, yes, ok);
    } else if p.Announcing? || p.Concluding? {
      ChooseWorkSend(cfg, s, p, yes, ok);
    } else {
      ChooseWorkLocal(cfg, s, p, yes, ok);
    }
  }

  lemma GoWork(cfg: Config, s: State, i: nat, yes: bool, ok: bool)
    requires s.mgr.KeysMatch() && i < |s.procs| && !s.procs[i].Done?
    ensures Measure(cfg, Move(cfg, s, i, yes, ok)) < Measure(cfg, s)
  {
    var (q, effect) := Choose(cfg, s, s.procs[i], yes, ok);
    var n := Perform(cfg, s, effect, ok).mgr;
    ChooseWork(cfg, s, s.procs[i], yes, ok);
    PerformShrinks(cfg, s, s.procs[i], yes, ok);
    WorksShrink(cfg, n, s.mgr);
    MoveTotal(cfg, s, i, q, effect, ok, Works(cfg, s.mgr), Works(cfg, n), 1);
    PerformCancelled(cfg, s, effect, ok);
  }

  lemma PerformCancelled(cfg: Config, s: State, effect: Effect, ok: bool)
    ensures Perform(cfg, s, effect, ok).cancelled == s.cancelled
  {
  }

  lemma FetchWork(cfg: Config, s: State)
    requires s.mgr.KeysMatch() && s.loop.Got?
    ensures Works(cfg, s.mgr).Total(Apply(cfg, s, Fetch)) < Works(cfg, s.mgr).Total(s)
  {
    if s.loop.check in s.mgr.active {
      SumAppend(s.procs, Waiting(s.mgr.active[s.loop.check]), Works(cfg, s.mgr).proc);
    }
  }

  lemma EmitWork(cfg: Config, s: State)
    requires s.out != []
    ensures Works(cfg, s.mgr).Total(Apply(cfg, s, ManagerEmit)) < Works(cfg, s.mgr).Total(s)
  {
    SumTail(s.out, PendingWork(cfg, s.mgr));
    EmitWeight(s.queue, cfg.capacity, s.out[0], EventWork(cfg, s.mgr));
  }

  lemma ReceiveWork(cfg: Config, s: State)
    requires s.loop == Idle && s.queue != []
    ensures Works(cfg, s.mgr).Total(Apply(cfg, s, Receive)) < Works(cfg, s.mgr).Total(s)
  {
    SumTail(s.queue, EventWork(cfg, s.mgr));
  }

  /** Every enabled internal step but a clock tick makes the measure smaller. */
  lemma MeasureFalls(cfg: Config, s: State, l: Label)
    requires s.mgr.KeysMatch() && Internal(l) && !l.Tick? && Enabled(cfg, s, l)
    ensures Measure(cfg, Step(cfg, s, l)) < Measure(cfg, s)
  {
    match l {
      case Go(i, yes, ok) => GoWork(cfg, s, i, yes, ok);
      case ManagerEmit => EmitWork(cfg, s);
      case Receive => ReceiveWork(cfg, s);
      case Fetch => FetchWork(cfg, s);
      case _ =>
    }
  }

  /** How many of the labels are enabled when reached and are not clock ticks. */
  ghost function Moves(cfg: Config, s: State, labels: seq<Label>): nat {
    if labels == [] then 0 else
    var n := |labels| - 1;
    Moves(cfg, s, labels[..n]) +
    if Enabled(cfg, Exec(cfg, s, labels[..n]), labels[n]) && !labels[n].Tick? then 1 else 0
  }

  /** So without new check results only so many steps remain, whatever their order. */
  lemma {:induction false} MovesBounded(cfg: Config, s: State, labels: seq<Label>)
    requires IncidentsAddUp(s.mgr, s.rehydrated) && forall l :: l in labels ==> Internal(l)
    ensures var t := Exec(cfg, s, labels);
            && Moves(cfg, s, labels) + Measure(cfg, t) <= Measure(cfg, s)
            && IncidentsAddUp(t.mgr, t.rehydrated)
  {
    if labels != [] {
      var n := |labels| - 1;
      MovesBounded(cfg, s, labels[..n]);
      assert Internal(labels[n]);
      var t := Exec(cfg, s, labels[..n]);
      IncidentsAddUpStep(cfg, t, labels[n]);
      if Enabled(cfg, t, labels[n]) && !labels[n].Tick? {
        MeasureFalls(cfg, t, labels[n]);
      } else {
        assert Measure(cfg, Step(cfg, t, labels[n])) == Measure(cfg, t);
      }
    }
  }

  /**
   From any reachable state, left without new check results, the protocol starts at most the repairs then ahead and
   makes at most as many moves as the measure then is.
   */
  lemma {:induction false} SelfEventsDieOut(cfg: Config, s: State, labels: seq<Label>, more: seq<Label>)
    requires Initial(cfg, s) && forall l :: l in more ==> Internal(l)
    ensures var t := Exec(cfg, s, labels);
            && Exec(cfg, t, more).started <= t.started + RepairsAhead(t)
            && Moves(cfg, t, more) <= Measure(cfg, t)
  {
    var t := Exec(cfg, s, labels);
    Accounting(cfg, s, labels);
    GoroutinesSound(cfg, s, labels);
    RepairsBounded(cfg, t, more);
    MovesBounded(cfg, t, more);
  }

  /** Nothing is left to emit, to receive or to do. */
  ghost predicate Quiet(s: State) {
    && s.out == []
    && !s.loop.Got? && (s.loop == Idle ==> s.queue == [])
    && forall i :: 0 <= i < |s.procs| ==> s.procs[i].Done?
  }

  lemma {:induction false} NobodyHolds(procs: seq<Proc>)
    requires forall p :: p in procs ==> p.Waiting? || p.Done?
    ensures Sum(procs, Holds) == 0
  {
    if procs != [] {
      NobodyHolds(procs[..|procs| - 1]);
    }
  }

  /**
   Until the protocol is quiet some part of it can move without any acquire timing out: when every live goroutine is
   waiting for a permit, one is free.
   */
  lemma NeverStuck(cfg: Config, s: State) returns (l: Label)
    requires PermitsCounted(cfg, s) && 1 <= cfg.permits && !Quiet(s)
    ensures Enabled(cfg, s, l) && (l.Go? || l == ManagerEmit || l == Receive || l == Fetch)
    ensures l.Go? && s.procs[l.i].Waiting? ==> l.yes
  {
    if s.out != [] {
      l := ManagerEmit;
    } else if s.loop.Got? {
      l := Fetch;
    } else if s.loop == Idle && s.queue != [] {
      l := Receive;
    } else if i: nat :| i < |s.procs| && !s.procs[i].Done? && !s.procs[i].Waiting? {
      l := Go(i, true, true);
    } else {
      NobodyHolds(s.procs);
      var i: nat :| i < |s.procs| && !s.procs[i].Done?;
      l := Go(i, true, true);
    }
  }

  /** A label that is not an acquire timing out. */
  ghost predicate Patient(s: State, l: Label) {
    l.Go? && l.i < |s.procs| && s.procs[l.i].Waiting? ==> l.yes
  }

  /**
   So from any reachable state the protocol, left to itself, comes to rest without a single timeout: every goroutine
   gets its permit and ends, within as many moves as the measure is.
   */
  lemma {:induction false} ComesToRest(cfg: Config, s: State) returns (labels: seq<Label>)
    requires PermitsCounted(cfg, s) && IncidentsAddUp(s.mgr, s.rehydrated) && 1 <= cfg.permits
    ensures |labels| <= Measure(cfg, s) && Quiet(Exec(cfg, s, labels))
    ensures forall k :: 0 <= k < |labels| ==> Internal(labels[k]) && Patient(Exec(cfg, s, labels[..k]), labels[k])
    decreases Measure(cfg, s)
  {
    labels := [];
    if !Quiet(s) {
      var l := NeverStuck(cfg, s);
      var t := Step(cfg, s, l);
      MeasureFalls(cfg, s, l);
      PermitsStep(cfg, s, l);
      IncidentsAddUpStep(cfg, s, l);
      var rest := ComesToRest(cfg, t);
      labels := [l] + rest;
      ExecFirst(cfg, s, l, rest);
      forall k | 0 <= k < |labels|
        ensures Internal(labels[k]) && Patient(Exec(cfg, s, labels[..k]), labels[k])
      {
        if 0 < k {
          assert labels[..k] == [l] + rest[..k - 1];
          ExecFirst(cfg, s, l, rest[..k - 1]);
        }
      }
    }
  }
}
