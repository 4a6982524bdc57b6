/**
 The engine's own status changes feed Updated events back to it. They cannot keep it busy:
 once no more check results arrive, the number of further repairs is bounded by what is
 already queued or held for an incident that is still Open, and a weighted measure falls on
 every step until the protocol is quiet.
 */
module Quiescence {
  import opened Incidents
  import opened RepairInvariants
  import opened RepairProtocol
  import opened Tally

  /** No check result and no restart: the protocol is left to itself. */
  predicate Internal(l: Label) {
    !l.Result? && !l.Restart?
  }

  predicate OpenAt(m: ManagerState, check: string) {
    check in m.active && m.active[check].status == Open
  }

  // ---- weights of a state ----

  /** Weights for queued events, events still to be emitted, the event loop, and goroutines. */
  datatype Weights = Weights(event: Event -> nat, pending: Event -> nat, loop: Loop -> nat, proc: Proc -> nat)
  {
    function Total(s: State): nat {
      Sum(s.queue, event) + Sum(s.out, pending) + loop(s.loop) + Sum(s.procs, proc)
    }

    ghost predicate AtMost(heavier: Weights) {
      && (forall e :: event(e) <= heavier.event(e))
      && (forall e :: pending(e) <= heavier.pending(e))
      && (forall l :: loop(l) <= heavier.loop(l))
      && (forall p :: proc(p) <= heavier.proc(p))
    }
  }

  lemma EmitWeight(queue: seq<Event>, capacity: nat, e: Event, f: Event -> nat)
    ensures Sum(Emit(queue, capacity, e), f) <= Sum(queue, f) + f(e)
  {
    SumAppend(queue, e, f);
  }

  function SentWeight(w: Weights, effect: Effect): nat {
    if effect.Send? then w.event(effect.event) else 0
  }

  /** If the weight a goroutine's step gives up covers what it sends and a gain, so does the total's. */
  lemma MoveTotal(cfg: Config, s: State, i: nat, q: Proc, effect: Effect, ok: bool, w: Weights, lighter: Weights,
                  gain: nat)
    requires i < |s.procs| && lighter.AtMost(w)
    requires lighter.proc(q) + SentWeight(lighter, effect) + gain <= w.proc(s.procs[i])
    ensures lighter.Total(Perform(cfg, s, effect, ok).(procs := s.procs[i := q])) + gain <= w.Total(s)
  {
    SumReplace(s.procs, i, q, w.proc, lighter.proc);
    SumBounds(s.queue, lighter.event, w.event);
    SumBounds(s.out, lighter.pending, w.pending);
    if effect.Send? {
      EmitWeight(s.queue, cfg.capacity, effect.event, lighter.event);
    }
  }

  // ---- the engine's status changes ----

  /** Fewer checks are Open in `n` than in `m`. */
  ghost predicate FewerOpen(n: ManagerState, m: ManagerState) {
    forall c :: OpenAt(n, c) ==> OpenAt(m, c)
  }

  /** A status set by the engine closes its own check, opens none, and is announced by at most one event. */
  lemma MarkEffect(m: ManagerState, check: string, status: Status, now: int, ok: bool)
    requires m.KeysMatch() && status != Open && status != Resolved
    ensures var (n, events) := m.SetStatus(check, status, now, now, ok, ok);
            && FewerOpen(n, m) && !OpenAt(n, check)
            && (events == [] || (|events| == 1 && events[0].incident.checkName == check
                                 && (Repairable(events[0]) <==> status == Verifying)))
  {
  }

  lemma PerformShrinks(cfg: Config, s: State, p: Proc, yes: bool, ok: bool)
    requires s.mgr.KeysMatch()
    ensures var effect := Choose(cfg, s, p, yes, ok).1;
            FewerOpen(Perform(cfg, s, effect, ok).mgr, s.mgr)
  {
    var effect := Choose(cfg, s, p, yes, ok).1;
    if effect.Mark? {
      MarkEffect(s.mgr, effect.check, effect.status, s.clock, ok);
    }
  }

  // ---- how many repairs can still start ----

  /** A repairable event counts while its check's incident is Open. */
  function Hope(m: ManagerState): Event -> nat {
    (e: Event) => if Repairable(e) && OpenAt(m, e.incident.checkName) then 1 else 0
  }

  /**
   A goroutine counts while it holds an Open snapshot and has not started; an event it still has to emit counts too.
   */
  function ProcHope(m: ManagerState, p: Proc): nat {
    match p
    case Waiting(snap) => if snap.status == Open then 1 else 0
    case Holding(snap) => if snap.status == Open then 1 else 0
    case Admitted(snap, _) => if snap.status == Open then 1 else 0
    case Announcing(snap, _, _, out) => (if snap.status == Open then 1 else 0) + Sum(out, Hope(m))
    case Concluding(_, out) => Sum(out, Hope(m))
    case _ => 0
  }

  function Hopes(m: ManagerState): Weights {
    Weights(Hope(m), Hope(m), (l: Loop) => if l.Got? && OpenAt(m, l.check) then 1 else 0, p => ProcHope(m, p))
  }

  /** The repairs that what is queued, held or about to be emitted can still start. */
  function RepairsAhead(s: State): nat {
    Hopes(s.mgr).Total(s)
  }

  lemma HopesShrink(n: ManagerState, m: ManagerState)
    requires FewerOpen(n, m)
    ensures Hopes(n).AtMost(Hopes(m))
  {
    forall p
      ensures ProcHope(n, p) <= ProcHope(m, p)
    {
      if p.Announcing? || p.Concluding? {
        SumBounds(p.out, Hope(n), Hope(m));
      }
    }
  }

  /** The events of the engine's own status changes start no repair. */
  lemma MarkHope(m: ManagerState, check: string, status: Status, now: int, ok: bool)
    requires m.KeysMatch() && status != Open && status != Resolved
    ensures var (n, events) := m.SetStatus(check, status, now, now, ok, ok);
            Sum(events, Hope(n)) == 0
  {
    var (n, events) := m.SetStatus(check, status, now, now, ok, ok);
    MarkEffect(m, check, status, now, ok);
    if events != [] {
      SumTail(events, Hope(n));
    }
  }

  lemma ChooseHopeMark(cfg: Config, s: State, p: Proc, yes: bool, ok: bool)
    requires s.mgr.KeysMatch() && (p.Admitted? || p.Completed?)
    ensures var (q, effect) := Choose(cfg, s, p, yes, ok);
            ProcHope(Perform(cfg, s, effect, ok).mgr, q) <= ProcHope(s.mgr, p) && !effect.Send? && !effect.CountStart?
  {
    MarkHope(s.mgr, p.snap.checkName, if p.Admitted? then Repairing else if p.success then Verifying else Failed,
             s.clock, ok);
  }

  lemma ChooseHopeSend(cfg: Config, s: State, p: Proc, yes: bool, ok: bool)
    requires ProcSound(cfg, p) && (p.Announcing? || p.Concluding?)
    ensures var (q, effect) := Choose(cfg, s, p, yes, ok);
            ProcHope(s.mgr, q) + SentWeight(Hopes(s.mgr), effect) + (if effect.CountStart? then 1 else 0) <=
              ProcHope(s.mgr, p)
    ensures !Choose(cfg, s, p, yes, ok).1.Mark?
  {
    if p.out != [] {
      SumTail(p.out, Hope(s.mgr));
    }
  }

  lemma ChooseHopeLocal(cfg: Config, s: State, p: Proc, yes: bool, ok: bool)
    requires !p.Announcing? && !p.Concluding? && !p.Admitted? && !p.Completed?
    ensures var (q, effect) := Choose(cfg, s, p, yes, ok);
            ProcHope(s.mgr, q) <= ProcHope(s.mgr, p) && !effect.Send? && !effect.CountStart? && !effect.Mark?
  {
  }

  /** Every step of a goroutine pays for what it sends, and a start pays one for itself. */
  lemma ChooseHope(cfg: Config, s: State, p: Proc, yes: bool, ok: bool)
    requires s.mgr.KeysMatch() && ProcSound(cfg, p)
    ensures var (q, effect) := Choose(cfg, s, p, yes, ok);
            var n := Perform(cfg, s, effect, ok).mgr;
            ProcHope(n, q) + SentWeight(Hopes(n), effect) + (if effect.CountStart? then 1 else 0) <= ProcHope(s.mgr, p)
  {
    if p.Admitted? || p.Completed? {
      ChooseHopeMark(cfg, s, p, yes, ok);
    } else if p.Announcing? || p.Concluding? {
      ChooseHopeSend(cfg, s, p, yes, ok);
    } else {
      ChooseHopeLocal(cfg, s, p, yes, ok);
    }
  }

  lemma GoHope(cfg: Config, s: State, i: nat, yes: bool, ok: bool)
    requires s.mgr.KeysMatch() && i < |s.procs| && ProcSound(cfg, s.procs[i])
    ensures var t := Move(cfg, s, i, yes, ok);
            t.started + RepairsAhead(t) <= s.started + RepairsAhead(s)
  {
    var (q, effect) := Choose(cfg, s, s.procs[i], yes, ok);
    var n := Perform(cfg, s, effect, ok).mgr;
    var gain := if effect.CountStart? then 1 else 0;
    ChooseHope(cfg, s, s.procs[i], yes, ok);
    PerformShrinks(cfg, s, s.procs[i], yes, ok);
    HopesShrink(n, s.mgr);
    MoveTotal(cfg, s, i, q, effect, ok, Hopes(s.mgr), Hopes(n), gain);
    PerformStarted(cfg, s, effect, ok);
  }

  lemma PerformStarted(cfg: Config, s: State, effect: Effect, ok: bool)
    ensures Perform(cfg, s, effect, ok).started == s.started + if effect.CountStart? then 1 else 0
  {
  }

  lemma EmitHope(cfg: Config, s: State)
    requires s.out != []
    ensures RepairsAhead(Apply(cfg, s, ManagerEmit)) <= RepairsAhead(s)
  {
    SumTail(s.out, Hope(s.mgr));
    EmitWeight(s.queue, cfg.capacity, s.out[0], Hope(s.mgr));
  }

  lemma ReceiveHope(cfg: Config, s: State)
    requires s.loop == Idle && s.queue != []
    ensures RepairsAhead(Apply(cfg, s, Receive)) <= RepairsAhead(s)
  {
    SumTail(s.queue, Hope(s.mgr));
  }

  lemma FetchHope(cfg: Config, s: State)
    requires s.loop.Got?
    ensures RepairsAhead(Apply(cfg, s, Fetch)) <= RepairsAhead(s)
  {
    if s.loop.check in s.mgr.active {
      SumAppend(s.procs, Waiting(s.mgr.active[s.loop.check]), Hopes(s.mgr).proc);
    }
  }

  lemma HopeStep(cfg: Config, s: State, l: Label)
    requires s.mgr.KeysMatch() && AllSound(cfg, s) && Internal(l)
    ensures var t := Step(cfg, s, l);
            t.started + RepairsAhead(t) <= s.started + RepairsAhead(s)
  {
    if Enabled(cfg, s, l) {
      match l {
        case Go(i, yes, ok) => GoHope(cfg, s, i, yes, ok);
        case ManagerEmit => EmitHope(cfg, s);
        case Receive => ReceiveHope(cfg, s);
        case Fetch => FetchHope(cfg, s);
        case _ =>
      }
    }
  }

  /** However long the protocol runs on its own, it starts no more repairs than were ahead. */
  lemma {:induction false} RepairsBounded(cfg: Config, s: State, labels: seq<Label>)
    requires IncidentsAddUp(s.mgr, s.rehydrated) && AllSound(cfg, s)
    requires forall l :: l in labels ==> Internal(l)
    ensures var t := Exec(cfg, s, labels);
            && t.started + RepairsAhead(t) <= s.started + RepairsAhead(s)
            && IncidentsAddUp(t.mgr, t.rehydrated) && AllSound(cfg, t)
  {
    if labels != [] {
      var n := |labels| - 1;
      RepairsBounded(cfg, s, labels[..n]);
      assert Internal(labels[n]);
      var t := Exec(cfg, s, labels[..n]);
      HopeStep(cfg, t, labels[n]);
      IncidentsAddUpStep(cfg, t, labels[n]);
      SoundStep(cfg, t, labels[n]);
    }
  }
}
