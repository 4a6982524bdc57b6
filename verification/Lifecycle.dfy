/**
 Incidents over whole runs of the repair protocol, with crashes and restarts anywhere: saves
 succeed, and each new process starts with a millisecond clock past the old id counter.
 */
module Lifecycle {
  import opened Incidents
  import opened RepairInvariants
  import opened RepairProtocol
  import opened Recovery
  import FailedSaves
  import IncidentHistory
  import opened Quiescence

  ghost predicate DurableStep(s: State, l: Label) {
    match l
    case Result(_, ok) => ok
    case Go(_, _, ok) => ok
    case Restart(millis, _) => s.mgr.idCounter <= millis
    case _ => true
  }

  ghost predicate Durable(cfg: Config, s: State, labels: seq<Label>) {
    labels == [] ||
    (var n := |labels| - 1; Durable(cfg, s, labels[..n]) && DurableStep(Exec(cfg, s, labels[..n]), labels[n]))
  }

  /** The manager either stands still, takes one operation, or is restarted on its store. */
  lemma StepPersists(cfg: Config, s: State, l: Label)
    requires Agree(s.mgr) && DurableStep(s, l)
    ensures var t := Step(cfg, s, l);
            && Agree(t.mgr) && Advances(s.mgr.store, t.mgr.store)
            && (l.Restart? ==> t.mgr.active == s.mgr.active)
  {
    if Enabled(cfg, s, l) {
      match l {
        case Result(result, ok) =>
          StepAgrees(s.mgr, IncidentHistory.Result(result, s.clock, ok));
          StepAdvances(s.mgr, IncidentHistory.Result(result, s.clock, ok));
        case Go(i, yes, ok) => GoPersists(cfg, s, i, yes, ok);
        case Restart(millis, listed) => RehydrateRebuilds(s.mgr, millis, listed);
        case _ =>
      }
    }
  }

  lemma GoPersists(cfg: Config, s: State, i: nat, yes: bool, ok: bool)
    requires Agree(s.mgr) && ok && i < |s.procs|
    ensures var t := Move(cfg, s, i, yes, ok); Agree(t.mgr) && Advances(s.mgr.store, t.mgr.store)
  {
    var effect := Choose(cfg, s, s.procs[i], yes, ok).1;
    if effect.Mark? {
      var input := IncidentHistory.External(effect.check, effect.status, s.clock, s.clock, ok, ok);
      MarkStatus(cfg, s, s.procs[i], yes, ok);
      StepAgrees(s.mgr, input);
      StepAdvances(s.mgr, input);
    }
  }

  lemma MarkStatus(cfg: Config, s: State, p: Proc, yes: bool, ok: bool)
    ensures var effect := Choose(cfg, s, p, yes, ok).1;
            effect.Mark? ==> effect.status in IncidentHistory.ENGINE_STATUSES
  {
  }

  /** Memory and store agree in every state of a durable run, that is, at every lock release. */
  lemma {:induction false} AgreeAlways(cfg: Config, s: State, labels: seq<Label>)
    requires Agree(s.mgr) && Durable(cfg, s, labels)
    ensures Agree(Exec(cfg, s, labels).mgr)
  {
    if labels != [] {
      AgreeAlways(cfg, s, labels[..|labels| - 1]);
      StepPersists(cfg, Exec(cfg, s, labels[..|labels| - 1]), labels[|labels| - 1]);
    }
  }

  /**
   Crash anywhere, list the store in any order, restart: the active incidents are exactly the ones before the crash.
   */
  lemma CrashRecovery(cfg: Config, s: State, labels: seq<Label>, millis: int, listed: seq<Record>)
    requires Agree(s.mgr) && Durable(cfg, s, labels)
    requires Lists(listed, Exec(cfg, s, labels).mgr.store)
    ensures var t := Exec(cfg, s, labels);
            Step(cfg, t, Restart(millis, listed)).mgr.active == t.mgr.active
  {
    AgreeAlways(cfg, s, labels);
    RehydrateRebuilds(Exec(cfg, s, labels).mgr, millis, listed);
  }

  /** The store of a durable run never holds two unresolved incidents of one check. */
  lemma OneUnresolvedPerCheck(cfg: Config, s: State, labels: seq<Label>, a: int, b: int)
    requires Agree(s.mgr) && Durable(cfg, s, labels)
    ensures var store := Exec(cfg, s, labels).mgr.store;
            (&& a in store && b in store
             && store[a].status != Resolved && store[b].status != Resolved
             && store[a].checkName == store[b].checkName) ==> a == b
  {
    AgreeAlways(cfg, s, labels);
  }

  /**
   Whatever saves fail, the maps stay well keyed, so recovery succeeds exactly in the states that are stored as they
   are.
   */
  lemma RecoversExactly(cfg: Config, s: State, labels: seq<Label>)
    requires Initial(cfg, s) && Keyed(s.mgr)
    ensures FailedSaves.Recovers(Exec(cfg, s, labels).mgr) <==> StoredAsActive(Exec(cfg, s, labels).mgr)
  {
    KeyedAlways(cfg, s, labels);
    FailedSaves.RecoversIff(Exec(cfg, s, labels).mgr);
  }

  lemma {:induction false} KeyedAlways(cfg: Config, s: State, labels: seq<Label>)
    requires Initial(cfg, s) && Keyed(s.mgr)
    ensures Keyed(Exec(cfg, s, labels).mgr)
  {
    Accounting(cfg, s, labels);
    if labels != [] {
      var n := |labels| - 1;
      KeyedAlways(cfg, s, labels[..n]);
      StoreStaysKeyed(cfg, Exec(cfg, s, labels[..n]), labels[n]);
    }
  }

  lemma StoreStaysKeyed(cfg: Config, s: State, l: Label)
    requires Keyed(s.mgr)
    ensures var store := Step(cfg, s, l).mgr.store; forall id :: id in store ==> store[id].id == id
  {
    if Enabled(cfg, s, l) {
      if l.Go? {
        var effect := Choose(cfg, s, s.procs[l.i], l.yes, l.ok).1;
        if effect.Mark? {
          StatusStaysKeyed(s.mgr, effect.check, effect.status, s.clock, l.ok);
        } else {
          OnlyMarksTouchIncidents(cfg, s, effect, l.ok);
        }
      } else if l.Result? {
        ResultStaysKeyed(s.mgr, l.result, s.clock, l.ok);
      }
    }
  }

  lemma StatusStaysKeyed(m: ManagerState, check: string, status: Status, now: int, ok: bool)
    requires Keyed(m)
    ensures var store := m.SetStatus(check, status, now, now, ok, ok).0.store;
            forall id :: id in store ==> store[id].id == id
  {
  }

  lemma ResultStaysKeyed(m: ManagerState, result: CheckResult, now: int, ok: bool)
    requires Keyed(m)
    ensures var store := m.ProcessResult(result, now, ok).0.store; forall id :: id in store ==> store[id].id == id
  {
  }

  lemma {:induction false} StoreAdvances(cfg: Config, s: State, labels: seq<Label>, k: nat)
    requires Agree(s.mgr) && Durable(cfg, s, labels) && k <= |labels|
    ensures Advances(Exec(cfg, s, labels[..k]).mgr.store, Exec(cfg, s, labels).mgr.store)
  {
    if k == |labels| {
      assert labels[..k] == labels;
    } else {
      var n := |labels| - 1;
      assert labels[..n][..k] == labels[..k];
      StoreAdvances(cfg, s, labels[..n], k);
      AgreeAlways(cfg, s, labels[..n]);
      StepPersists(cfg, Exec(cfg, s, labels[..n]), labels[n]);
    }
  }

  /**
   Once an incident has left Open it is never Open again, and once resolved it is never active again, restarts included.
   */
  lemma NeverReopens(cfg: Config, s: State, labels: seq<Label>, k: nat, id: int, check: string)
    requires Agree(s.mgr) && Durable(cfg, s, labels) && k <= |labels|
    requires id in Exec(cfg, s, labels[..k]).mgr.store && Exec(cfg, s, labels[..k]).mgr.store[id].status != Open
    ensures var m := Exec(cfg, s, labels).mgr;
            check in m.active && m.active[check].id == id ==>
              m.active[check].status != Open && Exec(cfg, s, labels[..k]).mgr.store[id].status != Resolved
  {
    StoreAdvances(cfg, s, labels, k);
    AgreeAlways(cfg, s, labels);
  }

  // ---- incidents and results ----

  /** The recognised results of one check that a run has processed, after the earlier ones. */
  ghost function ResultHistory(cfg: Config, s: State, labels: seq<Label>, check: string,
                               earlier: seq<bool>): seq<bool> {
    if labels == [] then earlier else
    var n := |labels| - 1;
    var before, t := ResultHistory(cfg, s, labels[..n], check, earlier), Exec(cfg, s, labels[..n]);
    if labels[n].Result? && Enabled(cfg, t, labels[n])
    then IncidentHistory.Extended(before, IncidentHistory.Result(labels[n].result, t.clock, labels[n].ok), check)
    else before
  }

  /** The incidents of a check that were ever stored. */
  function StoredFor(store: map<int, Record>, check: string): set<int> {
    set id | id in store && store[id].checkName == check
  }

  /** Storing an incident adds it to those of its check if it is new there. */
  lemma StoredMore(store: map<int, Record>, inc: Record, check: string)
    requires inc.id in store ==> store[inc.id].checkName == inc.checkName
    ensures |StoredFor(store[inc.id := inc], check)| ==
            |StoredFor(store, check)| + if inc.id !in store && inc.checkName == check then 1 else 0
  {
    var after := StoredFor(store[inc.id := inc], check);
    if inc.id !in store && inc.checkName == check {
      assert after == StoredFor(store, check) + {inc.id};
    } else {
      assert after == StoredFor(store, check);
    }
  }

  /** An operation of the manager or the engine announces at most one incident, as opened exactly when it is new. */
  lemma AnnouncesOne(m: ManagerState, input: IncidentHistory.Input, check: string)
    requires Agree(m) && Saved(input) && IncidentHistory.FromEngine(input)
    ensures var (n, events) := IncidentHistory.Step(m, input);
            if events == [] then n.store == m.store && IncidentHistory.Announced(events, check) == 0
            else var inc := events[0].incident;
                 && n.store == m.store[inc.id := inc]
                 && (inc.id in m.store ==> m.store[inc.id].checkName == inc.checkName)
                 && IncidentHistory.Announced(events, check) ==
                      if inc.id !in m.store && inc.checkName == check then 1 else 0
  {
  }

  /** So a saved operation stores a new incident of the check exactly when it announces one. */
  lemma StoredStep(m: ManagerState, input: IncidentHistory.Input, check: string)
    requires Agree(m) && Saved(input) && IncidentHistory.FromEngine(input)
    ensures var (n, events) := IncidentHistory.Step(m, input);
            |StoredFor(n.store, check)| == |StoredFor(m.store, check)| + IncidentHistory.Announced(events, check)
  {
    var events := IncidentHistory.Step(m, input).1;
    AnnouncesOne(m, input, check);
    if events != [] {
      StoredMore(m.store, events[0].incident, check);
    }
  }

  /**
   What a history of results tells of the manager, over restarts: the active incident, and how many were ever stored.
   */
  ghost predicate Tells(m: ManagerState, check: string, history: seq<bool>, stored: int) {
    && IncidentHistory.Reflects(m, check, history)
    && |StoredFor(m.store, check)| == stored + IncidentHistory.Outages(history)
  }

  lemma StepTells(cfg: Config, s: State, l: Label, check: string, history: seq<bool>, stored: int)
    requires Agree(s.mgr) && DurableStep(s, l) && Tells(s.mgr, check, history, stored)
    ensures var after := if l.Result? && Enabled(cfg, s, l)
                         then IncidentHistory.Extended(history, IncidentHistory.Result(l.result, s.clock, l.ok), check)
                         else history;
            Tells(Step(cfg, s, l).mgr, check, after, stored)
  {
    StepPersists(cfg, s, l);
    if Enabled(cfg, s, l) {
      match l {
        case Result(result, ok) =>
          InputTells(s.mgr, IncidentHistory.Result(result, s.clock, ok), check, history, stored);
        case Go(i, yes, ok) =>
          var effect := Choose(cfg, s, s.procs[i], yes, ok).1;
          if effect.Mark? {
            MarkStatus(cfg, s, s.procs[i], yes, ok);
            InputTells(s.mgr, IncidentHistory.External(effect.check, effect.status, s.clock, s.clock, ok, ok), check,
                       history, stored);
          } else {
            OnlyMarksTouchIncidents(cfg, s, effect, ok);
          }
        case _ =>
      }
    }
  }

  lemma InputTells(m: ManagerState, input: IncidentHistory.Input, check: string, history: seq<bool>, stored: int)
    requires Agree(m) && Saved(input) && IncidentHistory.FromEngine(input) && Tells(m, check, history, stored)
    ensures Tells(IncidentHistory.Step(m, input).0, check, IncidentHistory.Extended(history, input, check), stored)
  {
    IncidentHistory.StepReflects(m, input, check, history);
    StoredStep(m, input, check);
  }

  /**
   Over durable runs with restarts anywhere, a check has an active incident iff its latest recognised result is
   unhealthy, with the length of the current outage as its failure count, and the store has gained one incident of the
   check per outage.
   */
  lemma {:induction false} HistoryOverRestarts(cfg: Config, s: State, labels: seq<Label>, check: string,
                                               earlier: seq<bool>)
    requires Agree(s.mgr) && Durable(cfg, s, labels) && IncidentHistory.Reflects(s.mgr, check, earlier)
    ensures var t, history := Exec(cfg, s, labels), ResultHistory(cfg, s, labels, check, earlier);
            && IncidentHistory.Reflects(t.mgr, check, history)
            && |StoredFor(t.mgr.store, check)| - |StoredFor(s.mgr.store, check)| ==
                 IncidentHistory.Outages(history) - IncidentHistory.Outages(earlier)
  {
    if labels != [] {
      var n := |labels| - 1;
      HistoryOverRestarts(cfg, s, labels[..n], check, earlier);
      AgreeAlways(cfg, s, labels[..n]);
      StepTells(cfg, Exec(cfg, s, labels[..n]), labels[n], check, ResultHistory(cfg, s, labels[..n], check, earlier),
                |StoredFor(s.mgr.store, check)| - IncidentHistory.Outages(earlier));
    }
  }

  // ---- where repairs come from ----

  lemma ChooseKeepsSnap(cfg: Config, s: State, p: Proc, yes: bool, ok: bool)
    ensures Choose(cfg, s, p, yes, ok).0.snap == p.snap
  {
  }

  /** The snapshot a goroutine holds was the active incident of its check at some earlier point of the run. */
  ghost predicate Taken(cfg: Config, s: State, labels: seq<Label>, snap: Record) {
    exists k :: 0 <= k <= |labels| && SnapAt(Exec(cfg, s, labels[..k]), snap)
  }

  ghost predicate SnapAt(s: State, snap: Record) {
    snap.checkName in s.mgr.active && s.mgr.active[snap.checkName] == snap
  }

  lemma TakenEarlier(cfg: Config, s: State, labels: seq<Label>, snap: Record)
    requires labels != [] && Taken(cfg, s, labels[..|labels| - 1], snap)
    ensures Taken(cfg, s, labels, snap)
  {
    var before := labels[..|labels| - 1];
    var k :| 0 <= k <= |before| && SnapAt(Exec(cfg, s, before[..k]), snap);
    assert before[..k] == labels[..k];
  }

  /** A goroutine after a step either was there before with the same snapshot, or has just taken it. */
  lemma SnapOrigin(cfg: Config, s: State, l: Label, i: nat)
    requires s.mgr.KeysMatch() && i < |Step(cfg, s, l).procs|
    ensures var snap := Step(cfg, s, l).procs[i].snap;
            (i < |s.procs| && s.procs[i].snap == snap) || SnapAt(s, snap)
  {
    if Enabled(cfg, s, l) && l.Go? {
      ChooseKeepsSnap(cfg, s, s.procs[l.i], l.yes, l.ok);
    }
  }

  lemma {:induction false} SnapshotsTaken(cfg: Config, s: State, labels: seq<Label>, i: nat)
    requires Initial(cfg, s) && i < |Exec(cfg, s, labels).procs|
    ensures Taken(cfg, s, labels, Exec(cfg, s, labels).procs[i].snap)
  {
    if labels != [] {
      var n := |labels| - 1;
      var t := Exec(cfg, s, labels[..n]);
      var snap := Exec(cfg, s, labels).procs[i].snap;
      Accounting(cfg, s, labels[..n]);
      SnapOrigin(cfg, t, labels[n], i);
      if i < |t.procs| && t.procs[i].snap == snap {
        SnapshotsTaken(cfg, s, labels[..n], i);
        TakenEarlier(cfg, s, labels, snap);
      }
    }
  }

  lemma StartChosen(cfg: Config, s: State, p: Proc, yes: bool, ok: bool)
    ensures Choose(cfg, s, p, yes, ok).1.CountStart? <==> p.Announcing? && p.out == []
  {
  }

  lemma StartStep(cfg: Config, s: State, l: Label)
    requires s.started < Step(cfg, s, l).started
    ensures l.Go? && l.i < |s.procs| && s.procs[l.i].Announcing?
  {
    if Enabled(cfg, s, l) && l.Go? {
      StartChosen(cfg, s, s.procs[l.i], l.yes, l.ok);
      PerformStarted(cfg, s, Choose(cfg, s, s.procs[l.i], l.yes, l.ok).1, l.ok);
    }
  }

  /**
   Whenever a step starts a repair, its goroutine's snapshot is Open and was the active incident when it was taken.
   */
  lemma {:induction false} StartsFromOpenSnapshot(cfg: Config, s: State, labels: seq<Label>, l: Label)
    requires Initial(cfg, s)
    requires Exec(cfg, s, labels).started < Step(cfg, Exec(cfg, s, labels), l).started
    ensures var t := Exec(cfg, s, labels);
            && l.Go? && l.i < |t.procs|
            && t.procs[l.i].snap.status == Open && Taken(cfg, s, labels, t.procs[l.i].snap)
  {
    StartStep(cfg, Exec(cfg, s, labels), l);
    GoroutinesSound(cfg, s, labels);
    SnapshotsTaken(cfg, s, labels, l.i);
  }

  // ---- a marked incident starts no new repair ----

  /** From the Repairing mark on. */
  predicate UnderRepair(p: Proc) {
    p.Announcing? || p.Running? || p.Executing? || p.Finished? || p.Recorded? || p.Completed? || p.Concluding?
  }

  /** A goroutine's snapshot is of a stored incident, and that incident is no longer Open once the repair is marked. */
  ghost predicate ProcMarked(store: map<int, Record>, p: Proc) {
    && p.snap.id in store && store[p.snap.id].checkName == p.snap.checkName
    && (UnderRepair(p) ==> store[p.snap.id].status != Open)
  }

  ghost predicate AllMarked(s: State) {
    forall i :: 0 <= i < |s.procs| ==> ProcMarked(s.mgr.store, s.procs[i])
  }

  lemma StillMarked(before: map<int, Record>, after: map<int, Record>, p: Proc)
    requires Advances(before, after) && ProcMarked(before, p)
    ensures ProcMarked(after, p)
  {
  }

  /**
   Marking Repairing closes the snapshot's incident, unless that one is resolved already and another took its place.
   */
  lemma MarkingCloses(m: ManagerState, snap: Record, now: int)
    requires Agree(m) && snap.id in m.store && m.store[snap.id].checkName == snap.checkName
    ensures var n := m.SetStatus(snap.checkName, Repairing, now, now, true, true).0;
            snap.id in n.store && n.store[snap.id].status != Open
  {
  }

  lemma ChooseMarked(cfg: Config, s: State, p: Proc, yes: bool)
    ensures var (q, effect) := Choose(cfg, s, p, yes, true);
            q.snap == p.snap && (UnderRepair(q) ==> UnderRepair(p) || effect == Mark(p.snap.checkName, Repairing))
  {
  }

  lemma GoMarked(cfg: Config, s: State, i: nat, yes: bool)
    requires Agree(s.mgr) && AllMarked(s) && i < |s.procs|
    ensures AllMarked(Move(cfg, s, i, yes, true))
  {
    var (q, effect) := Choose(cfg, s, s.procs[i], yes, true);
    var t := Move(cfg, s, i, yes, true);
    GoPersists(cfg, s, i, yes, true);
    ChooseMarked(cfg, s, s.procs[i], yes);
    forall j | 0 <= j < |t.procs|
      ensures ProcMarked(t.mgr.store, t.procs[j])
    {
      StillMarked(s.mgr.store, t.mgr.store, s.procs[j]);
      if j == i && UnderRepair(q) && !UnderRepair(s.procs[i]) {
        MarkingCloses(s.mgr, q.snap, s.clock);
      }
    }
  }

  lemma MarkedStep(cfg: Config, s: State, l: Label)
    requires Agree(s.mgr) && DurableStep(s, l) && AllMarked(s)
    ensures AllMarked(Step(cfg, s, l))
  {
    if Enabled(cfg, s, l) {
      if l.Go? {
        GoMarked(cfg, s, l.i, l.yes);
      } else if l.Result? {
        StepPersists(cfg, s, l);
        forall j | 0 <= j < |s.procs|
          ensures ProcMarked(Step(cfg, s, l).mgr.store, s.procs[j])
        {
          StillMarked(s.mgr.store, Step(cfg, s, l).mgr.store, s.procs[j]);
        }
      }
    }
  }

  lemma {:induction false} MarkedAlways(cfg: Config, s: State, labels: seq<Label>)
    requires Agree(s.mgr) && s.procs == [] && Durable(cfg, s, labels)
    ensures AllMarked(Exec(cfg, s, labels))
  {
    if labels != [] {
      var n := |labels| - 1;
      MarkedAlways(cfg, s, labels[..n]);
      AgreeAlways(cfg, s, labels[..n]);
      MarkedStep(cfg, Exec(cfg, s, labels[..n]), labels[n]);
    }
  }

  /** Once one repair of an incident is marked, the incident is never Open again. */
  lemma MarkedStaysClosed(cfg: Config, s: State, labels: seq<Label>, k: nat, i: nat, check: string)
    requires Agree(s.mgr) && s.procs == [] && Durable(cfg, s, labels) && k <= |labels|
    requires i < |Exec(cfg, s, labels[..k]).procs| && UnderRepair(Exec(cfg, s, labels[..k]).procs[i])
    ensures var m, snap := Exec(cfg, s, labels).mgr, Exec(cfg, s, labels[..k]).procs[i].snap;
            check in m.active && m.active[check].id == snap.id ==> m.active[check].status != Open
  {
    DurablePrefix(cfg, s, labels, k);
    MarkedAlways(cfg, s, labels[..k]);
    NeverReopens(cfg, s, labels, k, Exec(cfg, s, labels[..k]).procs[i].snap.id, check);
  }

  /**
   So no snapshot taken later can start another repair of it: when a repair of the same incident starts after the first
   mark, its snapshot was taken before that mark.
   */
  lemma NoRetrigger(cfg: Config, s: State, labels: seq<Label>, k: nat, i: nat, l: Label)
    requires Initial(cfg, s) && Agree(s.mgr) && Durable(cfg, s, labels) && k <= |labels|
    requires i < |Exec(cfg, s, labels[..k]).procs| && UnderRepair(Exec(cfg, s, labels[..k]).procs[i])
    requires Exec(cfg, s, labels).started < Step(cfg, Exec(cfg, s, labels), l).started
    requires l.Go? && l.i < |Exec(cfg, s, labels).procs|
    requires Exec(cfg, s, labels).procs[l.i].snap.id == Exec(cfg, s, labels[..k]).procs[i].snap.id
    ensures exists j :: 0 <= j < k && SnapAt(Exec(cfg, s, labels[..j]), Exec(cfg, s, labels).procs[l.i].snap)
  {
    var snap := Exec(cfg, s, labels).procs[l.i].snap;
    StartsFromOpenSnapshot(cfg, s, labels, l);
    var j :| 0 <= j <= |labels| && SnapAt(Exec(cfg, s, labels[..j]), snap);
    if k <= j {
      DurablePrefix(cfg, s, labels, j);
      assert labels[..j][..k] == labels[..k];
      MarkedStaysClosed(cfg, s, labels[..j], k, i, snap.checkName);
    }
  }

  lemma {:induction false} DurablePrefix(cfg: Config, s: State, labels: seq<Label>, k: nat)
    requires Durable(cfg, s, labels) && k <= |labels|
    ensures Durable(cfg, s, labels[..k])
  {
    if k == |labels| {
      assert labels[..k] == labels;
    } else {
      DurablePrefix(cfg, s, labels[..|labels| - 1], k);
      assert labels[..|labels| - 1][..k] == labels[..k];
    }
  }
}
