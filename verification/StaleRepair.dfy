/**
 A repair addresses its check, not its incident. One that outlives its incident marks whatever
 incident the check has by then: exactly when this happens, that it does happen, and that the
 newer incident is then never repaired.
 */
module StaleRepair {
  import IncidentHistory
  import opened Incidents
  import opened Lifecycle
  import opened Recovery
  import opened RepairInvariants
  import opened RepairProtocol
  import opened Tightness

  // ---- exactly when ----

  /**
   A goroutine about to set its status in a durable run hits another incident exactly when its own incident was resolved
   and its check has an active one again.
   */
  lemma MarkHitsOther(cfg: Config, s: State, labels: seq<Label>, i: nat)
    requires Agree(s.mgr) && s.procs == [] && Durable(cfg, s, labels)
    requires i < |Exec(cfg, s, labels).procs|
    ensures var t, snap := Exec(cfg, s, labels), Exec(cfg, s, labels).procs[i].snap;
            && snap.id in t.mgr.store
            && (snap.checkName in t.mgr.active && t.mgr.active[snap.checkName].id != snap.id <==>
                t.mgr.store[snap.id].status == Resolved && snap.checkName in t.mgr.active)
  {
    AgreeAlways(cfg, s, labels);
    MarkedAlways(cfg, s, labels);
    assert ProcMarked(Exec(cfg, s, labels).mgr.store, Exec(cfg, s, labels).procs[i]);
  }

  // ---- an incident that is not Open and that nobody holds ----

  /** The incident has left Open, and no goroutine holds an Open snapshot of it. */
  ghost predicate Silenced(s: State, id: int) {
    && id in s.mgr.store && s.mgr.store[id].status != Open
    && forall i :: 0 <= i < |s.procs| && s.procs[i].snap.id == id ==> s.procs[i].snap.status != Open
  }

  lemma {:induction false} StaysSilenced(cfg: Config, s: State, more: seq<Label>, id: int)
    requires Agree(s.mgr) && Durable(cfg, s, more) && Silenced(s, id)
    ensures Silenced(Exec(cfg, s, more), id)
  {
    if more != [] {
      var n := |more| - 1;
      StaysSilenced(cfg, s, more[..n], id);
      AgreeAlways(cfg, s, more[..n]);
      SilencedStep(cfg, Exec(cfg, s, more[..n]), more[n], id);
    }
  }

  lemma SilencedStep(cfg: Config, s: State, l: Label, id: int)
    requires Agree(s.mgr) && DurableStep(s, l) && Silenced(s, id)
    ensures Silenced(Step(cfg, s, l), id)
  {
    var t := Step(cfg, s, l);
    StepPersists(cfg, s, l);
    forall i | 0 <= i < |t.procs| && t.procs[i].snap.id == id
      ensures t.procs[i].snap.status != Open
    {
      SnapOrigin(cfg, s, l, i);
    }
  }

  /** Such an incident is never repaired: no goroutine that holds it ever gets past the Open test. */
  lemma {:induction false} NeverRepaired(cfg: Config, s: State, labels: seq<Label>, more: seq<Label>, id: int, i: nat)
    requires Initial(cfg, s) && Agree(s.mgr) && Durable(cfg, s, labels)
    requires var t := Exec(cfg, s, labels);
             Silenced(t, id) && Durable(cfg, t, more) && i < |Exec(cfg, t, more).procs|
    ensures var p := Exec(cfg, Exec(cfg, s, labels), more).procs[i];
            p.snap.id == id ==> !PastOpenTest(p)
  {
    AgreeAlways(cfg, s, labels);
    StaysSilenced(cfg, Exec(cfg, s, labels), more, id);
    ExecConcat(cfg, s, labels, more);
    GoroutinesSound(cfg, s, labels + more);
  }

  // ---- the run ----

  lemma {:induction false} SavedIsDurable(cfg: Config, s: State, labels: seq<Label>)
    requires AllSaved(labels)
    ensures Durable(cfg, s, labels)
  {
    if labels != [] {
      SavedIsDurable(cfg, s, labels[..|labels| - 1]);
    }
  }

  /** What the moves of goroutines leave alone: the loops and the identities of the active incidents. */
  ghost predicate SameIncidents(s: State, t: State) {
    && t.out == s.out && t.loop == s.loop
    && t.mgr.active.Keys == s.mgr.active.Keys
    && forall c :: c in s.mgr.active ==> t.mgr.active[c].id == s.mgr.active[c].id && t.mgr.active[c].status != Resolved
  }

  lemma MoveKeeps(cfg: Config, s: State, i: nat)
    requires i < |s.procs| && IncidentHistory.Filed(s.mgr)
    ensures SameIncidents(s, Move(cfg, s, i, true, true)) && IncidentHistory.Filed(Move(cfg, s, i, true, true).mgr)
  {
    MoveSetsStatus(cfg, s, i, true, true);
    MoveKeepsLoops(cfg, s, i);
  }

  lemma {:induction false} DrivenKeeps(cfg: Config, s: State, labels: seq<Label>, i: nat)
    requires Driven(labels, i) && IncidentHistory.Filed(s.mgr)
    ensures SameIncidents(s, Exec(cfg, s, labels)) && IncidentHistory.Filed(Exec(cfg, s, labels).mgr)
  {
    if labels != [] {
      var n := |labels| - 1;
      DrivenKeeps(cfg, s, labels[..n], i);
      if Enabled(cfg, Exec(cfg, s, labels[..n]), labels[n]) {
        MoveKeeps(cfg, Exec(cfg, s, labels[..n]), i);
      }
    }
  }

  lemma MoveKeepsLoops(cfg: Config, s: State, i: nat)
    requires i < |s.procs|
    ensures Move(cfg, s, i, true, true).out == s.out && Move(cfg, s, i, true, true).loop == s.loop
  {
  }

  lemma RecordedCompletes(cfg: Config, s: State, i: nat)
    requires i < |s.procs| && s.procs[i].Recorded?
    ensures Step(cfg, s, Go(i, true, true)).procs ==
              s.procs[i := Completed(s.procs[i].snap, s.procs[i].rule, s.procs[i].success)]
  {
  }

  lemma DrivenConcat(a: seq<Label>, b: seq<Label>, i: nat)
    requires Driven(a, i) && Driven(b, i)
    ensures Driven(a + b, i)
  {
  }

  /** An admitted goroutine runs until it is about to mark the end of its repair. */
  lemma RunToCompleted(cfg: Config, s: State, i: nat, rule: string) returns (labels: seq<Label>)
    requires i < |s.procs| && s.procs[i].Admitted? && Drivable(cfg, s.procs[i], rule)
    ensures Driven(labels, i)
    ensures var t := Exec(cfg, s, labels);
            |t.procs| == |s.procs| && t.procs[i].Completed? && t.procs[i].snap == s.procs[i].snap
  {
    var l := Go(i, true, true);
    var a := Drive(cfg, s, i, rule, false);
    labels := a + [l];
    DrivenConcat(a, [l], i);
    ExecLast(cfg, s, a, l);
    RecordedCompletes(cfg, Exec(cfg, s, a), i);
  }

  /** A waiting goroutine of a rule that has recorded nothing gets that far. */
  lemma AdmitAndRun(cfg: Config, s: State, check: string, id: int) returns (labels: seq<Label>)
    requires Runnable(cfg, check) && Shape(cfg, s, check, id, 0, 0, 0) && |s.procs| == 1
    ensures Driven(labels, 0)
    ensures var t := Exec(cfg, s, labels);
            |t.procs| == 1 && t.procs[0].Completed? && t.procs[0].snap.id == id && t.procs[0].snap.checkName == check
  {
    var a := Admit(cfg, s, 0);
    var t := Exec(cfg, s, a);
    var b := RunToCompleted(cfg, t, 0, cfg.rules[check].name);
    labels := a + b;
    DrivenConcat(a, b, 0);
    ExecConcat(cfg, s, a, b);
  }

  lemma SavedConcat(a: seq<Label>, b: seq<Label>)
    requires AllSaved(a) && AllSaved(b)
    ensures AllSaved(a + b)
  {
  }

  lemma DrivenSaved(labels: seq<Label>, i: nat)
    requires Driven(labels, i)
    ensures AllSaved(labels)
  {
  }

  /** The only goroutine is about to mark the end of its repair of its check's active incident. */
  ghost predicate AboutToMark(s: State, check: string) {
    && s.out == [] && |s.procs| == 1 && s.procs[0].Completed? && s.procs[0].snap.checkName == check
    && check in s.mgr.active && s.mgr.active[check].id == s.procs[0].snap.id
  }

  lemma RepairFirst(cfg: Config, s: State, check: string, id: int) returns (labels: seq<Label>)
    requires Runnable(cfg, check) && Shape(cfg, s, check, id, 0, 0, 0) && |s.procs| == 1
    requires Agree(s.mgr) && Receptive(s, check, id) && check in s.mgr.active
    ensures AllSaved(labels) && AboutToMark(Exec(cfg, s, labels), check)
  {
    labels := AdmitAndRun(cfg, s, check, id);
    DrivenKeeps(cfg, s, labels, 0);
    DrivenSaved(labels, 0);
  }

  /** A check fails, and a goroutine runs the repair of its incident. */
  lemma FailAndRepair(cfg: Config, s: State, check: string) returns (labels: seq<Label>)
    requires Initial(cfg, s) && Agree(s.mgr) && Runnable(cfg, check) && check !in s.mgr.active
    ensures AllSaved(labels) && AboutToMark(Exec(cfg, s, labels), check)
  {
    var a := FailOnce(cfg, s, check, s.mgr.idCounter + 1);
    SavedIsDurable(cfg, s, a);
    AgreeAlways(cfg, s, a);
    var b := RepairFirst(cfg, Exec(cfg, s, a), check, s.mgr.idCounter + 1);
    labels := a + b;
    SavedConcat(a, b);
    ExecConcat(cfg, s, a, b);
  }

  lemma ExecLast(cfg: Config, s: State, labels: seq<Label>, l: Label)
    ensures Exec(cfg, s, labels + [l]) == Step(cfg, Exec(cfg, s, labels), l)
  {
    assert (labels + [l])[..|labels|] == labels;
  }

  /** The check recovers and fails again. */
  function Relapse(check: string): seq<Label> {
    [Result(CheckResult(check, "", Healthy), true), ManagerEmit, Result(CheckResult(check, "", CheckFailed), true)]
  }

  /** The first incident is resolved and a second one is open, its event not yet emitted. */
  lemma Reopen(cfg: Config, s: State, check: string)
    requires Agree(s.mgr) && s.out == [] && check in s.mgr.active
    ensures var t := Exec(cfg, s, Relapse(check));
            && t.procs == s.procs
            && check in t.mgr.active && t.mgr.active[check].status == Open
            && t.mgr.active[check].id != s.mgr.active[check].id
  {
    var healthy, failed := Relapse(check)[0], Relapse(check)[2];
    var t := Step(cfg, s, healthy);
    var u := Step(cfg, t, ManagerEmit);
    ExecFirst(cfg, s, healthy, [ManagerEmit, failed]);
    ExecFirst(cfg, t, ManagerEmit, [failed]);
    ExecFirst(cfg, u, failed, []);
    assert Relapse(check) == [healthy] + [ManagerEmit, failed];
    assert [ManagerEmit, failed] == [ManagerEmit] + [failed] && [failed] == [failed] + [];
  }

  /** The end of a repair sets the status of whatever incident its check has. */
  lemma EndHits(cfg: Config, s: State, i: nat)
    requires Agree(s.mgr) && i < |s.procs| && s.procs[i].Completed? && s.procs[i].snap.checkName in s.mgr.active
    ensures var check, t := s.procs[i].snap.checkName, Step(cfg, s, Go(i, true, true));
            && |t.procs| == |s.procs| && t.procs[i].snap == s.procs[i].snap
            && check in t.mgr.active && t.mgr.active[check].id == s.mgr.active[check].id
            && t.mgr.active[check].status in {Verifying, Failed}
            && t.mgr.active[check].id in t.mgr.store && t.mgr.store[t.mgr.active[check].id] == t.mgr.active[check]
  {
    MoveSetsStatus(cfg, s, i, true, true);
    StepPersists(cfg, s, Go(i, true, true));
  }

  /**
   The goroutine of `after` set the newer Open incident of `before` to Verifying or Failed, and nobody holds that one.
   */
  ghost predicate Silences(before: State, after: State, check: string) {
    && |after.procs| == 1
    && check in before.mgr.active && before.mgr.active[check].status == Open
    && check in after.mgr.active && after.mgr.active[check].id == before.mgr.active[check].id != after.procs[0].snap.id
    && after.mgr.active[check].status in {Verifying, Failed}
    && Silenced(after, after.mgr.active[check].id)
  }

  lemma MarkSilences(cfg: Config, s: State, check: string)
    requires Agree(s.mgr) && AboutToMark(s, check)
    ensures var before := Exec(cfg, s, Relapse(check)); Silences(before, Step(cfg, before, Go(0, true, true)), check)
  {
    Reopen(cfg, s, check);
    SavedIsDurable(cfg, s, Relapse(check));
    AgreeAlways(cfg, s, Relapse(check));
    EndHits(cfg, Exec(cfg, s, Relapse(check)), 0);
  }

  /**
   For every configuration with a runnable rule there is such a run: a repair of one incident outlives it and sets the
   newer Open incident of its check to Verifying or Failed while no goroutine holds that one, which is then never
   repaired.
   */
  lemma StaleRepairSilencesNewer(cfg: Config, s: State, check: string) returns (labels: seq<Label>)
    requires Initial(cfg, s) && Agree(s.mgr) && Runnable(cfg, check) && check !in s.mgr.active
    ensures labels != [] && Durable(cfg, s, labels)
    ensures Silences(Exec(cfg, s, labels[..|labels| - 1]), Exec(cfg, s, labels), check)
  {
    var a := FailAndRepair(cfg, s, check);
    SavedIsDurable(cfg, s, a);
    AgreeAlways(cfg, s, a);
    MarkSilences(cfg, Exec(cfg, s, a), check);
    var b := a + Relapse(check);
    ExecConcat(cfg, s, a, Relapse(check));
    labels := b + [Go(0, true, true)];
    ExecLast(cfg, s, b, Go(0, true, true));
    assert labels[..|labels| - 1] == b;
    SavedConcat(a, Relapse(check));
    SavedConcat(b, [Go(0, true, true)]);
    SavedIsDurable(cfg, s, labels);
  }
}
