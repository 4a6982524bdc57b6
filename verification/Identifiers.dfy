/**
 Incident identifiers over restarts: each process counts up from its millisecond clock, and the
 identifiers of all processes are distinct only while that clock outruns the counters.
 */
module Identifiers {
  import opened IncidentHistory
  import opened Incidents
  import opened Recovery
  import FailedSaves

  /** The identifiers announced by a run, in order. */
  function AnnouncedIds(start: ManagerState, inputs: seq<Input>): seq<int> {
    if inputs == [] then [] else
    var before := inputs[..|inputs| - 1];
    AnnouncedIds(start, before) + IdsIn(Step(Run(start, before), inputs[|inputs| - 1]).1)
  }

  function IdsIn(events: seq<Event>): seq<int> {
    if events == [] then []
    else (if events[0].kind == OpenedEvent then [events[0].incident.id] else []) + IdsIn(events[1..])
  }

  /** Within one process the identifiers are the counter's start plus one, plus two, and so on. */
  lemma {:induction false} IdsAreConsecutive(start: ManagerState, inputs: seq<Input>)
    ensures var ids := AnnouncedIds(start, inputs);
            && Run(start, inputs).idCounter == start.idCounter + |ids|
            && Run(start, inputs).openedCount == start.openedCount + |ids|
            && forall a :: 0 <= a < |ids| ==> ids[a] == start.idCounter + 1 + a
  {
    if inputs != [] {
      var before := inputs[..|inputs| - 1];
      IdsAreConsecutive(start, before);
      OpenStep(Run(start, before), inputs[|inputs| - 1]);
    }
  }

  lemma OpenStep(m: ManagerState, input: Input)
    ensures var (n, events) := Step(m, input);
            || (IdsIn(events) == [] && n.idCounter == m.idCounter && n.openedCount == m.openedCount)
            || (IdsIn(events) == [m.idCounter + 1] && n.idCounter == m.idCounter + 1
                && n.openedCount == m.openedCount + 1)
  {
  }

  // ---- over processes ----

  /** A process lifetime: the manager it starts with, rehydrated or not, and the inputs it handles. */
  datatype Process = Process(start: ManagerState, inputs: seq<Input>)
  {
    /** The identifiers of the incidents the process opens. */
    function Ids(): seq<int> {
      AnnouncedIds(start, inputs)
    }

    function End(): ManagerState {
      Run(start, inputs)
    }
  }

  /** No two incidents that any of the processes open share an identifier. */
  ghost predicate IdsUnique(ps: seq<Process>) {
    forall i, j, a, b | 0 <= i < |ps| && 0 <= j < |ps| && 0 <= a < |ps[i].Ids()| && 0 <= b < |ps[j].Ids()| ::
      ps[i].Ids()[a] == ps[j].Ids()[b] ==> i == j && a == b
  }

  /** Of any two processes that open incidents, one starts no lower than the counter at which the other ended. */
  ghost predicate CountersApart(ps: seq<Process>) {
    forall i, j :: 0 <= i < j < |ps| && ps[i].Ids() != [] && ps[j].Ids() != [] ==>
      ps[i].End().idCounter <= ps[j].start.idCounter || ps[j].End().idCounter <= ps[i].start.idCounter
  }

  /** Whatever the clock does, identifiers are unique exactly when the counters of the processes do not overlap. */
  lemma IdsUniqueIff(ps: seq<Process>)
    ensures IdsUnique(ps) <==> CountersApart(ps)
  {
    forall p: Process
      ensures Consecutive(p)
    {
      IdsAreConsecutive(p.start, p.inputs);
    }
    forall i, j | 0 <= i < j < |ps| && ps[i].Ids() != [] && ps[j].Ids() != []
      ensures !IdsUnique(ps)
        || ps[i].End().idCounter <= ps[j].start.idCounter || ps[j].End().idCounter <= ps[i].start.idCounter
    {
      if ps[i].start.idCounter <= ps[j].start.idCounter < ps[i].End().idCounter {
        Collision(ps, i, j);
      } else if ps[j].start.idCounter <= ps[i].start.idCounter < ps[j].End().idCounter {
        Collision(ps, j, i);
      }
    }
    if CountersApart(ps) {
      ApartIsUnique(ps);
    }
  }

  ghost predicate Consecutive(p: Process) {
    && p.End().idCounter == p.start.idCounter + |p.Ids()|
    && forall a :: 0 <= a < |p.Ids()| ==> p.Ids()[a] == p.start.idCounter + 1 + a
  }

  lemma ApartIsUnique(ps: seq<Process>)
    requires CountersApart(ps) && forall p: Process :: Consecutive(p)
    ensures IdsUnique(ps)
  {
    forall i, j, a, b | 0 <= i < |ps| && 0 <= j < |ps| && 0 <= a < |ps[i].Ids()| && 0 <= b < |ps[j].Ids()|
      ensures ps[i].Ids()[a] == ps[j].Ids()[b] ==> i == j && a == b
    {
      assert Consecutive(ps[i]) && Consecutive(ps[j]);
    }
  }

  lemma Collision(ps: seq<Process>, i: nat, j: nat)
    requires i < |ps| && j < |ps| && i != j && ps[j].Ids() != []
    requires ps[i].start.idCounter <= ps[j].start.idCounter < ps[i].End().idCounter
    ensures !IdsUnique(ps)
  {
    IdsAreConsecutive(ps[i].start, ps[i].inputs);
    IdsAreConsecutive(ps[j].start, ps[j].inputs);
    assert ps[i].Ids()[ps[j].start.idCounter - ps[i].start.idCounter] == ps[j].Ids()[0];
  }

  /** It is enough that each start is past the start of the process before it by the incidents that one opened. */
  lemma EachStartPastPrevious(ps: seq<Process>)
    requires forall i :: 0 < i < |ps| ==> ps[i - 1].start.idCounter + |ps[i - 1].Ids()| <= ps[i].start.idCounter
    ensures IdsUnique(ps)
  {
    forall i, j | 0 <= i < j < |ps|
      ensures ps[i].start.idCounter + |ps[i].Ids()| <= ps[j].start.idCounter
    {
      StartsPast(ps, i, j);
    }
    forall i | 0 <= i < |ps|
      ensures ps[i].End().idCounter == ps[i].start.idCounter + |ps[i].Ids()|
    {
      IdsAreConsecutive(ps[i].start, ps[i].inputs);
    }
    IdsUniqueIff(ps);
  }

  lemma {:induction false} StartsPast(ps: seq<Process>, i: nat, j: nat)
    requires forall k :: 0 < k < |ps| ==> ps[k - 1].start.idCounter + |ps[k - 1].Ids()| <= ps[k].start.idCounter
    requires i < j < |ps|
    ensures ps[i].start.idCounter + |ps[i].Ids()| <= ps[j].start.idCounter
  {
    if i < j - 1 {
      StartsPast(ps, i, j - 1);
    }
  }

  // ---- a quick restart ----

  function Failure(check: string): Input {
    Result(CheckResult(check, "", CheckFailed), 0, true)
  }

  /** The first process of the example: two checks fail in a process started at millisecond 5. */
  function TwoFail(a: string, b: string): Process {
    Process(ManagerState(map[], map[], 5, 0, 0), [Failure(a), Failure(b)])
  }

  /**
   A new incident that takes the identifier of an active one overwrites it in the store, so a restart loses that one.
   */
  lemma ReusedIdLosesIncident(m: ManagerState, b: string, c: string)
    requires Keyed(m) && b in m.active && m.active[b].id == m.idCounter + 1 && c !in m.active
    ensures var n := Step(m, Failure(c)).0; b in n.active && !FailedSaves.Recovers(n)
  {
    var n := Step(m, Failure(c)).0;
    FailedSaves.RecoversIff(n);
    assert n.active[b] == m.active[b] && n.store[n.active[b].id].checkName == c;
  }

  /**
   A clock that moves forward is not enough. Two checks fail in a process started at millisecond 5, and a third one in
   its successor, restarted on its store at millisecond 6: the new incident takes the second one's identifier and its
   place in the store, and although every save succeeded the next restart loses the second incident.
   */
  lemma QuickRestartCollides(a: string, b: string, c: string, listed: seq<Record>)
    requires a != b && a != c && b != c && Lists(listed, TwoFail(a, b).End().store)
    ensures var first := TwoFail(a, b);
            var second := Process(Restart(first.End(), 6, listed), [Failure(c)]);
            && first.Ids() == [6, 7] && second.Ids() == [7]
            && first.start.idCounter < second.start.idCounter && !IdsUnique([first, second])
            && b in second.End().active && !FailedSaves.Recovers(second.End())
  {
    var first := TwoFail(a, b);
    FirstProcess(a, b);
    RehydrateRebuilds(first.End(), 6, listed);
    var start := Restart(first.End(), 6, listed);
    OneInput(start, Failure(c));
    ReusedIdLosesIncident(start, b, c);
    Collision([first, Process(start, [Failure(c)])], 0, 1);
  }

  lemma OneInput(start: ManagerState, input: Input)
    ensures Run(start, [input]) == Step(start, input).0
    ensures input.Result? && input.result.status == CheckFailed && input.result.name !in start.active ==>
              AnnouncedIds(start, [input]) == [start.idCounter + 1]
  {
    assert [input][..0] == [];
    IdsAreConsecutive(start, [input]);
  }

  lemma FirstProcess(a: string, b: string)
    requires a != b
    ensures var first := TwoFail(a, b);
            && first.Ids() == [6, 7]
            && Agree(first.End()) && first.End().active.Keys == {a, b} && first.End().active[b].id == 7
  {
    var first := TwoFail(a, b);
    assert first.inputs[..1] == [Failure(a)];
    OneInput(first.start, Failure(a));
    var middle := Run(first.start, first.inputs[..1]);
    StepAgrees(first.start, Failure(a));
    StepAgrees(middle, Failure(b));
    IdsAreConsecutive(first.start, first.inputs);
  }
}
