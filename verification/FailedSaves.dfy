/**
 Recovery when saves fail: exactly which states a restart rebuilds, and, over whole runs of the
 manager with any save outcomes, what must be true of each incident's last save.
 */
module FailedSaves {
  import opened IncidentHistory
  import opened Incidents
  import opened Recovery

  // ---- which states recover ----

  /** The store keeps one record per identifier, so it lists each once. */
  ghost predicate OnceEach(listed: seq<Record>) {
    forall i, j :: 0 <= i < j < |listed| ==> listed[i].id != listed[j].id
  }

  /** A restart rebuilds the active map, in whatever order the store lists its records. */
  ghost predicate Recovers(m: ManagerState) {
    forall millis: int, listed: seq<Record> :: Lists(listed, m.store) && OnceEach(listed) ==>
      Restart(m, millis, listed).active == m.active
  }

  lemma {:induction false} SomeListing(store: map<int, Record>) returns (listed: seq<Record>)
    requires forall id :: id in store ==> store[id].id == id
    ensures Lists(listed, store) && OnceEach(listed)
    decreases |store|
  {
    listed := [];
    if id :| id in store {
      listed := ListingLast(store, id);
    }
  }

  /** A listing can end with any record of the store. */
  lemma {:induction false} ListingLast(store: map<int, Record>, id: int) returns (listed: seq<Record>)
    requires id in store && forall k :: k in store ==> store[k].id == k
    ensures Lists(listed, store) && OnceEach(listed) && listed != [] && listed[|listed| - 1] == store[id]
    decreases |store|, 0
  {
    var others := store - {id};
    assert others.Keys == store.Keys - {id};
    var before := SomeListing(others);
    listed := before + [store[id]];
    forall k | k in store
      ensures store[k] in listed
    {
      if k != id {
        assert others[k] in before;
      }
    }
  }

  lemma {:induction false} LoadedAreListed(listed: seq<Record>, check: string)
    requires check in Load(map[], listed)
    ensures var inc := Load(map[], listed)[check];
            inc in listed && inc.status != Resolved && inc.checkName == check
  {
    var n := |listed| - 1;
    if listed[n].status == Resolved || listed[n].checkName != check {
      LoadedAreListed(listed[..n], check);
    }
  }

  /**
   A restart rebuilds the active map exactly when each active incident is stored as it is and nothing else is
   unresolved.
   */
  lemma RecoversIff(m: ManagerState)
    requires Keyed(m)
    ensures Recovers(m) <==> StoredAsActive(m)
  {
    if StoredAsActive(m) {
      forall millis: int, listed: seq<Record> | Lists(listed, m.store) && OnceEach(listed)
        ensures Restart(m, millis, listed).active == m.active
      {
        RehydrateRebuilds(m, millis, listed);
      }
    }
    if Recovers(m) {
      RecoveredIsStored(m);
      forall id | id in m.store && m.store[id].status != Resolved
        ensures m.store[id].checkName in m.active && m.active[m.store[id].checkName].id == id
      {
        var listed := ListingLast(m.store, id);
        assert Restart(m, 0, listed).active == m.active;
      }
    }
  }

  lemma RecoveredIsStored(m: ManagerState)
    requires Keyed(m) && Recovers(m)
    ensures forall c :: c in m.active ==>
              m.active[c].status != Resolved && m.active[c].id in m.store && m.store[m.active[c].id] == m.active[c]
  {
    var listed := SomeListing(m.store);
    assert Restart(m, 0, listed).active == m.active;
    forall c | c in m.active
      ensures m.active[c].status != Resolved && m.active[c].id in m.store && m.store[m.active[c].id] == m.active[c]
    {
      LoadedAreListed(listed, c);
    }
  }

  /** Whether a save of the operation succeeded: a resolution from outside is saved twice, and either save stores it. */
  predicate Held(input: Input) {
    input.ok || (input.External? && input.status == Resolved && input.okAgain)
  }

  /** When no save of an operation succeeds, recovery succeeds exactly when it changed no active incident. */
  lemma FailedSaveRecoversIff(m: ManagerState, input: Input, millis: int, listed: seq<Record>)
    requires Agree(m) && !Held(input) && Lists(listed, Step(m, input).0.store)
    ensures var n := Step(m, input).0;
            Restart(n, millis, listed).active == n.active <==> n.active == m.active
  {
    RehydrateRebuilds(m, millis, listed);
  }

  // ---- whole runs with any save outcomes ----

  /**
   The incidents as they are after a run, saved or not: each operation announces the incident it changed and tried to
   save.
   */
  function Latest(start: ManagerState, inputs: seq<Input>): map<int, Record> {
    if inputs == [] then start.store else
    var before := inputs[..|inputs| - 1];
    Overlaid(Latest(start, before), Step(Run(start, before), inputs[|inputs| - 1]).1)
  }

  function Overlaid(incidents: map<int, Record>, events: seq<Event>): map<int, Record> {
    if events == [] then incidents else incidents[events[0].incident.id := events[0].incident]
  }

  /** Whether the last change of an incident was saved, or the run never changed it. */
  predicate LastSaved(start: ManagerState, inputs: seq<Input>, id: int) {
    inputs == [] ||
    (var before, last := inputs[..|inputs| - 1], inputs[|inputs| - 1];
     var events := Step(Run(start, before), last).1;
     if events != [] && events[0].incident.id == id then Held(last) else LastSaved(start, before, id))
  }

  /** Every operation comes later than the last change of any active incident. */
  ghost predicate Ticking(start: ManagerState, inputs: seq<Input>) {
    inputs == [] ||
    (var before, last := inputs[..|inputs| - 1], inputs[|inputs| - 1];
     Ticking(start, before) && Later(Run(start, before), last))
  }

  ghost predicate Later(m: ManagerState, input: Input) {
    forall c :: c in m.active ==> m.active[c].updatedAt < input.now
  }

  /**
   What an operation stores: nothing when no save succeeds, and else the incident it announces or another resolved form
   of it.
   */
  lemma StepStores(m: ManagerState, input: Input)
    requires m.KeysMatch()
    ensures var (n, events) := Step(m, input);
            if !Held(input) || events == [] then n.store == m.store
            else var inc := events[0].incident;
                 && n.store.Keys == m.store.Keys + {inc.id}
                 && (forall id :: id in m.store && id != inc.id ==> n.store[id] == m.store[id])
                 && n.store[inc.id].id == inc.id
                 && (n.store[inc.id] == inc || (n.store[inc.id].status == inc.status == Resolved))
  {
    match input
    case Result(result, now, ok) => ResultStores(m, result, now, ok);
    case External(check, status, now, later, ok, okAgain) =>
      if status == Resolved && check in m.active {
        ResolvedStores(m, check, now, later, ok, okAgain);
      }
  }

  lemma ResultStores(m: ManagerState, result: CheckResult, now: int, ok: bool)
    ensures var (n, events) := m.ProcessResult(result, now, ok);
            n.store == if ok then Overlaid(m.store, events) else m.store
  {
  }

  lemma ResolvedStores(m: ManagerState, check: string, now: int, later: int, ok: bool, okAgain: bool)
    requires m.KeysMatch() && check in m.active
    ensures var (n, events) := m.SetStatus(check, Resolved, now, later, ok, okAgain);
            && |events| == 1 && events[0].incident.status == Resolved && events[0].incident.id == m.active[check].id
            && if okAgain then n.store == Overlaid(m.store, events)
               else if ok then
                 n.store == m.store[m.active[check].id := m.active[check].(status := Resolved, updatedAt := now)]
               else n.store == m.store
  {
  }

  /** The incidents as they are keep agreeing with the active map, whatever is stored. */
  lemma StepSaves(m: ManagerState, input: Input, latest: map<int, Record>)
    requires Agree(m.(store := latest))
    ensures Agree(Step(m, input).0.(store := Overlaid(latest, Step(m, input).1)))
  {
    StepAgrees(m.(store := latest), WithSave(input));
    SaveOnlyStores(m, input, latest);
  }

  /**
   The incident an operation changes was unresolved until then, or is new; unless it is now resolved it carries the
   operation's time.
   */
  lemma ChangedRecord(m: ManagerState, input: Input, latest: map<int, Record>)
    requires Agree(m.(store := latest)) && Step(m, input).1 != []
    ensures var inc := Step(m, input).1[0].incident;
            && (inc.status != Resolved ==> inc.updatedAt == input.now)
            && (inc.id in latest ==>
                  latest[inc.id].status != Resolved && (Later(m, input) ==> latest[inc.id].updatedAt < input.now))
  {
  }

  /** The same operation with its save succeeding. */
  function WithSave(input: Input): Input {
    match input
    case Result(result, now, _) => Result(result, now, true)
    case External(check, status, now, later, _, _) => External(check, status, now, later, true, true)
  }

  /** The outcome of a save decides what is stored, and nothing else. */
  lemma SaveOnlyStores(m: ManagerState, input: Input, latest: map<int, Record>)
    requires m.KeysMatch()
    ensures Step(m.(store := latest), WithSave(input)).0 ==
              Step(m, input).0.(store := Overlaid(latest, Step(m, input).1))
  {
    match input
    case Result(result, now, ok) => ResultOnlyStores(m, result, now, ok, latest);
    case External(check, status, now, later, ok, okAgain) =>
      StatusOnlyStores(m, check, status, now, later, ok, okAgain, latest);
  }

  lemma ResultOnlyStores(m: ManagerState, result: CheckResult, now: int, ok: bool, latest: map<int, Record>)
    ensures var (n, events) := m.ProcessResult(result, now, ok);
            m.(store := latest).ProcessResult(result, now, true).0 == n.(store := Overlaid(latest, events))
  {
  }

  lemma StatusOnlyStores(m: ManagerState, check: string, status: Status, now: int, later: int, ok: bool, okAgain: bool,
                         latest: map<int, Record>)
    requires m.KeysMatch()
    ensures var (n, events) := m.SetStatus(check, status, now, later, ok, okAgain);
            m.(store := latest).SetStatus(check, status, now, later, true, true).0 ==
              n.(store := Overlaid(latest, events))
  {
  }

  /**
   The stored form of an incident is its latest one, or another resolved form, if its last change was saved, and
   otherwise at most an earlier, unresolved one.
   */
  ghost predicate StoreLags(store: map<int, Record>, latest: map<int, Record>, id: int, saved: bool) {
    && (id in store ==> id in latest && store[id].id == id)
    && (saved && id in latest ==>
          id in store && (store[id] == latest[id] || store[id].status == latest[id].status == Resolved))
    && (!saved ==> id in latest && (id in store ==> store[id].status != Resolved))
  }

  lemma {:induction false} RunLags(start: ManagerState, inputs: seq<Input>, id: int)
    requires Agree(start)
    ensures var m, latest := Run(start, inputs), Latest(start, inputs);
            && Agree(m.(store := latest))
            && StoreLags(m.store, latest, id, LastSaved(start, inputs, id))
  {
    if inputs != [] {
      var before, last := inputs[..|inputs| - 1], inputs[|inputs| - 1];
      RunLags(start, before, id);
      StepStores(Run(start, before), last);
      StepSaves(Run(start, before), last, Latest(start, before));
      if Step(Run(start, before), last).1 != [] {
        ChangedRecord(Run(start, before), last, Latest(start, before));
      }
    }
  }

  /** With a moving clock a form of an unresolved incident that was not saved last is strictly older. */
  lemma {:induction false} RunLagsBehind(start: ManagerState, inputs: seq<Input>, id: int)
    requires Agree(start) && Ticking(start, inputs) && id in Run(start, inputs).store
    ensures var store, latest := Run(start, inputs).store, Latest(start, inputs);
            && id in latest
            && (latest[id].status != Resolved ==>
                  && store[id].updatedAt <= latest[id].updatedAt
                  && (!LastSaved(start, inputs, id) ==> store[id].updatedAt < latest[id].updatedAt))
  {
    RunLags(start, inputs, id);
    if inputs != [] {
      var before, last := inputs[..|inputs| - 1], inputs[|inputs| - 1];
      RunLags(start, before, id);
      StepStores(Run(start, before), last);
      StepSaves(Run(start, before), last, Latest(start, before));
      if Step(Run(start, before), last).1 != [] {
        ChangedRecord(Run(start, before), last, Latest(start, before));
      }
      if id in Run(start, before).store {
        RunLagsBehind(start, before, id);
      }
    }
  }

  /**
   A restart finds the incident as it is: stored as it is while unresolved, and not stored as unresolved once resolved.
   */
  ghost predicate Survives(store: map<int, Record>, inc: Record) {
    if inc.status == Resolved then inc.id in store ==> store[inc.id].status == Resolved
    else inc.id in store && store[inc.id] == inc
  }

  /** Recovery after any run, whatever saves failed: exactly when every incident survives. */
  lemma RecoversIffSurvive(start: ManagerState, inputs: seq<Input>)
    requires Agree(start)
    ensures var m, latest := Run(start, inputs), Latest(start, inputs);
            Recovers(m) <==> forall id :: id in latest ==> Survives(m.store, latest[id])
  {
    var m, latest := Run(start, inputs), Latest(start, inputs);
    RunLags(start, inputs, 0);
    forall id | id in m.store
      ensures id in latest && m.store[id].id == id
    {
      RunLags(start, inputs, id);
    }
    RecoversIff(m);
    SurvivingIsStored(m, latest);
  }

  lemma SurvivingIsStored(m: ManagerState, latest: map<int, Record>)
    requires Keyed(m) && Agree(m.(store := latest)) && m.store.Keys <= latest.Keys
    ensures StoredAsActive(m) <==> forall id :: id in latest ==> Survives(m.store, latest[id])
  {
    if forall id :: id in latest ==> Survives(m.store, latest[id]) {
      forall c | c in m.active
        ensures m.active[c].id in m.store && m.store[m.active[c].id] == m.active[c]
      {
        assert Survives(m.store, latest[m.active[c].id]);
      }
      forall id | id in m.store && m.store[id].status != Resolved
        ensures m.store[id].checkName in m.active && m.active[m.store[id].checkName].id == id
      {
        assert Survives(m.store, latest[id]);
      }
    }
  }

  /**
   With a moving clock the last saves decide: recovery succeeds exactly when each incident whose last change was not
   saved is one that was resolved without ever having been saved.
   */
  lemma RecoversIffLastSaves(start: ManagerState, inputs: seq<Input>)
    requires Agree(start) && Ticking(start, inputs)
    ensures var m, latest := Run(start, inputs), Latest(start, inputs);
            Recovers(m) <==>
            forall id :: id in latest && !LastSaved(start, inputs, id) ==>
              latest[id].status == Resolved && id !in m.store
  {
    var m, latest := Run(start, inputs), Latest(start, inputs);
    RecoversIffSurvive(start, inputs);
    forall id | id in latest
      ensures Survives(m.store, latest[id]) <==>
                LastSaved(start, inputs, id) || (latest[id].status == Resolved && id !in m.store)
    {
      RunLags(start, inputs, id);
      if id in m.store {
        RunLagsBehind(start, inputs, id);
      }
    }
  }
}
