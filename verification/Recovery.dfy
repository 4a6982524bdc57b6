/**
 Crash recovery: at every lock release the store and the active map agree, so a restart that
 lists the store in any order rebuilds the same active map. Here saves succeed; what a failed
 save, which the source only logs, does to recovery is the subject of `FailedSaves`.
 */
module Recovery {
  import opened Incidents
  import opened IncidentHistory

  /** Active incidents are filed under their checks, and stored ones under their identifiers. */
  ghost predicate Keyed(m: ManagerState) {
    m.KeysMatch() && forall id :: id in m.store ==> m.store[id].id == id
  }

  /** Active incidents are stored as they are, and the unresolved stored ones are the active ones of their checks. */
  ghost predicate StoredAsActive(m: ManagerState) {
    && (forall c :: c in m.active ==>
          && m.active[c].status != Resolved
          && m.active[c].id in m.store && m.store[m.active[c].id] == m.active[c])
    && (forall id :: id in m.store && m.store[id].status != Resolved ==>
          m.store[id].checkName in m.active && m.active[m.store[id].checkName].id == id)
  }

  /** Store and memory agree, and the counter is past every stored identifier. */
  ghost predicate Agree(m: ManagerState) {
    Keyed(m) && StoredAsActive(m) && forall id :: id in m.store ==> id <= m.idCounter
  }

  ghost predicate Saved(input: Input) {
    input.ok && (input.External? ==> input.okAgain)
  }

  /** Every operation of the manager, with any status set from outside, keeps store and memory in agreement. */
  lemma StepAgrees(m: ManagerState, input: Input)
    requires Agree(m) && Saved(input)
    ensures Agree(Step(m, input).0)
  {
    match input
    case External(check, status, now, later, _, _) =>
      if check in m.active {
        var inc := m.active[check].(status := status, updatedAt := now);
        if status == Resolved {
          ResolveAgrees(m, m.Update(inc, true), inc, later);
        } else {
          UpdateAgrees(m, inc);
        }
      }
    case Result(result, now, _) =>
      if result.status == Healthy {
        if result.name in m.active {
          ResolveAgrees(m, m, m.active[result.name], now);
        }
      } else if result.status != Unrecognised {
        if result.name in m.active {
          UpdateAgrees(m, m.active[result.name].(failureCount := m.active[result.name].failureCount + 1,
                                                 updatedAt := now));
        } else {
          OpenAgrees(m, result, now);
        }
      }
  }

  /** Incidents are never lost from the store and keep their identity, and a resolved one stays as it is. */
  ghost predicate Keeps(before: map<int, Record>, after: map<int, Record>) {
    forall id :: id in before ==>
      && id in after && after[id].checkName == before[id].checkName
      && after[id].service == before[id].service && after[id].createdAt == before[id].createdAt
      && (before[id].status == Resolved ==> after[id] == before[id])
  }

  /** Besides, an incident that left Open never returns to it. */
  ghost predicate Advances(before: map<int, Record>, after: map<int, Record>) {
    && Keeps(before, after)
    && forall id :: id in before && before[id].status != Open ==> id in after && after[id].status != Open
  }

  /** Only a status set to Open from outside, on an active incident that is not Open, makes an incident Open again. */
  lemma StepAdvances(m: ManagerState, input: Input)
    requires Agree(m)
    ensures Keeps(m.store, Step(m, input).0.store)
    ensures Advances(m.store, Step(m, input).0.store) <==>
            !(input.External? && input.status == Open && input.ok && input.check in m.active
              && m.active[input.check].status != Open)
  {
    match input
    case External(check, status, now, later, ok, okAgain) => StatusAdvances(m, check, status, now, later, ok, okAgain);
    case Result(result, now, ok) => ResultAdvances(m, result, now, ok);
  }

  lemma StatusAdvances(m: ManagerState, check: string, status: Status, now: int, later: int, ok: bool, okAgain: bool)
    requires Agree(m)
    ensures var after := m.SetStatus(check, status, now, later, ok, okAgain).0.store;
            && Keeps(m.store, after)
            && (Advances(m.store, after) <==>
                  !(status == Open && ok && check in m.active && m.active[check].status != Open))
  {
    if status == Open && ok && check in m.active && m.active[check].status != Open {
      assert m.active[check].id in m.store;
    }
  }

  lemma ResultAdvances(m: ManagerState, result: CheckResult, now: int, ok: bool)
    requires Agree(m)
    ensures Advances(m.store, m.ProcessResult(result, now, ok).0.store)
  {
  }

  lemma UpdateAgrees(m: ManagerState, inc: Record)
    requires Agree(m) && inc.checkName in m.active && m.active[inc.checkName].id == inc.id && inc.status != Resolved
    ensures Agree(m.Update(inc, true))
  {
  }

  lemma OpenAgrees(m: ManagerState, result: CheckResult, now: int)
    requires Agree(m) && result.name !in m.active
    ensures Agree(m.Unhealthy(result, now, true).0)
  {
  }

  /** Resolving from a state that differs from an agreeing one at most in the incident being resolved. */
  lemma ResolveAgrees(m: ManagerState, n: ManagerState, inc: Record, now: int)
    requires Agree(m) && inc.checkName in m.active && m.active[inc.checkName].id == inc.id
    requires n == m || n == m.Update(inc, true)
    ensures Agree(n.Resolve(inc, now, true).0)
  {
  }

  // ---- restart ----

  /** A listing of the store: every record is in it, and nothing else, in any order. */
  ghost predicate Lists(listed: seq<Record>, store: map<int, Record>) {
    && (forall i :: 0 <= i < |listed| ==> listed[i].id in store && store[listed[i].id] == listed[i])
    && (forall id :: id in store ==> store[id] in listed)
  }

  /** A new process on the same store: empty manager, counter from the millisecond clock, then Rehydrate. */
  function Restart(m: ManagerState, millis: int, listed: seq<Record>): ManagerState {
    ManagerState(map[], m.store, millis, 0, 0).Rehydrate(listed)
  }

  lemma {:induction false} LoadPrefix(m: ManagerState, listed: seq<Record>)
    requires Keyed(m) && StoredAsActive(m)
    requires forall i :: 0 <= i < |listed| ==> listed[i].id in m.store && m.store[listed[i].id] == listed[i]
    ensures var loaded := Load(map[], listed);
            && (forall c :: c in loaded ==> c in m.active && loaded[c] == m.active[c])
            && (forall i :: 0 <= i < |listed| && listed[i].status != Resolved ==> listed[i].checkName in loaded)
  {
    if listed != [] {
      LoadPrefix(m, listed[..|listed| - 1]);
    }
  }

  /** Rehydration rebuilds exactly the active map the crashed process had. */
  lemma RehydrateRebuilds(m: ManagerState, millis: int, listed: seq<Record>)
    requires Keyed(m) && StoredAsActive(m) && Lists(listed, m.store)
    ensures Restart(m, millis, listed).active == m.active
    ensures Agree(m) && m.idCounter <= millis ==> Agree(Restart(m, millis, listed))
  {
    LoadPrefix(m, listed);
    var loaded := Load(map[], listed);
    forall c | c in m.active
      ensures c in loaded
    {
      var record := m.store[m.active[c].id];
      var i :| 0 <= i < |listed| && listed[i] == record;
    }
    assert loaded == m.active;
  }
}
