/**
 The incident manager: one active incident per check, persisted on every change, with
 lifecycle events for the repair engine. The value-level operations on `ManagerState`
 specify the methods of the class `Manager`; the repair protocol runs on the same operations.
 */
module Incidents {
  import opened Wrappers

  datatype Status = Open | Repairing | Verifying | Resolved | Failed

  datatype CheckStatus = Healthy | Degraded | CheckFailed | Unrecognised

  datatype CheckResult = CheckResult(name: string, service: string, status: CheckStatus)

  /**
   An incident's fields: the stored form, and the copies handed to events and to the engine. Identifier "inc-n" is n.
   */
  datatype Record = Record(
    id: int, checkName: string, service: string, status: Status, failureCount: int,
    createdAt: int, updatedAt: int, resolvedAt: Option<int>)

  datatype EventType = OpenedEvent | UpdatedEvent | RepairingEvent | ResolvedEvent | FailedEvent

  datatype Event = Event(incident: Record, kind: EventType)

  /**
   The manager, its store, and the two lifecycle counters of its recorder. A failed save is
   only logged, so every operation takes the outcome of its saves.
   */
  datatype ManagerState = ManagerState(
    active: map<string, Record>, store: map<int, Record>, idCounter: int, openedCount: nat, resolvedCount: nat)
  {
    function Persist(inc: Record, ok: bool): ManagerState {
      if ok then this.(store := store[inc.id := inc]) else this
    }

    /** Writes the incident back under its check and persists it. */
    function Update(inc: Record, ok: bool): ManagerState {
      this.(active := active[inc.checkName := inc]).Persist(inc, ok)
    }

    function Resolve(inc: Record, now: int, ok: bool): (ManagerState, seq<Event>) {
      var done := inc.(status := Resolved, updatedAt := now, resolvedAt := Some(now));
      (Persist(done, ok).(active := active - {inc.checkName}, resolvedCount := resolvedCount + 1),
       [Event(done, ResolvedEvent)])
    }

    function Create(result: CheckResult, now: int): Record {
      Record(idCounter + 1, result.name, result.service, Open, 1, now, now, None)
    }

    function ProcessResult(result: CheckResult, now: int, ok: bool): (ManagerState, seq<Event>) {
      match result.status
      case Healthy =>
        if result.name in active && active[result.name].status != Resolved
        then Resolve(active[result.name], now, ok)
        else (this, [])
      case Degraded => Unhealthy(result, now, ok)
      case CheckFailed => Unhealthy(result, now, ok)
      case Unrecognised => (this, [])
    }

    /** A failed or degraded result counts on the active incident, or opens a new one. */
    function Unhealthy(result: CheckResult, now: int, ok: bool): (ManagerState, seq<Event>) {
      if result.name in active then
        var existing := active[result.name];
        var inc := existing.(failureCount := existing.failureCount + 1, updatedAt := now);
        (Update(inc, ok), [Event(inc, UpdatedEvent)])
      else
        var inc := Create(result, now);
        (this.(idCounter := idCounter + 1, openedCount := openedCount + 1).Update(inc, ok), [Event(inc, OpenedEvent)])
    }

    function SetStatus(check: string, status: Status, now: int, later: int, ok: bool, okAgain: bool)
      : (ManagerState, seq<Event>)
    {
      if check !in active then (this, []) else
      var inc := active[check].(status := status, updatedAt := now);
      var m := Update(inc, ok);
      match status
      case Repairing => (m, [Event(inc, RepairingEvent)])
      case Failed => (m, [Event(inc, FailedEvent)])
      case Resolved => m.Resolve(inc, later, okAgain)
      case _ => (m, [Event(inc, UpdatedEvent)])
    }

    /** Loading stored records: unresolved ones become active, later ones of a check replacing earlier ones. */
    function Rehydrate(listed: seq<Record>): ManagerState {
      this.(active := Load(active, listed))
    }

    /** Every active incident is filed under its own check. */
    ghost predicate KeysMatch() {
      forall c :: c in active ==> active[c].checkName == c
    }
  }

  function Load(active: map<string, Record>, listed: seq<Record>): map<string, Record> {
    if listed == [] then active else
    var n := |listed| - 1;
    var before := Load(active, listed[..n]);
    if listed[n].status == Resolved then before else before[listed[n].checkName := listed[n]]
  }

  /** A full channel drops the event. */
  function Emit(queue: seq<Event>, capacity: nat, event: Event): seq<Event> {
    if |queue| < capacity then queue + [event] else queue
  }

  function EmitAll(queue: seq<Event>, capacity: nat, events: seq<Event>): seq<Event>
    decreases |events|
  {
    if events == [] then queue else EmitAll(Emit(queue, capacity, events[0]), capacity, events[1..])
  }

  /** How many of `n` events still fit into a channel. */
  function Fitting(queue: seq<Event>, capacity: nat, n: nat): (fit: nat)
    ensures fit <= n
  {
    if capacity <= |queue| then 0 else if n <= capacity - |queue| then n else capacity - |queue|
  }

  /** Emitting appends the first events in order, as many as there is room for, and drops the rest. */
  lemma {:induction false} EmitAllFills(queue: seq<Event>, capacity: nat, events: seq<Event>)
    ensures EmitAll(queue, capacity, events) == queue + events[..Fitting(queue, capacity, |events|)]
    decreases |events|
  {
    if events == [] {
      assert queue + [] == queue;
    } else {
      var rest, after := events[1..], Emit(queue, capacity, events[0]);
      EmitAllFills(after, capacity, rest);
      var fit := Fitting(queue, capacity, |events|);
      if |queue| < capacity {
        assert events[..fit] == [events[0]] + rest[..fit - 1];
        assert queue + ([events[0]] + rest[..fit - 1]) == (queue + [events[0]]) + rest[..fit - 1];
      } else {
        assert rest[..0] == [] && events[..0] == [];
      }
    }
  }

  /** An empty channel keeps the first events up to its capacity. */
  lemma EmptyChannelFills(capacity: nat, events: seq<Event>)
    ensures EmitAll([], capacity, events) == if |events| <= capacity then events else events[..capacity]
  {
    EmitAllFills([], capacity, events);
    NothingBefore(events[..Fitting([], capacity, |events|)]);
    assert events[..|events|] == events;
  }

  lemma NothingBefore(events: seq<Event>)
    ensures [] + events == events
  {
  }

  // ---- the objects ----

  class Incident {
    const id: int
    const checkName: string
    const service: string
    var status: Status
    var failureCount: int
    const createdAt: int
    var updatedAt: int
    var resolvedAt: Option<int>

    constructor (record: Record)
      ensures Copy() == record
    {
      id, checkName, service, createdAt := record.id, record.checkName, record.service, record.createdAt;
      status, failureCount := record.status, record.failureCount;
      updatedAt, resolvedAt := record.updatedAt, record.resolvedAt;
    }

    function Copy(): Record
      reads this
    {
      Record(id, checkName, service, status, failureCount, createdAt, updatedAt, resolvedAt)
    }
  }

  class Store {
    var incidents: map<int, Record>

    method SaveIncident(record: Record, ok: bool)
      modifies this
      ensures incidents == if ok then old(incidents)[record.id := record] else old(incidents)
    {
      if ok {
        incidents := incidents[record.id := record];
      }
    }
  }

  class EventChannel {
    const capacity: nat
    var queue: seq<Event>

    method TrySend(event: Event)
      modifies this
      ensures queue == Emit(old(queue), capacity, event)
    {
      if |queue| < capacity {
        queue := queue + [event];
      }
    }
  }

  class Recorder {
    var openedCount: nat
    var resolvedCount: nat
  }

  class Manager {
    const store: Store
    const events: EventChannel
    const recorder: Recorder
    var active: map<string, Incident>
    var idCounter: int

    /** Different checks have different incident objects, each filed under its own check. */
    ghost predicate Valid()
      reads this
    {
      && (forall c :: c in active ==> active[c].checkName == c)
    }

    /** The active incidents by value. */
    ghost function Active(): map<string, Record>
      reads this, active.Values
    {
      map c | c in active :: active[c].Copy()
    }

    ghost function State(): ManagerState
      reads this, store, recorder, active.Values
    {
      ManagerState(Active(), store.incidents, idCounter, recorder.openedCount, recorder.resolvedCount)
    }

    /** The counter starts at the millisecond clock. */
    constructor (store: Store, events: EventChannel, recorder: Recorder, millis: int)
      ensures Valid() && this.store == store && this.events == events && this.recorder == recorder
      ensures State() == ManagerState(map[], store.incidents, millis, recorder.openedCount, recorder.resolvedCount)
    {
      this.store, this.events, this.recorder := store, events, recorder;
      active, idCounter := map[], millis;
    }

    /** `stored` is what listing the store returned; nothing when that failed. */
    method Rehydrate(stored: Option<seq<Record>>) returns (ok: bool)
      requires Valid()
      modifies this`active
      ensures Valid() && ok == stored.Some?
      ensures State() == if ok then old(State()).Rehydrate(stored.value) else old(State())
      ensures fresh(active.Values - old(active.Values))
    {
      if stored == None {
        return false;
      }
      var listed := stored.value;
      ghost var before := Active();
      for i := 0 to |listed|
        invariant Valid() && Active() == Load(before, listed[..i])
        invariant fresh(active.Values - old(active.Values))
      {
        assert listed[..i + 1][..i] == listed[..i];
        if listed[i].status == Resolved {
          continue;
        }
        var inc := new Incident(listed[i]);
        File(inc);
      }
      assert listed[..|listed|] == listed;
      return true;
    }

    /** Files a new incident object under its check. */
    method File(inc: Incident)
      requires Valid()
      modifies this`active
      ensures Valid() && active == old(active)[inc.checkName := inc]
      ensures Active() == old(Active())[inc.checkName := inc.Copy()]
      ensures active.Values <= old(active.Values) + {inc}
    {
      active := active[inc.checkName := inc];
      assert forall c :: c in active && c != inc.checkName ==>
               active[c] == old(active)[c] && active[c] in old(active.Values);
    }

    method Unfile(check: string)
      requires Valid()
      modifies this`active
      ensures Valid() && active.Values <= old(active.Values)
      ensures Active() == old(Active()) - {check}
    {
      active := active - {check};
      assert forall c :: c in active ==> active[c] == old(active)[c] && active[c] in old(active.Values);
    }

    method PersistIncident(inc: Incident, ok: bool)
      modifies store
      ensures store.incidents == if ok then old(store.incidents)[inc.id := inc.Copy()] else old(store.incidents)
    {
      store.SaveIncident(inc.Copy(), ok);
    }

    method CreateIncident(result: CheckResult, now: int) returns (inc: Incident)
      modifies this`idCounter
      ensures fresh(inc) && inc.Copy() == old(State()).Create(result, now) && idCounter == old(idCounter) + 1
    {
      idCounter := idCounter + 1;
      inc := new Incident(Record(idCounter, result.name, result.service, Open, 1, now, now, None));
    }

    /** After the object of one check changed, only that check's value changed. */
    twostate lemma OnlyChanged(inc: Incident)
      requires Valid() && active == old(active) && inc.checkName in active && active[inc.checkName] == inc
      requires forall i :: i in active.Values && i != inc ==> unchanged(i)
      ensures Active() == old(Active())[inc.checkName := inc.Copy()]
    {
      forall c | c in active && c != inc.checkName
        ensures Active()[c] == old(Active())[c]
      {
        assert active[c] in active.Values && active[c] != inc;
      }
    }

    method ResolveIncidentLocked(inc: Incident, now: int, ok: bool) returns (evs: seq<Event>)
      requires Valid() && inc.checkName in active && active[inc.checkName] == inc
      modifies this`active, store, recorder, inc
      ensures Valid() && active.Values <= old(active.Values)
      ensures (State(), evs) == old(State()).Resolve(old(inc.Copy()), now, ok)
    {
      MarkResolved(inc, now, ok);
      ghost var marked := Active();
      recorder.resolvedCount := recorder.resolvedCount + 1;
      assert Active() == marked;
      Unfile(inc.checkName);
      assert Active() == marked - {inc.checkName} == old(Active()) - {inc.checkName};
      evs := [Event(inc.Copy(), ResolvedEvent)];
    }

    method MarkResolved(inc: Incident, now: int, ok: bool)
      requires Valid() && inc.checkName in active && active[inc.checkName] == inc
      modifies inc, store
      ensures inc.Copy() == old(inc.Copy()).(status := Resolved, updatedAt := now, resolvedAt := Some(now))
      ensures State() == old(State()).Update(inc.Copy(), ok)
    {
      inc.status, inc.updatedAt, inc.resolvedAt := Resolved, now, Some(now);
      OnlyChanged(inc);
      PersistIncident(inc, ok);
    }

    method ProcessResult(result: CheckResult, now: int, ok: bool)
      requires Valid()
      modifies this, store, events, recorder, active.Values
      ensures Valid() && fresh(active.Values - old(active.Values))
      ensures State() == old(State()).ProcessResult(result, now, ok).0
      ensures events.queue == EmitAll(old(events.queue), events.capacity, old(State()).ProcessResult(result, now, ok).1)
    {
      var evs := ProcessResultLocked(result, now, ok);
      EmitEvents(evs);
    }

    /** The part of ProcessResult between lock and unlock. */
    method ProcessResultLocked(result: CheckResult, now: int, ok: bool) returns (evs: seq<Event>)
      requires Valid()
      modifies this, store, recorder, active.Values
      ensures Valid() && fresh(active.Values - old(active.Values))
      ensures (State(), evs) == old(State()).ProcessResult(result, now, ok)
    {
      evs := [];
      match result.status {
        case Healthy =>
          if result.name in active && active[result.name].status != Resolved {
            evs := ResolveIncidentLocked(active[result.name], now, ok);
          }
        case Unrecognised =>
        case _ =>
          if result.name in active {
            evs := CountFailure(active[result.name], now, ok);
          } else {
            evs := OpenIncident(result, now, ok);
          }
      }
    }

    /** The deduplication branch: one more failure on the existing incident. */
    method CountFailure(existing: Incident, now: int, ok: bool) returns (evs: seq<Event>)
      requires Valid() && existing.checkName in active && active[existing.checkName] == existing
      modifies existing, store
      ensures Valid()
      ensures var inc := old(existing.Copy()).(failureCount := old(existing.failureCount) + 1, updatedAt := now);
              State() == old(State()).Update(inc, ok) && evs == [Event(inc, UpdatedEvent)]
    {
      existing.failureCount := existing.failureCount + 1;
      existing.updatedAt := now;
      OnlyChanged(existing);
      PersistIncident(existing, ok);
      evs := [Event(existing.Copy(), UpdatedEvent)];
    }

    method Register(inc: Incident, ok: bool)
      requires Valid()
      modifies this`active, store
      ensures Valid() && active.Values <= old(active.Values) + {inc}
      ensures State() == old(State()).Update(inc.Copy(), ok)
    {
      File(inc);
      PersistIncident(inc, ok);
    }

    method OpenIncident(result: CheckResult, now: int, ok: bool) returns (evs: seq<Event>)
      requires Valid() && result.name !in active
      modifies this, store, recorder
      ensures Valid() && fresh(active.Values - old(active.Values))
      ensures (State(), evs) == old(State()).Unhealthy(result, now, ok)
    {
      var inc := CreateIncident(result, now);
      assert Active() == old(Active());
      Register(inc, ok);
      ghost var filed := Active();
      recorder.openedCount := recorder.openedCount + 1;
      assert Active() == filed;
      evs := [Event(inc.Copy(), OpenedEvent)];
    }

    method SetStatus(check: string, status: Status, now: int, later: int, ok: bool, okAgain: bool)
      requires Valid()
      modifies this, store, events, recorder, active.Values
      ensures Valid() && active.Values <= old(active.Values)
      ensures State() == old(State()).SetStatus(check, status, now, later, ok, okAgain).0
      ensures events.queue ==
              EmitAll(old(events.queue), events.capacity,
                      old(State()).SetStatus(check, status, now, later, ok, okAgain).1)
    {
      var evs := SetStatusLocked(check, status, now, later, ok, okAgain);
      EmitEvents(evs);
    }

    /** The part of SetStatus between lock and unlock. */
    method SetStatusLocked(check: string, status: Status, now: int, later: int, ok: bool, okAgain: bool)
      returns (evs: seq<Event>)
      requires Valid()
      modifies this, store, recorder, active.Values
      ensures Valid() && active.Values <= old(active.Values)
      ensures (State(), evs) == old(State()).SetStatus(check, status, now, later, ok, okAgain)
    {
      if check !in active {
        return [];
      }
      var inc := active[check];
      MarkStatus(inc, status, now, ok);
      assert inc.Copy() == old(State()).active[check].(status := status, updatedAt := now);
      evs := [];
      match status {
        case Repairing => evs := [Event(inc.Copy(), RepairingEvent)];
        case Failed => evs := [Event(inc.Copy(), FailedEvent)];
        case Resolved => evs := ResolveIncidentLocked(inc, later, okAgain);
        case _ => evs := [Event(inc.Copy(), UpdatedEvent)];
      }
    }

    method MarkStatus(inc: Incident, status: Status, now: int, ok: bool)
      requires Valid() && inc.checkName in active && active[inc.checkName] == inc
      modifies inc, store
      ensures inc.Copy() == old(inc.Copy()).(status := status, updatedAt := now)
      ensures State() == old(State()).Update(inc.Copy(), ok)
    {
      inc.status := status;
      inc.updatedAt := now;
      OnlyChanged(inc);
      PersistIncident(inc, ok);
    }

    /** Emission happens after the lock is released; a full channel drops the event. */
    method EmitEvents(evs: seq<Event>)
      modifies events
      ensures events.queue == EmitAll(old(events.queue), events.capacity, evs)
      ensures events.queue == old(events.queue) + evs[..Fitting(old(events.queue), events.capacity, |evs|)]
    {
      EmitAllFills(events.queue, events.capacity, evs);
      for i := 0 to |evs|
        invariant EmitAll(old(events.queue), events.capacity, evs) == EmitAll(events.queue, events.capacity, evs[i..])
      {
        assert evs[i..][1..] == evs[i + 1..];
        events.TrySend(evs[i]);
      }
    }

    method GetActive(check: string) returns (inc: Option<Record>)
      ensures inc == if check in State().active then Some(State().active[check]) else None
    {
      if check !in active {
        return None;
      }
      return Some(active[check].Copy());
    }

    method ActiveCount() returns (n: nat)
      ensures n == |State().active|
    {
      n := |active|;
      assert State().active.Keys == active.Keys;
    }
  }
}
