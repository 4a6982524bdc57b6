/**
 The manager as a function of its inputs: from an empty start, whatever statuses the engine
 sets in between, the active incident of a check is determined by that check's results alone.
 */
module IncidentHistory {
  import opened Incidents
  import opened Wrappers

  datatype Input =
    | Result(result: CheckResult, now: int, ok: bool)
    | External(check: string, status: Status, now: int, later: int, ok: bool, okAgain: bool)

  const ENGINE_STATUSES: set<Status> := {Repairing, Verifying, Failed}

  function Step(m: ManagerState, input: Input): (ManagerState, seq<Event>) {
    match input
    case Result(result, now, ok) => m.ProcessResult(result, now, ok)
    case External(check, status, now, later, ok, okAgain) => m.SetStatus(check, status, now, later, ok, okAgain)
  }

  function Run(start: ManagerState, inputs: seq<Input>): ManagerState {
    if inputs == [] then start
    else Step(Run(start, inputs[..|inputs| - 1]), inputs[|inputs| - 1]).0
  }

  /** A recognised result of the check extends its history: true for failed or degraded. */
  function Extended(history: seq<bool>, input: Input, check: string): seq<bool> {
    if input.Result? && input.result.name == check && input.result.status != Unrecognised
    then history + [input.result.status != Healthy]
    else history
  }

  /** The recognised results of one check, oldest first: those of the run after the earlier ones. */
  function History(earlier: seq<bool>, inputs: seq<Input>, check: string): seq<bool> {
    if inputs == [] then earlier
    else Extended(History(earlier, inputs[..|inputs| - 1], check), inputs[|inputs| - 1], check)
  }

  /** The length of the trailing run of unhealthy results. */
  function Trailing(history: seq<bool>): nat {
    if history == [] || !history[|history| - 1] then 0 else 1 + Trailing(history[..|history| - 1])
  }

  /** The number of maximal runs of unhealthy results: positions where such a run starts. */
  function Outages(history: seq<bool>): nat {
    if history == [] then 0 else
    var n := |history| - 1;
    Outages(history[..n]) + if history[n] && (n == 0 || !history[n - 1]) then 1 else 0
  }

  /** How many of the events announce an incident opened for the check. */
  function Announced(events: seq<Event>, check: string): nat {
    if events == [] then 0
    else
      Announced(events[1..], check) +
      if events[0].kind == OpenedEvent && events[0].incident.checkName == check then 1 else 0
  }

  /** How many incidents the run announces as opened for one check. */
  function Opened(start: ManagerState, inputs: seq<Input>, check: string): nat {
    if inputs == [] then 0 else
    var before := inputs[..|inputs| - 1];
    Opened(start, before, check) + Announced(Step(Run(start, before), inputs[|inputs| - 1]).1, check)
  }

  ghost predicate FromEngine(input: Input) {
    input.External? ==> input.status in ENGINE_STATUSES
  }

  // ---- what an operation announces ----

  /** The check an operation is about. */
  function About(input: Input): string {
    match input
    case Result(result, _, _) => result.name
    case External(check, _, _, _, _, _) => check
  }

  /** A result that opens or counts on an incident. */
  predicate Unhealthy(input: Input) {
    input.Result? && (input.result.status == Degraded || input.result.status == CheckFailed)
  }

  /**
   An operation changes something exactly when it is unhealthy, or a recovery or status change of an active incident.
   */
  predicate Changes(m: ManagerState, input: Input) {
    Unhealthy(input) || (About(input) in m.active && (input.Result? ==> input.result.status == Healthy))
  }

  /** An incident with the same identity. */
  ghost predicate SameIncident(a: Record, b: Record) {
    a.id == b.id && a.checkName == b.checkName && a.service == b.service && a.createdAt == b.createdAt
  }

  /** Active incidents are filed under their checks and not resolved. */
  ghost predicate Filed(m: ManagerState) {
    m.KeysMatch() && forall c :: c in m.active ==> m.active[c].status != Resolved
  }

  /**
   A change is announced by exactly one event, and nothing else is. The event carries the incident of the check as it
   now is, the active one or the one just resolved, and its kind tells what became of it.
   */
  lemma AnnouncesChange(m: ManagerState, input: Input)
    requires Filed(m)
    ensures var (n, events) := Step(m, input);
            && (!Changes(m, input) ==> events == [] && n == m)
            && (Changes(m, input) ==> |events| == 1 && Announces(m, n, input, events[0]))
            && forall c :: c != About(input) ==>
                 (c in n.active <==> c in m.active) && (c in n.active ==> n.active[c] == m.active[c])
  {
    match input
    case Result(result, now, ok) => ResultAnnounces(m, result, now, ok);
    case External(check, status, now, later, ok, okAgain) => StatusAnnounces(m, check, status, now, later, ok, okAgain);
  }

  lemma ResultAnnounces(m: ManagerState, result: CheckResult, now: int, ok: bool)
    requires Filed(m)
    ensures var (n, events) := m.ProcessResult(result, now, ok);
            var input := Result(result, now, ok);
            if Changes(m, input) then |events| == 1 && Announces(m, n, input, events[0]) else events == [] && n == m
  {
  }

  lemma StatusAnnounces(m: ManagerState, check: string, status: Status, now: int, later: int, ok: bool, okAgain: bool)
    requires Filed(m)
    ensures var (n, events) := m.SetStatus(check, status, now, later, ok, okAgain);
            var input := External(check, status, now, later, ok, okAgain);
            if Changes(m, input) then |events| == 1 && Announces(m, n, input, events[0]) else events == [] && n == m
  {
  }

  ghost predicate Announces(m: ManagerState, n: ManagerState, input: Input, event: Event) {
    var check, inc := About(input), event.incident;
    && inc.checkName == check
    && (check in m.active ==> SameIncident(inc, m.active[check]))
    && (check !in m.active ==>
          && input.Result? && inc.id == m.idCounter + 1 && inc.service == input.result.service
          && inc.createdAt == input.now && inc.resolvedAt == None)
    && inc.failureCount ==
         (if check in m.active then m.active[check].failureCount else 0) + (if Unhealthy(input) then 1 else 0)
    && if check in n.active
       then
         && inc == n.active[check] && inc.updatedAt == input.now && inc.status != Resolved
         && event.kind == (if check !in m.active then OpenedEvent
                           else if inc.status == Repairing && input.External? then RepairingEvent
                           else if inc.status == Failed && input.External? then FailedEvent
                           else UpdatedEvent)
         && inc.status == (if input.External? then input.status
                           else if check in m.active then m.active[check].status else Open)
       else
         && inc.status == Resolved && inc.resolvedAt == Some(inc.updatedAt) && event.kind == ResolvedEvent
         && inc.updatedAt == if input.External? then input.later else input.now
  }

  /** What the active incident of a check must look like after a history. */
  ghost predicate Reflects(m: ManagerState, check: string, history: seq<bool>) {
    && (check in m.active <==> history != [] && history[|history| - 1])
    && (check in m.active ==>
          && m.active[check].failureCount == Trailing(history)
          && m.active[check].checkName == check
          && m.active[check].status != Resolved)
  }

  /**
   A check has an active incident iff its latest recognised result is unhealthy; the failure count is the length of
   the current outage; and one incident is opened per outage. The manager may start empty, with no earlier results,
   or with incidents that reflect earlier ones.
   */
  lemma {:induction false} ManagerRefinesHistory(start: ManagerState, earlier: seq<bool>, inputs: seq<Input>,
                                                 check: string)
    requires start.KeysMatch() && Reflects(start, check, earlier) && forall i :: i in inputs ==> FromEngine(i)
    ensures Reflects(Run(start, inputs), check, History(earlier, inputs, check))
    ensures Outages(earlier) + Opened(start, inputs, check) == Outages(History(earlier, inputs, check))
  {
    if inputs != [] {
      var before, last := inputs[..|inputs| - 1], inputs[|inputs| - 1];
      ManagerRefinesHistory(start, earlier, before, check);
      KeysStayMatched(start, before);
      StepReflects(Run(start, before), last, check, History(earlier, before, check));
    }
  }

  /** An empty manager reflects that there are no earlier results. */
  lemma EmptyReflectsNothing(start: ManagerState, check: string)
    requires start.active == map[]
    ensures start.KeysMatch() && Reflects(start, check, []) && Outages([]) == 0
  {
  }

  lemma {:induction false} KeysStayMatched(start: ManagerState, inputs: seq<Input>)
    requires start.KeysMatch()
    ensures Run(start, inputs).KeysMatch()
  {
    if inputs != [] {
      KeysStayMatched(start, inputs[..|inputs| - 1]);
    }
  }

  lemma StepReflects(m: ManagerState, input: Input, check: string, history: seq<bool>)
    requires m.KeysMatch() && Reflects(m, check, history) && FromEngine(input)
    ensures Reflects(Step(m, input).0, check, Extended(history, input, check))
    ensures Outages(Extended(history, input, check)) == Outages(history) + Announced(Step(m, input).1, check)
  {
    match input
    case External(_, _, _, _, _, _) => ExternalReflects(m, input, check, history);
    case Result(result, now, ok) =>
      if result.status == Degraded || result.status == CheckFailed {
        UnhealthyReflects(m, result, now, ok, check, history);
      } else {
        HealthyReflects(m, result, now, ok, check, history);
      }
  }

  lemma ExternalReflects(m: ManagerState, input: Input, check: string, history: seq<bool>)
    requires m.KeysMatch() && Reflects(m, check, history) && input.External? && FromEngine(input)
    ensures Reflects(Step(m, input).0, check, history) && Announced(Step(m, input).1, check) == 0
  {
  }

  lemma HealthyReflects(m: ManagerState, result: CheckResult, now: int, ok: bool, check: string, history: seq<bool>)
    requires m.KeysMatch() && Reflects(m, check, history) && (result.status == Healthy || result.status == Unrecognised)
    ensures var after := Extended(history, Result(result, now, ok), check);
            && Reflects(m.ProcessResult(result, now, ok).0, check, after)
            && Outages(after) == Outages(history)
            && Announced(m.ProcessResult(result, now, ok).1, check) == 0
  {
    assert (history + [false])[..|history|] == history;
  }

  lemma UnhealthyReflects(m: ManagerState, result: CheckResult, now: int, ok: bool, check: string, history: seq<bool>)
    requires m.KeysMatch() && Reflects(m, check, history)
    ensures var after := if result.name == check then history + [true] else history;
            && Reflects(m.Unhealthy(result, now, ok).0, check, after)
            && Outages(after) == Outages(history) + Announced(m.Unhealthy(result, now, ok).1, check)
  {
    assert (history + [true])[..|history|] == history;
  }
}
