/**
 The guardrails of the repair engine: allowed and forbidden actions, cooldowns, and
 the hourly rate limit with its pruned history. Each method is one mutex-protected
 body; the clock readings it makes are parameters, in nanoseconds.
 */
module Guardrails {
  import opened Windows

  const HOUR: int := 3_600_000_000_000

  const DEFAULT_ALLOWED: set<string> := {
    "restart_pod", "restart_container", "start_container", "stop_container", "update_swarm_service",
    "restart_service", "start_service", "stop_service", "rollback_deployment", "scale_replicas",
    "wait", "healthcheck", "clear_temp", "rotate_logs", "webhook"
  }

  const DEFAULT_FORBIDDEN: set<string> := {"shell_exec", "delete_files", "modify_secrets"}

  datatype Verdict = Permitted | Forbidden | NotAllowed | CoolingDown

  /** The value of a guardrails object: the operations below are specified on it. */
  datatype GuardState = GuardState(
    maxRepairs: map<string, int>,
    history: map<string, seq<int>>,
    cooldowns: map<string, int>,
    lastExecution: map<string, int>,
    allowed: set<string>,
    forbidden: set<string>)
  {
    function History(rule: string): seq<int> {
      if rule in history then history[rule] else []
    }

    function CheckAction(action: string, now: int): Verdict {
      if action in forbidden then Forbidden
      else if allowed != {} && action !in allowed then NotAllowed
      else if action in cooldowns && action in lastExecution && now - lastExecution[action] < cooldowns[action]
      then CoolingDown
      else Permitted
    }

    /** Pruning happens only for rules that have a limit. */
    function Pruned(rule: string, now: int): GuardState {
      if rule in maxRepairs then this.(history := history[rule := After(History(rule), now - HOUR)]) else this
    }

    predicate UnderLimit(rule: string, now: int) {
      rule in maxRepairs ==> |After(History(rule), now - HOUR)| < maxRepairs[rule]
    }

    function RecordRepair(rule: string, now: int, later: int): GuardState {
      this.(history := history[rule := After(History(rule), now - HOUR) + [later]])
    }

    function RecordActionExecution(action: string, now: int): GuardState {
      this.(lastExecution := lastExecution[action := now])
    }

    function SetMaxRepairsPerHour(rule: string, limit: int): GuardState {
      this.(maxRepairs := maxRepairs[rule := limit])
    }

    function SetCooldown(action: string, duration: int): GuardState {
      this.(cooldowns := cooldowns[action := duration])
    }

    function AllowAction(action: string): GuardState {
      this.(allowed := allowed + {action}, forbidden := forbidden - {action})
    }
  }

  const INITIAL: GuardState := GuardState(map[], map[], map[], map[], DEFAULT_ALLOWED, DEFAULT_FORBIDDEN)

  class Guardrails {
    var maxRepairs: map<string, int>
    var repairHistory: map<string, seq<int>>
    var cooldowns: map<string, int>
    var lastExecution: map<string, int>
    var allowedActions: set<string>
    var forbiddenActions: set<string>

    ghost function State(): GuardState
      reads this
    {
      GuardState(maxRepairs, repairHistory, cooldowns, lastExecution, allowedActions, forbiddenActions)
    }

    constructor ()
      ensures State() == INITIAL
    {
      maxRepairs, repairHistory, cooldowns, lastExecution := map[], map[], map[], map[];
      allowedActions, forbiddenActions := DEFAULT_ALLOWED, DEFAULT_FORBIDDEN;
    }

    method SetMaxRepairsPerHour(rule: string, limit: int)
      modifies this
      ensures State() == old(State()).SetMaxRepairsPerHour(rule, limit)
    {
      maxRepairs := maxRepairs[rule := limit];
    }

    method SetCooldown(action: string, duration: int)
      modifies this
      ensures State() == old(State()).SetCooldown(action, duration)
    {
      cooldowns := cooldowns[action := duration];
    }

    method AllowAction(name: string)
      modifies this
      ensures State() == old(State()).AllowAction(name)
    {
      allowedActions := allowedActions + {name};
      forbiddenActions := forbiddenActions - {name};
    }

    method CheckAction(actionName: string, now: int) returns (verdict: Verdict)
      ensures verdict == State().CheckAction(actionName, now)
    {
      if actionName in forbiddenActions {
        return Forbidden;
      }
      if allowedActions != {} && actionName !in allowedActions {
        return NotAllowed;
      }
      if actionName in cooldowns {
        var cooldown := cooldowns[actionName];
        if actionName in lastExecution {
          var last := lastExecution[actionName];
          if now - last < cooldown {
            return CoolingDown;
          }
        }
      }
      return Permitted;
    }

    method CheckRateLimit(rule: string, now: int) returns (ok: bool)
      modifies this
      ensures ok <==> old(State()).UnderLimit(rule, now)
      ensures State() == old(State()).Pruned(rule, now)
    {
      if rule !in maxRepairs {
        return true;
      }
      var limit := maxRepairs[rule];
      var history := if rule in repairHistory then repairHistory[rule] else [];
      var pruned := Prune(history, now - HOUR);
      repairHistory := repairHistory[rule := pruned];
      return |pruned| < limit;
    }

    /** The clock is read twice: once for the cutoff, once for the new entry. */
    method RecordRepair(rule: string, now: int, later: int)
      modifies this
      ensures State() == old(State()).RecordRepair(rule, now, later)
    {
      var history := if rule in repairHistory then repairHistory[rule] else [];
      var pruned := Prune(history, now - HOUR);
      pruned := pruned + [later];
      repairHistory := repairHistory[rule := pruned];
    }

    method RecordActionExecution(actionName: string, now: int)
      modifies this
      ensures State() == old(State()).RecordActionExecution(actionName, now)
    {
      lastExecution := lastExecution[actionName := now];
    }
  }

  method Prune(history: seq<int>, cutoff: int) returns (pruned: seq<int>)
    ensures pruned == After(history, cutoff)
  {
    pruned := [];
    for i := 0 to |history|
      invariant pruned == After(history[..i], cutoff)
    {
      assert history[..i + 1][..i] == history[..i];
      if cutoff < history[i] {
        pruned := pruned + [history[i]];
      }
    }
    assert history[..|history|] == history;
  }
}
