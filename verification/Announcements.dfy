/**
 What changes in the protocol is announced: the event of a result or of a goroutine's status change is the next thing
 its loop or goroutine offers to the channel, which takes it whenever there is room.
 */
module Announcements {
  import opened Incidents
  import opened RepairInvariants
  import opened RepairProtocol
  import FailedSaves
  import IncidentHistory

  /** The queue after an offered event: longer by it, unless the channel is full. */
  function Offered(cfg: Config, queue: seq<Event>, e: Event): seq<Event> {
    queue + if |queue| < cfg.capacity then [e] else []
  }

  /** The kind of event that tells of a status the engine sets. */
  function KindOf(status: Status): EventType {
    match status
    case Repairing => RepairingEvent
    case Failed => FailedEvent
    case _ => UpdatedEvent
  }

  /** Active incidents stay filed and unresolved in every run, whatever saves fail. */
  lemma {:induction false} FiledAlways(cfg: Config, s: State, labels: seq<Label>)
    requires Initial(cfg, s) && IncidentHistory.Filed(s.mgr)
    ensures IncidentHistory.Filed(Exec(cfg, s, labels).mgr)
  {
    if labels != [] {
      var n := |labels| - 1;
      FiledAlways(cfg, s, labels[..n]);
      FiledStep(cfg, Exec(cfg, s, labels[..n]), labels[n]);
    }
  }

  lemma FiledStep(cfg: Config, s: State, l: Label)
    requires IncidentHistory.Filed(s.mgr)
    ensures IncidentHistory.Filed(Step(cfg, s, l).mgr)
  {
    if Enabled(cfg, s, l) {
      match l {
        case Result(result, ok) => IncidentHistory.ResultAnnounces(s.mgr, result, s.clock, ok);
        case Go(i, yes, ok) => FiledMove(cfg, s, i, yes, ok);
        case Restart(_, listed) => LoadedFiled(listed);
        case _ =>
      }
    }
  }

  lemma FiledMove(cfg: Config, s: State, i: nat, yes: bool, ok: bool)
    requires i < |s.procs| && IncidentHistory.Filed(s.mgr)
    ensures IncidentHistory.Filed(Step(cfg, s, Go(i, yes, ok)).mgr)
  {
    ChooseMark(cfg, s, s.procs[i], yes, ok);
    MoveSetsStatus(cfg, s, i, yes, ok);
  }

  lemma LoadedFiled(listed: seq<Record>)
    ensures forall c :: c in Load(map[], listed) ==>
              Load(map[], listed)[c].checkName == c && Load(map[], listed)[c].status != Resolved
  {
    forall c | c in Load(map[], listed)
      ensures Load(map[], listed)[c].checkName == c && Load(map[], listed)[c].status != Resolved
    {
      FailedSaves.LoadedAreListed(listed, c);
    }
  }

  /** A result that changes an incident leaves one event pending, which the loop offers before the next result. */
  lemma ResultIsOffered(cfg: Config, s: State, result: CheckResult, ok: bool, next: CheckResult)
    requires s.out == [] && IncidentHistory.Filed(s.mgr)
    ensures var t, input := Step(cfg, s, Result(result, ok)), IncidentHistory.Result(result, s.clock, ok);
            if !IncidentHistory.Changes(s.mgr, input) then t == s
            else
              var u := Step(cfg, t, ManagerEmit);
              && |t.out| == 1 && IncidentHistory.Announces(s.mgr, t.mgr, input, t.out[0])
              && !Enabled(cfg, t, Result(next, ok))
              && u.out == [] && u.mgr == t.mgr && u.queue == Offered(cfg, s.queue, t.out[0])
  {
    IncidentHistory.AnnouncesChange(s.mgr, IncidentHistory.Result(result, s.clock, ok));
    assert s.queue + [] == s.queue;
  }

  /** A goroutine that sets the status of its check's incident has exactly the event of that change pending. */
  lemma MarkIsPending(cfg: Config, s: State, p: Proc, yes: bool, ok: bool)
    requires StatusSet(cfg, p).Some?
    ensures var (q, effect) := Choose(cfg, s, p, yes, ok);
            var check, status := p.snap.checkName, StatusSet(cfg, p).value;
            && (q.Announcing? || q.Concluding?)
            && q.out == if check in s.mgr.active
                        then [Event(Marked(s.mgr, check, check, status, s.clock), KindOf(status))]
                        else []
  {
  }

  /** A pending event is offered by the goroutine's next move, and it goes on only when none is left. */
  lemma PendingIsOffered(cfg: Config, s: State, i: nat, yes: bool, ok: bool)
    requires i < |s.procs| && (s.procs[i].Announcing? || s.procs[i].Concluding?)
    ensures var p, t := s.procs[i], Step(cfg, s, Go(i, yes, ok));
            && t.mgr == s.mgr && |t.procs| == |s.procs|
            && if p.out == [] then t.queue == s.queue
               else t.queue == Offered(cfg, s.queue, p.out[0]) && t.procs[i] == p.(out := p.out[1..])
  {
    assert s.queue + [] == s.queue;
  }

  /**
   So when nothing comes in between, the second move of a goroutine that sets a status offers the incident with that
   status to the channel.
   */
  lemma MarkIsOffered(cfg: Config, s: State, i: nat, yes: bool, ok: bool)
    requires i < |s.procs| && StatusSet(cfg, s.procs[i]).Some? && s.mgr.KeysMatch()
    ensures var check, status := s.procs[i].snap.checkName, StatusSet(cfg, s.procs[i]).value;
            var t := Step(cfg, s, Go(i, yes, ok));
            var u := Step(cfg, t, Go(i, yes, ok));
            if check !in s.mgr.active then u.queue == s.queue
            else
              && check in t.mgr.active && t.mgr.active[check].status == status
              && u.queue == Offered(cfg, s.queue, Event(t.mgr.active[check], KindOf(status)))
  {
    var p, t := s.procs[i], Step(cfg, s, Go(i, yes, ok));
    MarkIsPending(cfg, s, p, yes, ok);
    MoveSetsStatus(cfg, s, i, yes, ok);
    ChooseMark(cfg, s, p, yes, ok);
    assert t.queue == s.queue;
    PendingIsOffered(cfg, t, i, yes, ok);
  }
}
