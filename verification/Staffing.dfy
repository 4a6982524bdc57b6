/**
 A live scheduler is fully staffed and keeps working: until the cancel no ticker and no worker returns, every one of
 them has its next step as soon as the channels allow it, and after Stop nothing is left.
 */
module Staffing {
  import opened Scheduler
  import opened SchedulerProofs
  import opened Tally
  import opened Wrappers

  // ---- what every run keeps ----

  /** Only a cancelled channel is closed, and queues stay within their channels. */
  ghost predicate ChannelsSound(cfg: Config, s: State) {
    && s.results <= cfg.capacity
    && forall g :: 0 <= g < |s.chans| ==>
         (s.chans[g].closed ==> s.chans[g].cancelled) && |s.chans[g].queue| <= cfg.checks
  }

  /** A ticker waits for its next tick only after a send, and returns only after the cancel. */
  ghost predicate TickerSound(s: State, t: Ticker) {
    && t.gen < |s.chans| && (t.phase == Sleeping ==> 1 <= t.sends)
    && (t.phase == Ended ==> s.chans[t.gen].cancelled)
  }

  ghost predicate TickersSound(s: State) {
    forall i :: 0 <= i < |s.tickers| ==> TickerSound(s, s.tickers[i])
  }

  /** A worker returns only after the cancel. */
  ghost predicate WorkersSound(s: State) {
    forall i :: 0 <= i < |s.workers| ==>
      s.workers[i].gen < |s.chans| && (s.workers[i].phase == Exited ==> s.chans[s.workers[i].gen].cancelled)
  }

  /**
   Without a channel in the scheduler's hands the newest one is closed, and when no call is in progress nothing is left.
   */
  ghost predicate StopSound(s: State) {
    && (s.jobs == None && s.chans != [] && !(s.control.StopTickers? && s.control.jobs.Some?) ==>
          s.chans[|s.chans| - 1].closed)
    && (s.jobs == None && s.control == Ready ==> TickersDone(s) && WorkersDone(s))
  }

  ghost predicate Kept(cfg: Config, s: State) {
    ChannelsSound(cfg, s) && TickersSound(s) && WorkersSound(s) && StopSound(s)
  }

  lemma OpenKeeps(cfg: Config, s: State, cancelled: bool)
    requires Kept(cfg, s) && s.control == Opening
    ensures Kept(cfg, Proceed(cfg, s, cancelled))
  {
  }

  lemma SpawnKeeps(cfg: Config, s: State, cancelled: bool)
    requires Sound(cfg, s) && Kept(cfg, s) && (s.control.SpawnWorkers? || s.control.SpawnTickers?)
    ensures Kept(cfg, Proceed(cfg, s, cancelled))
  {
  }

  lemma CloseKeeps(cfg: Config, s: State, cancelled: bool)
    requires Sound(cfg, s) && Kept(cfg, s) && s.control.StopTickers?
    ensures Kept(cfg, Proceed(cfg, s, cancelled))
  {
  }

  lemma ProceedKeeps(cfg: Config, s: State, cancelled: bool)
    requires Sound(cfg, s) && Kept(cfg, s) && Enabled(cfg, s, Advance(cancelled))
    ensures Kept(cfg, Proceed(cfg, s, cancelled))
  {
    match s.control
    case Opening => OpenKeeps(cfg, s, cancelled);
    case SpawnWorkers(_) => SpawnKeeps(cfg, s, cancelled);
    case SpawnTickers(_) => SpawnKeeps(cfg, s, cancelled);
    case StopTickers(_) => CloseKeeps(cfg, s, cancelled);
    case _ =>
  }

  lemma TickerKeeps(cfg: Config, s: State, i: nat, quit: bool)
    requires Kept(cfg, s) && Enabled(cfg, s, TickerGo(i, quit))
    ensures Kept(cfg, TickerStep(s, i, quit))
  {
  }

  lemma WorkerKeeps(cfg: Config, s: State, i: nat, quit: bool)
    requires Kept(cfg, s) && Enabled(cfg, s, WorkerGo(i, quit))
    ensures Kept(cfg, WorkerStep(s, i, quit))
  {
  }

  lemma CancelKeeps(cfg: Config, s: State, gen: Option<nat>)
    requires Kept(cfg, s)
    ensures Kept(cfg, Cancel(s, gen))
    ensures s.control == Ready ==>
              && Kept(cfg, Cancel(s, gen).(control := StartTickers))
              && Kept(cfg, Cancel(s, gen).(jobs := None, control := StopTickers(s.jobs)))
  {
  }

  lemma StepKeeps(cfg: Config, s: State, l: Label)
    requires Sound(cfg, s) && Kept(cfg, s)
    ensures Kept(cfg, Step(cfg, s, l))
  {
    if Enabled(cfg, s, l) {
      match l {
        case Advance(cancelled) => ProceedKeeps(cfg, s, cancelled);
        case TickerGo(i, quit) => TickerKeeps(cfg, s, i, quit);
        case WorkerGo(i, quit) => WorkerKeeps(cfg, s, i, quit);
        case ParentCancel(gen) => CancelKeeps(cfg, s, Some(gen));
        case BeginStart => CancelKeeps(cfg, s, s.cancel);
        case BeginStop => CancelKeeps(cfg, s, s.cancel);
        case Read =>
      }
    }
  }

  lemma {:induction false} KeptAlways(cfg: Config, labels: seq<Label>)
    ensures Kept(cfg, Exec(cfg, INITIAL, labels))
  {
    if labels != [] {
      var n := |labels| - 1;
      KeptAlways(cfg, labels[..n]);
      SchedulerSafe(cfg, labels[..n]);
      StepKeeps(cfg, Exec(cfg, INITIAL, labels[..n]), labels[n]);
    }
  }

  /**
   In every run a ticker or worker that has returned belongs to a cancelled Start; so long as a context is live its
   tickers go on and its workers stay.
   */
  lemma NobodyLeavesEarly(cfg: Config, labels: seq<Label>)
    ensures var s := Exec(cfg, INITIAL, labels);
            && (forall i :: 0 <= i < |s.tickers| && s.tickers[i].phase == Ended ==>
                  s.tickers[i].gen < |s.chans| && s.chans[s.tickers[i].gen].cancelled)
            && (forall i :: 0 <= i < |s.workers| && s.workers[i].phase == Exited ==>
                  s.workers[i].gen < |s.chans| && s.chans[s.workers[i].gen].cancelled)
  {
    KeptAlways(cfg, labels);
    var s := Exec(cfg, INITIAL, labels);
    assert forall i :: 0 <= i < |s.tickers| ==> TickerSound(s, s.tickers[i]);
  }

  /** Every ticker that waits for a tick has sent a job: the first one goes out without waiting. */
  lemma FirstJobAtOnce(cfg: Config, labels: seq<Label>, i: nat)
    requires i < |Exec(cfg, INITIAL, labels).tickers| && Exec(cfg, INITIAL, labels).tickers[i].phase == Sleeping
    ensures 1 <= Exec(cfg, INITIAL, labels).tickers[i].sends
  {
    KeptAlways(cfg, labels);
    assert TickerSound(Exec(cfg, INITIAL, labels), Exec(cfg, INITIAL, labels).tickers[i]);
  }

  /**
   After a Stop nothing is left: all tickers and workers have returned, and the channel it took is cancelled and closed.
   */
  lemma StopLeavesNothing(cfg: Config, labels: seq<Label>)
    requires Exec(cfg, INITIAL, labels).control == Ready && Exec(cfg, INITIAL, labels).jobs == None
    ensures var s := Exec(cfg, INITIAL, labels);
            && TickersDone(s) && WorkersDone(s)
            && (s.chans != [] ==> s.chans[|s.chans| - 1].closed && s.chans[|s.chans| - 1].cancelled)
  {
    KeptAlways(cfg, labels);
  }

  // ---- a live context ----

  /** A ticker of a live context can always go on, but to send it needs room in the jobs channel. */
  lemma LiveTicker(cfg: Config, s: State, i: nat, quit: bool)
    requires Kept(cfg, s) && i < |s.tickers| && !s.chans[s.tickers[i].gen].cancelled
    ensures s.tickers[i].phase != Ended
    ensures Enabled(cfg, s, TickerGo(i, quit)) <==>
            !quit && (s.tickers[i].phase == Sending ==> |s.chans[s.tickers[i].gen].queue| < cfg.checks)
  {
    assert TickerSound(s, s.tickers[i]);
  }

  /** A tick makes it send once more: its job goes to the end of the queue, and it waits for the next tick. */
  lemma TickSends(cfg: Config, s: State, i: nat)
    requires Kept(cfg, s) && i < |s.tickers| && s.tickers[i].phase == Sleeping
    requires !s.chans[s.tickers[i].gen].cancelled && |s.chans[s.tickers[i].gen].queue| < cfg.checks
    ensures var t, ticker := Step(cfg, Step(cfg, s, TickerGo(i, false)), TickerGo(i, false)), s.tickers[i];
            && |t.tickers| == |s.tickers| && |t.chans| == |s.chans|
            && t.tickers[i] == ticker.(sends := ticker.sends + 1)
            && t.chans[ticker.gen].queue == s.chans[ticker.gen].queue + [ticker.check]
  {
    LiveTicker(cfg, s, i, false);
    var u := Step(cfg, s, TickerGo(i, false));
    assert u == s.(tickers := s.tickers[i := s.tickers[i].(phase := Sending)]);
    assert !u.chans[u.tickers[i].gen].closed;
    assert Enabled(cfg, u, TickerGo(i, false));
  }

  /**
   A worker of a live context can go on unless it waits for a job and there is none, or for a reader and there is no
   room.
   */
  lemma LiveWorker(cfg: Config, s: State, i: nat, quit: bool)
    requires Kept(cfg, s) && i < |s.workers| && !s.chans[s.workers[i].gen].cancelled
    ensures s.workers[i].phase != Exited
    ensures Enabled(cfg, s, WorkerGo(i, quit)) <==>
            && !quit
            && (s.workers[i].phase == Idle ==> s.chans[s.workers[i].gen].queue != [])
            && (s.workers[i].phase.Delivering? ==> s.results < cfg.capacity)
  {
  }

  /** With room for its result, an idle worker runs the first job of the queue, delivers it, and is idle again. */
  lemma JobIsDelivered(cfg: Config, s: State, i: nat)
    requires Kept(cfg, s) && i < |s.workers| && s.workers[i].phase == Idle && s.results < cfg.capacity
    requires !s.chans[s.workers[i].gen].cancelled && s.chans[s.workers[i].gen].queue != []
    ensures var l, w := WorkerGo(i, false), s.workers[i];
            var t := Step(cfg, Step(cfg, Step(cfg, s, l), l), l);
            && t.workers == s.workers && t.results == s.results + 1 && |t.chans| == |s.chans|
            && t.chans[w.gen].queue == s.chans[w.gen].queue[1..]
            && t.chans[w.gen].delivered == s.chans[w.gen].delivered + [s.chans[w.gen].queue[0]]
  {
    var l, w := WorkerGo(i, false), s.workers[i];
    var job := s.chans[w.gen].queue[0];
    var u := Step(cfg, s, l);
    assert u.workers == s.workers[i := w.(phase := Checking(job))] && u.results == s.results;
    var v := Step(cfg, u, l);
    assert v.workers == s.workers[i := w.(phase := Delivering(job))] && v.chans == u.chans && v.results == s.results;
    assert Step(cfg, v, l).workers == s.workers[i := w];
  }

  // ---- results ----

  function Deliveries(): Channel -> nat {
    (ch: Channel) => |ch.delivered|
  }

  /** How many results the reader has taken in a run. */
  function Reads(cfg: Config, labels: seq<Label>): nat {
    if labels == [] then 0 else
    var n := |labels| - 1;
    Reads(cfg, labels[..n]) +
    if labels[n] == Read && 0 < Exec(cfg, INITIAL, labels[..n]).results then 1 else 0
  }

  lemma ReplacedDeliveries(s: State, gen: nat, ch: Channel)
    requires gen < |s.chans|
    ensures Sum(s.chans[gen := ch], Deliveries()) ==
            Sum(s.chans, Deliveries()) + |ch.delivered| - |s.chans[gen].delivered|
  {
    SumUpdate(s.chans, gen, ch, Deliveries());
  }

  lemma CancelDeliversNothing(s: State, gen: Option<nat>)
    ensures Sum(Cancel(s, gen).chans, Deliveries()) == Sum(s.chans, Deliveries())
  {
    if gen.Some? && gen.value < |s.chans| {
      ReplacedDeliveries(s, gen.value, s.chans[gen.value].(cancelled := true));
    }
  }

  lemma ProceedDeliversNothing(cfg: Config, s: State, cancelled: bool)
    ensures var t := Proceed(cfg, s, cancelled);
            t.results == s.results && Sum(t.chans, Deliveries()) == Sum(s.chans, Deliveries())
  {
    match s.control {
      case Opening => SumAppend(s.chans, Channel([], false, cancelled, [], []), Deliveries());
      case StopTickers(jobs) =>
        if jobs.Some? && jobs.value < |s.chans| {
          ReplacedDeliveries(s, jobs.value, s.chans[jobs.value].(closed := true));
        }
      case _ =>
    }
  }

  lemma TickerDeliversNothing(s: State, i: nat, quit: bool)
    requires i < |s.tickers| && s.tickers[i].gen < |s.chans|
    ensures var t := TickerStep(s, i, quit);
            t.results == s.results && Sum(t.chans, Deliveries()) == Sum(s.chans, Deliveries())
  {
    var ticker := s.tickers[i];
    var ch := s.chans[ticker.gen];
    ReplacedDeliveries(s, ticker.gen, ch.(queue := ch.queue + [ticker.check]));
  }

  lemma WorkerDelivers(s: State, i: nat, quit: bool)
    requires i < |s.workers| && s.workers[i].gen < |s.chans|
    ensures var t := WorkerStep(s, i, quit);
            t.results - s.results == Sum(t.chans, Deliveries()) - Sum(s.chans, Deliveries())
  {
    var w := s.workers[i];
    ReplacedDeliveries(s, w.gen, WorkerNext(s.chans[w.gen], w.phase, quit).1);
  }

  /** One step delivers as many jobs as it adds results, and a read takes one result. */
  lemma StepDelivers(cfg: Config, s: State, l: Label)
    ensures var t := Step(cfg, s, l);
            t.results - s.results + (if l == Read && 0 < s.results then 1 else 0) ==
            Sum(t.chans, Deliveries()) - Sum(s.chans, Deliveries())
  {
    if Enabled(cfg, s, l) {
      match l {
        case BeginStart => CancelDeliversNothing(s, s.cancel);
        case BeginStop => CancelDeliversNothing(s, s.cancel);
        case Advance(cancelled) => ProceedDeliversNothing(cfg, s, cancelled);
        case ParentCancel(gen) => CancelDeliversNothing(s, Some(gen));
        case TickerGo(i, quit) => TickerDeliversNothing(s, i, quit);
        case WorkerGo(i, quit) => WorkerDelivers(s, i, quit);
        case Read =>
      }
    }
  }

  /**
   No result is lost or made up: over all Starts, the jobs delivered are the results the reader took and those still in
   the channel, which never holds more than it has room for.
   */
  lemma {:induction false} ResultsConserved(cfg: Config, labels: seq<Label>)
    ensures var s := Exec(cfg, INITIAL, labels);
            Sum(s.chans, Deliveries()) == Reads(cfg, labels) + s.results && s.results <= cfg.capacity
  {
    KeptAlways(cfg, labels);
    if labels != [] {
      var n := |labels| - 1;
      ResultsConserved(cfg, labels[..n]);
      StepDelivers(cfg, Exec(cfg, INITIAL, labels[..n]), labels[n]);
    }
  }

  // ---- how many ----

  function OfGen(gen: nat): Worker -> nat {
    (w: Worker) => if w.gen == gen then 1 else 0
  }

  /** How many workers a Start has made so far. */
  function Hired(cfg: Config, s: State, gen: nat): int {
    if gen == |s.chans| - 1 && s.control.SpawnWorkers? then cfg.workers - s.control.left else cfg.workers
  }

  ghost predicate AllHired(cfg: Config, s: State) {
    forall g :: 0 <= g < |s.chans| ==> Sum(s.workers, OfGen(g)) == Hired(cfg, s, g)
  }

  lemma {:induction false} NobodyOf(workers: seq<Worker>, gen: nat)
    requires forall i :: 0 <= i < |workers| ==> workers[i].gen < gen
    ensures Sum(workers, OfGen(gen)) == 0
  {
    if workers != [] {
      NobodyOf(workers[..|workers| - 1], gen);
    }
  }

  lemma OpenHires(cfg: Config, s: State, cancelled: bool)
    requires LiveAreNewest(s) && AllHired(cfg, s) && s.control == Opening
    ensures AllHired(cfg, Proceed(cfg, s, cancelled))
  {
    var t := Proceed(cfg, s, cancelled);
    NobodyOf(s.workers, |s.chans|);
    forall g | 0 <= g < |t.chans|
      ensures Sum(t.workers, OfGen(g)) == Hired(cfg, t, g)
    {
      assert g < |s.chans| ==> Sum(s.workers, OfGen(g)) == Hired(cfg, s, g);
    }
  }

  lemma SpawnHires(cfg: Config, s: State, cancelled: bool)
    requires Sound(cfg, s) && AllHired(cfg, s) && s.control.SpawnWorkers?
    ensures AllHired(cfg, Proceed(cfg, s, cancelled))
  {
    var t := Proceed(cfg, s, cancelled);
    forall g | 0 <= g < |t.chans|
      ensures Sum(t.workers, OfGen(g)) == Hired(cfg, t, g)
    {
      assert Sum(s.workers, OfGen(g)) == Hired(cfg, s, g);
      SumAppend(s.workers, Worker(|s.chans| - 1, Idle), OfGen(g));
    }
  }

  lemma WorkerStays(cfg: Config, s: State, i: nat, quit: bool)
    requires AllHired(cfg, s) && Enabled(cfg, s, WorkerGo(i, quit))
    ensures AllHired(cfg, WorkerStep(s, i, quit))
  {
    var t := WorkerStep(s, i, quit);
    forall g | 0 <= g < |t.chans|
      ensures Sum(t.workers, OfGen(g)) == Hired(cfg, t, g)
    {
      assert Sum(s.workers, OfGen(g)) == Hired(cfg, s, g);
      SumUpdate(s.workers, i, t.workers[i], OfGen(g));
    }
  }

  lemma OthersHireNobody(cfg: Config, s: State, l: Label)
    requires AllHired(cfg, s) && !l.WorkerGo? && !(l.Advance? && (s.control == Opening || s.control.SpawnWorkers?))
    ensures AllHired(cfg, Step(cfg, s, l))
  {
    var t := Step(cfg, s, l);
    assert t.workers == s.workers && |t.chans| == |s.chans|;
    forall g | 0 <= g < |t.chans|
      ensures Sum(t.workers, OfGen(g)) == Hired(cfg, t, g)
    {
      assert Sum(s.workers, OfGen(g)) == Hired(cfg, s, g);
    }
  }

  /** Every Start that is past its first loop has made exactly the configured number of workers. */
  lemma {:induction false} HiredAlways(cfg: Config, labels: seq<Label>)
    ensures AllHired(cfg, Exec(cfg, INITIAL, labels))
  {
    if labels != [] {
      var n := |labels| - 1;
      var s, l := Exec(cfg, INITIAL, labels[..n]), labels[n];
      HiredAlways(cfg, labels[..n]);
      SchedulerSafe(cfg, labels[..n]);
      if !Enabled(cfg, s, l) {
      } else if l.Advance? && s.control == Opening {
        OpenHires(cfg, s, l.cancelled);
      } else if l.Advance? && s.control.SpawnWorkers? {
        SpawnHires(cfg, s, l.cancelled);
      } else if l.WorkerGo? {
        WorkerStays(cfg, s, l.i, l.quit);
      } else {
        OthersHireNobody(cfg, s, l);
      }
    }
  }

  /** In a live context all the newest workers are at work. */
  lemma AllAtWork(cfg: Config, s: State)
    requires Kept(cfg, s) && AllHired(cfg, s) && s.control == Ready
    requires s.chans != [] && !s.chans[|s.chans| - 1].cancelled
    ensures cfg.workers <= Sum(s.workers, Working)
  {
    var newest := |s.chans| - 1;
    forall w | w in s.workers
      ensures OfGen(newest)(w) <= Working(w)
    {
      var i :| 0 <= i < |s.workers| && s.workers[i] == w;
    }
    SumBounds(s.workers, OfGen(newest), Working);
    assert Sum(s.workers, OfGen(newest)) == Hired(cfg, s, newest);
  }

  lemma NewestTickersGoOn(cfg: Config, s: State)
    requires Kept(cfg, s) && s.chans != [] && !s.chans[|s.chans| - 1].cancelled
    ensures forall i :: 0 <= i < |s.tickers| && s.tickers[i].gen == |s.chans| - 1 ==> s.tickers[i].phase != Ended
  {
    assert forall i :: 0 <= i < |s.tickers| ==> TickerSound(s, s.tickers[i]);
  }

  /**
   A started scheduler whose context is live has exactly the configured workers at work, and for each check one live
   ticker.
   */
  lemma FullyStaffed(cfg: Config, labels: seq<Label>, check: nat)
    requires var s := Exec(cfg, INITIAL, labels);
             s.control == Ready && s.chans != [] && !s.chans[|s.chans| - 1].cancelled
    ensures var s := Exec(cfg, INITIAL, labels);
            && Sum(s.workers, Working) == cfg.workers
            && TickersOf(s, |s.chans| - 1, check) == (if check < cfg.checks then 1 else 0)
            && forall i :: 0 <= i < |s.tickers| && s.tickers[i].gen == |s.chans| - 1 ==> s.tickers[i].phase != Ended
  {
    var s := Exec(cfg, INITIAL, labels);
    var newest := |s.chans| - 1;
    KeptAlways(cfg, labels);
    SchedulerSafe(cfg, labels);
    HiredAlways(cfg, labels);
    AllAtWork(cfg, s);
    NewestTickersGoOn(cfg, s);
    OneTickerPerCheck(cfg, labels, check);
    assert TickersOf(s, newest, check) == if check < Launched(cfg, s, newest) then 1 else 0;
  }
}
