/**
 The check scheduler as a transition system: the caller running Start or Stop, the ticker
 goroutines that send jobs, and the worker goroutines that run them and deliver results.
 Every channel operation, wait and select is one step; the goroutines interleave freely.

 Start and Stop calls do not overlap: `control` is the single caller's program counter and a
 call begins only in `Ready`. A send on a closed channel and a second close panic.
 */
module Scheduler {
  import opened Wrappers

  /** The number of scheduled checks, of configured workers, and of slots in the results channel. */
  datatype Config = Config(checks: nat, workers: nat, capacity: nat)

  /**
   The jobs channel of one Start, with that Start's context. A job is the index of its check. `delivered` and `lost`
   are history variables: the jobs delivered as results, and those dropped by a cancelled worker.
   */
  datatype Channel = Channel(
    queue: seq<nat>, closed: bool, cancelled: bool, delivered: seq<nat>, lost: seq<nat>)

  /** A ticker is about to send its job, waits for the next tick, or has returned. */
  datatype TickerPhase = Sending | Sleeping | Ended

  /** `sends` is a history variable: how many jobs the ticker has sent. */
  datatype Ticker = Ticker(gen: nat, check: nat, phase: TickerPhase, sends: nat)

  /** A worker waits for a job, runs a check, delivers its result, or has returned. */
  datatype WorkerPhase = Idle | Checking(check: nat) | Delivering(check: nat) | Exited

  datatype Worker = Worker(gen: nat, phase: WorkerPhase)

  datatype Control =
    | Ready
    | StartTickers            // Start waits for the previous tickers
    | StartWorkers            // Start waits for the previous workers
    | Opening                 // Start is about to make the context and the channel
    | SpawnWorkers(left: nat)
    | SpawnTickers(next: nat)
    | StopTickers(jobs: Option<nat>)  // Stop waits for the tickers, holding the channel it took
    | StopWorkers             // Stop waits for the workers

  /** Channels are numbered by the Start that made them; `jobs` and `cancel` are the scheduler's fields. */
  datatype State = State(
    chans: seq<Channel>, tickers: seq<Ticker>, workers: seq<Worker>,
    jobs: Option<nat>, cancel: Option<nat>, results: nat, control: Control, panicked: bool)

  const INITIAL: State := State([], [], [], None, None, 0, Ready, false)

  /** `quit` picks the ctx.Done branch of a select; for a sleeping ticker, not quitting is the tick. */
  datatype Label =
    | BeginStart
    | BeginStop
    | Advance(cancelled: bool)
    | ParentCancel(gen: nat)
    | TickerGo(i: nat, quit: bool)
    | WorkerGo(i: nat, quit: bool)
    | Read

  predicate TickersDone(s: State) {
    forall i :: 0 <= i < |s.tickers| ==> s.tickers[i].phase == Ended
  }

  predicate WorkersDone(s: State) {
    forall i :: 0 <= i < |s.workers| ==> s.workers[i].phase == Exited
  }

  predicate TickerEnabled(cfg: Config, ch: Channel, phase: TickerPhase, quit: bool) {
    match phase
    case Sending => if quit then ch.cancelled else ch.closed || |ch.queue| < cfg.checks
    case Sleeping => quit ==> ch.cancelled
    case Ended => false
  }

  predicate WorkerEnabled(cfg: Config, results: nat, ch: Channel, phase: WorkerPhase, quit: bool) {
    match phase
    case Idle => if quit then ch.cancelled else ch.queue != [] || ch.closed
    case Checking(_) => !quit
    case Delivering(_) => if quit then ch.cancelled else results < cfg.capacity
    case Exited => false
  }

  predicate Enabled(cfg: Config, s: State, l: Label) {
    match l
    case BeginStart => s.control == Ready
    case BeginStop => s.control == Ready
    case Advance(_) =>
      (match s.control
       case Ready => false
       case StartTickers => TickersDone(s)
       case StartWorkers => WorkersDone(s)
       case StopTickers(_) => TickersDone(s)
       case StopWorkers => WorkersDone(s)
       case _ => true)
    case ParentCancel(gen) => gen < |s.chans|
    case TickerGo(i, quit) =>
      && i < |s.tickers| && s.tickers[i].gen < |s.chans|
      && TickerEnabled(cfg, s.chans[s.tickers[i].gen], s.tickers[i].phase, quit)
    case WorkerGo(i, quit) =>
      && i < |s.workers| && s.workers[i].gen < |s.chans|
      && WorkerEnabled(cfg, s.results, s.chans[s.workers[i].gen], s.workers[i].phase, quit)
    case Read => 0 < s.results
  }

  function Cancel(s: State, gen: Option<nat>): State {
    if gen.Some? && gen.value < |s.chans| then
      s.(chans := s.chans[gen.value := s.chans[gen.value].(cancelled := true)])
    else s
  }

  function Apply(cfg: Config, s: State, l: Label): State
    requires Enabled(cfg, s, l)
  {
    match l
    case BeginStart =>
      if s.cancel == None then s.(control := Opening) else Cancel(s, s.cancel).(control := StartTickers)
    case BeginStop => Cancel(s, s.cancel).(jobs := None, control := StopTickers(s.jobs))
    case Advance(cancelled) => Proceed(cfg, s, cancelled)
    case ParentCancel(gen) => Cancel(s, Some(gen))
    case TickerGo(i, quit) => TickerStep(s, i, quit)
    case WorkerGo(i, quit) => WorkerStep(s, i, quit)
    case Read => s.(results := s.results - 1)
  }

  /** The next step of the Start or Stop in progress. The parent context of a Start may already be `cancelled`. */
  function Proceed(cfg: Config, s: State, cancelled: bool): State {
    var last := |s.chans| - 1;
    match s.control
    case Ready => s
    case StartTickers => s.(control := StartWorkers)
    case StartWorkers => s.(control := Opening)
    case Opening =>
      s.(chans := s.chans + [Channel([], false, cancelled, [], [])],
         cancel := Some(|s.chans|), jobs := Some(|s.chans|), control := SpawnWorkers(cfg.workers))
    case SpawnWorkers(left) =>
      if left == 0 || last < 0 then s.(control := SpawnTickers(0))
      else s.(workers := s.workers + [Worker(last, Idle)], control := SpawnWorkers(left - 1))
    case SpawnTickers(next) =>
      if cfg.checks <= next || last < 0 then s.(control := Ready)
      else s.(tickers := s.tickers + [Ticker(last, next, Sending, 0)], control := SpawnTickers(next + 1))
    case StopTickers(jobs) =>
      if jobs.Some? && jobs.value < |s.chans| then
        var ch := s.chans[jobs.value];
        s.(chans := s.chans[jobs.value := ch.(closed := true)], panicked := s.panicked || ch.closed,
           control := StopWorkers)
      else s.(control := StopWorkers)
    case StopWorkers => s.(control := Ready)
  }

  function TickerStep(s: State, i: nat, quit: bool): State
    requires i < |s.tickers| && s.tickers[i].gen < |s.chans|
  {
    var t := s.tickers[i];
    var ch := s.chans[t.gen];
    if quit then s.(tickers := s.tickers[i := t.(phase := Ended)])
    else if t.phase == Sleeping then s.(tickers := s.tickers[i := t.(phase := Sending)])
    else if ch.closed then s.(panicked := true)
    else s.(tickers := s.tickers[i := t.(phase := Sleeping, sends := t.sends + 1)],
            chans := s.chans[t.gen := ch.(queue := ch.queue + [t.check])])
  }

  function WorkerNext(ch: Channel, phase: WorkerPhase, quit: bool): (WorkerPhase, Channel) {
    match phase
    case Idle =>
      if quit || ch.queue == [] then (Exited, ch) else (Checking(ch.queue[0]), ch.(queue := ch.queue[1..]))
    case Checking(check) => (Delivering(check), ch)
    case Delivering(check) =>
      if quit then (Exited, ch.(lost := ch.lost + [check])) else (Idle, ch.(delivered := ch.delivered + [check]))
    case Exited => (Exited, ch)
  }

  function WorkerStep(s: State, i: nat, quit: bool): State
    requires i < |s.workers| && s.workers[i].gen < |s.chans|
  {
    var w := s.workers[i];
    var (phase, after) := WorkerNext(s.chans[w.gen], w.phase, quit);
    s.(workers := s.workers[i := w.(phase := phase)], chans := s.chans[w.gen := after],
       results := s.results + if w.phase.Delivering? && !quit then 1 else 0)
  }

  /** A label that is not enabled changes nothing, so every sequence of labels is a run. */
  function Step(cfg: Config, s: State, l: Label): State {
    if Enabled(cfg, s, l) then Apply(cfg, s, l) else s
  }

  function Exec(cfg: Config, s: State, labels: seq<Label>): State {
    if labels == [] then s else
    Step(cfg, Exec(cfg, s, labels[..|labels| - 1]), labels[|labels| - 1])
  }
}
