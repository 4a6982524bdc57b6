/**
 What every run of the scheduler keeps: no panic, no more workers than configured, every job
 accounted for; and why a cancelled scheduler can always finish.
 */
module SchedulerProofs {
  import opened Scheduler
  import opened Tally
  import opened Wrappers

  // ---- lifecycle ----

  function Working(w: Worker): nat {
    if w.phase == Exited then 0 else 1
  }

  /** Live goroutines belong to the newest channel, which is open as long as a ticker lives. */
  ghost predicate LiveAreNewest(s: State) {
    && (forall i :: 0 <= i < |s.tickers| ==>
          && s.tickers[i].gen < |s.chans|
          && (s.tickers[i].phase != Ended ==> s.tickers[i].gen == |s.chans| - 1 && !s.chans[s.tickers[i].gen].closed))
    && (forall i :: 0 <= i < |s.workers| ==>
          && s.workers[i].gen < |s.chans|
          && (s.workers[i].phase != Exited ==> s.workers[i].gen == |s.chans| - 1))
  }

  /**
   The scheduler's fields refer to the newest channel; a channel in `jobs`, or taken from it by Stop, is not closed.
   */
  ghost predicate FieldsSound(s: State) {
    && (s.cancel == if s.chans == [] then None else Some(|s.chans| - 1))
    && (s.jobs.Some? ==> s.jobs.value == |s.chans| - 1 && 0 <= |s.chans| - 1 && !s.chans[s.jobs.value].closed)
    && !s.panicked
  }

  /** What holds at each point of a Start or Stop call. */
  ghost predicate ControlSound(cfg: Config, s: State) {
    var newest := |s.chans| - 1;
    match s.control
    case Ready => true
    case StartTickers => 0 <= newest && s.chans[newest].cancelled
    case StartWorkers => 0 <= newest && s.chans[newest].cancelled && TickersDone(s)
    case Opening => TickersDone(s) && WorkersDone(s)
    case SpawnWorkers(left) =>
      s.jobs == Some(newest) && left <= cfg.workers && Sum(s.workers, Working) + left <= cfg.workers
    case SpawnTickers(_) => s.jobs == Some(newest)
    case StopTickers(jobs) =>
      && s.jobs == None
      && (0 <= newest ==> s.chans[newest].cancelled)
      && (jobs.Some? ==> jobs.value == newest && 0 <= newest && !s.chans[newest].closed)
    case StopWorkers => s.jobs == None && TickersDone(s) && (0 <= newest ==> s.chans[newest].cancelled)
  }

  ghost predicate Sound(cfg: Config, s: State) {
    LiveAreNewest(s) && FieldsSound(s) && ControlSound(cfg, s) && Sum(s.workers, Working) <= cfg.workers
  }

  lemma {:induction false} NoneWorking(workers: seq<Worker>)
    requires forall i :: 0 <= i < |workers| ==> workers[i].phase == Exited
    ensures Sum(workers, Working) == 0
  {
    if workers != [] {
      NoneWorking(workers[..|workers| - 1]);
    }
  }

  lemma OpenSound(cfg: Config, s: State, cancelled: bool)
    requires Sound(cfg, s) && s.control == Opening
    ensures Sound(cfg, Proceed(cfg, s, cancelled))
  {
    NoneWorking(s.workers);
  }

  lemma OneMoreWorking(cfg: Config, s: State, cancelled: bool)
    requires s.control.SpawnWorkers? && ControlSound(cfg, s) && Sum(s.workers, Working) <= cfg.workers
    ensures var t := Proceed(cfg, s, cancelled); ControlSound(cfg, t) && Sum(t.workers, Working) <= cfg.workers
  {
    SumAppend(s.workers, Worker(|s.chans| - 1, Idle), Working);
  }

  lemma NewestStaysLive(cfg: Config, s: State, cancelled: bool)
    requires s.control.SpawnWorkers? && LiveAreNewest(s)
    ensures LiveAreNewest(Proceed(cfg, s, cancelled))
  {
  }

  lemma WorkerSpawned(cfg: Config, s: State, cancelled: bool)
    requires Sound(cfg, s) && s.control.SpawnWorkers?
    ensures Sound(cfg, Proceed(cfg, s, cancelled))
  {
    OneMoreWorking(cfg, s, cancelled);
    NewestStaysLive(cfg, s, cancelled);
    assert FieldsSound(Proceed(cfg, s, cancelled));
  }

  lemma TickerSpawned(cfg: Config, s: State, cancelled: bool)
    requires Sound(cfg, s) && s.control.SpawnTickers?
    ensures Sound(cfg, Proceed(cfg, s, cancelled))
  {
  }

  lemma CloseSound(cfg: Config, s: State, cancelled: bool)
    requires Sound(cfg, s) && s.control.StopTickers? && TickersDone(s)
    ensures Sound(cfg, Proceed(cfg, s, cancelled))
  {
  }

  lemma ProceedSound(cfg: Config, s: State, cancelled: bool)
    requires Sound(cfg, s) && Enabled(cfg, s, Advance(cancelled))
    ensures Sound(cfg, Proceed(cfg, s, cancelled))
  {
    match s.control
    case Opening => OpenSound(cfg, s, cancelled);
    case SpawnWorkers(_) => WorkerSpawned(cfg, s, cancelled);
    case SpawnTickers(_) => TickerSpawned(cfg, s, cancelled);
    case StopTickers(_) => CloseSound(cfg, s, cancelled);
    case _ =>
  }

  lemma TickerSound(cfg: Config, s: State, i: nat, quit: bool)
    requires Sound(cfg, s) && Enabled(cfg, s, TickerGo(i, quit))
    ensures Sound(cfg, TickerStep(s, i, quit))
  {
  }

  lemma WorkerSound(cfg: Config, s: State, i: nat, quit: bool)
    requires Sound(cfg, s) && Enabled(cfg, s, WorkerGo(i, quit))
    ensures Sound(cfg, WorkerStep(s, i, quit))
  {
    var t := WorkerStep(s, i, quit);
    SumUpdate(s.workers, i, t.workers[i], Working);
  }

  lemma CancelSound(cfg: Config, s: State, gen: Option<nat>)
    requires Sound(cfg, s)
    ensures Sound(cfg, Cancel(s, gen))
    ensures s.control == Ready && gen == s.cancel ==>
              && (s.cancel.Some? ==> Sound(cfg, Cancel(s, gen).(control := StartTickers)))
              && Sound(cfg, Cancel(s, gen).(jobs := None, control := StopTickers(s.jobs)))
  {
  }

  lemma StepSound(cfg: Config, s: State, l: Label)
    requires Sound(cfg, s)
    ensures Sound(cfg, Step(cfg, s, l))
  {
    if Enabled(cfg, s, l) {
      match l {
        case Advance(cancelled) => ProceedSound(cfg, s, cancelled);
        case TickerGo(i, quit) => TickerSound(cfg, s, i, quit);
        case WorkerGo(i, quit) => WorkerSound(cfg, s, i, quit);
        case ParentCancel(gen) => CancelSound(cfg, s, Some(gen));
        case BeginStart => CancelSound(cfg, s, s.cancel);
        case BeginStop => CancelSound(cfg, s, s.cancel);
        case Read =>
      }
    }
  }

  /**
   In every run no ticker sends on a closed channel and no channel is closed twice (either would panic), and no more
   workers than configured are ever alive, however often Start and Stop are called one after the other.
   */
  lemma {:induction false} SchedulerSafe(cfg: Config, labels: seq<Label>)
    ensures Sound(cfg, Exec(cfg, INITIAL, labels))
    ensures !Exec(cfg, INITIAL, labels).panicked && Sum(Exec(cfg, INITIAL, labels).workers, Working) <= cfg.workers
  {
    if labels != [] {
      SchedulerSafe(cfg, labels[..|labels| - 1]);
      StepSound(cfg, Exec(cfg, INITIAL, labels[..|labels| - 1]), labels[|labels| - 1]);
    }
  }

  // ---- every job is accounted for ----

  function Is(check: nat): nat -> nat {
    (job: nat) => if job == check then 1 else 0
  }

  /** How often the check occurs among the jobs. */
  function Count(jobs: seq<nat>, check: nat): nat {
    Sum(jobs, Is(check))
  }

  /** Whether a worker has received a job of the check and neither delivered nor dropped it. */
  function Holding(phase: WorkerPhase, check: nat): nat {
    if (phase.Checking? || phase.Delivering?) && phase.check == check then 1 else 0
  }

  function HoldingFor(gen: nat, check: nat): Worker -> nat {
    (w: Worker) => if w.gen == gen then Holding(w.phase, check) else 0
  }

  /** How many workers of a Start hold a job of the check. */
  function Held(s: State, gen: nat, check: nat): nat {
    Sum(s.workers, HoldingFor(gen, check))
  }

  function SentBy(gen: nat, check: nat): Ticker -> nat {
    (t: Ticker) => if t.gen == gen && t.check == check then t.sends else 0
  }

  /** How many jobs the tickers of the check have sent since a Start. */
  function Sent(s: State, gen: nat, check: nat): nat {
    Sum(s.tickers, SentBy(gen, check))
  }

  /** All jobs of the check sent are queued, held, delivered or lost, and none is lost before the cancel. */
  ghost predicate Balanced(ch: Channel, sent: nat, held: nat, check: nat) {
    && sent == Count(ch.queue, check) + held + Count(ch.delivered, check) + Count(ch.lost, check)
    && (!ch.cancelled ==> ch.lost == [])
  }

  ghost predicate AllBalanced(s: State, check: nat) {
    forall g :: 0 <= g < |s.chans| ==> Balanced(s.chans[g], Sent(s, g, check), Held(s, g, check), check)
  }

  lemma ReceiveBalanced(ch: Channel, sent: nat, others: nat, check: nat)
    requires Balanced(ch, sent, others, check) && ch.queue != []
    ensures Balanced(ch.(queue := ch.queue[1..]), sent, others + Is(check)(ch.queue[0]), check)
  {
    SumTail(ch.queue, Is(check));
  }

  lemma DeliverBalanced(ch: Channel, sent: nat, others: nat, job: nat, check: nat)
    requires Balanced(ch, sent, others + Is(check)(job), check)
    ensures Balanced(ch.(delivered := ch.delivered + [job]), sent, others, check)
    ensures ch.cancelled ==> Balanced(ch.(lost := ch.lost + [job]), sent, others, check)
  {
    SumAppend(ch.lost, job, Is(check));
    SumAppend(ch.delivered, job, Is(check));
  }

  lemma IdleNextBalanced(ch: Channel, quit: bool, sent: nat, others: nat, check: nat)
    requires Balanced(ch, sent, others, check)
    ensures var (next, after) := WorkerNext(ch, Idle, quit); Balanced(after, sent, others + Holding(next, check), check)
  {
    if !quit && ch.queue != [] {
      ReceiveBalanced(ch, sent, others, check);
      assert Holding(Checking(ch.queue[0]), check) == Is(check)(ch.queue[0]);
    }
  }

  lemma DeliveringNextBalanced(ch: Channel, job: nat, quit: bool, sent: nat, others: nat, check: nat)
    requires Balanced(ch, sent, others + Holding(Delivering(job), check), check) && (quit ==> ch.cancelled)
    ensures var (next, after) := WorkerNext(ch, Delivering(job), quit);
            Balanced(after, sent, others + Holding(next, check), check)
  {
    assert Holding(Delivering(job), check) == Is(check)(job);
    DeliverBalanced(ch, sent, others, job, check);
  }

  lemma WorkerNextBalanced(cfg: Config, results: nat, ch: Channel, phase: WorkerPhase, quit: bool, sent: nat,
                           others: nat, check: nat)
    requires WorkerEnabled(cfg, results, ch, phase, quit) && Balanced(ch, sent, others + Holding(phase, check), check)
    ensures var (next, after) := WorkerNext(ch, phase, quit);
            Balanced(after, sent, others + Holding(next, check), check)
  {
    match phase {
      case Idle => IdleNextBalanced(ch, quit, sent, others, check);
      case Checking(job) => assert WorkerNext(ch, phase, quit) == (Delivering(job), ch);
      case Delivering(job) => DeliveringNextBalanced(ch, job, quit, sent, others, check);
      case Exited =>
    }
  }

  lemma WorkerBalanced(cfg: Config, s: State, i: nat, quit: bool, check: nat)
    requires AllBalanced(s, check) && Enabled(cfg, s, WorkerGo(i, quit))
    ensures AllBalanced(WorkerStep(s, i, quit), check)
  {
    var w, t := s.workers[i], WorkerStep(s, i, quit);
    forall g | 0 <= g < |t.chans|
      ensures Balanced(t.chans[g], Sent(t, g, check), Held(t, g, check), check)
    {
      assert Balanced(s.chans[g], Sent(s, g, check), Held(s, g, check), check);
      SumUpdate(s.workers, i, t.workers[i], HoldingFor(g, check));
      if g == w.gen {
        SumPositive(s.workers, i, HoldingFor(g, check));
        WorkerNextBalanced(cfg, s.results, s.chans[g], w.phase, quit, Sent(s, g, check),
                           Held(s, g, check) - Holding(w.phase, check), check);
      }
    }
  }

  lemma {:induction false} NoneHeld(workers: seq<Worker>, gen: nat, check: nat)
    requires forall i :: 0 <= i < |workers| ==> workers[i].gen < gen
    ensures Sum(workers, HoldingFor(gen, check)) == 0
  {
    if workers != [] {
      NoneHeld(workers[..|workers| - 1], gen, check);
    }
  }

  lemma {:induction false} NoneSent(tickers: seq<Ticker>, gen: nat, check: nat)
    requires forall i :: 0 <= i < |tickers| ==> tickers[i].gen < gen
    ensures Sum(tickers, SentBy(gen, check)) == 0
  {
    if tickers != [] {
      NoneSent(tickers[..|tickers| - 1], gen, check);
    }
  }

  lemma OpenBalanced(cfg: Config, s: State, cancelled: bool, check: nat)
    requires AllBalanced(s, check) && LiveAreNewest(s) && s.control == Opening
    ensures AllBalanced(Proceed(cfg, s, cancelled), check)
  {
    var t := Proceed(cfg, s, cancelled);
    NoneHeld(s.workers, |s.chans|, check);
    NoneSent(s.tickers, |s.chans|, check);
    forall g | 0 <= g < |t.chans|
      ensures Balanced(t.chans[g], Sent(t, g, check), Held(t, g, check), check)
    {
      if g < |s.chans| {
        assert Balanced(s.chans[g], Sent(s, g, check), Held(s, g, check), check);
      }
    }
  }

  lemma ProceedBalanced(cfg: Config, s: State, cancelled: bool, check: nat)
    requires AllBalanced(s, check) && s.control != Opening
    ensures AllBalanced(Proceed(cfg, s, cancelled), check)
  {
    var t := Proceed(cfg, s, cancelled);
    forall g | 0 <= g < |t.chans|
      ensures Balanced(t.chans[g], Sent(t, g, check), Held(t, g, check), check)
    {
      assert Balanced(s.chans[g], Sent(s, g, check), Held(s, g, check), check);
      if s.control.SpawnWorkers? {
        SumAppend(s.workers, Worker(|s.chans| - 1, Idle), HoldingFor(g, check));
      } else if s.control.SpawnTickers? {
        SumAppend(s.tickers, Ticker(|s.chans| - 1, s.control.next, Sending, 0), SentBy(g, check));
      }
    }
  }

  lemma SendBalanced(ch: Channel, sent: nat, held: nat, job: nat, check: nat)
    requires Balanced(ch, sent, held, check)
    ensures Balanced(ch.(queue := ch.queue + [job]), sent + Is(check)(job), held, check)
  {
    SumAppend(ch.queue, job, Is(check));
  }

  /** A ticker's step adds one to what the tickers of its check have sent exactly when it sends. */
  lemma SentStep(s: State, i: nat, quit: bool, g: nat, check: nat)
    requires i < |s.tickers| && s.tickers[i].gen < |s.chans|
    ensures var ticker, t := s.tickers[i], TickerStep(s, i, quit);
            Sent(t, g, check) == Sent(s, g, check) +
              if g == ticker.gen && t.tickers[i].sends == ticker.sends + 1 then Is(check)(ticker.check) else 0
  {
    SumUpdate(s.tickers, i, TickerStep(s, i, quit).tickers[i], SentBy(g, check));
  }

  lemma TickerBalanced(cfg: Config, s: State, i: nat, quit: bool, check: nat)
    requires AllBalanced(s, check) && Enabled(cfg, s, TickerGo(i, quit))
    ensures AllBalanced(TickerStep(s, i, quit), check)
  {
    var ticker, t := s.tickers[i], TickerStep(s, i, quit);
    forall g | 0 <= g < |t.chans|
      ensures Balanced(t.chans[g], Sent(t, g, check), Held(t, g, check), check)
    {
      var was := s.chans[g];
      assert Balanced(was, Sent(s, g, check), Held(s, g, check), check);
      SentStep(s, i, quit, g, check);
      if t.chans[g] != was {
        SendBalanced(was, Sent(s, g, check), Held(s, g, check), ticker.check, check);
      }
    }
  }

  lemma CancelBalanced(s: State, gen: Option<nat>, check: nat)
    requires AllBalanced(s, check)
    ensures AllBalanced(Cancel(s, gen), check)
  {
    forall g | 0 <= g < |s.chans|
      ensures Balanced(Cancel(s, gen).chans[g], Sent(s, g, check), Held(s, g, check), check)
    {
      assert Balanced(s.chans[g], Sent(s, g, check), Held(s, g, check), check);
    }
  }

  lemma StepBalanced(cfg: Config, s: State, l: Label, check: nat)
    requires LiveAreNewest(s) && AllBalanced(s, check)
    ensures AllBalanced(Step(cfg, s, l), check)
  {
    if Enabled(cfg, s, l) {
      match l {
        case Advance(cancelled) =>
          if s.control == Opening {
            OpenBalanced(cfg, s, cancelled, check);
          } else {
            ProceedBalanced(cfg, s, cancelled, check);
          }
        case TickerGo(i, quit) => TickerBalanced(cfg, s, i, quit, check);
        case WorkerGo(i, quit) => WorkerBalanced(cfg, s, i, quit, check);
        case ParentCancel(gen) => CancelBalanced(s, Some(gen), check);
        case BeginStart => CancelBalanced(s, s.cancel, check);
        case BeginStop => CancelBalanced(s, s.cancel, check);
        case Read =>
      }
    }
  }

  lemma {:induction false} BalancedAlways(cfg: Config, labels: seq<Label>, check: nat)
    ensures AllBalanced(Exec(cfg, INITIAL, labels), check)
  {
    if labels != [] {
      var n := |labels| - 1;
      BalancedAlways(cfg, labels[..n], check);
      SchedulerSafe(cfg, labels[..n]);
      StepBalanced(cfg, Exec(cfg, INITIAL, labels[..n]), labels[n], check);
    }
  }

  /**
   For every check and every Start: while its context is live, the jobs its ticker sent are exactly those queued, held
   by workers and delivered; after the cancel some may be lost, but none is ever duplicated.
   */
  lemma JobsConserved(cfg: Config, labels: seq<Label>, gen: nat, check: nat)
    requires gen < |Exec(cfg, INITIAL, labels).chans|
    ensures var s := Exec(cfg, INITIAL, labels);
            var ch := s.chans[gen];
            && Count(ch.queue, check) + Held(s, gen, check) + Count(ch.delivered, check) <= Sent(s, gen, check)
            && (!ch.cancelled ==>
                  Sent(s, gen, check) == Count(ch.queue, check) + Held(s, gen, check) + Count(ch.delivered, check))
  {
    BalancedAlways(cfg, labels, check);
    var s := Exec(cfg, INITIAL, labels);
    assert Balanced(s.chans[gen], Sent(s, gen, check), Held(s, gen, check), check);
  }

  // ---- one ticker per check ----

  function IsTicker(gen: nat, check: nat): Ticker -> nat {
    (t: Ticker) => if t.gen == gen && t.check == check then 1 else 0
  }

  /** How many tickers a Start has made for the check so far. */
  function TickersOf(s: State, gen: nat, check: nat): nat {
    Sum(s.tickers, IsTicker(gen, check))
  }

  /** The checks below this bound have their ticker. */
  function Launched(cfg: Config, s: State, gen: nat): nat {
    if gen < |s.chans| - 1 then cfg.checks
    else match s.control
      case SpawnWorkers(_) => 0
      case SpawnTickers(next) => next
      case _ => cfg.checks
  }

  ghost predicate OneTickerEach(cfg: Config, s: State, check: nat) {
    && (s.control.SpawnTickers? ==> s.control.next <= cfg.checks)
    && forall g :: 0 <= g < |s.chans| ==> TickersOf(s, g, check) == if check < Launched(cfg, s, g) then 1 else 0
  }

  lemma {:induction false} NoTicker(tickers: seq<Ticker>, gen: nat, check: nat)
    requires forall i :: 0 <= i < |tickers| ==> tickers[i].gen < gen
    ensures Sum(tickers, IsTicker(gen, check)) == 0
  {
    if tickers != [] {
      NoTicker(tickers[..|tickers| - 1], gen, check);
    }
  }

  lemma OpenTickers(cfg: Config, s: State, cancelled: bool, check: nat)
    requires LiveAreNewest(s) && OneTickerEach(cfg, s, check) && s.control == Opening
    ensures OneTickerEach(cfg, Proceed(cfg, s, cancelled), check)
  {
    var t := Proceed(cfg, s, cancelled);
    NoTicker(s.tickers, |s.chans|, check);
    forall g | 0 <= g < |t.chans|
      ensures TickersOf(t, g, check) == if check < Launched(cfg, t, g) then 1 else 0
    {
      assert g < |s.chans| ==> TickersOf(t, g, check) == TickersOf(s, g, check);
    }
  }

  lemma LaunchTicker(cfg: Config, s: State, cancelled: bool, check: nat)
    requires OneTickerEach(cfg, s, check) && s.control.SpawnTickers? && s.control.next < cfg.checks && s.chans != []
    ensures OneTickerEach(cfg, Proceed(cfg, s, cancelled), check)
  {
    var t := Proceed(cfg, s, cancelled);
    var last, next := |s.chans| - 1, s.control.next;
    forall g | 0 <= g < |t.chans|
      ensures TickersOf(t, g, check) == if check < Launched(cfg, t, g) then 1 else 0
    {
      assert TickersOf(s, g, check) == if check < Launched(cfg, s, g) then 1 else 0;
      SumAppend(s.tickers, Ticker(last, next, Sending, 0), IsTicker(g, check));
    }
  }

  /** The other steps of Start and Stop leave the tickers alone and their bound as it was. */
  lemma ProceedTickers(cfg: Config, s: State, cancelled: bool, check: nat)
    requires Sound(cfg, s) && OneTickerEach(cfg, s, check) && Enabled(cfg, s, Advance(cancelled))
    requires s.control != Opening && !(s.control.SpawnTickers? && s.control.next < cfg.checks)
    ensures OneTickerEach(cfg, Proceed(cfg, s, cancelled), check)
  {
    var t := Proceed(cfg, s, cancelled);
    forall g | 0 <= g < |t.chans|
      ensures TickersOf(t, g, check) == if check < Launched(cfg, t, g) then 1 else 0
    {
      assert Launched(cfg, t, g) == Launched(cfg, s, g);
      assert TickersOf(t, g, check) == TickersOf(s, g, check);
    }
  }

  lemma TickerKept(cfg: Config, s: State, i: nat, quit: bool, check: nat)
    requires OneTickerEach(cfg, s, check) && Enabled(cfg, s, TickerGo(i, quit))
    ensures OneTickerEach(cfg, TickerStep(s, i, quit), check)
  {
    var t := TickerStep(s, i, quit);
    forall g | 0 <= g < |t.chans|
      ensures TickersOf(t, g, check) == TickersOf(s, g, check)
    {
      SumUpdate(s.tickers, i, t.tickers[i], IsTicker(g, check));
    }
  }

  lemma OthersKeepTickers(cfg: Config, s: State, l: Label, check: nat)
    requires OneTickerEach(cfg, s, check) && !l.Advance? && !l.TickerGo?
    ensures OneTickerEach(cfg, Step(cfg, s, l), check)
  {
    var t := Step(cfg, s, l);
    assert t.tickers == s.tickers && |t.chans| == |s.chans|;
    assert forall g :: Launched(cfg, t, g) == Launched(cfg, s, g);
    assert forall g :: TickersOf(t, g, check) == TickersOf(s, g, check);
  }

  /** Every Start makes exactly one ticker for each check, and a job is only ever sent by the ticker of its check. */
  lemma {:induction false} OneTickerPerCheck(cfg: Config, labels: seq<Label>, check: nat)
    ensures OneTickerEach(cfg, Exec(cfg, INITIAL, labels), check)
  {
    if labels != [] {
      var n := |labels| - 1;
      var s := Exec(cfg, INITIAL, labels[..n]);
      OneTickerPerCheck(cfg, labels[..n], check);
      SchedulerSafe(cfg, labels[..n]);
      if Enabled(cfg, s, labels[n]) && labels[n].Advance? {
        if s.control == Opening {
          OpenTickers(cfg, s, labels[n].cancelled, check);
        } else if s.control.SpawnTickers? && s.control.next < cfg.checks {
          LaunchTicker(cfg, s, labels[n].cancelled, check);
        } else {
          ProceedTickers(cfg, s, labels[n].cancelled, check);
        }
      } else if Enabled(cfg, s, labels[n]) && labels[n].TickerGo? {
        TickerKept(cfg, s, labels[n].i, labels[n].quit, check);
      } else if !labels[n].Advance? && !labels[n].TickerGo? {
        OthersKeepTickers(cfg, s, labels[n], check);
      }
    }
  }

  // ---- after the cancel ----

  /** A cancelled ticker or worker always has a step of its own, however full the channels are. */
  lemma CancelledCanMove(cfg: Config, s: State)
    requires Sound(cfg, s) && s.chans != [] && s.chans[|s.chans| - 1].cancelled
    ensures forall i :: 0 <= i < |s.tickers| && s.tickers[i].phase != Ended ==> Enabled(cfg, s, TickerGo(i, true))
    ensures forall i :: 0 <= i < |s.workers| && s.workers[i].phase != Exited ==>
              Enabled(cfg, s, WorkerGo(i, true)) || Enabled(cfg, s, WorkerGo(i, false))
  {
  }

  /** A Start or Stop in progress, or some goroutine it waits for, can always move: the waits cannot deadlock. */
  lemma CallsNeverStuck(cfg: Config, s: State) returns (l: Label)
    requires Sound(cfg, s) && s.control != Ready
    ensures Enabled(cfg, s, l) && (l.Advance? || l.TickerGo? || l.WorkerGo?)
  {
    l := Advance(false);
    if !Enabled(cfg, s, l) {
      CancelledCanMove(cfg, s);
      if s.control.StartTickers? || s.control.StopTickers? {
        var i: nat :| i < |s.tickers| && s.tickers[i].phase != Ended;
        l := TickerGo(i, true);
      } else {
        var i: nat :| i < |s.workers| && s.workers[i].phase != Exited;
        l := if Enabled(cfg, s, WorkerGo(i, true)) then WorkerGo(i, true) else WorkerGo(i, false);
      }
    }
  }

  function PhaseWork(w: Worker): nat {
    match w.phase
    case Idle => 1
    case Checking(_) => 3
    case Delivering(_) => 2
    case Exited => 0
  }

  /** Queued jobs of the newest channel, and the phases of the live workers. */
  function ExitWork(s: State): nat {
    Sum(s.workers, PhaseWork) + if s.chans == [] then 0 else 3 * |s.chans[|s.chans| - 1].queue|
  }

  /** Start or Stop waits for the workers; the tickers have returned, so nothing is sent any more. */
  predicate Draining(s: State) {
    s.control == StartWorkers || s.control == StopWorkers
  }

  /** Meanwhile every worker step, including a receive, brings all workers closer to their exit. */
  lemma WorkerStepsRunOut(cfg: Config, s: State, i: nat, quit: bool)
    requires Sound(cfg, s) && Draining(s) && Enabled(cfg, s, WorkerGo(i, quit))
    ensures ExitWork(WorkerStep(s, i, quit)) < ExitWork(s)
    ensures WorkerStep(s, i, quit).control == s.control
  {
    var t := WorkerStep(s, i, quit);
    SumUpdate(s.workers, i, t.workers[i], PhaseWork);
  }

  /** How many of the labels are worker steps that are enabled when reached. */
  function WorkerMoves(cfg: Config, s: State, labels: seq<Label>): nat {
    if labels == [] then 0 else
    var n := |labels| - 1;
    WorkerMoves(cfg, s, labels[..n]) +
    if labels[n].WorkerGo? && Enabled(cfg, Exec(cfg, s, labels[..n]), labels[n]) then 1 else 0
  }

  /** While Start or Stop waits for the workers, only so many worker steps remain, whatever else happens meanwhile. */
  lemma {:induction false} WaitMustEnd(cfg: Config, s: State, labels: seq<Label>)
    requires Sound(cfg, s) && Draining(s)
    requires forall k :: 0 <= k < |labels| ==> !labels[k].Advance?
    ensures var t := Exec(cfg, s, labels);
            && WorkerMoves(cfg, s, labels) + ExitWork(t) <= ExitWork(s)
            && Sound(cfg, t) && t.control == s.control
  {
    if labels != [] {
      var n := |labels| - 1;
      WaitMustEnd(cfg, s, labels[..n]);
      StepSound(cfg, Exec(cfg, s, labels[..n]), labels[n]);
      WaitingStep(cfg, Exec(cfg, s, labels[..n]), labels[n]);
    }
  }

  lemma WaitingStep(cfg: Config, s: State, l: Label)
    requires Sound(cfg, s) && Draining(s) && !l.Advance?
    ensures var t := Step(cfg, s, l);
            && t.control == s.control
            && ExitWork(t) + (if l.WorkerGo? && Enabled(cfg, s, l) then 1 else 0) <= ExitWork(s)
  {
    if Enabled(cfg, s, l) && l.WorkerGo? {
      WorkerStepsRunOut(cfg, s, l.i, l.quit);
    }
  }

  /** And when no worker can move any more they have all returned, so the call goes on. */
  lemma WaitedWorkersHaveExited(cfg: Config, s: State)
    requires Sound(cfg, s) && Draining(s)
    requires forall i, quit :: !Enabled(cfg, s, WorkerGo(i, quit))
    ensures WorkersDone(s) && Enabled(cfg, s, Advance(false))
  {
    forall i | 0 <= i < |s.workers|
      ensures s.workers[i].phase == Exited
    {
      assert !Enabled(cfg, s, WorkerGo(i, true)) && !Enabled(cfg, s, WorkerGo(i, false));
    }
  }

  // ---- Start returns ----

  function Ticking(t: Ticker): nat {
    if t.phase == Ended then 0 else 1
  }

  /** How far the Start in progress is from returning when every goroutine it waits for quits at once. */
  function StartWork(cfg: Config, s: State): nat {
    var spawning := cfg.workers + cfg.checks;
    match s.control
    case StartTickers => Sum(s.tickers, Ticking) + ExitWork(s) + spawning + 6
    case StartWorkers => ExitWork(s) + spawning + 5
    case Opening => spawning + 4
    case SpawnWorkers(left) => left + cfg.checks + 3
    case SpawnTickers(next) => 1 + if next < cfg.checks then cfg.checks - next else 0
    case _ => 0
  }

  /** What `s` has of the goroutines that the Start that began in `s0` makes; its context is live. */
  ghost predicate Launching(cfg: Config, s0: State, s: State) {
    match s.control
    case StartTickers => |s.chans| == |s0.chans| && |s.workers| == |s0.workers| && |s.tickers| == |s0.tickers|
    case StartWorkers => |s.chans| == |s0.chans| && |s.workers| == |s0.workers| && |s.tickers| == |s0.tickers|
    case Opening => |s.chans| == |s0.chans| && |s.workers| == |s0.workers| && |s.tickers| == |s0.tickers|
    case SpawnWorkers(left) => LaunchedSoFar(s0, s, cfg.workers - left, 0)
    case SpawnTickers(next) => next <= cfg.checks && LaunchedSoFar(s0, s, cfg.workers, next)
    case Ready => LaunchedSoFar(s0, s, cfg.workers, cfg.checks)
    case _ => false
  }

  ghost predicate LaunchedSoFar(s0: State, s: State, workers: int, tickers: int) {
    && |s.chans| == |s0.chans| + 1 && !s.chans[|s0.chans|].cancelled && s.cancel == Some(|s0.chans|)
    && |s.workers| == |s0.workers| + workers && |s.tickers| == |s0.tickers| + tickers
  }

  lemma SpawningGoesOn(cfg: Config, s0: State, s: State)
    requires Sound(cfg, s) && Launching(cfg, s0, s)
    requires s.control.Opening? || s.control.SpawnWorkers? || s.control.SpawnTickers?
    ensures var t := Step(cfg, s, Advance(false)); Launching(cfg, s0, t) && StartWork(cfg, t) < StartWork(cfg, s)
  {
  }

  lemma TickerQuits(cfg: Config, s0: State, s: State, i: nat)
    requires Sound(cfg, s) && Launching(cfg, s0, s) && s.control == StartTickers
    requires i < |s.tickers| && s.tickers[i].phase != Ended
    ensures var t := Step(cfg, s, TickerGo(i, true)); Launching(cfg, s0, t) && StartWork(cfg, t) < StartWork(cfg, s)
  {
    SumUpdate(s.tickers, i, s.tickers[i].(phase := Ended), Ticking);
  }

  lemma WorkerFinishes(cfg: Config, s0: State, s: State, i: nat, quit: bool)
    requires Sound(cfg, s) && Launching(cfg, s0, s) && s.control == StartWorkers && Enabled(cfg, s, WorkerGo(i, quit))
    ensures var t := Step(cfg, s, WorkerGo(i, quit)); Launching(cfg, s0, t) && StartWork(cfg, t) < StartWork(cfg, s)
  {
    WorkerStepsRunOut(cfg, s, i, quit);
  }

  /**
   A Start in progress, or a goroutine it waits for, brings it closer to its return; nothing else is needed, no cancel
   in particular.
   */
  lemma StartGoesOn(cfg: Config, s0: State, s: State) returns (l: Label)
    requires Sound(cfg, s) && Launching(cfg, s0, s) && s.control != Ready
    ensures l == Advance(false) || l.TickerGo? || l.WorkerGo?
    ensures var t := Step(cfg, s, l); Launching(cfg, s0, t) && StartWork(cfg, t) < StartWork(cfg, s)
  {
    l := Advance(false);
    if s.control.StartTickers? {
      if i: nat :| i < |s.tickers| && s.tickers[i].phase != Ended {
        l := TickerGo(i, true);
        TickerQuits(cfg, s0, s, i);
      }
    } else if s.control.StartWorkers? {
      if i: nat :| i < |s.workers| && s.workers[i].phase != Exited {
        CancelledCanMove(cfg, s);
        l := WorkerGo(i, Enabled(cfg, s, WorkerGo(i, true)));
        WorkerFinishes(cfg, s0, s, i, l.quit);
      }
    } else {
      SpawningGoesOn(cfg, s0, s);
    }
  }

  lemma {:induction false} ExecFirst(cfg: Config, s: State, l: Label, rest: seq<Label>)
    ensures Exec(cfg, s, [l] + rest) == Exec(cfg, Step(cfg, s, l), rest)
  {
    var whole := [l] + rest;
    if rest == [] {
      assert whole == [l] && whole[..0] == [];
      assert Exec(cfg, s, whole[..0]) == s;
    } else {
      var n := |rest| - 1;
      assert whole[..|whole| - 1] == [l] + rest[..n] && whole[|whole| - 1] == rest[n];
      ExecFirst(cfg, s, l, rest[..n]);
    }
  }

  lemma {:induction false} StartRuns(cfg: Config, s0: State, s: State) returns (labels: seq<Label>)
    requires Sound(cfg, s) && Launching(cfg, s0, s)
    ensures forall k :: 0 <= k < |labels| ==> labels[k] == Advance(false) || labels[k].TickerGo? || labels[k].WorkerGo?
    ensures var t := Exec(cfg, s, labels);
            t.control == Ready && Sound(cfg, t) && LaunchedSoFar(s0, t, cfg.workers, cfg.checks)
    decreases StartWork(cfg, s)
  {
    labels := [];
    if s.control != Ready {
      var l := StartGoesOn(cfg, s0, s);
      StepSound(cfg, s, l);
      var rest := StartRuns(cfg, s0, Step(cfg, s, l));
      labels := [l] + rest;
      ExecFirst(cfg, s, l, rest);
    }
  }

  /**
   Start returns while its context is live: whenever it is called there is a run of Start itself and of the goroutines
   of the Start before it, without any cancel, after which it has returned, with all its workers and tickers launched.
   */
  lemma StartReturns(cfg: Config, s: State) returns (labels: seq<Label>)
    requires Sound(cfg, s) && s.control == Ready
    ensures labels != [] && labels[0] == BeginStart
    ensures forall k :: 0 < k < |labels| ==> labels[k] == Advance(false) || labels[k].TickerGo? || labels[k].WorkerGo?
    ensures var t := Exec(cfg, s, labels); t.control == Ready && LaunchedSoFar(s, t, cfg.workers, cfg.checks)
  {
    StepSound(cfg, s, BeginStart);
    var rest := StartRuns(cfg, s, Step(cfg, s, BeginStart));
    labels := [BeginStart] + rest;
    ExecFirst(cfg, s, BeginStart, rest);
  }
}
