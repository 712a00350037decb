/** The watchdog and the heartbeats it polls (run_watchdog, WorkerHeartbeat and the stores in
    run_worker, src/main.cpp), as every interleaving of atomic loads and stores with the clock.
 */
module Watchdog {

  const MODULUS: int := 0x1_0000_0000_0000_0000

  /** One worker's heartbeat. `read` is the clock value it has fetched but may not have stored yet.
      The source keeps only `tick` and `finished`; the rest says what really happened: whether it has
      stored a tick at all, and when it last did. */
  datatype Heart = Heart(tick: nat, read: nat, ever: bool, storedAt: nat, finished: bool)

  datatype Dog =
    | Sleeping
    | Polling(now: nat, next: nat, allFinished: bool)
    | SawUnfinished(now: nat, next: nat)  // finished flag loaded as false, tick not loaded yet
    | Returned
    | Fired(worker: nat)
    | Disabled

  datatype State = State(clock: nat, hearts: seq<Heart>, dog: Dog, timeout: nat)

  datatype Action = Pass(ms: nat) | ReadClock(worker: nat) | StoreTick(worker: nat) | Finish(worker: nat) | DogStep

  /** `now - last` on uint64_t. */
  function Elapsed(now: nat, last: nat): nat {
    (now - last) % MODULUS
  }

  function Set(s: State, w: nat, h: Heart): State
    requires w < |s.hearts|
  {
    s.(hearts := s.hearts[w := h])
  }

  function StepDog(s: State): State {
    match s.dog
    case Sleeping => s.(dog := Polling(s.clock, 0, true))
    case Polling(now, w, all) =>
      if w >= |s.hearts| then s.(dog := if all then Returned else Sleeping)
      else if s.hearts[w].finished then s.(dog := Polling(now, w + 1, all))
      else s.(dog := SawUnfinished(now, w))
    case SawUnfinished(now, w) =>
      if w < |s.hearts| && Elapsed(now, s.hearts[w].tick) > s.timeout then s.(dog := Fired(w))
      else s.(dog := Polling(now, w + 1, false))
    case _ => s
  }

  /** Firing takes the whole process down, so nothing moves afterwards. */
  function Step(s: State, a: Action): State {
    if s.dog.Fired? then s
    else
      match a
      case Pass(ms) => s.(clock := s.clock + ms)
      case ReadClock(w) => if w < |s.hearts| then Set(s, w, s.hearts[w].(read := s.clock)) else s
      case StoreTick(w) =>
        if w < |s.hearts|
        then Set(s, w, s.hearts[w].(tick := s.hearts[w].read, ever := true, storedAt := s.clock))
        else s
      case Finish(w) => if w < |s.hearts| then Set(s, w, s.hearts[w].(finished := true)) else s
      case DogStep => StepDog(s)
  }

  function Start(clock: nat, workers: nat, seconds: nat): State {
    State(clock, seq(workers, _ => Heart(0, clock, false, 0, false)), if seconds == 0 then Disabled else Sleeping,
          seconds * 1000)
  }

  function Run(s: State, schedule: seq<Action>): State {
    if schedule == [] then s else Step(Run(s, schedule[..|schedule| - 1]), schedule[|schedule| - 1])
  }

  // ---------------------------------------------------------------- the invariant

  predicate InPoll(d: Dog) {
    d.Polling? || d.SawUnfinished?
  }

  /** A tick was read no later than it was stored. */
  predicate HeartOk(h: Heart, clock: nat) {
    h.tick <= h.storedAt <= clock && h.read <= clock
  }

  ghost predicate Inv(s: State) {
    && (forall w :: 0 <= w < |s.hearts| ==> HeartOk(s.hearts[w], s.clock))
    && (InPoll(s.dog) ==> s.dog.now <= s.clock)
    && (s.dog.SawUnfinished? ==> s.dog.next < |s.hearts|)
    && (s.dog.Polling? ==> s.dog.next <= |s.hearts|)
    && (s.dog.Polling? && s.dog.allFinished ==>
          forall w :: 0 <= w < s.dog.next && w < |s.hearts| ==> s.hearts[w].finished)
    && (s.dog.Returned? ==> forall w :: 0 <= w < |s.hearts| ==> s.hearts[w].finished)
  }

  lemma StepInv(s: State, a: Action)
    requires Inv(s)
    ensures Inv(Step(s, a))
  {
  }

  lemma {:induction false} RunInv(clock: nat, workers: nat, seconds: nat, schedule: seq<Action>)
    ensures Inv(Run(Start(clock, workers, seconds), schedule))
    ensures Run(Start(clock, workers, seconds), schedule).timeout == seconds * 1000
  {
    if schedule != [] {
      var n := |schedule| - 1;
      RunInv(clock, workers, seconds, schedule[..n]);
      StepInv(Run(Start(clock, workers, seconds), schedule[..n]), schedule[n]);
    }
  }

  /** Armed, it returns only when every worker has finished, however the loads interleave with the
      workers. */
  lemma ReturnsOnlyWhenAllFinished(clock: nat, workers: nat, seconds: nat, schedule: seq<Action>, w: nat)
    requires Run(Start(clock, workers, seconds), schedule).dog.Returned?
    requires w < |Run(Start(clock, workers, seconds), schedule).hearts|
    ensures Run(Start(clock, workers, seconds), schedule).hearts[w].finished
  {
    RunInv(clock, workers, seconds, schedule);
  }

  // ---------------------------------------------------------------- one load

  /** How long the last store lagged behind the clock value it stored. */
  function Lag(h: Heart): int {
    h.storedAt - h.tick
  }

  lemma ElapsedForward(now: nat, last: nat)
    requires last <= now < MODULUS
    ensures Elapsed(now, last) == now - last
  {
  }

  lemma ElapsedBackward(now: nat, last: nat)
    requires now < last < MODULUS
    ensures Elapsed(now, last) == MODULUS - (last - now)
  {
  }

  /** When a loaded tick makes it fire: the time since the last store, as of the sample, plus that
      store's own lag exceeds the timeout, or the tick is later than the sample and the subtraction
      wraps. Neither the finished flag nor whether there was a store at all enters into it. */
  lemma FiresIff(clock: nat, workers: nat, seconds: nat, schedule: seq<Action>)
    requires Run(Start(clock, workers, seconds), schedule).dog.SawUnfinished?
    requires Run(Start(clock, workers, seconds), schedule).clock + seconds * 1000 < MODULUS
    ensures var s := Run(Start(clock, workers, seconds), schedule);
      && s.dog.next < |s.hearts|
      && var h := s.hearts[s.dog.next];
         && 0 <= Lag(h)
         && (StepDog(s).dog.Fired? <==> h.tick > s.dog.now || s.dog.now - h.storedAt + Lag(h) > s.timeout)
  {
    var s := Run(Start(clock, workers, seconds), schedule);
    RunInv(clock, workers, seconds, schedule);
    var h := s.hearts[s.dog.next];
    assert HeartOk(h, s.clock);
    if h.tick <= s.dog.now { ElapsedForward(s.dog.now, h.tick); } else { ElapsedBackward(s.dog.now, h.tick); }
  }

  /** Nothing is missed: a worker already silent for too long at the sample makes it fire. */
  lemma SilentAtSampleFires(clock: nat, workers: nat, seconds: nat, schedule: seq<Action>)
    requires Run(Start(clock, workers, seconds), schedule).dog.SawUnfinished?
    requires Run(Start(clock, workers, seconds), schedule).clock + seconds * 1000 < MODULUS
    requires var s := Run(Start(clock, workers, seconds), schedule);
      s.dog.next < |s.hearts| && s.dog.now - s.hearts[s.dog.next].storedAt > s.timeout
    ensures StepDog(Run(Start(clock, workers, seconds), schedule)).dog.Fired?
  {
    FiresIff(clock, workers, seconds, schedule);
  }

  // ---------------------------------------------------------------- when every fire is justified

  datatype LagBound = AnyLag | AtMost(ms: nat)

  /** What may be known of how loads and stores interleave. */
  datatype Discipline = Discipline(
    started: bool,      // a tick is loaded only of a worker that has stored one
    lag: LagBound,           // how long after it was read a tick is stored
    noFinishRace: bool, // no worker finishes between the load of its flag and the load of its tick
    noLaterTick: bool)  // no tick later than the sample is stored while a poll is under way

  predicate Permitted(d: Discipline, s: State, a: Action) {
    match a
    case Pass(_) => true
    case ReadClock(_) => true
    case StoreTick(w) =>
      w < |s.hearts| ==>
        && (d.lag.AtMost? ==> s.clock - s.hearts[w].read <= d.lag.ms)
        && (d.noLaterTick && InPoll(s.dog) ==> s.hearts[w].read <= s.dog.now)
    case Finish(w) => d.noFinishRace ==> !(s.dog.SawUnfinished? && s.dog.next == w)
    case DogStep => d.started && s.dog.SawUnfinished? && s.dog.next < |s.hearts| ==> s.hearts[s.dog.next].ever
  }

  predicate Obeys(d: Discipline, s: State, schedule: seq<Action>) {
    schedule == [] ||
    (var n := |schedule| - 1; Obeys(d, s, schedule[..n]) && Permitted(d, Run(s, schedule[..n]), schedule[n]))
  }

  /** The worker has started, has not finished, and has stored nothing for longer than the timeout less
      this slack. Without slack that is what the message says of it. */
  predicate Silent(s: State, w: nat, slack: nat) {
    && w < |s.hearts| && s.hearts[w].ever && !s.hearts[w].finished
    && s.clock - s.hearts[w].storedAt > s.timeout - slack
  }

  /** Every worker the watchdog ever takes the process down for is that silent. */
  ghost predicate OnlySilentFire(d: Discipline, slack: nat) {
    forall clock: nat, workers: nat, seconds: nat, schedule: seq<Action> ::
      Obeys(d, Start(clock, workers, seconds), schedule) ==>
      FireJustified(Run(Start(clock, workers, seconds), schedule), slack)
  }

  ghost predicate FireJustified(s: State, slack: nat) {
    s.dog.Fired? && s.clock < MODULUS ==> Silent(s, s.dog.worker, slack)
  }

  /** All four side conditions, the lag bounded by the slack. */
  predicate Keeps(d: Discipline, slack: nat) {
    d.started && d.noFinishRace && d.noLaterTick && d.lag.AtMost? && d.lag.ms <= slack
  }

  /** What such a discipline adds to the invariant. */
  ghost predicate StrictInv(s: State, slack: nat) {
    && Inv(s)
    && (forall w :: 0 <= w < |s.hearts| && s.hearts[w].ever ==> s.hearts[w].storedAt - s.hearts[w].tick <= slack)
    && (InPoll(s.dog) ==> forall w :: 0 <= w < |s.hearts| ==> s.hearts[w].tick <= s.dog.now)
    && (s.dog.SawUnfinished? ==> !s.hearts[s.dog.next].finished)
    && FireJustified(s, slack)
  }

  lemma StrictStep(d: Discipline, slack: nat, s: State, a: Action)
    requires Keeps(d, slack) && StrictInv(s, slack) && Permitted(d, s, a)
    ensures StrictInv(Step(s, a), slack)
  {
    StepInv(s, a);
    if a.DogStep? && s.dog.SawUnfinished? && s.clock < MODULUS {
      assert HeartOk(s.hearts[s.dog.next], s.clock);
      ElapsedForward(s.dog.now, s.hearts[s.dog.next].tick);
    }
  }

  lemma {:induction false} StrictRun(d: Discipline, slack: nat, clock: nat, workers: nat, seconds: nat, schedule: seq<Action>)
    requires Keeps(d, slack) && Obeys(d, Start(clock, workers, seconds), schedule)
    ensures StrictInv(Run(Start(clock, workers, seconds), schedule), slack)
  {
    if schedule != [] {
      var n := |schedule| - 1;
      StrictRun(d, slack, clock, workers, seconds, schedule[..n]);
      StrictStep(d, slack, Run(Start(clock, workers, seconds), schedule[..n]), schedule[n]);
    }
  }

  /** A permitted schedule that leads from one state to another. */
  ghost predicate Leads(d: Discipline, s: State, schedule: seq<Action>, t: State) {
    Obeys(d, s, schedule) && Run(s, schedule) == t
  }

  ghost predicate MayReach(d: Discipline, s: State, t: State) {
    exists schedule :: Leads(d, s, schedule, t)
  }

  lemma OneMore(d: Discipline, s: State, schedule: seq<Action>, t: State, a: Action, t': State)
    requires Leads(d, s, schedule, t) && Permitted(d, t, a) && Step(t, a) == t'
    ensures Leads(d, s, schedule + [a], t')
  {
    assert (schedule + [a])[..|schedule|] == schedule;
  }

  lemma Reached(d: Discipline, s: State, schedule: seq<Action>, t: State)
    requires Leads(d, s, schedule, t)
    ensures MayReach(d, s, t)
  {
  }

  /** A lone worker, and the watchdog over it. */
  function Lone(clock: nat, h: Heart, dog: Dog, seconds: nat): State {
    State(clock, [h], dog, seconds * 1000)
  }

  lemma LoneStart(d: Discipline, clock: nat, seconds: nat)
    requires 0 < seconds
    ensures Leads(d, Start(clock, 1, seconds), [], Lone(clock, Heart(0, clock, false, 0, false), Sleeping, seconds))
  {
  }

  /** The last three steps: the watchdog samples the clock, finds the worker unfinished and fires. */
  lemma PollFires(d: Discipline, s: State, schedule: seq<Action>, clock: nat, h: Heart, seconds: nat)
    requires Leads(d, s, schedule, Lone(clock, h, Sleeping, seconds))
    requires !h.finished && (d.started ==> h.ever) && h.tick + seconds * 1000 < clock < MODULUS
    ensures MayReach(d, s, Lone(clock, h, Fired(0), seconds))
  {
    var t1, t2 := Lone(clock, h, Polling(clock, 0, true), seconds), Lone(clock, h, SawUnfinished(clock, 0), seconds);
    OneMore(d, s, schedule, Lone(clock, h, Sleeping, seconds), DogStep, t1);
    OneMore(d, s, schedule + [DogStep], t1, DogStep, t2);
    ElapsedForward(clock, h.tick);
    OneMore(d, s, schedule + [DogStep] + [DogStep], t2, DogStep, Lone(clock, h, Fired(0), seconds));
    Reached(d, s, schedule + [DogStep] + [DogStep] + [DogStep], Lone(clock, h, Fired(0), seconds));
  }

  /** A tick later than the sample: a worker that stores a tick between the sample and the load is
      reported hung, though it has been idle for no time at all. */
  lemma TickAfterSampleFires(d: Discipline, clock: nat, seconds: nat)
    requires !d.noLaterTick && 0 < seconds && clock + 1 + seconds * 1000 < MODULUS
    ensures MayReach(d, Start(clock, 1, seconds),
      Lone(clock + 1, Heart(clock + 1, clock + 1, true, clock + 1, false), Fired(0), seconds))
  {
    var s, now := Start(clock, 1, seconds), clock + 1;
    var h0, h1 := Heart(0, clock, false, 0, false), Heart(0, now, false, 0, false);
    var h := Heart(now, now, true, now, false);
    var sampled, seen := Polling(clock, 0, true), SawUnfinished(clock, 0);
    var p1 := [] + [DogStep];
    var p2 := p1 + [Pass(1)];
    var p3 := p2 + [ReadClock(0)];
    var p4 := p3 + [StoreTick(0)];
    LoneStart(d, clock, seconds);
    OneMore(d, s, [], Lone(clock, h0, Sleeping, seconds), DogStep, Lone(clock, h0, sampled, seconds));
    OneMore(d, s, p1, Lone(clock, h0, sampled, seconds), Pass(1), Lone(now, h0, sampled, seconds));
    OneMore(d, s, p2, Lone(now, h0, sampled, seconds), ReadClock(0), Lone(now, h1, sampled, seconds));
    OneMore(d, s, p3, Lone(now, h1, sampled, seconds), StoreTick(0), Lone(now, h, sampled, seconds));
    OneMore(d, s, p4, Lone(now, h, sampled, seconds), DogStep, Lone(now, h, seen, seconds));
    ElapsedBackward(clock, now);
    OneMore(d, s, p4 + [DogStep], Lone(now, h, seen, seconds), DogStep, Lone(now, h, Fired(0), seconds));
    Reached(d, s, p4 + [DogStep] + [DogStep], Lone(now, h, Fired(0), seconds));
  }

  /** A tick never stored: on a machine up for longer than the timeout, a worker thread that has not
      run yet reads as hung. */
  lemma UnstartedWorkerFires(d: Discipline, clock: nat, seconds: nat)
    requires !d.started && 0 < seconds && seconds * 1000 < clock < MODULUS
    ensures MayReach(d, Start(clock, 1, seconds),
      Lone(clock, Heart(0, clock, false, 0, false), Fired(0), seconds))
  {
    LoneStart(d, clock, seconds);
    PollFires(d, Start(clock, 1, seconds), [], clock, Heart(0, clock, false, 0, false), seconds);
  }

  /** A stale tick: a worker that was held up between reading the clock and storing the value is reported
      hung although its silence falls short of the timeout by that lag -- at worst at the very moment it
      stores. */
  lemma StaleReadFires(d: Discipline, clock: nat, seconds: nat, lag: nat)
    requires (d.lag.AtMost? ==> lag <= d.lag.ms) && lag <= 1 + seconds * 1000
    requires 0 < seconds && clock + 1 + seconds * 1000 < MODULUS
    ensures var now := clock + 1 + seconds * 1000;
      MayReach(d, Start(clock, 1, seconds), Lone(now, Heart(clock, clock, true, clock + lag, false), Fired(0), seconds))
  {
    var s, stored, now := Start(clock, 1, seconds), clock + lag, clock + 1 + seconds * 1000;
    var h0, h := Heart(0, clock, false, 0, false), Heart(clock, clock, true, stored, false);
    var p1 := [] + [ReadClock(0)];
    var p2 := p1 + [Pass(lag)];
    var p3 := p2 + [StoreTick(0)];
    LoneStart(d, clock, seconds);
    OneMore(d, s, [], Lone(clock, h0, Sleeping, seconds), ReadClock(0), Lone(clock, h0, Sleeping, seconds));
    OneMore(d, s, p1, Lone(clock, h0, Sleeping, seconds), Pass(lag), Lone(stored, h0, Sleeping, seconds));
    OneMore(d, s, p2, Lone(stored, h0, Sleeping, seconds), StoreTick(0), Lone(stored, h, Sleeping, seconds));
    OneMore(d, s, p3, Lone(stored, h, Sleeping, seconds), Pass(now - stored), Lone(now, h, Sleeping, seconds));
    PollFires(d, s, p3 + [Pass(now - stored)], now, h, seconds);
  }

  /** A finish between the two loads: the process is taken down over a worker that has completed. */
  lemma FinishRaceFires(d: Discipline, clock: nat, seconds: nat)
    requires !d.noFinishRace && 0 < seconds && clock + 1 + seconds * 1000 < MODULUS
    ensures var now := clock + 1 + seconds * 1000;
      MayReach(d, Start(clock, 1, seconds),
      Lone(now, Heart(clock, clock, true, clock, true), Fired(0), seconds))
  {
    var s, now := Start(clock, 1, seconds), clock + 1 + seconds * 1000;
    var h0, h := Heart(0, clock, false, 0, false), Heart(clock, clock, true, clock, false);
    var done, seen := Heart(clock, clock, true, clock, true), SawUnfinished(now, 0);
    var p1 := [] + [StoreTick(0)];
    var p2 := p1 + [Pass(now - clock)];
    var p3 := p2 + [DogStep];
    var p4 := p3 + [DogStep];
    LoneStart(d, clock, seconds);
    OneMore(d, s, [], Lone(clock, h0, Sleeping, seconds), StoreTick(0), Lone(clock, h, Sleeping, seconds));
    OneMore(d, s, p1, Lone(clock, h, Sleeping, seconds), Pass(now - clock), Lone(now, h, Sleeping, seconds));
    OneMore(d, s, p2, Lone(now, h, Sleeping, seconds), DogStep, Lone(now, h, Polling(now, 0, true), seconds));
    OneMore(d, s, p3, Lone(now, h, Polling(now, 0, true), seconds), DogStep, Lone(now, h, seen, seconds));
    OneMore(d, s, p4, Lone(now, h, seen, seconds), Finish(0), Lone(now, done, seen, seconds));
    ElapsedForward(now, clock);
    OneMore(d, s, p4 + [Finish(0)], Lone(now, done, seen, seconds), DogStep, Lone(now, done, Fired(0), seconds));
    Reached(d, s, p4 + [Finish(0)] + [DogStep], Lone(now, done, Fired(0), seconds));
  }

  lemma UnjustFire(d: Discipline, slack: nat, clock: nat, seconds: nat, h: Heart, end: nat)
    requires MayReach(d, Start(clock, 1, seconds), Lone(end, h, Fired(0), seconds))
    requires end < MODULUS && (!h.ever || h.finished || end - h.storedAt <= seconds * 1000 - slack)
    ensures !OnlySilentFire(d, slack)
  {
    var schedule :| Leads(d, Start(clock, 1, seconds), schedule, Lone(end, h, Fired(0), seconds));
    assert Leads(d, Start(clock, 1, seconds), schedule, Lone(end, h, Fired(0), seconds));
    assert !FireJustified(Run(Start(clock, 1, seconds), schedule), slack);
  }

  lemma SomeFireIsUnjust(d: Discipline, slack: nat)
    requires slack < 0x1_0000_0000_0000 && !Keeps(d, slack)
    ensures !OnlySilentFire(d, slack)
  {
    var seconds := slack + 1;
    var end := 1 + seconds * 1000;
    if !d.started {
      UnstartedWorkerFires(d, end, seconds);
      UnjustFire(d, slack, end, seconds, Heart(0, end, false, 0, false), end);
    } else if !d.noFinishRace {
      FinishRaceFires(d, 0, seconds);
      UnjustFire(d, slack, 0, seconds, Heart(0, 0, true, 0, true), end);
    } else if !d.noLaterTick {
      TickAfterSampleFires(d, 0, seconds);
      UnjustFire(d, slack, 0, seconds, Heart(1, 1, true, 1, false), 1);
    } else {
      StaleReadFires(d, 0, seconds, slack + 1);
      UnjustFire(d, slack, 0, seconds, Heart(0, 0, true, slack + 1, false), end);
    }
  }

  /** Every worker the watchdog takes the process down for has started, has not finished and has been
      silent for longer than the timeout less a slack, exactly when all four side conditions can be
      relied on and no tick is stored later after it was read than that slack. The code guarantees none
      of the four; without slack, stores would have to be instantaneous. */
  lemma OnlySilentFireIff(d: Discipline, slack: nat)
    requires slack < 0x1_0000_0000_0000
    ensures OnlySilentFire(d, slack) <==>
      d.started && d.noFinishRace && d.noLaterTick && d.lag.AtMost? && d.lag.ms <= slack
  {
    if Keeps(d, slack) {
      forall clock: nat, workers: nat, seconds: nat, schedule: seq<Action> |
        Obeys(d, Start(clock, workers, seconds), schedule)
        ensures FireJustified(Run(Start(clock, workers, seconds), schedule), slack)
      {
        StrictRun(d, slack, clock, workers, seconds, schedule);
      }
    } else {
      SomeFireIsUnjust(d, slack);
    }
  }

  // ---------------------------------------------------------------- a silent worker

  /** The poll under way has not passed worker w, which was already silent too long at the sample. */
  ghost predicate Closing(s: State, w: nat) {
    w < |s.hearts| &&
    (s.dog.Fired? ||
     (InPoll(s.dog) && s.dog.next <= w
      && s.hearts[w].tick <= s.dog.now < MODULUS && s.dog.now - s.hearts[w].tick > s.timeout && !s.hearts[w].finished))
  }

  function DogSteps(schedule: seq<Action>): nat {
    if schedule == [] then 0
    else DogSteps(schedule[..|schedule| - 1]) + (if schedule[|schedule| - 1].DogStep? then 1 else 0)
  }

  /** Loads left until the poll under way has dealt with worker w: two for each worker up to it. */
  function LoadsLeft(s: State, w: nat): int {
    if s.dog.Polling? then 2 * (w - s.dog.next) + 2
    else if s.dog.SawUnfinished? then 2 * (w - s.dog.next) + 1
    else 0
  }

  lemma ClosingStep(s: State, w: nat, a: Action)
    requires Closing(s, w) && a != StoreTick(w) && a != Finish(w)
    ensures Closing(Step(s, a), w)
    ensures Step(s, a).dog.Fired? || LoadsLeft(Step(s, a), w) + (if a.DogStep? then 1 else 0) <= LoadsLeft(s, w)
  {
    if a == DogStep && s.dog.SawUnfinished? && s.dog.next == w {
      ElapsedForward(s.dog.now, s.hearts[w].tick);
    }
  }

  /** Nothing but that worker's own store or finish can save the process: the poll never completes, and
      after two loads for each worker up to this one it has fired. */
  lemma {:induction false} SilentWorkerIsCaught(s: State, w: nat, schedule: seq<Action>)
    requires Closing(s, w)
    requires StoreTick(w) !in schedule && Finish(w) !in schedule
    ensures Closing(Run(s, schedule), w)
    ensures Run(s, schedule).dog.Fired? || LoadsLeft(Run(s, schedule), w) + DogSteps(schedule) <= LoadsLeft(s, w)
    ensures DogSteps(schedule) >= LoadsLeft(s, w) ==> Run(s, schedule).dog.Fired?
  {
    if schedule != [] {
      var n := |schedule| - 1;
      SilentWorkerIsCaught(s, w, schedule[..n]);
      assert schedule[n] in schedule;
      ClosingStep(Run(s, schedule[..n]), w, schedule[n]);
    }
  }

  // ---------------------------------------------------------------- the end of a run

  predicate AllFinished(s: State) {
    forall w :: 0 <= w < |s.hearts| ==> s.hearts[w].finished
  }

  /** Loads left until the watchdog has seen every worker finished: a whole poll from sleep, and if the
      poll under way has seen one unfinished, the rest of it before that. */
  function StepsToReturn(s: State): int {
    var n := |s.hearts|;
    match s.dog
    case Sleeping => n + 2
    case Polling(_, w, all) => if all then n - w + 1 else n - w + 1 + n + 2
    case SawUnfinished(_, w) => 1 + n - (w + 1) + 1 + n + 2
    case _ => 0
  }

  predicate Armed(s: State) {
    s.dog.Sleeping? || s.dog.Polling? || s.dog.SawUnfinished? || s.dog.Returned?
  }

  lemma FinishedStep(s: State, a: Action)
    requires Inv(s) && AllFinished(s) && Armed(s)
    ensures AllFinished(Step(s, a)) && |Step(s, a).hearts| == |s.hearts|
    ensures Step(s, a).dog.Fired? ==> s.dog.SawUnfinished?
    ensures Step(s, a).dog.Fired? || Armed(Step(s, a))
    ensures s.dog.Returned? ==> Step(s, a).dog.Returned?
    ensures a.DogStep? && !s.dog.Returned? && !Step(s, a).dog.Fired? ==> StepsToReturn(Step(s, a)) + 1 == StepsToReturn(s)
    ensures !a.DogStep? ==> Step(s, a).dog == s.dog && StepsToReturn(Step(s, a)) == StepsToReturn(s)
    ensures StepsToReturn(s) >= 0 && (StepsToReturn(s) == 0 <==> s.dog.Returned?)
    ensures !s.dog.SawUnfinished? ==> !Step(s, a).dog.SawUnfinished?
  {
  }

  /** Once every worker has finished, an armed watchdog returns: after so many of its own loads, however
      the clock and stray stores interleave, it has returned -- or, if the last flag it loaded before
      that was still unset, it may have fired instead. */
  lemma {:induction false} ReturnsOnceAllFinished(s: State, schedule: seq<Action>)
    requires Inv(s) && AllFinished(s) && Armed(s)
    ensures var end := Run(s, schedule);
      && Inv(end) && AllFinished(end) && (end.dog.Fired? ==> s.dog.SawUnfinished?)
      && (end.dog.Fired? || Armed(end)) && (!s.dog.SawUnfinished? ==> !end.dog.SawUnfinished?)
      && (end.dog.Fired? || end.dog.Returned? || StepsToReturn(end) + DogSteps(schedule) == StepsToReturn(s))
    ensures DogSteps(schedule) >= StepsToReturn(s) ==> Run(s, schedule).dog.Returned? || Run(s, schedule).dog.Fired?
    ensures DogSteps(schedule) >= StepsToReturn(s) && !s.dog.SawUnfinished? ==> Run(s, schedule).dog.Returned?
  {
    if schedule != [] {
      var n := |schedule| - 1;
      var t := Run(s, schedule[..n]);
      ReturnsOnceAllFinished(s, schedule[..n]);
      StepInv(t, schedule[n]);
      if Armed(t) { FinishedStep(t, schedule[n]); }
    }
    if Armed(Run(s, schedule)) { FinishedStep(Run(s, schedule), Pass(0)); }
  }

  /** From sleep that is one poll: a load for each worker, one to sample and one to return. */
  lemma SleepingReturnsWithinOnePoll(s: State, schedule: seq<Action>)
    requires Inv(s) && AllFinished(s) && s.dog.Sleeping? && DogSteps(schedule) >= |s.hearts| + 2
    ensures Run(s, schedule).dog == Returned
  {
    ReturnsOnceAllFinished(s, schedule);
  }
}
