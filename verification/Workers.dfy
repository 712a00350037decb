/** The worker pool of one run (run_worker and main in src/main.cpp): every interleaving of workers
    over the shared atomic counters and the two capped dump directories.

    A counter is kept as the number of fetch_add calls so far. The two index counters are 32-bit in
    the source, so the index a fetch returns is that number wrapped.
 */
module Workers {
  import opened Types
  import opened Names

  const MAX_DUMP_FILES: int := 250
  const INT_RANGE: int := 0x1_0000_0000

  /** What std::atomic<int> holds after n increments from zero. */
  function AsInt(n: nat): int {
    var m := n % INT_RANGE;
    if m < 0x8000_0000 then m else m - INT_RANGE
  }

  datatype Verdict = IsFinding | IsOutlier | IsClean

  /** Where a worker stands in its loop body. */
  datatype Pc =
    | Ready                     // about to take its next test case
    | OutlierCounted            // unicorn_outlier_count bumped, no index fetched yet
    | Holding(outlier: bool, ticket: nat)  // index fetched, dump not yet written
    | Dumped                    // about to bump total_done
    | Finished
    | Crashed(at: Pc)

  datatype Worker = Worker(pc: Pc, share: nat, done: nat)

  /** One dump directory: its index counter and the tickets whose file has been written. */
  datatype Directory = Directory(fetched: nat, written: set<int>)

  datatype State = State(
    workers: seq<Worker>, findings: Directory, outliers: Directory, outlierCount: nat, clean: nat, totalDone: nat)

  datatype Move = Begin(v: Verdict) | Advance | Crash
  datatype Action = Action(worker: nat, move: Move)

  // ---------------------------------------------------------------- one atomic step

  function Fetch(d: Directory): Directory {
    d.(fetched := d.fetched + 1)
  }

  /** The index test and the write it guards. */
  function Write(d: Directory, ticket: nat): Directory {
    if AsInt(ticket) < MAX_DUMP_FILES then d.(written := d.written + {ticket}) else d
  }

  function At(s: State, i: nat, pc: Pc): State
    requires i < |s.workers|
  {
    s.(workers := s.workers[i := s.workers[i].(pc := pc)])
  }

  function Started(s: State, i: nat, v: Verdict): State
    requires i < |s.workers|
  {
    match v
    case IsOutlier => At(s, i, OutlierCounted).(outlierCount := s.outlierCount + 1)
    case IsFinding => At(s, i, Holding(false, s.findings.fetched)).(findings := Fetch(s.findings))
    case IsClean => At(s, i, Dumped).(clean := s.clean + 1)
  }

  function Advanced(s: State, i: nat): State
    requires i < |s.workers|
  {
    var w := s.workers[i];
    match w.pc
    case Ready => if w.done == w.share then At(s, i, Finished) else s
    case OutlierCounted => At(s, i, Holding(true, s.outliers.fetched)).(outliers := Fetch(s.outliers))
    case Holding(outlier, t) =>
      if outlier then At(s, i, Dumped).(outliers := Write(s.outliers, t))
      else At(s, i, Dumped).(findings := Write(s.findings, t))
    case Dumped =>
      s.(workers := s.workers[i := w.(pc := Ready, done := w.done + 1)], totalDone := s.totalDone + 1)
    case _ => s
  }

  /** A move that is not possible leaves the state alone. */
  function Step(s: State, a: Action): State {
    if a.worker >= |s.workers| then s
    else
      var w := s.workers[a.worker];
      match a.move
      case Begin(v) => if w.pc.Ready? && w.done < w.share then Started(s, a.worker, v) else s
      case Advance => Advanced(s, a.worker)
      case Crash => if w.pc.Finished? || w.pc.Crashed? then s else At(s, a.worker, Crashed(w.pc))
  }

  function Run(s: State, schedule: seq<Action>): State {
    if schedule == [] then s else Step(Run(s, schedule[..|schedule| - 1]), schedule[|schedule| - 1])
  }

  // ---------------------------------------------------------------- the initial split

  function Share(iterations: nat, threads: nat, w: nat): nat
    requires threads > 0
  {
    iterations / threads + (if w < iterations % threads then 1 else 0)
  }

  function Start(iterations: nat, threads: nat): State
    requires threads > 0
  {
    State(seq(threads, w requires 0 <= w < threads => Worker(Ready, Share(iterations, threads, w), 0)),
          Directory(0, {}), Directory(0, {}), 0, 0, 0)
  }

  // ---------------------------------------------------------------- counting over workers

  function Sum(ws: seq<Worker>, f: Worker -> nat): nat {
    if ws == [] then 0 else Sum(ws[..|ws| - 1], f) + f(ws[|ws| - 1])
  }

  lemma {:induction false} SumUpdate(ws: seq<Worker>, i: nat, w: Worker, f: Worker -> nat)
    requires i < |ws|
    ensures Sum(ws[i := w], f) == Sum(ws, f) - f(ws[i]) + f(w)
  {
    var n := |ws| - 1;
    if i == n {
      assert ws[i := w][..n] == ws[..n];
    } else {
      assert ws[i := w][..n] == ws[..n][i := w];
      SumUpdate(ws[..n], i, w, f);
    }
  }

  lemma {:induction false} SumZero(ws: seq<Worker>, f: Worker -> nat)
    requires forall i :: 0 <= i < |ws| ==> f(ws[i]) == 0
    ensures Sum(ws, f) == 0
  {
    if ws != [] { SumZero(ws[..|ws| - 1], f); }
  }

  lemma {:induction false} SumLess(ws: seq<Worker>, f: Worker -> nat, g: Worker -> nat)
    requires forall i :: 0 <= i < |ws| ==> f(ws[i]) <= g(ws[i])
    ensures Sum(ws, f) <= Sum(ws, g)
    ensures (forall i :: 0 <= i < |ws| ==> f(ws[i]) == g(ws[i])) ==> Sum(ws, f) == Sum(ws, g)
  {
    if ws != [] { SumLess(ws[..|ws| - 1], f, g); }
  }

  function Where(w: Worker): Pc {
    if w.pc.Crashed? then w.pc.at else w.pc
  }

  function DoneOf(w: Worker): nat { w.done }
  function ShareOf(w: Worker): nat { w.share }
  function AwaitsIndex(w: Worker): nat { if Where(w).OutlierCounted? then 1 else 0 }
  function AwaitsTotal(w: Worker): nat { if Where(w).Holding? || Where(w).Dumped? then 1 else 0 }

  lemma {:induction false} SumOfShares(ws: seq<Worker>, q: nat, r: nat)
    requires forall w :: 0 <= w < |ws| ==> ws[w].share == q + (if w < r then 1 else 0)
    ensures Sum(ws, ShareOf) == |ws| * q + (if |ws| < r then |ws| else r)
  {
    if ws != [] {
      var n := |ws| - 1;
      SumOfShares(ws[..n], q, r);
      assert |ws| * q == n * q + q;
    }
  }

  /** The shares add up to the iterations asked for. */
  /** No worker gets more than one test case more than another. */
  lemma SharesBalanced(iterations: nat, threads: nat, v: nat, w: nat)
    requires v < threads && w < threads
    ensures -1 <= Share(iterations, threads, v) - Share(iterations, threads, w) <= 1
  {
  }

  lemma SharesAddUp(iterations: nat, threads: nat)
    requires 0 < threads
    ensures Sum(Start(iterations, threads).workers, ShareOf) == iterations
  {
    SumOfShares(Start(iterations, threads).workers, iterations / threads, iterations % threads);
  }

  // ---------------------------------------------------------------- the invariant

  function DirectoryOf(s: State, outlier: bool): Directory {
    if outlier then s.outliers else s.findings
  }

  /** The ticket a worker holds for one of the two directories, or -1. */
  function TicketOf(w: Worker, outlier: bool): int {
    if w.pc.Holding? && w.pc.outlier == outlier then w.pc.ticket else -1
  }

  /** Tickets are handed out once, written at most once, and only under the cap. */
  ghost predicate TicketsOk(ws: seq<Worker>, outlier: bool, d: Directory) {
    && (forall t :: t in d.written ==> 0 <= t < d.fetched && AsInt(t) < MAX_DUMP_FILES)
    && (forall i :: 0 <= i < |ws| ==> TicketOf(ws[i], outlier) < d.fetched && TicketOf(ws[i], outlier) !in d.written)
    && (forall i, j :: 0 <= i < j < |ws| && TicketOf(ws[i], outlier) == TicketOf(ws[j], outlier) ==>
          TicketOf(ws[i], outlier) == -1)
  }

  /** Unless a worker died holding it, a ticket under the cap is written or about to be. */
  ghost predicate NoneLost(ws: seq<Worker>, outlier: bool, d: Directory) {
    (forall i :: 0 <= i < |ws| ==> !ws[i].pc.Crashed?) ==>
    forall t: nat :: t < d.fetched && AsInt(t) < MAX_DUMP_FILES ==>
      t in d.written || HeldBySome(ws, outlier, t)
  }

  ghost predicate HeldBySome(ws: seq<Worker>, outlier: bool, t: nat) {
    exists i :: 0 <= i < |ws| && TicketOf(ws[i], outlier) == t
  }

  /** What one step may do to one directory and the worker that took it. */
  ghost predicate DirectoryStep(w: Worker, w': Worker, outlier: bool, d: Directory, d': Directory) {
    var t, t' := TicketOf(w, outlier), TicketOf(w', outlier);
    || (d' == d && t' == t)
    || (d' == Fetch(d) && t == -1 && t' == d.fetched)
    || (t >= 0 && d' == Write(d, t) && t' == -1)
    || (d' == d && w'.pc.Crashed? && t' == -1)
  }

  ghost predicate WorkersOk(s: State) {
    forall i :: 0 <= i < |s.workers| ==>
      var w := s.workers[i];
      && w.done <= w.share
      && !Where(w).Crashed?
      && (AwaitsIndex(w) + AwaitsTotal(w) > 0 ==> w.done < w.share)
      && (w.pc.Finished? ==> w.done == w.share)
  }

  ghost predicate CountsOk(s: State) {
    && s.totalDone == Sum(s.workers, DoneOf)
    && s.outlierCount == s.outliers.fetched + Sum(s.workers, AwaitsIndex)
    && s.findings.fetched + s.outliers.fetched + s.clean == s.totalDone + Sum(s.workers, AwaitsTotal)
  }

  ghost predicate Inv(s: State) {
    && WorkersOk(s) && CountsOk(s)
    && TicketsOk(s.workers, false, s.findings) && TicketsOk(s.workers, true, s.outliers)
    && NoneLost(s.workers, false, s.findings) && NoneLost(s.workers, true, s.outliers)
  }

  /** How one step moves the global counters against the contribution of the worker that took it. */
  ghost predicate CountStep(s: State, w: Worker, s': State, w': Worker) {
    && s'.totalDone - s.totalDone == w'.done - w.done
    && s'.outlierCount - s.outlierCount == s'.outliers.fetched - s.outliers.fetched + AwaitsIndex(w') - AwaitsIndex(w)
    && s'.findings.fetched + s'.outliers.fetched + s'.clean - s.findings.fetched - s.outliers.fetched - s.clean
       == s'.totalDone - s.totalDone + AwaitsTotal(w') - AwaitsTotal(w)
  }

  lemma StepIsCountStep(s: State, a: Action)
    requires a.worker < |s.workers|
    ensures Step(s, a).workers == s.workers[a.worker := Step(s, a).workers[a.worker]]
    ensures CountStep(s, s.workers[a.worker], Step(s, a), Step(s, a).workers[a.worker])
  {
  }

  lemma StepCounts(s: State, a: Action)
    requires CountsOk(s)
    ensures CountsOk(Step(s, a))
  {
    var i := a.worker;
    if i < |s.workers| {
      StepIsCountStep(s, a);
      CountsKept(s, i, Step(s, a), Step(s, a).workers[i]);
    }
  }

  lemma CountsKept(s: State, i: nat, s': State, w': Worker)
    requires i < |s.workers| && CountsOk(s) && s'.workers == s.workers[i := w'] && CountStep(s, s.workers[i], s', w')
    ensures CountsOk(s')
  {
    SumUpdate(s.workers, i, w', DoneOf);
    SumUpdate(s.workers, i, w', AwaitsIndex);
    SumUpdate(s.workers, i, w', AwaitsTotal);
  }

  lemma StepIsDirectoryStep(s: State, a: Action)
    requires a.worker < |s.workers|
    ensures Step(s, a).workers == s.workers[a.worker := Step(s, a).workers[a.worker]]
    ensures var w, w' := s.workers[a.worker], Step(s, a).workers[a.worker];
      && DirectoryStep(w, w', false, s.findings, Step(s, a).findings)
      && DirectoryStep(w, w', true, s.outliers, Step(s, a).outliers)
      && (w.pc.Crashed? ==> w'.pc.Crashed?)
  {
  }

  lemma DirectoryStepTickets(ws: seq<Worker>, i: nat, w': Worker, outlier: bool, d: Directory, d': Directory)
    requires i < |ws| && TicketsOk(ws, outlier, d) && DirectoryStep(ws[i], w', outlier, d, d')
    ensures TicketsOk(ws[i := w'], outlier, d')
  {
    assert TicketOf(ws[i], outlier) < d.fetched;
  }

  lemma DirectoryStepNoneLost(ws: seq<Worker>, i: nat, w': Worker, outlier: bool, d: Directory, d': Directory)
    requires i < |ws| && NoneLost(ws, outlier, d) && DirectoryStep(ws[i], w', outlier, d, d')
    requires ws[i].pc.Crashed? ==> w'.pc.Crashed?
    ensures NoneLost(ws[i := w'], outlier, d')
  {
    var ws' := ws[i := w'];
    if forall j :: 0 <= j < |ws'| ==> !ws'[j].pc.Crashed? {
      assert !ws'[i].pc.Crashed?;
      assert forall j :: 0 <= j < |ws| && j != i ==> ws'[j] == ws[j];
      assert forall j :: 0 <= j < |ws| ==> !ws[j].pc.Crashed?;
      forall t: nat | t < d'.fetched && AsInt(t) < MAX_DUMP_FILES && t !in d'.written
        ensures HeldBySome(ws', outlier, t)
      {
        if t == d.fetched {
          assert TicketOf(ws'[i], outlier) == t;
        } else {
          var j :| 0 <= j < |ws| && TicketOf(ws[j], outlier) == t;
          assert TicketOf(ws'[j], outlier) == t;
        }
      }
    }
  }

  lemma StepWorkers(s: State, a: Action)
    requires WorkersOk(s)
    ensures WorkersOk(Step(s, a))
  {
  }

  lemma StepDirectory(s: State, a: Action, outlier: bool)
    requires a.worker < |s.workers|
    requires TicketsOk(s.workers, outlier, DirectoryOf(s, outlier))
    requires NoneLost(s.workers, outlier, DirectoryOf(s, outlier))
    ensures TicketsOk(Step(s, a).workers, outlier, DirectoryOf(Step(s, a), outlier))
    ensures NoneLost(Step(s, a).workers, outlier, DirectoryOf(Step(s, a), outlier))
  {
    StepIsDirectoryStep(s, a);
    var w', d, d' := Step(s, a).workers[a.worker], DirectoryOf(s, outlier), DirectoryOf(Step(s, a), outlier);
    DirectoryStepTickets(s.workers, a.worker, w', outlier, d, d');
    DirectoryStepNoneLost(s.workers, a.worker, w', outlier, d, d');
  }

  lemma StepShares(s: State, a: Action)
    ensures Sum(Step(s, a).workers, ShareOf) == Sum(s.workers, ShareOf)
  {
    if a.worker < |s.workers| {
      StepIsDirectoryStep(s, a);
      SumUpdate(s.workers, a.worker, Step(s, a).workers[a.worker], ShareOf);
    }
  }

  /** Every step of every worker keeps the invariant. */
  lemma StepInv(s: State, a: Action)
    requires Inv(s)
    ensures Inv(Step(s, a))
  {
    StepWorkers(s, a);
    StepCounts(s, a);
    if a.worker < |s.workers| {
      StepDirectory(s, a, false);
      StepDirectory(s, a, true);
    }
  }

  lemma StartInv(iterations: nat, threads: nat)
    requires threads > 0
    ensures Inv(Start(iterations, threads))
    ensures Sum(Start(iterations, threads).workers, ShareOf) == iterations
  {
    SharesAddUp(iterations, threads);
    FreshInv(Start(iterations, threads));
  }

  lemma FreshInv(s: State)
    requires forall i :: 0 <= i < |s.workers| ==> s.workers[i].pc == Ready && s.workers[i].done == 0
    requires s.findings == s.outliers == Directory(0, {}) && s.outlierCount == s.clean == s.totalDone == 0
    ensures Inv(s)
  {
    SumZero(s.workers, DoneOf);
    SumZero(s.workers, AwaitsIndex);
    SumZero(s.workers, AwaitsTotal);
  }

  /** The invariant holds in every state any interleaving can reach. */
  lemma {:induction false} RunInv(iterations: nat, threads: nat, schedule: seq<Action>)
    requires threads > 0
    ensures Inv(Run(Start(iterations, threads), schedule))
    ensures Sum(Run(Start(iterations, threads), schedule).workers, ShareOf) == iterations
  {
    if schedule == [] {
      StartInv(iterations, threads);
    } else {
      var n := |schedule| - 1;
      RunInv(iterations, threads, schedule[..n]);
      StepInv(Run(Start(iterations, threads), schedule[..n]), schedule[n]);
      StepShares(Run(Start(iterations, threads), schedule[..n]), schedule[n]);
    }
  }

  // ---------------------------------------------------------------- what a run guarantees

  lemma AsIntInjective(t: nat, u: nat)
    requires t < INT_RANGE && u < INT_RANGE && AsInt(t) == AsInt(u)
    ensures t == u
  {
  }

  /** Whatever the interleaving, a worker about to write a dump writes a name nobody wrote before,
      as long as the 32-bit index has not gone all the way round. */
  lemma NoDumpOverwritten(iterations: nat, threads: nat, schedule: seq<Action>, i: nat, outlier: bool, t: nat, u: nat)
    requires threads > 0
    requires var s := Run(Start(iterations, threads), schedule);
      && i < |s.workers| && TicketOf(s.workers[i], outlier) == t && u in DirectoryOf(s, outlier).written
      && DirectoryOf(s, outlier).fetched <= INT_RANGE
    ensures FindingFile(AsInt(t)) != FindingFile(AsInt(u))
  {
    RunInv(iterations, threads, schedule);
    if FindingFile(AsInt(t)) == FindingFile(AsInt(u)) {
      FindingFileInjective(AsInt(t), AsInt(u));
      AsIntInjective(t, u);
    }
  }

  /** Nor do two workers holding tickets at the same moment ever hold the same name. */
  lemma NoDumpRace(iterations: nat, threads: nat, schedule: seq<Action>, i: nat, j: nat, outlier: bool, t: nat, u: nat)
    requires threads > 0
    requires var s := Run(Start(iterations, threads), schedule);
      && i < |s.workers| && j < |s.workers| && i != j
      && TicketOf(s.workers[i], outlier) == t && TicketOf(s.workers[j], outlier) == u
      && DirectoryOf(s, outlier).fetched <= INT_RANGE
    ensures FindingFile(AsInt(t)) != FindingFile(AsInt(u))
  {
    RunInv(iterations, threads, schedule);
    if FindingFile(AsInt(t)) == FindingFile(AsInt(u)) {
      FindingFileInjective(AsInt(t), AsInt(u));
      AsIntInjective(t, u);
    }
  }

  ghost predicate Quiescent(s: State) {
    forall i :: 0 <= i < |s.workers| ==> s.workers[i].pc.Finished?
  }

  /** When every worker has run to its end, all totals agree. */
  lemma QuiescentTotals(iterations: nat, threads: nat, schedule: seq<Action>)
    requires threads > 0
    requires Quiescent(Run(Start(iterations, threads), schedule))
    ensures var s := Run(Start(iterations, threads), schedule);
      && s.totalDone == iterations
      && s.findings.fetched + s.outliers.fetched + s.clean == s.totalDone
      && s.outlierCount == s.outliers.fetched
  {
    var s := Run(Start(iterations, threads), schedule);
    RunInv(iterations, threads, schedule);
    SumZero(s.workers, AwaitsIndex);
    SumZero(s.workers, AwaitsTotal);
    SumLess(s.workers, DoneOf, ShareOf);
  }

  /** With or without crashes, at any moment, nothing is counted that was not run. */
  lemma TotalsNeverOvershoot(iterations: nat, threads: nat, schedule: seq<Action>)
    requires threads > 0
    ensures var s := Run(Start(iterations, threads), schedule);
      && s.totalDone <= iterations
      && s.outliers.fetched <= s.outlierCount
      && s.totalDone <= s.findings.fetched + s.outliers.fetched + s.clean <= iterations
  {
    var s := Run(Start(iterations, threads), schedule);
    RunInv(iterations, threads, schedule);
    SumLess(s.workers, DoneOf, ShareOf);
    SumOfSum(s.workers);
    SumLess(s.workers, DoneOrAwaiting, ShareOf);
  }

  function DoneOrAwaiting(w: Worker): nat { w.done + AwaitsTotal(w) }

  lemma {:induction false} SumOfSum(ws: seq<Worker>)
    ensures Sum(ws, DoneOrAwaiting) == Sum(ws, DoneOf) + Sum(ws, AwaitsTotal)
  {
    if ws != [] { SumOfSum(ws[..|ws| - 1]); }
  }

  // ---------------------------------------------------------------- the cap

  /** The dump files of a directory, by name: tickets that wrap to one index share a file. */
  function Files(tickets: set<int>): set<string> {
    set t | t in tickets && t >= 0 :: FindingFile(AsInt(t))
  }

  lemma FilesSubset(a: set<int>, b: set<int>)
    requires a <= b
    ensures |Files(a)| <= |Files(b)|
  {
    assert Files(a) <= Files(b);
    assert Files(b) == Files(a) + (Files(b) - Files(a));
  }

  function Below(n: nat): (s: set<int>)
    ensures |s| == n && forall t :: t in s <==> 0 <= t < n
  {
    if n == 0 then {} else Below(n - 1) + {n - 1}
  }

  /** Below 2^31 every ticket has a file of its own. */
  lemma {:induction false} FilesBelow(n: nat)
    requires n <= 0x8000_0000
    ensures |Files(Below(n))| == n
  {
    if n != 0 {
      FilesBelow(n - 1);
      FileAdded(Below(n - 1), n - 1);
    }
  }

  lemma FileAdded(tickets: set<int>, x: int)
    requires 0 <= x < INT_RANGE && x !in tickets && forall t :: t in tickets ==> 0 <= t < INT_RANGE
    ensures |Files(tickets + {x})| == |Files(tickets)| + 1
  {
    var name := FindingFile(AsInt(x));
    assert Files(tickets + {x}) == Files(tickets) + {name};
    if name in Files(tickets) {
      var t :| t in tickets && t >= 0 && FindingFile(AsInt(t)) == name;
      FindingFileInjective(AsInt(t), AsInt(x));
      AsIntInjective(t, x);
    }
  }

  lemma FilesUnderCap(d: Directory)
    requires d.fetched <= 0x8000_0000
    requires forall t :: t in d.written ==> 0 <= t < d.fetched && AsInt(t) < MAX_DUMP_FILES
    ensures |Files(d.written)| <= MAX_DUMP_FILES
  {
    var cap: nat :| cap == MAX_DUMP_FILES;
    forall t | t in d.written ensures t in Below(cap) {
      SmallIndex(t);
    }
    FilesSubset(d.written, Below(cap));
    FilesBelow(cap);
  }

  lemma SmallIndex(t: nat)
    requires t < 0x8000_0000
    ensures AsInt(t) == t
  {
  }

  lemma PassesTheTest(t: nat)
    requires t < MAX_DUMP_FILES || t == 0x8000_0000
    ensures AsInt(t) < MAX_DUMP_FILES
  {
  }

  function OneTooMany(cap: nat): (s: set<int>)
    requires cap <= 0x8000_0000
    ensures |s| == cap + 1 && forall t :: t in s ==> 0 <= t < cap || t == 0x8000_0000
  {
    Below(cap) + {0x8000_0000}
  }

  lemma FilesOverCap(d: Directory)
    requires d.fetched > 0x8000_0000
    requires forall t: nat :: t < d.fetched && AsInt(t) < MAX_DUMP_FILES ==> t in d.written
    ensures |Files(d.written)| > MAX_DUMP_FILES
  {
    var cap: nat :| cap == MAX_DUMP_FILES;
    forall t | t in OneTooMany(cap) ensures t in d.written {
      PassesTheTest(t);
    }
    FilesSubset(OneTooMany(cap), d.written);
    FilesBelow(cap);
    FileAdded(Below(cap), 0x8000_0000);
  }

  /** At quiescence a directory holds more files than the cap exactly when its index counter went
      past the largest int: the wrapped, negative indices pass the `< cap` test again. */
  lemma CapHoldsIff(iterations: nat, threads: nat, schedule: seq<Action>, outlier: bool)
    requires threads > 0
    requires Quiescent(Run(Start(iterations, threads), schedule))
    ensures var d := DirectoryOf(Run(Start(iterations, threads), schedule), outlier);
      |Files(d.written)| <= MAX_DUMP_FILES <==> d.fetched <= 0x8000_0000
  {
    var s := Run(Start(iterations, threads), schedule);
    var d := DirectoryOf(s, outlier);
    RunInv(iterations, threads, schedule);
    assert TicketsOk(s.workers, outlier, d) && NoneLost(s.workers, outlier, d);
    if d.fetched <= 0x8000_0000 {
      FilesUnderCap(d);
    } else {
      AllWritten(s.workers, outlier, d);
      FilesOverCap(d);
    }
  }

  lemma AllWritten(ws: seq<Worker>, outlier: bool, d: Directory)
    requires NoneLost(ws, outlier, d) && forall i :: 0 <= i < |ws| ==> ws[i].pc.Finished?
    ensures forall t: nat :: t < d.fetched && AsInt(t) < MAX_DUMP_FILES ==> t in d.written
  {
  }

  /** Before that point the cap holds at every moment, crashes included. */
  lemma CapHolds(iterations: nat, threads: nat, schedule: seq<Action>, outlier: bool)
    requires threads > 0
    requires DirectoryOf(Run(Start(iterations, threads), schedule), outlier).fetched <= 0x8000_0000
    ensures |Files(DirectoryOf(Run(Start(iterations, threads), schedule), outlier).written)| <= MAX_DUMP_FILES
  {
    var s := Run(Start(iterations, threads), schedule);
    RunInv(iterations, threads, schedule);
    assert TicketsOk(s.workers, outlier, DirectoryOf(s, outlier));
    FilesUnderCap(DirectoryOf(s, outlier));
  }

  // ---------------------------------------------------------------- a run of nothing but findings

  function AllFindings(n: nat): seq<Action> {
    if n == 0 then []
    else AllFindings(n - 1) + [Action(0, Begin(IsFinding))] + [Action(0, Advance)] + [Action(0, Advance)]
  }

  function WrittenBelow(n: nat): set<int> {
    if n == 0 then {}
    else if AsInt(n - 1) < MAX_DUMP_FILES then WrittenBelow(n - 1) + {n - 1}
    else WrittenBelow(n - 1)
  }

  /** A lone worker with n test cases behind it, each of them a finding. */
  function Solo(iterations: nat, n: nat, pc: Pc, fetched: nat, written: nat): State {
    State([Worker(pc, iterations, n)], Directory(fetched, WrittenBelow(written)), Directory(0, {}), 0, 0, n)
  }

  lemma OneMore(s: State, schedule: seq<Action>, t: State, a: Action, t': State)
    requires Run(s, schedule) == t && Step(t, a) == t'
    ensures Run(s, schedule + [a]) == t'
  {
    assert (schedule + [a])[..|schedule|] == schedule;
  }

  /** The three steps of one more finding. */
  lemma SoloTurn(iterations: nat, n: nat)
    requires n < iterations
    ensures Step(Solo(iterations, n, Ready, n, n), Action(0, Begin(IsFinding)))
         == Solo(iterations, n, Holding(false, n), n + 1, n)
    ensures Step(Solo(iterations, n, Holding(false, n), n + 1, n), Action(0, Advance))
         == Solo(iterations, n, Dumped, n + 1, n + 1)
    ensures Step(Solo(iterations, n, Dumped, n + 1, n + 1), Action(0, Advance))
         == Solo(iterations, n + 1, Ready, n + 1, n + 1)
  {
    assert Write(Directory(n + 1, WrittenBelow(n)), n) == Directory(n + 1, WrittenBelow(n + 1));
  }

  lemma SoloStart(iterations: nat)
    ensures Start(iterations, 1) == Solo(iterations, 0, Ready, 0, 0)
  {
  }

  lemma FindingAppended(start: State, iterations: nat, n: nat, p: seq<Action>)
    requires n < iterations && Run(start, p) == Solo(iterations, n, Ready, n, n)
    ensures Run(start, p + [Action(0, Begin(IsFinding))] + [Action(0, Advance)] + [Action(0, Advance)])
         == Solo(iterations, n + 1, Ready, n + 1, n + 1)
  {
    var p1 := p + [Action(0, Begin(IsFinding))];
    var p2 := p1 + [Action(0, Advance)];
    SoloTurn(iterations, n);
    var t1, t2 := Solo(iterations, n, Holding(false, n), n + 1, n), Solo(iterations, n, Dumped, n + 1, n + 1);
    OneMore(start, p, Solo(iterations, n, Ready, n, n), Action(0, Begin(IsFinding)), t1);
    OneMore(start, p1, t1, Action(0, Advance), t2);
    OneMore(start, p2, t2, Action(0, Advance), Solo(iterations, n + 1, Ready, n + 1, n + 1));
  }

  lemma {:induction false} AllFindingsRun(iterations: nat, n: nat)
    requires n <= iterations
    ensures Run(Start(iterations, 1), AllFindings(n)) == Solo(iterations, n, Ready, n, n)
  {
    if n == 0 {
      SoloStart(iterations);
    } else {
      AllFindingsRun(iterations, n - 1);
      FindingAppended(Start(iterations, 1), iterations, n - 1, AllFindings(n - 1));
    }
  }

  /** Run to its end. */
  lemma AllFindingsQuiescent(iterations: nat)
    ensures var end := Run(Start(iterations, 1), AllFindings(iterations) + [Action(0, Advance)]);
      end == Solo(iterations, iterations, Finished, iterations, iterations) && Quiescent(end)
  {
    var n := iterations;
    AllFindingsRun(n, n);
    OneMore(Start(n, 1), AllFindings(n), Solo(n, n, Ready, n, n), Action(0, Advance), Solo(n, n, Finished, n, n));
  }

  // ---------------------------------------------------------------- exactly which runs are safe

  lemma FetchedAtMost(iterations: nat, threads: nat, schedule: seq<Action>, outlier: bool)
    requires threads > 0
    ensures DirectoryOf(Run(Start(iterations, threads), schedule), outlier).fetched <= iterations
  {
    TotalsNeverOvershoot(iterations, threads, schedule);
  }

  ghost predicate WithinCap(s: State) {
    |Files(s.findings.written)| <= MAX_DUMP_FILES && |Files(s.outliers.written)| <= MAX_DUMP_FILES
  }

  /** Neither directory ever exceeds its cap, whatever the threads and the schedule, exactly if at most
      2^31 iterations are asked for. */
  lemma CapKeptIff(iterations: nat)
    ensures (forall threads: nat, schedule: seq<Action> :: threads > 0 ==> WithinCap(Run(Start(iterations, threads), schedule)))
      <==> iterations <= 0x8000_0000
  {
    if iterations <= 0x8000_0000 {
      forall threads: nat, schedule: seq<Action> | threads > 0
        ensures WithinCap(Run(Start(iterations, threads), schedule))
      {
        FetchedAtMost(iterations, threads, schedule, false);
        FetchedAtMost(iterations, threads, schedule, true);
        CapHolds(iterations, threads, schedule, false);
        CapHolds(iterations, threads, schedule, true);
      }
    } else {
      AllFindingsQuiescent(iterations);
      var schedule := AllFindings(iterations) + [Action(0, Advance)];
      CapHoldsIff(iterations, 1, schedule, false);
      assert !WithinCap(Run(Start(iterations, 1), schedule));
    }
  }

  /** The worker holds an index under the cap and is about to write its file. */
  predicate Writing(w: Worker, outlier: bool) {
    TicketOf(w, outlier) >= 0 && AsInt(TicketOf(w, outlier)) < MAX_DUMP_FILES
  }

  function FileOf(w: Worker, outlier: bool): string
    requires Writing(w, outlier)
  {
    FindingFile(AsInt(TicketOf(w, outlier)))
  }

  /** Nobody is about to write a file that exists, or that another worker is about to write. */
  ghost predicate NoClash(s: State, outlier: bool) {
    forall i :: 0 <= i < |s.workers| && Writing(s.workers[i], outlier) ==>
      && FileOf(s.workers[i], outlier) !in Files(DirectoryOf(s, outlier).written)
      && forall j :: 0 <= j < |s.workers| && j != i && Writing(s.workers[j], outlier) ==>
           FileOf(s.workers[j], outlier) != FileOf(s.workers[i], outlier)
  }

  lemma NoClashBelow(iterations: nat, threads: nat, schedule: seq<Action>, outlier: bool)
    requires threads > 0 && iterations <= INT_RANGE
    ensures NoClash(Run(Start(iterations, threads), schedule), outlier)
  {
    var s := Run(Start(iterations, threads), schedule);
    FetchedAtMost(iterations, threads, schedule, outlier);
    forall i | 0 <= i < |s.workers| && Writing(s.workers[i], outlier)
      ensures FileOf(s.workers[i], outlier) !in Files(DirectoryOf(s, outlier).written)
    {
      var name, t := FileOf(s.workers[i], outlier), TicketOf(s.workers[i], outlier);
      if name in Files(DirectoryOf(s, outlier).written) {
        var u :| u in DirectoryOf(s, outlier).written && u >= 0 && FindingFile(AsInt(u)) == name;
        NoDumpOverwritten(iterations, threads, schedule, i, outlier, t, u);
      }
    }
    forall i, j | 0 <= i < |s.workers| && 0 <= j < |s.workers| && j != i
                  && Writing(s.workers[i], outlier) && Writing(s.workers[j], outlier)
      ensures FileOf(s.workers[j], outlier) != FileOf(s.workers[i], outlier)
    {
      NoDumpRace(iterations, threads, schedule, i, j, outlier,
                 TicketOf(s.workers[i], outlier), TicketOf(s.workers[j], outlier));
    }
  }

  lemma {:induction false} ZeroWritten(n: nat)
    requires n > 0
    ensures 0 in WrittenBelow(n)
  {
    if n > 1 { ZeroWritten(n - 1); }
  }

  /** With one more iteration than there are ints, the last finding writes over the first. */
  lemma LastOverwritesFirst(iterations: nat)
    requires iterations > INT_RANGE
    ensures !NoClash(Run(Start(iterations, 1), AllFindings(INT_RANGE) + [Action(0, Begin(IsFinding))]), false)
  {
    var n: nat :| n == INT_RANGE;
    AllFindingsRun(iterations, n);
    SoloTurn(iterations, n);
    var s := Solo(iterations, n, Holding(false, n), n + 1, n);
    OneMore(Start(iterations, 1), AllFindings(n), Solo(iterations, n, Ready, n, n), Action(0, Begin(IsFinding)), s);
    ZeroWritten(n);
    assert Writing(s.workers[0], false) && FileOf(s.workers[0], false) == FindingFile(AsInt(0));
    assert FindingFile(AsInt(0)) in Files(s.findings.written);
  }

  /** No two writers ever get the same file name, whatever the threads and the schedule, exactly if at
      most 2^32 iterations are asked for. */
  lemma NamesDistinctIff(iterations: nat)
    ensures (forall threads: nat, schedule: seq<Action>, outlier: bool :: threads > 0 ==>
        NoClash(Run(Start(iterations, threads), schedule), outlier))
      <==> iterations <= INT_RANGE
  {
    if iterations <= INT_RANGE {
      forall threads: nat, schedule: seq<Action>, outlier: bool | threads > 0
        ensures NoClash(Run(Start(iterations, threads), schedule), outlier)
      {
        NoClashBelow(iterations, threads, schedule, outlier);
      }
    } else {
      LastOverwritesFirst(iterations);
    }
  }

  /** The finding count that is printed is an int. */
  ghost predicate CountExact(s: State) {
    AsInt(s.findings.fetched) == s.findings.fetched
  }

  /** The printed count is the number of findings, whatever the threads and the schedule, exactly if
      fewer than 2^31 iterations are asked for. */
  lemma CountExactIff(iterations: nat)
    ensures (forall threads: nat, schedule: seq<Action> :: threads > 0 ==> CountExact(Run(Start(iterations, threads), schedule)))
      <==> iterations < 0x8000_0000
  {
    if iterations < 0x8000_0000 {
      forall threads: nat, schedule: seq<Action> | threads > 0
        ensures CountExact(Run(Start(iterations, threads), schedule))
      {
        FetchedAtMost(iterations, threads, schedule, false);
      }
    } else {
      var n: nat :| n == 0x8000_0000;
      AllFindingsRun(iterations, n);
      assert !CountExact(Run(Start(iterations, 1), AllFindings(n)));
    }
  }

  // ---------------------------------------------------------------- every worker gets to its end

  /** The next move of a worker that does not crash; v is what its next case turns out to be. */
  function Turn(s: State, i: nat, v: Verdict): State {
    if i < |s.workers| && s.workers[i].pc.Ready? && s.workers[i].done < s.workers[i].share
    then Step(s, Action(i, Begin(v)))
    else Step(s, Action(i, Advance))
  }

  /** Moves a worker still has to make, at most: four for each case and one to finish. */
  function WorkLeft(w: Worker): int {
    4 * (w.share - w.done) + (match w.pc
      case Ready => 1
      case OutlierCounted => 0
      case Holding(_, _) => -1
      case Dumped => -2
      case _ => -(4 * (w.share - w.done)))
  }

  lemma TurnProgress(s: State, i: nat, v: Verdict)
    requires WorkersOk(s) && i < |s.workers| && !s.workers[i].pc.Crashed?
    ensures var w, w' := s.workers[i], Turn(s, i, v).workers[i];
      && |Turn(s, i, v).workers| == |s.workers| && !w'.pc.Crashed? && WorkLeft(w) >= 0
      && (w.pc.Finished? ==> w'.pc.Finished?)
      && (!w.pc.Finished? ==> WorkLeft(w') < WorkLeft(w))
      && (WorkLeft(w) == 0 ==> w.pc.Finished?)
  {
  }

  function Turns(s: State, i: nat, verdicts: seq<Verdict>): State
    decreases |verdicts|
  {
    if verdicts == [] then s else Turns(Turn(s, i, verdicts[0]), i, verdicts[1..])
  }

  /** Whatever its cases turn out to be, a worker that does not crash has finished after that many moves. */
  lemma {:induction false} WorkerFinishes(s: State, i: nat, verdicts: seq<Verdict>)
    requires WorkersOk(s) && i < |s.workers| && !s.workers[i].pc.Crashed?
    requires |verdicts| >= WorkLeft(s.workers[i])
    ensures i < |Turns(s, i, verdicts).workers| && Turns(s, i, verdicts).workers[i].pc.Finished?
    decreases |verdicts|
  {
    if verdicts == [] {
      TurnProgress(s, i, IsClean);
    } else {
      TurnProgress(s, i, verdicts[0]);
      StepWorkers(s, Action(i, Begin(verdicts[0])));
      StepWorkers(s, Action(i, Advance));
      WorkerFinishes(Turn(s, i, verdicts[0]), i, verdicts[1..]);
    }
  }

  /** What one uninterrupted case adds, by what it turns out to be: one to its own count, one to the total,
      and a file if the index it fetched passes the test. */
  function Counted(s: State, i: nat, v: Verdict): State
    requires i < |s.workers|
  {
    var w := s.workers[i];
    var t := s.(workers := s.workers[i := w.(done := w.done + 1)], totalDone := s.totalDone + 1);
    match v
    case IsClean => t.(clean := s.clean + 1)
    case IsFinding => t.(findings := Write(Fetch(s.findings), s.findings.fetched))
    case IsOutlier =>
      t.(outlierCount := s.outlierCount + 1, outliers := Write(Fetch(s.outliers), s.outliers.fetched))
  }

  predicate AtCase(s: State, i: nat) {
    i < |s.workers| && s.workers[i].pc.Ready? && s.workers[i].done < s.workers[i].share
  }

  lemma CountedClean(s: State, i: nat)
    requires AtCase(s, i)
    ensures Turns(s, i, [IsClean, IsClean]) == Counted(s, i, IsClean)
  {
    FourTurns(s, i, IsClean);
  }

  lemma CountedFinding(s: State, i: nat)
    requires AtCase(s, i)
    ensures Turns(s, i, [IsFinding, IsFinding, IsFinding]) == Counted(s, i, IsFinding)
  {
    var t1 := Turn(s, i, IsFinding);
    assert t1 == At(s, i, Holding(false, s.findings.fetched)).(findings := Fetch(s.findings));
    FourTurns(s, i, IsFinding);
  }

  lemma CountedOutlier(s: State, i: nat)
    requires AtCase(s, i)
    ensures Turns(s, i, [IsOutlier, IsOutlier, IsOutlier, IsOutlier]) == Counted(s, i, IsOutlier)
  {
    var t1 := Turn(s, i, IsOutlier);
    assert t1 == At(s, i, OutlierCounted).(outlierCount := s.outlierCount + 1);
    var t2 := Turn(t1, i, IsOutlier);
    assert t2 == At(t1, i, Holding(true, s.outliers.fetched)).(outliers := Fetch(s.outliers));
    FourTurns(s, i, IsOutlier);
  }

  lemma FourTurns(s: State, i: nat, v: Verdict)
    ensures Turns(s, i, [v, v]) == Turn(Turn(s, i, v), i, v)
    ensures Turns(s, i, [v, v, v]) == Turn(Turn(Turn(s, i, v), i, v), i, v)
    ensures Turns(s, i, [v, v, v, v]) == Turn(Turn(Turn(Turn(s, i, v), i, v), i, v), i, v)
  {
    var t1 := Turn(s, i, v);
    var t2 := Turn(t1, i, v);
    OneTurn(t1, i, v);
    OneTurn(t2, i, v);
    OneTurn(Turn(t2, i, v), i, v);
    MoreTurns(s, i, v, [v]);
    MoreTurns(t1, i, v, [v]);
    MoreTurns(t2, i, v, [v]);
    MoreTurns(s, i, v, [v, v]);
    MoreTurns(t1, i, v, [v, v]);
    MoreTurns(s, i, v, [v, v, v]);
    assert [v] + [v] == [v, v] && [v] + [v, v] == [v, v, v] && [v] + [v, v, v] == [v, v, v, v];
  }

  lemma OneTurn(s: State, i: nat, v: Verdict)
    ensures Turns(s, i, [v]) == Turn(s, i, v)
  {
    assert [v][1..] == [];
    assert Turns(Turn(s, i, v), i, []) == Turn(s, i, v);
  }

  lemma MoreTurns(s: State, i: nat, v: Verdict, rest: seq<Verdict>)
    ensures Turns(s, i, [v] + rest) == Turns(Turn(s, i, v), i, rest)
  {
    assert ([v] + rest)[0] == v && ([v] + rest)[1..] == rest;
  }
}
