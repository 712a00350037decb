/** The two event loops of the hardware session (spawn_fresh and run_one in
    src/lanes/hardware_lane.cpp) over an arbitrary, possibly endless stream of debug events: what
    ends them, and whether anything does.
 */
module DebugLoop {
  import opened Types

  datatype ExceptionCode =
    | SingleStep | AccessViolation(gpShaped: bool) | ArrayBounds | InPageError | IllegalInstruction
    | PrivilegedInstruction | DivideByZero | IntOverflow | Breakpoint | OtherCode

  /** gpShaped: at least two parameters, the second all ones. */
  function MapException(code: ExceptionCode): (stop: Stop)
    ensures stop == StopOk <==> code == SingleStep
    ensures stop == StopUd <==> code == IllegalInstruction
    ensures stop == StopGp <==> code == AccessViolation(true) || code == PrivilegedInstruction
    ensures stop == StopPf <==> code == AccessViolation(false) || code == ArrayBounds || code == InPageError
    ensures stop == StopDe <==> code == DivideByZero || code == IntOverflow
    ensures stop == StopBp <==> code == Breakpoint
    ensures stop != StopHalted
  {
    match code
    case SingleStep => StopOk
    case AccessViolation(gp) => if gp then StopGp else StopPf
    case ArrayBounds => StopPf
    case InPageError => StopPf
    case IllegalInstruction => StopUd
    case PrivilegedInstruction => StopGp
    case DivideByZero => StopDe
    case IntOverflow => StopDe
    case Breakpoint => StopBp
    case OtherCode => StopOther
  }

  /** Handles are numbers, null is 0. Chatter stands for thread, DLL and output-string events. */
  datatype Event = CreateProcess(hThread: nat, hProcess: nat) | ExitProcess | Rip | Chatter | Exception(code: ExceptionCode)

  datatype Reply = TimedOut | Delivered(event: Event)

  /** What successive WaitForDebugEvent calls return. */
  type Stream = nat -> Reply

  const MAX_UNINTERESTING: nat := 10000

  // ---------------------------------------------------------------- run_one's loop

  datatype Exam = Waiting(count: nat) | Faulted | Abandoned

  function ExamStep(e: Exam, r: Reply): Exam {
    if !e.Waiting? then e
    else if r.TimedOut? then Abandoned
    else if r.event.Exception? then Faulted
    else if e.count + 1 > MAX_UNINTERESTING then Abandoned
    else if r.event.ExitProcess? || r.event.Rip? then Abandoned
    else Waiting(e.count + 1)
  }

  function ExamAfter(s: Stream, start: nat, n: nat): Exam {
    if n == 0 then Waiting(0) else ExamStep(ExamAfter(s, start, n - 1), s(start + n - 1))
  }

  lemma {:induction false} ExamCounts(s: Stream, start: nat, n: nat)
    ensures ExamAfter(s, start, n).Waiting? ==> ExamAfter(s, start, n).count == n <= MAX_UNINTERESTING
  {
    if n != 0 { ExamCounts(s, start, n - 1); }
  }

  /** run_one's loop ends on every stream, after at most one event more than the cap. */
  lemma ExamAlwaysEnds(s: Stream, start: nat)
    ensures !ExamAfter(s, start, MAX_UNINTERESTING + 1).Waiting?
  {
    ExamCounts(s, start, MAX_UNINTERESTING + 1);
  }

  /** An event run_one continues and goes on waiting after. */
  predicate Harmless(s: Stream, j: nat) {
    s(j).Delivered? && (s(j).event.CreateProcess? || s(j).event.Chatter?)
  }

  predicate IsException(s: Stream, j: nat) {
    s(j).Delivered? && s(j).event.Exception?
  }

  lemma {:induction false} ExamWaitsIff(s: Stream, start: nat, n: nat)
    ensures ExamAfter(s, start, n) == Waiting(n) <==>
            n <= MAX_UNINTERESTING && forall j: nat :: start <= j < start + n ==> Harmless(s, j)
    ensures ExamAfter(s, start, n).Waiting? ==> ExamAfter(s, start, n) == Waiting(n)
  {
    ExamCounts(s, start, n);
    if n != 0 {
      ExamWaitsIff(s, start, n - 1);
      var last := start + n - 1;
      assert ExamAfter(s, start, n) == Waiting(n) <==>
             ExamAfter(s, start, n - 1) == Waiting(n - 1) && n <= MAX_UNINTERESTING && Harmless(s, last);
    }
  }

  /** The exception at m is preceded by harmless events only, and by no more of them than the cap. */
  ghost predicate FaultsAt(s: Stream, start: nat, m: nat) {
    start <= m <= start + MAX_UNINTERESTING && IsException(s, m) && forall j: nat :: start <= j < m ==> Harmless(s, j)
  }

  /** run_one gets its exception exactly from such an event. */
  lemma {:induction false} ExamFaultsIff(s: Stream, start: nat, n: nat)
    ensures ExamAfter(s, start, n) == Faulted <==> exists m: nat :: m < start + n && FaultsAt(s, start, m)
  {
    if n != 0 {
      ExamFaultsIff(s, start, n - 1);
      ExamWaitsIff(s, start, n - 1);
      if ExamAfter(s, start, n) == Faulted && ExamAfter(s, start, n - 1) != Faulted {
        assert FaultsAt(s, start, start + n - 1);
      }
      if exists m: nat :: m < start + n && FaultsAt(s, start, m) {
        var m: nat :| m < start + n && FaultsAt(s, start, m);
        assert FaultsAt(s, start, m);
        if m < start + n - 1 {
          assert ExamAfter(s, start, n - 1) == Faulted;
        } else {
          assert ExamAfter(s, start, n - 1) == Waiting(n - 1);
        }
      }
    }
  }

  // ---------------------------------------------------------------- spawn_fresh's loop

  datatype Pump =
    | Pumping(count: nat, thread: nat, process: nat)
    | AtBreakpoint(thread: nat, process: nat)
    | Failed

  function PumpStep(p: Pump, r: Reply): Pump {
    if !p.Pumping? then p
    else if r.TimedOut? then Failed
    else
      match r.event
      case Exception(code) => if code.Breakpoint? then AtBreakpoint(p.thread, p.process) else p
      case CreateProcess(t, h) =>
        if p.count + 1 > MAX_UNINTERESTING then Failed
        else Pumping(p.count + 1, if t != 0 then t else p.thread, if h != 0 then h else p.process)
      case ExitProcess => Failed
      case _ => if p.count + 1 > MAX_UNINTERESTING then Failed else p.(count := p.count + 1)
  }

  function PumpAfter(s: Stream, start: nat, n: nat): Pump {
    if n == 0 then Pumping(0, 0, 0) else PumpStep(PumpAfter(s, start, n - 1), s(start + n - 1))
  }

  /** An exception other than the breakpoint: continued, and not counted against the cap. */
  predicate Stray(s: Stream, m: nat) {
    s(m).Delivered? && s(m).event.Exception? && !s(m).event.code.Breakpoint?
  }

  ghost predicate StormEnds(s: Stream, c: nat) {
    exists m: nat :: c <= m && !Stray(s, m)
  }

  /** From every point on, something other than a stray exception arrives eventually. */
  ghost predicate NoStorm(s: Stream) {
    forall c: nat :: StormEnds(s, c)
  }

  ghost predicate PumpEnds(s: Stream, start: nat) {
    exists n: nat :: !PumpAfter(s, start, n).Pumping?
  }

  lemma {:induction false} PumpOnStorm(s: Stream, start: nat, n: nat)
    requires forall m: nat :: start <= m ==> Stray(s, m)
    ensures PumpAfter(s, start, n).Pumping?
  {
    if n != 0 {
      PumpOnStorm(s, start, n - 1);
      assert Stray(s, start + n - 1);
    }
  }

  /** The measure: events left under the cap, then the distance to the next non-stray event. */
  lemma {:induction false} PumpReachesEnd(s: Stream, start: nat, n: nat, next: nat)
    requires NoStorm(s) && start + n <= next && !Stray(s, next)
    ensures PumpEnds(s, start)
    decreases if PumpAfter(s, start, n).Pumping? then MAX_UNINTERESTING + 1 - PumpAfter(s, start, n).count else 0,
              next - (start + n)
  {
    var p, q := PumpAfter(s, start, n), PumpAfter(s, start, n + 1);
    if p.Pumping? && q.Pumping? {
      if Stray(s, start + n) {
        PumpReachesEnd(s, start, n + 1, next);
      } else {
        assert StormEnds(s, start + n + 1);
        var next' :| start + n + 1 <= next' && !Stray(s, next');
        PumpBelowCap(s, start, n + 1);
        PumpReachesEnd(s, start, n + 1, next');
      }
    }
  }

  lemma {:induction false} PumpBelowCap(s: Stream, start: nat, n: nat)
    ensures PumpAfter(s, start, n).Pumping? ==> PumpAfter(s, start, n).count <= MAX_UNINTERESTING
  {
    if n != 0 { PumpBelowCap(s, start, n - 1); }
  }

  /** Whatever the moment a spawn starts, its loop ends -- exactly when there is no storm of stray
      exceptions. The cap that protects run_one does not protect this loop. */
  lemma PumpEndsIff(s: Stream)
    ensures (forall start: nat :: PumpEnds(s, start)) <==> NoStorm(s)
  {
    if NoStorm(s) {
      forall start: nat ensures PumpEnds(s, start) {
        assert StormEnds(s, start);
        var next :| start <= next && !Stray(s, next);
        PumpReachesEnd(s, start, 0, next);
      }
    } else {
      var c: nat :| !StormEnds(s, c);
      forall n: nat ensures PumpAfter(s, c, n).Pumping? {
        PumpOnStorm(s, c, n);
      }
      assert !PumpEnds(s, c);
    }
  }

  predicate IsBreakpoint(s: Stream, j: nat) {
    IsException(s, j) && s(j).event.code.Breakpoint?
  }

  /** An event the spawn continues and goes on after. */
  predicate Passed(s: Stream, j: nat) {
    s(j).Delivered? && !s(j).event.ExitProcess? && !IsBreakpoint(s, j)
  }

  /** How many of these events count against the cap. */
  function Counted(s: Stream, start: nat, n: nat): nat {
    if n == 0 then 0 else Counted(s, start, n - 1) + (if IsException(s, start + n - 1) then 0 else 1)
  }

  lemma {:induction false} PumpsOnIff(s: Stream, start: nat, n: nat)
    ensures PumpAfter(s, start, n).Pumping? <==>
            Counted(s, start, n) <= MAX_UNINTERESTING && forall j: nat :: start <= j < start + n ==> Passed(s, j)
    ensures PumpAfter(s, start, n).Pumping? ==> PumpAfter(s, start, n).count == Counted(s, start, n)
  {
    if n != 0 {
      PumpsOnIff(s, start, n - 1);
      var last := start + n - 1;
      assert PumpAfter(s, start, n).Pumping? <==>
             PumpAfter(s, start, n - 1).Pumping? && Counted(s, start, n) <= MAX_UNINTERESTING && Passed(s, last);
    }
  }

  /** The breakpoint after k events is the first, before it the victim neither falls silent nor exits, and
      no more events than the cap are other than exceptions. */
  ghost predicate SyncsAfter(s: Stream, start: nat, k: nat) {
    && IsBreakpoint(s, start + k) && Counted(s, start, k) <= MAX_UNINTERESTING
    && forall j: nat :: start <= j < start + k ==> Passed(s, j)
  }

  /** The spawn reaches its sync point exactly with such a breakpoint. */
  lemma {:induction false} PumpSyncsIff(s: Stream, start: nat, n: nat)
    ensures PumpAfter(s, start, n).AtBreakpoint? <==> exists k: nat :: k < n && SyncsAfter(s, start, k)
  {
    if n != 0 {
      PumpSyncsIff(s, start, n - 1);
      PumpsOnIff(s, start, n - 1);
      if PumpAfter(s, start, n).AtBreakpoint? && !PumpAfter(s, start, n - 1).AtBreakpoint? {
        assert SyncsAfter(s, start, n - 1);
      }
      if exists k: nat :: k < n && SyncsAfter(s, start, k) {
        var k: nat :| k < n && SyncsAfter(s, start, k);
        assert SyncsAfter(s, start, k);
        if k < n - 1 {
          assert PumpAfter(s, start, n - 1).AtBreakpoint?;
        } else {
          assert PumpAfter(s, start, n - 1).Pumping?;
        }
      }
    }
  }

  // ---------------------------------------------------------------- the handles a spawn ends with

  function ThreadOf(p: Pump): nat { if p.Failed? then 0 else p.thread }
  function ProcessOf(p: Pump): nat { if p.Failed? then 0 else p.process }

  predicate CarriesProcess(s: Stream, j: nat) {
    s(j).Delivered? && s(j).event.CreateProcess? && s(j).event.hProcess != 0
  }

  predicate CarriesThread(s: Stream, j: nat) {
    s(j).Delivered? && s(j).event.CreateProcess? && s(j).event.hThread != 0
  }

  /** The loop knows a live process (or thread) exactly when some CREATE_PROCESS event so far carried
      a non-null handle for it. */
  lemma {:induction false} HandlesIff(s: Stream, start: nat, n: nat)
    requires !PumpAfter(s, start, n).Failed?
    ensures ProcessOf(PumpAfter(s, start, n)) != 0 <==>
            exists j: nat :: start <= j < start + Length(s, start, n) && CarriesProcess(s, j)
    ensures ThreadOf(PumpAfter(s, start, n)) != 0 <==>
            exists j: nat :: start <= j < start + Length(s, start, n) && CarriesThread(s, j)
  {
    if n != 0 {
      HandlesIff(s, start, n - 1);
      if PumpAfter(s, start, n - 1).Pumping? { LengthWhilePumping(s, start, n - 1); }
      var p, q, last := PumpAfter(s, start, n - 1), PumpAfter(s, start, n), start + n - 1;
      if p.Pumping? {
        assert Length(s, start, n) == Length(s, start, n - 1) + 1;
        assert ProcessOf(q) == if CarriesProcess(s, last) then s(last).event.hProcess else ProcessOf(p);
        assert ThreadOf(q) == if CarriesThread(s, last) then s(last).event.hThread else ThreadOf(p);
      }
    }
  }

  lemma {:induction false} LengthWhilePumping(s: Stream, start: nat, n: nat)
    requires PumpAfter(s, start, n).Pumping?
    ensures Length(s, start, n) == n
  {
    if n != 0 { LengthWhilePumping(s, start, n - 1); }
  }

  /** How many of the first n replies the loop actually consumes. */
  function Length(s: Stream, start: nat, n: nat): nat {
    if n == 0 then 0
    else if PumpAfter(s, start, n - 1).Pumping? then n else Length(s, start, n - 1)
  }
}
