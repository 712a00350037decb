/** The hardware lane's session (HardwareSession::Impl in src/lanes/hardware_lane.cpp): a debuggee
    that is spawned, single-stepped, torn down and reused from one test case to the next.

    Windows is the class Os: what it answers is fixed by two arbitrary streams, the debug events and
    the success of every other call. The processor is an arbitrary function of the state a step can
    read; it also decides the exception a step ends in, and the event stream when that is delivered.
    Tokens, job limits and environment are part of "every other call". Events are taken to come from
    the current victim.
 */
module HardwareSession {
  import opened Bits
  import opened Types
  import opened HardwareX87
  import opened DebugLoop

  const RESPAWN_EVERY: nat := 2000

  // ---------------------------------------------------------------- the victim

  /** A thread CONTEXT. `rest` is what the lane never writes: MXCSR, segments, the x87 pointers. */
  datatype Registers = Registers(
    gpr: Sixteen, xmmLo: Sixteen, xmmHi: Sixteen, x87: Image, rip: u64, eflags: u32, rest: nat)

  /** Everything a step may depend on: the whole context and all three pages. */
  datatype View = View(regs: Registers, pages: Pages)

  /** The exception a step ends in, and the context and pages it leaves. */
  datatype Effect = Effect(exception: ExceptionCode, regs: Registers, pages: Pages)

  datatype Region = Code | Data | Stack

  function Written(p: Pages, r: Region, offset: nat, bytes: seq<u8>): Pages
    requires offset + |bytes| <= PAGE_SIZE
  {
    match r
    case Code => p.(code := Overlay(p.code, offset, bytes))
    case Data => p.(data := Overlay(p.data, offset, bytes))
    case Stack => p.(stack := Overlay(p.stack, offset, bytes))
  }

  /** What a wait returns: while a step is in flight, an exception is that step's. */
  function Resolved(r: Reply, stepping: bool, raised: ExceptionCode): Reply {
    if stepping && r.Delivered? && r.event.Exception? then Delivered(Exception(raised)) else r
  }

  class Os {
    const replies: Stream
    const answers: nat -> bool
    const cpu: View -> Effect
    var cursor: nat
    var asked: nat
    var regs: Registers
    var pages: Pages
    /** A step is under way, and the exception it will end in. */
    var stepping: bool
    var raised: ExceptionCode
    /** Debug events delivered and not yet continued, and events whose victim was given up instead. */
    ghost var unanswered: nat
    ghost var abandoned: nat

    constructor (replies: Stream, answers: nat -> bool, cpu: View -> Effect, regs: Registers, pages: Pages)
      ensures this.replies == replies && this.answers == answers && this.cpu == cpu
      ensures unanswered == 0 && abandoned == 0 && !stepping
    {
      this.replies, this.answers, this.cpu := replies, answers, cpu;
      this.regs, this.pages, cursor, asked := regs, pages, 0, 0;
      stepping, raised, unanswered, abandoned := false, SingleStep, 0, 0;
    }

    method Ask() returns (ok: bool)
      modifies this`asked
      ensures ok == answers(old(asked)) && asked == old(asked) + 1
    {
      ok := answers(asked);
      asked := asked + 1;
    }

    /** Some call since then was refused. */
    ghost predicate Refused(since: nat)
      reads this`asked
    {
      exists k :: since <= k < asked && !answers(k)
    }

    method WaitForDebugEvent() returns (r: Reply)
      modifies this`cursor, this`stepping, this`unanswered
      ensures r == Resolved(replies(old(cursor)), old(stepping), raised) && cursor == old(cursor) + 1
      ensures stepping == (old(stepping) && !(r.Delivered? && r.event.Exception?))
      ensures unanswered == old(unanswered) + (if r.Delivered? then 1 else 0)
    {
      r := Resolved(replies(cursor), stepping, raised);
      cursor := cursor + 1;
      if r.Delivered? && r.event.Exception? { stepping := false; }
      if r.Delivered? { unanswered := unanswered + 1; }
    }

    method ContinueDebugEvent()
      requires unanswered > 0
      modifies this`unanswered
      ensures unanswered == old(unanswered) - 1
    {
      unanswered := unanswered - 1;
    }

    /** The last handles of a victim are closed: nothing more is heard of it, and the events it still
        had unanswered stay so for good. */
    method GiveUpVictim()
      modifies this`stepping, this`unanswered, this`abandoned
      ensures !stepping && unanswered == 0 && abandoned == old(abandoned) + old(unanswered)
    {
      stepping := false;
      abandoned, unanswered := abandoned + unanswered, 0;
    }

    method NewVictim()
      modifies this`pages
      ensures pages == BLANK
    {
      pages := BLANK;
    }

    method WriteProcessMemory(r: Region, offset: nat, bytes: seq<u8>) returns (ok: bool)
      modifies this`asked, this`pages
      ensures asked == old(asked) + 1
      ensures ok <==> answers(old(asked)) && offset + |bytes| <= PAGE_SIZE
      ensures pages == if ok then Written(old(pages), r, offset, bytes) else old(pages)
    {
      ok := Ask();
      ok := ok && offset + |bytes| <= PAGE_SIZE;
      if ok { pages := Written(pages, r, offset, bytes); }
    }

    function Seen(): View
      reads this
    {
      View(regs, pages)
    }

    /** Continuing the held event lets the victim execute one instruction. */
    method Resume()
      requires unanswered > 0
      modifies this`unanswered, this`regs, this`pages, this`stepping, this`raised
      ensures unanswered == old(unanswered) - 1 && stepping
      ensures Effect(raised, regs, pages) == cpu(old(Seen()))
    {
      var e := cpu(Seen());
      regs, pages := e.regs, e.pages;
      stepping, raised := true, e.exception;
      ContinueDebugEvent();
    }
  }

  // ---------------------------------------------------------------- the start state of a step

  /** Compared flags of the generator, TF and the reserved bit; nothing else. */
  function EflagsOf(rflags: u64): u32 {
    Or(Or(And(rflags, COMPARE_FLAGS_MASK), 0x100), 0x2) % 0x1_0000_0000
  }

  /** Which of the four unchecked page writes took effect. */
  datatype Writes = Writes(zeroData: bool, zeroStack: bool, seed: bool, ret: bool)

  const ALL_WRITTEN := Writes(true, true, true, true)

  function If(ok: bool, p: Page, offset: nat, bytes: seq<u8>): Page
    requires offset + |bytes| <= PAGE_SIZE
  {
    if ok then Overlay(p, offset, bytes) else p
  }

  /** What earlier cases left behind that run_one does not set: the pages, and of the context what
      the lane carries over. */
  datatype Prior = Prior(pages: Pages, rest: nat)

  /** The pages after the code write and the four unchecked ones. */
  function PagesFor(tc: TestCase, prior: Pages, w: Writes): Pages {
    Pages(if |tc.bytes| <= PAGE_SIZE then Overlay(prior.code, 0, tc.bytes) else prior.code,
          If(w.seed, If(w.zeroData, prior.data, 0, Zeros(PAGE_SIZE)), 0, tc.dataSeed),
          If(w.ret, If(w.zeroStack, prior.stack, 0, Zeros(PAGE_SIZE)), RETURN_SLOT, RETURN_ADDRESS))
  }

  function RegistersFor(tc: TestCase, rest: nat): Registers {
    var r := tc.initial;
    Registers(r.gpr, r.xmmLo, r.xmmHi, ImageOf(r.x87), CODE_BASE, EflagsOf(r.rflags), rest)
  }

  /** What the step sees, given what earlier cases left. */
  function Prepared(tc: TestCase, prior: Prior, w: Writes): View {
    View(RegistersFor(tc, prior.rest), PagesFor(tc, prior.pages, w))
  }

  /** What the step is meant to see: a function of the test case alone. */
  function StartOf(tc: TestCase): View {
    View(RegistersFor(tc, 0), StartPages(tc))
  }

  /** The context a case asks for, register by register and flag by flag: it starts at the code base with
      the trap flag and the reserved bit set and, of the generator's flags, CF, PF, AF, ZF, SF, DF, OF. */
  predicate RegisterLaw(r: Registers, tc: TestCase) {
    && r.rip == CODE_BASE
    && r.gpr == tc.initial.gpr && r.xmmLo == tc.initial.xmmLo && r.xmmHi == tc.initial.xmmHi
    && ImageLaw(r.x87, tc.initial.x87)
    && forall i :: 0 <= i < 32 ==>
         (Bit(r.eflags, i) <==> i == 1 || i == 8 || (i in {0, 2, 4, 6, 7, 10, 11} && Bit(tc.initial.rflags, i)))
  }

  /** What the processor fetches where it starts is the case's own code. */
  predicate FetchLaw(v: View, tc: TestCase) {
    RegisterLaw(v.regs, tc) && |tc.bytes| <= PAGE_SIZE &&
    forall k :: 0 <= k < |tc.bytes| ==> ByteAt(v.pages, v.regs.rip + k) == tc.bytes[k]
  }

  /** What a step leaves for the next case. */
  function Left(e: Effect): Prior {
    Prior(e.pages, e.regs.rest)
  }

  /** What run_one did and was told, for its contract: `start` is where in the event stream it began
      to wait for the step's exception. */
  datatype Trace = Trace(prior: Prior, writes: Writes, start: nat, gotContext: bool, gotData: bool)

  /** Nothing the step or its report depends on was refused. */
  predicate Complete(t: Trace) {
    t.writes == ALL_WRITTEN && t.gotContext && t.gotData
  }

  /** The outcome reported for a step with this effect. */
  function Observed(e: Effect, t: Trace): LaneOutcome {
    var data, r := if t.gotData then e.pages.data[..DATA_WINDOW] else Zeros(DATA_WINDOW), e.regs;
    var after := if t.gotContext
      then RegFields(r.gpr, r.rip, r.eflags, r.xmmLo, r.xmmHi, ReadBack(r.x87), data)
      else DEFAULT_REGS.(dataAfter := data);
    LaneOutcome(true, MapException(e.exception), after, t.gotContext)
  }

  /** A register state read back from a context, register by register. */
  predicate ContextLaw(r: Registers, after: RegState) {
    && after.gpr == r.gpr && after.rip == r.rip && after.rflags == r.eflags
    && after.xmmLo == r.xmmLo && after.xmmHi == r.xmmHi && ReadLaw(r.x87, after.x87)
  }

  /** The outcome the processor really produced. */
  function OutcomeOf(e: Effect): LaneOutcome {
    var r := e.regs;
    LaneOutcome(true, MapException(e.exception),
                RegFields(r.gpr, r.rip, r.eflags, r.xmmLo, r.xmmHi, ReadBack(r.x87), e.pages.data[..DATA_WINDOW]),
                true)
  }

  /** On this processor the case's outcome is the same whatever earlier cases left behind. */
  ghost predicate SelfContained(cpu: View -> Effect, tc: TestCase) {
    forall p: Prior, q: Prior ::
      OutcomeOf(cpu(Prepared(tc, p, ALL_WRITTEN))) == OutcomeOf(cpu(Prepared(tc, q, ALL_WRITTEN)))
  }

  /** A reported outcome is the processor's, from the prepared state, as far as it was read back. */
  predicate Reports(cpu: View -> Effect, tc: TestCase, out: LaneOutcome, t: Trace) {
    out.setupOk ==> out == Observed(cpu(Prepared(tc, t.prior, t.writes)), t)
  }

  /** A reported outcome of a self-contained case is the processor's, from the state the case asks for. */
  ghost predicate Truthful(cpu: View -> Effect, tc: TestCase, out: LaneOutcome) {
    out.setupOk && SelfContained(cpu, tc) ==> out == OutcomeOf(cpu(StartOf(tc)))
  }

  predicate AllReport(cpu: View -> Effect, cases: seq<TestCase>, outcomes: seq<LaneOutcome>, traces: seq<Trace>) {
    |outcomes| == |traces| <= |cases| &&
    forall i :: 0 <= i < |outcomes| ==> Reports(cpu, cases[i], outcomes[i], traces[i])
  }

  ghost predicate AllTruthful(cpu: View -> Effect, cases: seq<TestCase>, outcomes: seq<LaneOutcome>) {
    |outcomes| <= |cases| && forall i :: 0 <= i < |outcomes| ==> Truthful(cpu, cases[i], outcomes[i])
  }

  lemma AppendReport(
      cpu: View -> Effect, cases: seq<TestCase>, outcomes: seq<LaneOutcome>, traces: seq<Trace>,
      out: LaneOutcome, t: Trace)
    requires AllReport(cpu, cases, outcomes, traces) && |outcomes| < |cases|
    requires Reports(cpu, cases[|outcomes|], out, t)
    ensures AllReport(cpu, cases, outcomes + [out], traces + [t])
  {
    forall i | 0 <= i < |outcomes| + 1
      ensures Reports(cpu, cases[i], (outcomes + [out])[i], (traces + [t])[i])
    {
      if i < |outcomes| { assert (outcomes + [out])[i] == outcomes[i] && (traces + [t])[i] == traces[i]; }
    }
  }

  lemma AppendTruthful(cpu: View -> Effect, cases: seq<TestCase>, outcomes: seq<LaneOutcome>, out: LaneOutcome)
    requires AllTruthful(cpu, cases, outcomes) && |outcomes| < |cases|
    requires Truthful(cpu, cases[|outcomes|], out)
    ensures AllTruthful(cpu, cases, outcomes + [out])
  {
    forall i | 0 <= i < |outcomes| + 1 ensures Truthful(cpu, cases[i], (outcomes + [out])[i]) {
      if i < |outcomes| { assert (outcomes + [out])[i] == outcomes[i]; }
    }
  }

  const FAILED := DEFAULT_OUTCOME.(setupOk := false)

  /** Waiting from this point of the stream on ends in the step's exception. */
  ghost predicate Faults(s: Stream, start: nat) {
    exists n: nat :: ExamAfter(s, start, n) == Faulted
  }

  ghost predicate NeverFaults(s: Stream, start: nat) {
    exists n: nat :: ExamAfter(s, start, n).Abandoned?
  }

  ghost predicate NeverSyncs(s: Stream, start: nat) {
    exists n: nat :: PumpAfter(s, start, n).Failed?
  }

  /** Consuming the stream from one cursor to the other leads the spawn loop to this state. */
  ghost predicate PumpedTo(s: Stream, start: nat, cursor: nat, p: Pump) {
    start <= cursor && PumpAfter(s, start, cursor - start) == p
  }

  /** The victim is silent, or gone. */
  predicate EndsDrain(s: Stream, j: nat) {
    s(j).TimedOut? || s(j).event.ExitProcess?
  }

  /** Events are drained up to the first that ends the drain, and at most fifty. */
  ghost predicate Drained(s: Stream, start: nat, end: nat) {
    && start < end <= start + 50
    && (forall j: nat :: start <= j < end - 1 ==> !EndsDrain(s, j))
    && (end == start + 50 || EndsDrain(s, end - 1))
  }

  /** The handles held are live exactly if the events of this window carried them. */
  ghost predicate HandlesMatch(s: Stream, start: nat, end: nat, thread: nat, process: nat) {
    && (thread != 0 <==> exists j: nat :: start <= j < end && CarriesThread(s, j))
    && (process != 0 <==> exists j: nat :: start <= j < end && CarriesProcess(s, j))
  }

  // ---------------------------------------------------------------- the session

  class Session {
    const os: Os
    var job: nat
    var process: nat
    var thread: nat
    var ready: bool
    var pendingValid: bool
    var stepsSinceRespawn: nat
    /** The events consumed by the last spawn: from here up to and including its breakpoint. */
    ghost var spawnedAt: nat
    ghost var syncedAt: nat

    constructor (os: Os)
      requires os.unanswered == 0 && !os.stepping
      ensures this.os == os && Valid() && TornDown()
    {
      this.os := os;
      job, process, thread, ready, pendingValid, stepsSinceRespawn := 0, 0, 0, false, false, 0;
      spawnedAt, syncedAt := 0, 0;
    }

    predicate TornDown()
      reads this
    {
      !ready && !pendingValid && job == 0 && process == 0 && thread == 0
    }

    /** Between calls: either nothing is held, or exactly one event is held unanswered. */
    ghost predicate Valid()
      reads this, os
    {
      && !os.stepping
      && (!ready ==> TornDown() && os.unanswered == 0)
      && (ready ==>
        && pendingValid && os.unanswered == 1
        && stepsSinceRespawn < RESPAWN_EVERY
        && job != 0
        && PumpedTo(os.replies, spawnedAt, syncedAt, AtBreakpoint(thread, process))
        && HandlesMatch(os.replies, spawnedAt, syncedAt, thread, process))
    }

    /** Bounded, so that a stuck victim cannot hang the fuzzer. */
    method DrainToExit()
      modifies os`cursor, os`asked, os`unanswered, os`stepping
      ensures old(os.asked) <= os.asked && os.unanswered == old(os.unanswered)
      ensures Drained(os.replies, old(os.cursor), os.cursor)
    {
      var _ := os.Ask();
      for i := 0 to 50
        invariant old(os.asked) <= os.asked && os.unanswered == old(os.unanswered)
        invariant os.cursor == old(os.cursor) + i
        invariant forall j: nat :: old(os.cursor) <= j < os.cursor ==> !EndsDrain(os.replies, j)
      {
        var r := os.WaitForDebugEvent();
        if r.TimedOut? { break; }
        os.ContinueDebugEvent();
        if r.event.ExitProcess? { break; }
      }
    }

    /** Whatever is held is dropped, not continued: every event unanswered before is abandoned. */
    method Teardown()
      modifies this`job, this`process, this`thread, this`ready, this`pendingValid
      modifies os`cursor, os`asked, os`unanswered, os`abandoned, os`stepping
      ensures TornDown() && os.unanswered == 0 && !os.stepping
      ensures os.abandoned == old(os.abandoned) + old(os.unanswered)
      ensures old(os.asked) <= os.asked
      ensures old(process) == 0 ==> os.cursor == old(os.cursor)
    {
      if process != 0 { DrainToExit(); }
      thread, process, job := 0, 0, 0;
      ready, pendingValid := false, false;
      os.GiveUpVictim();
    }

    /** Pump events until the loader's breakpoint. */
    method PumpToBreakpoint() returns (ok: bool)
      requires NoStorm(os.replies) && os.unanswered == 0 && !os.stepping && process == 0 && thread == 0 && job != 0
      modifies this`thread, this`process, this`pendingValid, os`cursor, os`unanswered, os`stepping
      ensures PumpedTo(os.replies, old(os.cursor), os.cursor, if ok then AtBreakpoint(thread, process) else Failed)
      ensures ok ==> HandlesMatch(os.replies, old(os.cursor), os.cursor, thread, process)
      ensures ok ==> pendingValid && os.unanswered == 1
      ensures os.unanswered <= 1 && !os.stepping
    {
      var uninteresting := 0;
      ghost var start := os.cursor;
      ghost var n := 0;
      assert StormEnds(os.replies, start);
      ghost var next: nat :| start <= next && !Stray(os.replies, next);
      while true
        invariant os.cursor == start + n && os.unanswered == 0 && !os.stepping
        invariant PumpAfter(os.replies, start, n) == Pumping(uninteresting, thread, process)
        invariant os.cursor <= next && !Stray(os.replies, next) && uninteresting <= MAX_UNINTERESTING
        decreases MAX_UNINTERESTING - uninteresting, next - os.cursor
      {
        var r := os.WaitForDebugEvent();
        n := n + 1;
        assert PumpAfter(os.replies, start, n) == PumpStep(Pumping(uninteresting, thread, process), r);
        if r.TimedOut? { return false; }
        if !r.event.Exception? {
          uninteresting := uninteresting + 1;
          if uninteresting > MAX_UNINTERESTING { return false; }
          assert StormEnds(os.replies, os.cursor);
          next :| os.cursor <= next && !Stray(os.replies, next);
        }
        if r.event.CreateProcess? {
          if r.event.hThread != 0 { thread := r.event.hThread; }
          if r.event.hProcess != 0 { process := r.event.hProcess; }
        } else if r.event.Exception? && r.event.code.Breakpoint? {
          pendingValid := true;
          BreakpointHandles(os.replies, start, n);
          return true;
        } else if r.event.ExitProcess? {
          os.ContinueDebugEvent();
          return false;
        }
        os.ContinueDebugEvent();
      }
      ok := false;
    }

    /** Token, job and process: everything up to the first debug event. */
    method CreateVictim() returns (ok: bool)
      requires TornDown()
      modifies this`job, os`asked
      ensures old(os.asked) <= os.asked && (!ok ==> TornDown() && os.Refused(old(os.asked)))
      ensures ok ==> job != 0
    {
      ok := os.Ask();             // build_restricted_token
      if !ok { return; }
      ok := os.Ask();             // CreateJobObjectW
      if !ok { return; }
      job := 1;
      ok := os.Ask();             // CreateProcessAsUserW
      if !ok { job := 0; }
    }

    /** Bring a new victim to its breakpoint and map the scratch pages. */
    method SyncVictim() returns (ok: bool)
      requires NoStorm(os.replies) && os.unanswered == 0 && !os.stepping
      requires process == 0 && thread == 0 && job != 0 && !ready && !pendingValid
      modifies this, os
      ensures Valid() && ok == ready && spawnedAt == old(os.cursor)
      ensures old(os.asked) <= os.asked
      ensures ok ==> os.abandoned == old(os.abandoned) && stepsSinceRespawn == 0
      ensures ok ==> os.pages == BLANK
      ensures !ok ==> os.abandoned <= old(os.abandoned) + 1
      ensures !ok ==> os.Refused(old(os.asked)) || NeverSyncs(os.replies, old(os.cursor))
    {
      spawnedAt := os.cursor;
      ok := PumpToBreakpoint();
      syncedAt := os.cursor;
      if !ok {
        Teardown();
        return;
      }
      ok := os.Ask();             // VirtualAllocEx of the three scratch pages
      if !ok {
        Teardown();
        return;
      }
      os.NewVictim();
      ready := true;
      stepsSinceRespawn := 0;
    }

    method SpawnFresh() returns (ok: bool)
      requires Valid() && NoStorm(os.replies)
      modifies this, os
      ensures Valid() && ok == ready
      ensures old(os.asked) <= os.asked
      ensures !old(ready) && ok ==> os.abandoned == old(os.abandoned) && spawnedAt == old(os.cursor)
      ensures !old(ready) && !ok ==> os.abandoned <= old(os.abandoned) + 1
      ensures !old(ready) && !ok ==> os.Refused(old(os.asked)) || NeverSyncs(os.replies, old(os.cursor))
      ensures ok ==> stepsSinceRespawn == 0
      ensures ok ==> os.pages == BLANK
    {
      Teardown();
      ok := CreateVictim();
      if !ok { return; }
      ok := SyncVictim();
    }

    method EnsureReady() returns (ok: bool)
      requires Valid() && (ready || NoStorm(os.replies))
      modifies this, os
      ensures Valid() && ok == ready && old(os.asked) <= os.asked
      ensures old(ready) ==> ok && Carried() == old(Carried()) && os.cursor == old(os.cursor)
      ensures ok ==> stepsSinceRespawn == if old(ready) then old(stepsSinceRespawn) else 0
      ensures ok ==> os.abandoned == old(os.abandoned)
      ensures !ok ==> !old(ready) && os.abandoned <= old(os.abandoned) + 1
      ensures !ok ==> os.Refused(old(os.asked)) || NeverSyncs(os.replies, old(os.cursor))
      ensures !old(ready) && ok ==> os.pages == BLANK
    {
      if ready { return true; }
      ok := SpawnFresh();
    }

    /** Read the thread's context, overwrite what the test case owns, write it back. */
    method SetRegisters(tc: TestCase) returns (ok: bool)
      modifies os`asked, os`regs
      ensures old(os.asked) <= os.asked && (!ok ==> os.Refused(old(os.asked)))
      ensures ok ==> os.regs == RegistersFor(tc, old(os.regs.rest)) && RegisterLaw(os.regs, tc)
    {
      ok := os.Ask();             // GetThreadContext
      if !ok { return; }
      var r, ctx := tc.initial, os.regs;
      var fltSave := new FltSave();
      ApplyContextToX87(fltSave, r.x87);
      ctx := ctx.(gpr := r.gpr, xmmLo := r.xmmLo, xmmHi := r.xmmHi, x87 := fltSave.Contents(),
                  rip := CODE_BASE, eflags := EflagsOf(r.rflags));
      ok := os.Ask();             // SetThreadContext
      if !ok { return; }
      os.regs := ctx;
      RegistersForLaw(tc, ctx.rest);
    }

    /** The four page writes whose results are dropped. */
    method ResetPages(tc: TestCase) returns (ghost w: Writes)
      modifies os`asked, os`pages
      ensures old(os.asked) <= os.asked
      ensures os.pages == PagesFor(tc, old(os.pages), w).(code := old(os.pages.code))
      ensures !os.Refused(old(os.asked)) ==> w == ALL_WRITTEN
    {
      var zeroData := os.WriteProcessMemory(Data, 0, Zeros(PAGE_SIZE));
      var zeroStack := os.WriteProcessMemory(Stack, 0, Zeros(PAGE_SIZE));
      var seed := os.WriteProcessMemory(Data, 0, tc.dataSeed);
      var ret := os.WriteProcessMemory(Stack, RETURN_SLOT, RETURN_ADDRESS);
      w := Writes(zeroData, zeroStack, seed, ret);
    }

    /** Registers and scratch pages for one test case. Only the code write is checked. */
    method PrepareVictim(tc: TestCase) returns (ok: bool, ghost w: Writes)
      modifies os`asked, os`regs, os`pages
      ensures old(os.asked) <= os.asked
      ensures !ok ==> os.Refused(old(os.asked)) || |tc.bytes| > PAGE_SIZE
      ensures ok ==> |tc.bytes| <= PAGE_SIZE && os.Seen() == Prepared(tc, Prior(old(os.pages), old(os.regs.rest)), w)
      ensures ok ==> FetchLaw(os.Seen(), tc)
      ensures ok && !os.Refused(old(os.asked)) ==> w == ALL_WRITTEN && DataLaw(os.Seen().pages, tc)
    {
      w := Writes(false, false, false, false);
      ok := SetRegisters(tc);
      if !ok { return; }
      if tc.bytes != [] {
        ok := os.WriteProcessMemory(Code, 0, tc.bytes);
        if !ok { return; }
      }
      assert os.pages.code == Overlay(old(os.pages.code), 0, tc.bytes);
      ghost var before := os.pages;
      w := ResetPages(tc);
      PagesForLaw(tc, before, w);
    }

    /** Pump events until the step's exception, or give up. */
    method AwaitException() returns (e: Exam, code: ExceptionCode)
      requires os.unanswered == 0 && os.stepping
      modifies os`cursor, os`unanswered, os`stepping
      ensures !e.Waiting? && os.unanswered <= 1
      ensures e.Faulted? ==> os.unanswered == 1 && !os.stepping && code == os.raised
      ensures exists n: nat :: os.cursor == old(os.cursor) + n && ExamAfter(os.replies, old(os.cursor), n) == e
    {
      var uninteresting := 0;
      code := SingleStep;
      ghost var start := os.cursor;
      ghost var n := 0;
      while true
        invariant os.cursor == start + n && os.unanswered == 0 && uninteresting <= MAX_UNINTERESTING
        invariant ExamAfter(os.replies, start, n) == Waiting(uninteresting) && os.stepping
        decreases MAX_UNINTERESTING - uninteresting
      {
        var r := os.WaitForDebugEvent();
        n := n + 1;
        assert ExamAfter(os.replies, start, n) == ExamStep(Waiting(uninteresting), r);
        if r.TimedOut? { return Abandoned, code; }
        if r.event.Exception? { return Faulted, r.event.code; }
        uninteresting := uninteresting + 1;
        if uninteresting > MAX_UNINTERESTING { return Abandoned, code; }
        os.ContinueDebugEvent();
        if r.event.ExitProcess? || r.event.Rip? { return Abandoned, code; }
      }
      e := Abandoned;
    }

    /** Let the victim go, and wait for what becomes of its step. */
    method TakeStep() returns (e: Exam, code: ExceptionCode)
      requires os.unanswered == 1
      modifies this`pendingValid, os`cursor, os`unanswered, os`regs, os`pages, os`stepping, os`raised
      ensures !e.Waiting? && os.unanswered <= 1
      ensures e.Abandoned? ==> NeverFaults(os.replies, old(os.cursor))
      ensures e.Faulted? ==> os.unanswered == 1 && !os.stepping && Faults(os.replies, old(os.cursor))
      ensures e.Faulted? ==> EffectIn(code) == os.cpu(old(os.Seen()))
    {
      os.Resume();
      pendingValid := false;
      e, code := AwaitException();
    }

    /** A step that ended in this exception, as it now shows in the victim. */
    function EffectIn(code: ExceptionCode): Effect
      reads this, os
    {
      Effect(code, os.regs, os.pages)
    }

    method ReadOutcome(code: ExceptionCode, ghost prior: Prior, ghost w: Writes, ghost start: nat)
      returns (out: LaneOutcome, ghost t: Trace)
      modifies os`asked
      ensures out.setupOk && old(os.asked) <= os.asked
      ensures t.prior == prior && t.writes == w && t.start == start
      ensures out.stop == MapException(code) && out.capturesX87 == t.gotContext
      ensures t.gotContext ==> ContextLaw(os.regs, out.after)
      ensures t.gotData ==> forall k :: 0 <= k < DATA_WINDOW ==> out.after.dataAfter[k] == ByteAt(os.pages, DATA_BASE + k)
      ensures !os.Refused(old(os.asked)) ==> t.gotContext && t.gotData
      ensures out == Observed(EffectIn(code), t)
    {
      var after, captured := DEFAULT_REGS, false;
      var gotContext := os.Ask();
      if gotContext {
        after := RegFields(os.regs.gpr, os.regs.rip, os.regs.eflags, os.regs.xmmLo, os.regs.xmmHi,
                           ReadBack(os.regs.x87), Zeros(DATA_WINDOW));
        captured := true;
      }
      var gotData := os.Ask();
      if gotData { after := after.(dataAfter := os.pages.data[..DATA_WINDOW]); }
      out := LaneOutcome(true, MapException(code), after, captured);
      ReadBackLaw(os.regs.x87);
      t := Trace(prior, w, start, gotContext, gotData);
    }

    /** What the next case will find. */
    function Carried(): Prior
      reads this, os
    {
      Prior(os.pages, os.regs.rest)
    }

    /** Prepare the victim, let it take one step, and read back what it did. */
    method Step(tc: TestCase) returns (out: LaneOutcome, ghost t: Trace)
      requires Valid() && ready
      modifies this`pendingValid, os
      ensures out.setupOk ==> pendingValid && os.unanswered == 1 && !os.stepping && |tc.bytes| <= PAGE_SIZE
      ensures os.unanswered <= 1 && os.abandoned == old(os.abandoned)
      ensures Reports(os.cpu, tc, out, t)
      ensures out.setupOk && !os.Refused(old(os.asked)) ==> Complete(t)
      ensures out.setupOk ==> Faults(os.replies, t.start)
      ensures !out.setupOk ==>
        os.Refused(old(os.asked)) || |tc.bytes| > PAGE_SIZE || NeverFaults(os.replies, t.start)
      ensures out.setupOk ==> Carried() == Left(os.cpu(Prepared(tc, t.prior, t.writes)))
      ensures t.prior == old(Carried()) && t.start == old(os.cursor) && old(os.asked) <= os.asked
    {
      ghost var prior, start := Carried(), os.cursor;
      t := Trace(prior, Writes(false, false, false, false), start, false, false);
      ghost var w;
      var ok;
      ok, w := PrepareVictim(tc);
      if !ok { return FAILED, t; }
      var e, code := TakeStep();
      if !e.Faulted? { return FAILED, t; }
      out, t := ReadOutcome(code, prior, w, start);
      pendingValid := true;
    }

    /** The only reasons for run_one to report a set-up failure. */
    ghost predicate Excused(tc: TestCase, t: Trace, wasReady: bool, asked: nat, cursor: nat)
      reads os`asked
    {
      || os.Refused(asked)
      || |tc.bytes| > PAGE_SIZE
      || (!wasReady && NeverSyncs(os.replies, cursor))
      || NeverFaults(os.replies, t.start)
    }

    /** The part of run_one after ensure_ready. */
    method RunReady(tc: TestCase) returns (out: LaneOutcome, ghost t: Trace)
      requires Valid() && ready
      modifies this, os
      ensures Valid() && old(os.asked) <= os.asked
      ensures !out.setupOk || out.stop != StopOk ==> TornDown()
      ensures out.setupOk ==> |tc.bytes| <= PAGE_SIZE && Faults(os.replies, t.start)
      ensures Reports(os.cpu, tc, out, t)
      ensures out.setupOk && !os.Refused(old(os.asked)) ==> Complete(t)
      ensures out.setupOk ==> Carried() == Left(os.cpu(Prepared(tc, t.prior, t.writes)))
      ensures !out.setupOk ==> Excused(tc, t, true, old(os.asked), old(os.cursor))
      ensures t.prior == old(Carried()) && t.start == old(os.cursor)
      ensures out.setupOk && ready ==> stepsSinceRespawn == old(stepsSinceRespawn) + 1
      ensures out.setupOk ==> (ready <==> out.stop == StopOk && old(stepsSinceRespawn) + 1 < RESPAWN_EVERY)
      ensures os.abandoned <= old(os.abandoned) + 1
      ensures out.setupOk ==> os.abandoned == old(os.abandoned) + (if ready then 0 else 1)
    {
      out, t := Step(tc);
      if !out.setupOk {
        Teardown();
        return;
      }
      stepsSinceRespawn := stepsSinceRespawn + 1;
      if out.stop != StopOk || stepsSinceRespawn >= RESPAWN_EVERY { Teardown(); }
    }

    /** One test case. Whatever Windows answers, the session invariant holds afterwards, anything but
        a clean step leaves the session torn down, and a reported outcome is what this processor does
        from the state prepared for this case over what earlier cases left. Unless a call was refused
        that is, for a self-contained case, the state the test case asks for. It gives up only when
        Windows refused something, the code does not fit its page, or the event stream never gets
        there. At most one debug event is abandoned, and after a reported outcome one is exactly if the
        session was torn down. */
    method RunOne(tc: TestCase) returns (out: LaneOutcome, ghost t: Trace)
      requires Valid() && (ready || NoStorm(os.replies))
      modifies this, os
      ensures Valid() && old(os.asked) <= os.asked
      ensures !out.setupOk || out.stop != StopOk ==> TornDown()
      ensures out.setupOk ==> |tc.bytes| <= PAGE_SIZE && Faults(os.replies, t.start)
      ensures Reports(os.cpu, tc, out, t)
      ensures out.setupOk && !os.Refused(old(os.asked)) ==> Complete(t) && Truthful(os.cpu, tc, out)
      ensures out.setupOk ==> Carried() == Left(os.cpu(Prepared(tc, t.prior, t.writes)))
      ensures !out.setupOk ==> Excused(tc, t, old(ready), old(os.asked), old(os.cursor))
      ensures old(ready) ==> t.prior == old(Carried()) && t.start == old(os.cursor)
      ensures !old(ready) && out.setupOk ==> t.prior.pages == BLANK
      ensures out.setupOk && ready ==> stepsSinceRespawn == (if old(ready) then old(stepsSinceRespawn) else 0) + 1
      ensures out.setupOk && old(ready) ==> (ready <==> out.stop == StopOk && old(stepsSinceRespawn) + 1 < RESPAWN_EVERY)
      ensures out.setupOk && !old(ready) ==> (ready <==> out.stop == StopOk)
      ensures os.abandoned <= old(os.abandoned) + 1
      ensures out.setupOk ==> os.abandoned == old(os.abandoned) + (if ready then 0 else 1)
    {
      t := Trace(Carried(), Writes(false, false, false, false), os.cursor, false, false);
      var ok := EnsureReady();
      if !ok { return FAILED, t; }
      out, t := RunReady(tc);
      CompleteIsTruth(tc, os.cpu, t);
    }

    /** A run of test cases: the invariant holds throughout, whatever happens in between, and if no
        call was refused every reported outcome of a self-contained case is a function of that case. */
    method RunAll(cases: seq<TestCase>) returns (outcomes: seq<LaneOutcome>, ghost traces: seq<Trace>)
      requires Valid() && NoStorm(os.replies)
      modifies this, os
      ensures Valid() && |outcomes| == |traces| == |cases| && old(os.asked) <= os.asked
      ensures AllReport(os.cpu, cases, outcomes, traces)
      ensures !os.Refused(old(os.asked)) ==> AllTruthful(os.cpu, cases, outcomes)
      ensures os.abandoned <= old(os.abandoned) + |cases|
    {
      outcomes, traces := [], [];
      for i := 0 to |cases|
        invariant Valid() && |outcomes| == |traces| == i && old(os.asked) <= os.asked
        invariant AllReport(os.cpu, cases, outcomes, traces)
        invariant !os.Refused(old(os.asked)) ==> AllTruthful(os.cpu, cases, outcomes)
        invariant os.abandoned <= old(os.abandoned) + i
      {
        ghost var t;
        var out: LaneOutcome;
        out, t := RunOne(cases[i]);
        AppendReport(os.cpu, cases, outcomes, traces, out, t);
        if !os.Refused(old(os.asked)) { AppendTruthful(os.cpu, cases, outcomes, out); }
        outcomes, traces := outcomes + [out], traces + [t];
      }
    }
  }

  // ---------------------------------------------------------------- live handles

  lemma BreakpointHandles(s: Stream, start: nat, n: nat)
    requires n > 0 && PumpAfter(s, start, n - 1).Pumping? && PumpAfter(s, start, n).AtBreakpoint?
    ensures var p := PumpAfter(s, start, n); HandlesMatch(s, start, start + n, p.thread, p.process)
  {
    HandlesIff(s, start, n);
    LengthWhilePumping(s, start, n - 1);
  }

  /** Some event of the window names the victim's thread and process. */
  ghost predicate NamesVictim(s: Stream, start: nat, end: nat) {
    exists j: nat :: start <= j < end && CarriesThread(s, j) && CarriesProcess(s, j)
  }

  /** A ready session holds live handles if the events its own spawn consumed named them; no other part
      of the stream matters. */
  lemma LiveHandles(session: Session)
    requires session.Valid() && session.ready
    requires NamesVictim(session.os.replies, session.spawnedAt, session.syncedAt)
    ensures session.thread != 0 && session.process != 0
  {
  }

  /** Such streams bring a spawn to its breakpoint: the victim is created, then stops. */
  lemma NamingSpawnSyncs(s: Stream, c: nat, thread: nat, process: nat)
    requires s(c) == Delivered(CreateProcess(thread, process)) && thread != 0 && process != 0
    requires s(c + 1) == Delivered(Exception(Breakpoint))
    ensures PumpedTo(s, c, c + 2, AtBreakpoint(thread, process)) && NamesVictim(s, c, c + 2)
  {
    assert PumpAfter(s, c, 1) == PumpStep(PumpAfter(s, c, 0), s(c));
    assert PumpAfter(s, c, 2) == PumpStep(PumpAfter(s, c, 1), s(c + 1));
    assert CarriesThread(s, c) && CarriesProcess(s, c);
  }

  // ---------------------------------------------------------------- history independence

  lemma OverlayWhole(p: Page, bytes: Page)
    ensures Overlay(p, 0, bytes) == bytes
  {
  }

  /** With all four page writes in effect only the code page past the case's own bytes, and what the
      lane carries over of the context, still tell of earlier cases. */
  lemma PreparedIsStart(tc: TestCase, prior: Prior)
    ensures var v, start := Prepared(tc, prior, ALL_WRITTEN), StartOf(tc);
      && v.regs == start.regs.(rest := prior.rest)
      && v.pages.data == start.pages.data && v.pages.stack == start.pages.stack
      && forall k :: 0 <= k < PAGE_SIZE ==>
           v.pages.code[k] == if k < |tc.bytes| <= PAGE_SIZE then start.pages.code[k] else prior.pages.code[k]
  {
    OverlayWhole(prior.pages.data, Zeros(PAGE_SIZE));
    OverlayWhole(prior.pages.stack, Zeros(PAGE_SIZE));
  }

  /** The start state is what a blank victim is prepared to. */
  lemma StartIsPrepared(tc: TestCase)
    ensures Prepared(tc, Prior(BLANK, 0), ALL_WRITTEN) == StartOf(tc)
  {
    OverlayWhole(BLANK.data, Zeros(PAGE_SIZE));
    OverlayWhole(BLANK.stack, Zeros(PAGE_SIZE));
  }

  /** A complete trace of a self-contained case leaves nothing between the case and the processor. */
  lemma CompleteIsTruth(tc: TestCase, cpu: View -> Effect, t: Trace)
    ensures Complete(t) ==>
      Observed(cpu(Prepared(tc, t.prior, t.writes)), t) == OutcomeOf(cpu(Prepared(tc, t.prior, ALL_WRITTEN)))
    ensures Complete(t) && SelfContained(cpu, tc) ==>
      Observed(cpu(Prepared(tc, t.prior, t.writes)), t) == OutcomeOf(cpu(StartOf(tc)))
  {
    StartIsPrepared(tc);
  }

  /** Two sessions on machines with the same processor, each with its own history, event stream and
      refusals: if neither refuses a call of the last run_one and the case is self-contained, they
      report the same outcome. */
  method SameCaseSameOutcome(
      a: Session, before: seq<TestCase>, b: Session, before': seq<TestCase>, tc: TestCase)
      returns (x: LaneOutcome, y: LaneOutcome, ghost askedA: nat, ghost askedB: nat)
    requires a.Valid() && NoStorm(a.os.replies) && b.Valid() && NoStorm(b.os.replies)
    requires a != b && a.os != b.os && a.os.cpu == b.os.cpu
    modifies a, a.os, b, b.os
    ensures old(a.os.asked) <= askedA <= a.os.asked && old(b.os.asked) <= askedB <= b.os.asked
    ensures x.setupOk && y.setupOk && !a.os.Refused(askedA) && !b.os.Refused(askedB) && SelfContained(a.os.cpu, tc) ==>
      x == y == OutcomeOf(a.os.cpu(StartOf(tc)))
  {
    var _, _ := a.RunAll(before);
    var _, _ := b.RunAll(before');
    askedA, askedB := a.os.asked, b.os.asked;
    ghost var t;
    x, t := a.RunOne(tc);
    y, t := b.RunOne(tc);
  }

  /** Data and stack as a step finds them, over priors that agree on the rest. */
  ghost predicate PagesReset(tc: TestCase, w: Writes) {
    forall p: Pages, q: Pages :: SameDataAndStack(PagesFor(tc, p, w), PagesFor(tc, q, w))
  }

  predicate SameDataAndStack(p: Pages, q: Pages) {
    p.data == q.data && p.stack == q.stack
  }

  /** The results of the page writes are never looked at. History stays out of the data and stack pages
      exactly when both zeroing writes took effect; the seed and return-address writes cannot make up
      for them. */
  lemma PagesResetIff(tc: TestCase, w: Writes)
    ensures PagesReset(tc, w) <==> w.zeroData && w.zeroStack
  {
    var left := Overlay(Zeros(PAGE_SIZE), PAGE_SIZE - 1, [1]);
    if w.zeroData && w.zeroStack {
      forall p: Pages, q: Pages
        ensures SameDataAndStack(PagesFor(tc, p, w), PagesFor(tc, q, w))
      {
        OverlayWhole(p.data, Zeros(PAGE_SIZE));
        OverlayWhole(q.data, Zeros(PAGE_SIZE));
        OverlayWhole(p.stack, Zeros(PAGE_SIZE));
        OverlayWhole(q.stack, Zeros(PAGE_SIZE));
      }
    } else if !w.zeroData {
      assert PagesFor(tc, BLANK, w).data[PAGE_SIZE - 1] == 0;
      assert PagesFor(tc, BLANK.(data := left), w).data[PAGE_SIZE - 1] == 1;
      assert !SameDataAndStack(PagesFor(tc, BLANK, w), PagesFor(tc, BLANK.(data := left), w));
    } else {
      assert PagesFor(tc, BLANK, w).stack[PAGE_SIZE - 1] == 0;
      assert PagesFor(tc, BLANK.(stack := left), w).stack[PAGE_SIZE - 1] == 1;
      assert !SameDataAndStack(PagesFor(tc, BLANK, w), PagesFor(tc, BLANK.(stack := left), w));
    }
  }

  lemma ComparedFlags(i: nat)
    ensures Bit(COMPARE_FLAGS_MASK, i) <==> i in {0, 2, 4, 6, 7, 10, 11}
  {
    if i >= 12 {
      SixteenBits();
      Nibble(0x100);
      ShlShl(1, 8, 4);
      BitOfLarge(COMPARE_FLAGS_MASK, 12, i);
    } else {
      ComparedFlag(i);
    }
  }

  lemma ComparedFlag(i: nat)
    requires i < 12
    ensures Bit(COMPARE_FLAGS_MASK, i) <==> i in {0, 2, 4, 6, 7, 10, 11}
  {
    assert Bit(COMPARE_FLAGS_MASK, 0) && !Bit(COMPARE_FLAGS_MASK, 1) && Bit(COMPARE_FLAGS_MASK, 2);
    assert !Bit(COMPARE_FLAGS_MASK, 3) && Bit(COMPARE_FLAGS_MASK, 4) && !Bit(COMPARE_FLAGS_MASK, 5);
    assert Bit(COMPARE_FLAGS_MASK, 6) && Bit(COMPARE_FLAGS_MASK, 7) && !Bit(COMPARE_FLAGS_MASK, 8);
    assert !Bit(COMPARE_FLAGS_MASK, 9) && Bit(COMPARE_FLAGS_MASK, 10) && Bit(COMPARE_FLAGS_MASK, 11);
  }

  lemma RegistersForLaw(tc: TestCase, rest: nat)
    ensures RegisterLaw(RegistersFor(tc, rest), tc)
  {
    ImageOfLaw(tc.initial.x87);
    forall i | 0 <= i < 32
      ensures Bit(EflagsOf(tc.initial.rflags), i) <==>
        i == 1 || i == 8 || (i in {0, 2, 4, 6, 7, 10, 11} && Bit(tc.initial.rflags, i))
    {
      StartFlags(tc.initial.rflags, i);
      ComparedFlags(i);
    }
  }

  /** The prepared code page holds the case's code, and with all writes in effect data and stack are as
      the case asks. */
  lemma PagesForLaw(tc: TestCase, prior: Pages, w: Writes)
    requires |tc.bytes| <= PAGE_SIZE
    ensures CodeLaw(PagesFor(tc, prior, w), tc)
    ensures w == ALL_WRITTEN ==> DataLaw(PagesFor(tc, prior, w), tc)
  {
    if w == ALL_WRITTEN {
      OverlayWhole(prior.data, Zeros(PAGE_SIZE));
      OverlayWhole(prior.stack, Zeros(PAGE_SIZE));
      DataLawOf(PagesFor(tc, prior, w), tc);
    }
  }

  lemma EflagsFit(rflags: u64)
    ensures EflagsOf(rflags) == Or(Or(And(rflags, COMPARE_FLAGS_MASK), 0x100), 0x2)
  {
    SixteenBits();
    OrBound(And(rflags, COMPARE_FLAGS_MASK), 0x100, 16);
    OrBound(Or(And(rflags, COMPARE_FLAGS_MASK), 0x100), 0x2, 16);
  }

  /** The flags a step starts with: single-stepping is on, and of the generator's flags only the
      compared ones pass. */
  lemma StartFlags(rflags: u64, i: nat)
    requires i < 32
    ensures Bit(EflagsOf(rflags), i) <==> i == 8 || i == 1 || (Bit(rflags, i) && Bit(COMPARE_FLAGS_MASK, i))
  {
    var low := And(rflags, COMPARE_FLAGS_MASK);
    EflagsFit(rflags);
    BitOr(Or(low, 0x100), 0x2, i);
    BitOr(low, 0x100, i);
    BitAnd(rflags, COMPARE_FLAGS_MASK, i);
    SixteenBits();
    BitOfPow2(8, i);
    ShiftByField(1, 1);
    BitOfPow2(1, i);
  }
}
