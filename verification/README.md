# A verified model of the seven fuzzer's harness

seven-fuzzer runs random one-instruction x86-64 programs through several engines (*lanes*): the seven
interpreter or its JIT, Unicorn, and the real processor, which it reaches by single-stepping a debuggee
on Windows. Whatever the lanes disagree on is filed as a finding or as a Unicorn-only outlier. A verdict
is worth something only if the harness itself is right: every lane must start from the same state, what
earlier cases left behind must not leak into later ones, the comparison must mean what the triage takes
it to mean, and no result may be lost or overwritten. That is what this project models and proves.

Words are natural numbers below 2^8, 2^16, 2^32 or 2^64; shifts, masks and ORs are the functions of the
module `Bits`, whose laws are proved bit by bit. Objects that the source updates in place are classes
whose methods are proved against specification functions (`ImageOf`, `FileOf`, `Prepared`, `FinalGpr`,
`ArchiveAfter` and so on); the lemmas are about those functions. Threads are an interleaving of atomic
steps, over all schedules.

- **x87 layouts** (`Types`, `HardwareX87`, `SevenLane`, `X87Start`): one FPU state is kept
  stack-relative with a full tag word, physically rotated through TOP, and as an FXSAVE image with one
  in-use bit per physical register. Section 8.1.7 of the Intel SDM, Volume 1, defines the tag word;
  the FXSAVE entry of Volume 2A gives the rule that recreates it.
- **Comparison and triage** (`Comparator`, `Triage`), and one case through lanes and triage (`Verdict`).
- **Self-contained cases** (`Contained`): which generated cases can see what earlier ones left in the victim.
- **Hardware session** (`DebugLoop`, `HardwareSession`): the debugger state machine over arbitrary
  streams of debug events and arbitrary outcomes of every other Windows call.
- **JIT lane** (`JitCache`): the executor and the Memory that are reused in lockstep.
- **Generator** (`Draws`, `Division`, `Instructions`, `Families`, `Generator`, `Placement`,
  `StartState`): every random draw is an arbitrary value in its range.
- **Run orchestration** (`Seeds`, `Names`, `Sweep`, `Workers`, `Watchdog`).

## What the proofs say about the code

Where a promise of the code or of its comments is not kept in all cases, the code is modelled as it is,
the failing case is exhibited, and the exact condition is proved.

- Writing an x87 state to the victim and reading it back loses nothing if and only if the state is
  canonical. Every state the generator builds is.
- "diff_pair reports nothing" may be used as an equivalence if and only if the two lanes capture x87
  alike, and, when they do, the status mask keeps the three TOP bits. Today's mask does.
- History is not kept out of the victim. `run_one` overwrites only the instruction's own bytes of the code
  page (`src/lanes/hardware_lane.cpp:441-461`), and BT, BTS, BTR and BTC m,r reach the rest of it. On a
  processor that reads only the instruction and its operand a generated case is self-contained if and only
  if it is not such an instruction with its bit offset in an exactly stated interval. Two generated cases in
  a row show the leak: after `add qword [rdi], 0x01000000`, `bt word [rdi+7], ax` with RAX = 0x8000 tests a
  bit of the first instruction, and a seven that is right about both is filed as a finding.
- Unless Windows refuses a call, a case is filed as a finding if and only if seven's outcome from the memory
  and registers the case asks for differs from what the processor does with them over whatever earlier
  cases left in the code page; for a self-contained case, if and only if it differs from what the processor
  does with the case alone. It is an outlier, always with two recorded disagreements, if and only if those two
  agree and Unicorn differs from both. A case hardware ran is one seven was set up for.
- If the context read after a step is refused, the outcome is still reported as set up, with default
  registers (`src/lanes/hardware_lane.cpp:538-545`), and a case on which seven did exactly what the processor
  did is filed as a finding. Every compared field is the processor's if and only if both reads succeeded.
- `--no-seven` and `--no-unicorn` leave a default outcome in the engine's place, which is set up and is
  compared (`src/main.cpp:453-454`). Without seven a case is a finding if and only if hardware differs from
  that default outside x87; without Unicorn a case on which seven matches hardware is an outlier if and only
  if hardware does. Any step that retires elsewhere than at address zero does.
- Over all thread counts and schedules, with n iterations asked for: a dump directory never exceeds its 250
  files if and only if n <= 2^31, no two writers get the same file name if and only if n <= 2^32, and the
  finding count that is printed is exact if and only if n < 2^31 (the comment at `src/main.cpp:304-309` says
  the counts stay exact). Both indices are 32-bit ints, and wrapped, negative ones pass the `< cap` test. A
  run of nothing but findings is the failing input in each case.
- The results of the four page writes before a step are not looked at
  (`src/lanes/hardware_lane.cpp:453-461`). History stays out of the data and stack pages if and only if both
  zeroing writes took effect.
- A teardown drops the event it holds without continuing it (`src/lanes/hardware_lane.cpp:195-203`). One
  `run_one` abandons at most one debug event, and after a reported outcome exactly one if it tore the
  session down, else none.
- `run_one`'s event loop ends on every stream. `spawn_fresh`'s, which carries the same cap, ends from
  every point if and only if no endless run of non-breakpoint exceptions occurs: it continues those
  without counting them.
- The watchdog takes the process down only over a worker that has started, has not finished and has stored
  nothing for longer than the timeout less a slack, if and only if four things can be relied on: a tick is
  loaded only after one was stored, no tick is stored later after it was read than that slack, no worker
  finishes between the loads of its flag and its tick, and no tick later than the sample is stored during a
  poll. Each has a schedule in which the process is taken down over a worker that is not that silent. A
  worker already silent for too long at the sample is never missed: two loads for each worker up to it, and
  the watchdog has fired.
- `src/main.cpp:605-608` explains why stale dumps are cleared before a child starts. Leftover findings and
  outliers are not, so the first child to launch inherits them; and what an earlier sweep archived for a
  seed stays in place when that seed now produces nothing.
- The README and `src/gen/instruction_gen.hpp` say RSP and RDI are pinned. RSP is not after `jmp rsp`, and
  not after a `cmpxchg` on RSP with a forced accumulator. RDI is pinned whenever memory is touched. A
  register bit offset takes BT, BTS, BTR and BTC outside the window for all but a small interval of offsets.
- The biased DIV never faults at any width, but at 16 and 32 bits it returns the quotient and remainder it
  was built from if and only if the whole dividend fits the operand.

## Model

| member | source | states |
|---|---|---|
| HardwareX87.ApplyContextToX87 | src/lanes/hardware_lane.cpp:51-67 | the loops leave exactly `ImageOf(x)`; bit by bit, an in-use bit is set exactly if the two tag bits of that physical register are not both set, and slot i holds the significand of ST(i) in bytes 0 to 7, sign and exponent in 8 and 9, and zeros |
| HardwareX87.ReadX87FromContext | src/lanes/hardware_lane.cpp:69-91 | of any image, bit by bit: each ST register as its slot holds it, and for the physical register TOP makes of it tag 3 if not in use, else 1 if exponent and significand bits are all clear, 0 if the integer bit is set and the exponent neither all clear nor all set, 2 otherwise |
| HardwareX87.RecreateTagWord | src/lanes/hardware_lane.cpp:80-90 | the shift-and-OR loop packs, for every physical register, the tag its ST value implies if its bit is set and empty otherwise |
| HardwareX87.SlotRoundTrip | src/lanes/hardware_lane.cpp:60-76 | an 80-bit value survives the 16-byte slot |
| HardwareX87.ProjectionFields | src/lanes/hardware_lane.cpp:51-91 | the round trip keeps control word, status word and all eight registers, and replaces each non-empty tag by the implied one |
| HardwareX87.RoundTripIffCanonical | src/lanes/hardware_lane.cpp:51-91 | the round trip returns the state itself if and only if the state is canonical |
| HardwareX87.ProjectionIdempotent | src/lanes/hardware_lane.cpp:51-91 | the round trip is a projection onto the canonical states |
| Types.ClassifiedByContents | src/common/types.hpp:52-57 | the classification in bits: never empty; 1 if and only if bits 14:0 and all of the significand are clear; 0 if and only if bit 63 is set and bits 14:0 are neither all clear nor all set; otherwise 2 |
| Types.PhysOf | src/common/types.hpp:64-67 | the rotation through TOP is undone by the inverse rotation of the hardware lane |
| Types.TagWordExtensional | src/common/types.hpp:41-46 | the tag word is determined by its eight two-bit tags |
| Types.TopBits | src/common/types.hpp:59-61 | TOP is bits 13:11 of the status word |
| SevenLane.ApplyX87 | src/lanes/seven_lane.cpp:43-55 | the loops leave `FileOf(x)`: ST(i) in the physical register bits 13:11 of the status word make of it, and each register's two tag bits |
| SevenLane.ReadX87 | src/lanes/seven_lane.cpp:57-72 | the loops rotate back, by the same bits, and repack the tags masked to two bits |
| SevenLane.SevenRoundTrip | src/lanes/seven_lane.cpp:43-72 | apply then read is the identity on every state |
| SevenLane.FileRoundTrip | src/lanes/seven_lane.cpp:43-72 | read then apply is the identity exactly on the files whose tags are in range |
| SevenLane.LanesAgreeIffCanonical | src/lanes/seven_lane.cpp:43-72 | seven's file and the hardware image denote the same state if and only if the state is canonical |
| SevenLane.PackXmm | src/lanes/seven_lane.cpp:19-28 | ORing sixteen shifted bytes gives lo + hi * 2^64 |
| SevenLane.UnpackXmm | src/lanes/seven_lane.cpp:30-37 | the byte loop recovers both halves, as `UnpackedXmm` |
| SevenLane.XmmRoundTrip | src/lanes/seven_lane.cpp:19-37 | unpack undoes pack for all pairs of 64-bit halves |
| X87Start.ChooseControlWord | src/gen/instruction_gen.cpp:2394-2396 | every bit but the two of the rounding control is that of 0x037F: all exceptions masked, precision extended |
| X87Start.ChooseStatusWord | src/gen/instruction_gen.cpp:2405-2416 | TOP is the drawn value after any stale bits were ORed in, ES and B are clear |
| X87Start.RetaggedField | src/gen/instruction_gen.cpp:2425-2428 | clearing and setting one two-bit field changes that register's tag and no other |
| X87Start.BuildX87 | src/gen/instruction_gen.cpp:2392-2431 | for every draw the built state is well formed and canonical; bit by bit, exactly ST(0) to ST(depth - 1) are in use, each tagged by its contents; outside the ten-percent branch depth covers what the instruction reads |
| X87Start.LanesStartAlike | src/gen/instruction_gen.cpp:2418-2430 | both lanes denote a well-formed state by itself |
| StartState.GeneratedCasesStartAlike | src/gen/instruction_gen.cpp:2392-2431 | for every generated case both lanes start from the x87 state the generator chose |
| StartState.GeneratedFlagsReachHardware | src/lanes/hardware_lane.cpp:431-433 | the victim starts with the generated flags, with TF in place of IF |
| Comparator.NoLinesIffAgree | src/main.cpp:216-289 | no line is reported if and only if all compared fields agree under the masks |
| Comparator.AgreeInBits | src/main.cpp:223-286 | with the status mask in use two outcomes agree if and only if they have the same stop and, after a clean step, the same RIP and data window, the same in every masked GPR and flag bit, and, both capturing x87, the same three words and the same value in every register in use on both sides |
| Comparator.LineReportedIff | src/main.cpp:223-286 | a line is reported if and only if it names a difference that counts, with the two values |
| Comparator.Report | src/main.cpp:218-288 | a pair reports one divergence exactly when both lanes were set up and disagree |
| Comparator.DiffGprs | src/main.cpp:230-238 | one line per differing register whose mask bit is set, in order |
| Comparator.DiffStack | src/main.cpp:273-285 | one line per slot live in both states whose value differs, in order |
| Comparator.DiffPair | src/main.cpp:216-289 | appends exactly the report of the pair and keeps what was there |
| Comparator.DivergesSymmetric | src/main.cpp:216-289 | the comparison does not depend on the order of the lanes |
| Comparator.CoreAgreeTransitive | src/main.cpp:223-251 | agreement outside x87 is transitive under every mask |
| Comparator.AgreeingOutcomesInterchange | src/main.cpp:216-289 | an outcome may be replaced by one it agrees with in every comparison, if both capture x87 alike and the mask keeps TOP |
| Comparator.InterchangeableIff | src/main.cpp:252-286 | that condition is exact: without it there are outcomes that agree but cannot be interchanged |
| Comparator.CaptureMismatchBreaks | src/common/types.hpp:158-163 | two lanes of which only one captures x87 can agree and still differ from a third |
| Comparator.LosingTopBreaks | src/common/types.hpp:91-94 | a status mask without some TOP bit lets two agreeing states hide a register difference |
| Comparator.FullMaskCoversTop | src/common/types.hpp:91-94 | the mask in use keeps TOP |
| Triage.TriageCase | src/main.cpp:469-519 | files each case as `FilingOf` says |
| Triage.FilingRecordsPairs | src/main.cpp:489-500 | a filing records exactly the pairs that diverge, in order |
| Triage.FilingRecordsLines | src/main.cpp:469-500 | and with each pair the lines of its own two outcomes |
| Triage.TriageSound | src/main.cpp:477-501 | outlier if and only if seven matches hardware and Unicorn differs from both, then with two entries; finding if and only if seven differs from hardware |
| Triage.CoreFindingHasAThirdVoice | src/main.cpp:469-519 | when seven and hardware differ outside x87, Unicorn differs from one of them, and the finding says so |
| Triage.OutlierPairsIffSevenRan | src/main.cpp:477-496 | with Unicorn capturing no x87, an outlier lists two pairs if and only if seven was set up |
| Triage.WithoutSeven | src/main.cpp:454-519 | what --no-seven files: a finding if and only if hardware differs from the default outcome outside x87, an outlier if and only if it does not and Unicorn does |
| Triage.WithoutUnicorn | src/main.cpp:453-519 | what --no-unicorn files: a finding if and only if seven differs from hardware, an outlier if and only if it does not and hardware differs from the default outcome outside x87 |
| Triage.LeftOutEngineAlwaysFiled | src/main.cpp:453-519 | with either engine left out no case is clean whose step faulted or retired elsewhere than at address zero |
| Verdict.LanesStartFromTheSameMemory | src/lanes/hardware_lane.cpp:415-461 | on a blank victim both lanes start from the same three pages, the same registers and, if canonical, the same x87 state |
| Verdict.RunCase | src/main.cpp:442-519 | one case through seven, hardware and triage: what is filed and which pairs are recorded, in terms of the fields and bits the test case asks to compare; hardware never runs without seven, an outlier has two entries; and unless a call was refused the filing is exactly what seven makes of the memory and registers the case asks for against what the processor makes of them over what earlier cases left, or, for a self-contained case, of the case alone |
| Contained.OnlyBitStringsReachCode | src/gen/instruction_gen.cpp:917-946 | of all generated operands only a bit string addressed by a register reaches the code page |
| Contained.ReadsLeftoverIff | src/gen/instruction_gen.cpp:937-946 | the operand covers code bytes past the instruction if and only if it is a BT m,r with its offset in the stated interval, on the finished start state |
| Contained.GeneratedSelfContainedIff | src/lanes/hardware_lane.cpp:441-461 | a generated case is self-contained on every processor that reads only the instruction and its operand if and only if it is not such a bit string |
| Contained.RunGeneratedCase | src/main.cpp:434-519 | a generated case that is not such a bit string is filed, unless a call was refused, by what seven and the processor make of the case alone, whatever ran before |
| Contained.LeftoverBitDecides | src/lanes/hardware_lane.cpp:441-449 | if the tested bit lies past the instruction, two priors that differ in it give outcomes that diverge |
| Contained.LeftoverBitIsAFinding | src/lanes/hardware_lane.cpp:441-449 | with that bit left set, a seven that is exactly right is filed as a finding |
| Contained.TwoCaseLeak | src/lanes/hardware_lane.cpp:441-449 | two generated cases in a row for which that happens |
| Verdict.ReadBackTrustedIff | src/lanes/hardware_lane.cpp:538-548 | a reported outcome agrees with the processor on every compared field, for every step, if and only if both reads succeeded |
| Verdict.RefusedReadIsAFinding | src/lanes/hardware_lane.cpp:538-545 | with the context read refused after a clean step, a case on which seven equals the processor is filed as a finding |
| DebugLoop.MapException | src/lanes/hardware_lane.cpp:133-160 | which exceptions stand for which stop, read from the stop |
| DebugLoop.ExamAlwaysEnds | src/lanes/hardware_lane.cpp:479-558 | run_one's event loop ends on every stream within the cap plus one event |
| DebugLoop.ExamFaultsIff | src/lanes/hardware_lane.cpp:481-557 | it ends in an exception if and only if nothing but harmless events, and no more of them than the cap, come before one |
| DebugLoop.PumpEndsIff | src/lanes/hardware_lane.cpp:329-376 | spawn_fresh's loop ends from every point if and only if there is no endless run of stray exceptions |
| DebugLoop.PumpSyncsIff | src/lanes/hardware_lane.cpp:331-376 | it reaches its sync point if and only if before the first breakpoint the victim neither falls silent nor exits and no more events than the cap are other than exceptions |
| DebugLoop.HandlesIff | src/lanes/hardware_lane.cpp:348-367 | the loop holds a process (thread) handle if and only if a CREATE_PROCESS event consumed so far carried one |
| HardwareSession.LiveHandles | src/lanes/hardware_lane.cpp:348-399 | a ready session holds live handles if the events of its own spawn named them; the rest of the stream does not matter |
| HardwareSession.BreakpointHandles | src/lanes/hardware_lane.cpp:348-367 | at the breakpoint each handle is live if and only if some event of the spawn carried it, which the session invariant keeps |
| HardwareSession.NamingSpawnSyncs | src/lanes/hardware_lane.cpp:348-367 | a stream that creates the victim and then stops it meets that hypothesis and brings the spawn to its breakpoint |
| HardwareSession.Session.constructor | src/lanes/hardware_lane.cpp:164-174 | a new session is torn down and satisfies the invariant |
| HardwareSession.Session.Teardown | src/lanes/hardware_lane.cpp:183-203 | leaves no handle and no pending event, from any state; every event unanswered before is abandoned, not continued |
| HardwareSession.Session.DrainToExit | src/lanes/hardware_lane.cpp:183-193 | events are drained up to the first silence or exit, at most fifty, and each is continued |
| HardwareSession.Session.PumpToBreakpoint | src/lanes/hardware_lane.cpp:329-376 | refines the pump over the stream, ends, and on success holds the breakpoint as the one unanswered event, with handles live exactly if the events named them |
| HardwareSession.Session.SyncVictim | src/lanes/hardware_lane.cpp:326-399 | brings a created victim to its breakpoint or tears it down; fails only if the mapping was refused or the events never get there |
| HardwareSession.Session.SpawnFresh | src/lanes/hardware_lane.cpp:253-399 | keeps the invariant whatever Windows answers; success means ready, zeroed pages, a fresh step count and nothing abandoned |
| HardwareSession.Session.EnsureReady | src/lanes/hardware_lane.cpp:401-404 | a ready session is left alone, another is spawned |
| HardwareSession.Session.SetRegisters | src/lanes/hardware_lane.cpp:415-439 | the context starts at the code base with the GPRs, XMM registers and FXSAVE image of the case, and of the flags, bit by bit, TF, the reserved bit and the compared ones; the rest is carried over |
| HardwareSession.Session.ResetPages | src/lanes/hardware_lane.cpp:450-461 | data and stack page end as `PagesFor`, for each combination of unchecked writes that took effect, all four did unless one was refused, and the code page is left alone |
| HardwareSession.Session.PrepareVictim | src/lanes/hardware_lane.cpp:415-461 | what the step will see is `Prepared`; address by address, what the processor fetches at RIP is the case's own code, and unless a call was refused the data page holds the case's data and the eight bytes at the stack top the code base, all else zero |
| HardwareSession.Session.AwaitException | src/lanes/hardware_lane.cpp:479-558 | refines the exam over the stream, ends, and on success holds exactly the event of the step's exception |
| HardwareSession.Session.TakeStep | src/lanes/hardware_lane.cpp:463-558 | the victim takes one step: the exception awaited and what it left are the processor's answer to what it saw |
| HardwareSession.Session.ReadOutcome | src/lanes/hardware_lane.cpp:538-548 | the report holds, register by register, the context as far as it was read, and byte by byte the data window as far as it was read |
| HardwareSession.Session.Step | src/lanes/hardware_lane.cpp:415-558 | a reported outcome is the processor's from the prepared state as far as it was read back, and what the step leaves is what the next case finds; unless a call was refused every write took effect and everything was read back |
| HardwareSession.Session.RunOne | src/lanes/hardware_lane.cpp:406-565 | keeps the invariant; the session stays ready if and only if the step was clean and below the respawn bound, else it is torn down; unless a call was refused a reported outcome is the processor's over what earlier cases left, and for a self-contained case the processor's from the start state the case asks for; a failure is reported only if Windows refused a call, the code does not fit its page, or the events never get there; at most one debug event is abandoned |
| HardwareSession.Session.RunAll | src/main.cpp:428-467 | over any number of cases the invariant holds, and if no call was refused every reported outcome of a self-contained case is a function of that case and the processor |
| HardwareSession.PreparedIsStart | src/lanes/hardware_lane.cpp:415-461 | with the page writes in effect only the code page past the instruction and the carried-over context differ from the start state the case asks for |
| HardwareSession.StartIsPrepared | src/lanes/hardware_lane.cpp:415-461 | a blank victim is prepared to exactly that start state |
| HardwareSession.CompleteIsTruth | src/lanes/hardware_lane.cpp:406-565 | with all writes in effect and both reads made, the report is the processor's outcome over what was left, and for a self-contained case its outcome on the case alone |
| HardwareSession.SameCaseSameOutcome | src/lanes/hardware_lane.cpp:406-565 | two sessions with the same processor but any histories, events and refusals report the same outcome for a self-contained case neither refuses a call for |
| HardwareSession.PagesResetIff | src/lanes/hardware_lane.cpp:450-461 | history stays out of the data and stack pages if and only if both zeroing writes took effect |
| HardwareSession.StartFlags | src/lanes/hardware_lane.cpp:431-433 | the start flags are TF, the reserved bit and the compared flags of the generator, bit for bit |
| HardwareSession.ComparedFlags | src/common/types.hpp:87-89 | the compared flags are CF, PF, AF, ZF, SF, DF and OF |
| JitCache.WriteCase | src/lanes/seven_jit_lane.cpp:115-137 | whatever earlier calls left, all three pages hold what the case asks for, the code page under an epoch it never had before |
| Types.StartPagesLaw | src/lanes/seven_jit_lane.cpp:127-137 | address by address, the memory a case asks for: its code at the code base, its data at the scratch base, the code base as little-endian return address at the stack top, zeros elsewhere |
| JitCache.RunSevenJit | src/lanes/seven_jit_lane.cpp:100-139 | no older entry is fresh: the call executes the bytes it just wrote, on the data and stack it just wrote, and fails exactly when the bytes do not fit the page |
| JitCache.Remap | src/lanes/seven_jit_lane.cpp:115-125 | the three pages are zeroed and their epochs strictly grow |
| JitCache.RunWorker | src/main.cpp:393-434 | over any number of cases, with a recycle every 2000, each call runs its own bytes on its own data and stack |
| JitCache.FreshMemoryUnpaired | src/lanes/seven_jit_lane.hpp:29-39 | an executor that has compiled for the code page is not paired with a new Memory |
| JitCache.RunOnFreshMemory | src/lanes/seven_jit_lane.hpp:29-39 | a call with a Memory of its own runs the kept entry if it has the one epoch every new Memory reaches, else its own bytes |
| JitCache.RunOnFreshMemories | src/lanes/seven_jit_lane.hpp:29-39 | with a new Memory per call every call after the first kept block replays it, which is right if and only if all calls from there on have the same code |
| Division.CarryChain | src/gen/instruction_gen.cpp:1101-1105 | hi:lo is exactly q * d + r, with no carry lost and hi below d |
| Division.BiasedNeverFaults | src/gen/instruction_gen.cpp:1087-1109 | the forced operands never make DIV fault, at any width |
| Division.BiasedRecoveredIff | src/gen/instruction_gen.cpp:1087-1109 | DIV returns the drawn quotient and remainder if and only if the width is 8 or 64 or the dividend fits the operand |
| Families.BiasedDividend | src/gen/instruction_gen.cpp:1096-1105 | draws a non-zero divisor, an operand-sized quotient and a smaller remainder, and returns the halves of their dividend |
| Families.BiasOperands | src/gen/instruction_gen.cpp:1095-1108 | forces divisor, RAX and (but for the byte form) RDX, with a divisor register other than RAX, RDX and RSP |
| Families.GenMulDiv | src/gen/instruction_gen.cpp:1077-1118 | every instruction and context it hands over satisfies `Planned`, and it never gives up |
| Families.GenJmp | src/gen/instruction_gen.cpp:805-824 | likewise; any register may be the target, RSP included |
| Families.GenCall | src/gen/instruction_gen.cpp:825-843 | likewise, but gives up on RSP, and never branches through it |
| Families.GenRmSrc | src/gen/instruction_gen.cpp:961-990 | likewise; only BSF and BSR record their source, and they record the operand they use |
| Families.GenBt | src/gen/instruction_gen.cpp:917-947 | likewise |
| Families.GenStringOps | src/gen/instruction_gen.cpp:604-669 | likewise; RSI and RDI mid-window, a repeat count of 0 or 1 |
| Families.GenXaddCmpxchg | src/gen/instruction_gen.cpp:1837-1862 | likewise; a forced accumulator only for a register CMPXCHG, equal to its destination |
| Families.GenX87Memory | src/gen/instruction_gen.cpp:2075-2124 | likewise; what is planted is planted at the operand, in the operand's size |
| Families.Ctx.PlantInt | src/gen/instruction_gen.cpp:2066-2070 | plants the little-endian bytes of the value, zero-padded to ten |
| Families.Ctx.PlantBytes | src/gen/instruction_gen.cpp:2058-2064 | plants exactly the given bytes |
| Families.Ctx.X87Setup | src/gen/instruction_gen.cpp:2098-2101 | whatever the order of requests, the recorded depth serves all of them and is no larger than the largest: the least upper bound of the requests |
| Families.IndirectTargetDisp | src/gen/instruction_gen.cpp:182-188 | plants a code-page address at the displacement it returns |
| Families.Disp8NeverWrapsIff | src/gen/instruction_gen.cpp:149-158 | 0x7F is the largest inclusive bound whose cast to a signed byte is never negative |
| Generator.InstructionGenerator.FillRegisters | src/gen/instruction_gen.cpp:2379-2386 | pins RSP and RDI, then applies the family's overrides, as `FinalGpr` |
| Generator.InstructionGenerator.FillData | src/gen/instruction_gen.cpp:2441-2455 | plants the qword and then the bytes over random data, as `FinalSeed` |
| Generator.InstructionGenerator.FixCompareMask | src/gen/instruction_gen.cpp:2457-2479 | clears the mask bit `CompareMask` says |
| Generator.InstructionGenerator.RandomFlags | src/gen/instruction_gen.cpp:2433-2439 | the start flags are compared flags, the reserved bit and IF, and the last two are set |
| Generator.InstructionGenerator.Next | src/gen/instruction_gen.cpp:2359-2494 | for every encoder, a case carries the non-empty encoding of the very instruction its start state was built for, and what some family planned; its x87 stack is, outside the ten-percent branch, as deep as the family asked; or it is the NOP after exactly 200 refusals |
| Placement.CompareMaskExact | src/gen/instruction_gen.cpp:2457-2479 | a register is left out of the comparison if and only if it is the destination of a BSF or BSR whose source, read from the finished start state at operand width, is zero |
| Placement.OnlyDefinedFlagsCompared | src/gen/instruction_gen.cpp:917-1084 | the flags compared are CF and OF for MUL and IMUL, none for DIV and IDIV, ZF for BSF and BSR, CF for the bit tests |
| Placement.WithoutBit | src/gen/instruction_gen.cpp:2477 | exactly one bit of the mask is cleared |
| Placement.IndirectLandsInCodePage | src/gen/instruction_gen.cpp:182-188 | the target of every indirect JMP and CALL, resolved against the finished start state, lies in the code page |
| Placement.PlantedOperandIsLoaded | src/gen/instruction_gen.cpp:2450-2455 | a planted x87 operand is what the instruction loads |
| Placement.LittleEndianRoundTrip | src/gen/instruction_gen.cpp:2443-2448 | a planted qword reads back as its value |
| Placement.OperandInWindow | src/gen/instruction_gen.cpp:149-188 | every memory operand lies inside the compared window, register bit offsets aside |
| Placement.DisplacementsFitIff | src/gen/instruction_gen.cpp:149-158 | every displacement keeps an operand in the window if and only if it is at most 129 bytes |
| Placement.RdiWhenTouching | src/gen/instruction_gen.cpp:2381-2386 | when memory is touched RDI is the scratch base, or mid-window for a string operation |
| Placement.RspPinnedIff | src/gen/instruction_gen.cpp:2380-2386 | RSP is the stack top if and only if the instruction is neither a JMP through RSP nor a CMPXCHG on RSP forced to another value |
| Placement.RspNotAlwaysPinned | src/gen/instruction_gen.cpp:813-816 | `jmp rsp` is planned, and RSP then holds a code address |
| Placement.CallPushesOnHarnessStack | src/gen/instruction_gen.cpp:829-836 | every indirect CALL starts with RSP at the stack top |
| Placement.StringInWindowIff | src/gen/instruction_gen.cpp:600-629 | n iterations from mid-window stay inside, for each direction, if and only if n is within the proved bound |
| Placement.StringOpsStay | src/gen/instruction_gen.cpp:604-629 | every iteration of every generated string operation stays in the window in either direction |
| Placement.BitTestStaysIff | src/gen/instruction_gen.cpp:937-946 | the exact interval of register bit offsets for which BT m,r stays in a given range around the scratch base |
| Placement.GeneratedBitTestStaysIff | src/gen/instruction_gen.cpp:937-946 | the same interval for every generated BT m,r, on the registers of its finished start state |
| Placement.BitTestEscapes | src/gen/instruction_gen.cpp:945-946 | with RDI as its own bit offset it always leaves the window |
| Placement.GeneratedDivNeverFaults | src/gen/instruction_gen.cpp:2382-2386 | the biased DIV does not fault on the finished start state |
| Seeds.XorShiftInjective | src/main.cpp:211-213 | z ^ (z >> k) is injective on 64-bit words for every k > 0 |
| Seeds.XorShiftInBits | src/main.cpp:211-213 | bit i of z ^ (z >> k) is the exclusive or of bits i and i + k |
| Seeds.TimesInjective | src/main.cpp:210-212 | multiplication by an invertible constant is injective modulo 2^64 |
| Seeds.ConstantsAreInvertible | src/main.cpp:210-212 | the three constants in use are invertible |
| Seeds.MixSeedInjective | src/main.cpp:207-214 | for every base, different worker ids get different seeds |
| Names.FindingFileInjective | src/report/report.cpp:70 | different indices, negative ones included, give different dump file names |
| Names.NumeralValue | src/main.cpp:596-597 | the digits of a seed tag, most significant first, stand for the seed |
| Names.PaddedValue | src/report/report.cpp:70 | zero-padded digits stand for the index |
| Names.PaddedLength | src/report/report.cpp:70 | and are at least as many as the width |
| Names.ArchiveNameInjective | src/main.cpp:595-597 | different seeds and different kinds of output give different archive names |
| Sweep.Supervisor.RunChild | src/main.cpp:614-646 | the child writes on top of what is left, and its exit is counted under exactly one heading |
| Sweep.Supervisor.MoveAside | src/main.cpp:658-686 | every non-empty output replaces the archive entry of its name, and nothing is left behind |
| Sweep.Supervisor.Run | src/main.cpp:594-691 | the archive ends as `ArchiveAfter`, every child that launched is counted once, and what stays beside the archive is `LiveAfter`: nothing once a child has launched, and no dump in any case |
| Sweep.PathsApart | src/main.cpp:651-685 | the four archive paths of every child of a sweep are all different |
| Sweep.ArchiveComplete | src/main.cpp:651-686 | what every launched child left is in the archive at the end, whatever the later children wrote |
| Sweep.ArchiveOtherwiseKept | src/main.cpp:651-686 | an entry no child writes stays as it was, stale ones included |
| Sweep.OwnOutputIff | src/main.cpp:605-612 | an entry holds the child's own output alone, except for leftovers the first launched child inherits |
| Sweep.ReceivedExact | src/main.cpp:605-686 | file by file, what a child wrote is in its entry as it wrote it, and anything else there is a leftover in the first launched child's findings or outliers |
| Workers.SharesAddUp | src/main.cpp:897-900 | the per-worker shares add up to the iterations |
| Workers.SharesBalanced | src/main.cpp:897-900 | no worker gets more than one test case more than another |
| Workers.WorkerFinishes | src/main.cpp:428-521 | whatever its cases turn out to be, a worker that does not crash has finished after a bounded number of moves |
| Workers.CountedClean | src/main.cpp:498-521 | a clean case adds one to the total and to nothing else |
| Workers.CountedFinding | src/main.cpp:502-521 | a finding adds one to the finding index and to the total, and its file if the index passes the test |
| Workers.CountedOutlier | src/main.cpp:488-521 | an outlier adds one to both outlier counts and to the total, and its file if the index passes the test |
| Workers.StepInv | src/main.cpp:485-521 | every atomic step of every worker keeps the invariant |
| Workers.RunInv | src/main.cpp:485-521 | the invariant holds after every interleaving, crashes included |
| Workers.NamesDistinctIff | src/main.cpp:491-511 | over all threads and schedules nobody is about to write a file that exists or that another worker is about to write, if and only if at most 2^32 iterations are asked for |
| Workers.LastOverwritesFirst | src/main.cpp:502-511 | beyond that, the run in which the last finding writes over the first |
| Workers.QuiescentTotals | src/main.cpp:485-521 | when every worker has finished, the total is the iterations, findings, outliers and clean cases add up to it, and saved and counted outliers agree |
| Workers.TotalsNeverOvershoot | src/main.cpp:485-535 | at every moment, crashes included, nothing is counted that was not run |
| Workers.CapKeptIff | src/main.cpp:304-314 | over all threads, schedules and moments neither directory holds more than 250 files, if and only if at most 2^31 iterations are asked for |
| Workers.CountExactIff | src/main.cpp:304-313 | over all threads and schedules the printed finding count is the number of findings, if and only if fewer than 2^31 iterations are asked for |
| Workers.AllFindingsRun | src/main.cpp:498-521 | the run of nothing but findings: n of them bring the index to n and write every ticket whose index passes the test |
| Workers.CapHoldsIff | src/main.cpp:304-314 | of one finished run, a directory is within its cap, by file name, if and only if its counter stayed at or below 2^31 |
| Workers.CapHolds | src/main.cpp:304-314 | and until then it is within its cap at every moment, crashes included |
| Watchdog.RunInv | src/main.cpp:341-384 | the invariant behind the following, over every interleaving with the clock |
| Watchdog.ReturnsOnlyWhenAllFinished | src/main.cpp:356-384 | the watchdog returns only when every worker is finished |
| Watchdog.ReturnsOnceAllFinished | src/main.cpp:359-383 | the converse, from any point of a poll: once every worker has finished the watchdog returns within the stated number of its own loads, unless it was just about to load the tick of a worker it saw unfinished and fires |
| Watchdog.SleepingReturnsWithinOnePoll | src/main.cpp:359-383 | from sleep it returns within one load for each worker and two more |
| Watchdog.FiresIff | src/main.cpp:361-367 | a loaded tick makes it fire if and only if the time from the last store to the sample plus that store's lag exceeds the timeout, or the tick is later than the sample; neither the flag nor an initialised tick enters into it |
| Watchdog.SilentAtSampleFires | src/main.cpp:361-367 | a worker already silent for too long at the sample makes it fire |
| Watchdog.OnlySilentFireIff | src/main.cpp:341-389 | over every schedule of a discipline the watchdog fires only on workers that have started, have not finished and have been silent for longer than the timeout less a slack, if and only if the discipline has all four side conditions, with the lag of stores bounded by that slack |
| Watchdog.FinishRaceFires | src/main.cpp:364-379 | a finish between the two loads takes the process down over a completed worker |
| Watchdog.StaleReadFires | src/main.cpp:366-429 | a tick stored some lag after it was read makes it fire that much too early, at worst at the moment of the store |
| Watchdog.TickAfterSampleFires | src/main.cpp:361-367 | a tick stored between sample and load makes it fire on a worker that is not idle |
| Watchdog.UnstartedWorkerFires | src/main.cpp:342-389 | a worker thread that has not run yet reads as hung |
| Watchdog.SilentWorkerIsCaught | src/main.cpp:363-381 | after a sample at which a worker was silent too long, two loads for each worker up to it end in a fire, unless that worker stores or finishes |

## Left out

- seven_core, seven-jit, Unicorn, iced_x86 and asmjit: not part of this model. Of seven-jit only the epoch contract its lane states is used, of seven's state that TOP is status bits 13:11.
- Instruction semantics: only unsigned DIV and operand addressing. IDIV operands are biased on a best-effort basis and may fault; no claim is made about them.
- The other instruction families and the opcode tables: they appear as three contracts on what a family may leave in the context (`Branch`, `X87Memory`, `Other`). The encoder may answer anything up to the 15 bytes of an x86 instruction.
- `set_imm_kind` and the other immediate helpers: operand kinds are not modelled.
- The pools of interesting values: a draw is an arbitrary value in its range, which includes them.
- Relaxed memory order: each atomic operation is one step of a sequentially consistent interleaving.
- Windows token, job-object, minidump, vectored-exception and console calls: each is an arbitrary success or failure, and job limits and the environment are left out.
- HardwareSession.Session.RunOne: debug events are taken to belong to the current victim, because the code does not filter by process id.
- HardwareSession.Session.SpawnFresh: requires, as does a run_one that has to spawn, that stray exceptions do not go on for ever, because its loop is only shown to end then.
- Contained.GeneratedSelfContainedIff: about processors whose compared outcome does not depend on what the lane carries over of the context: MXCSR, the segment registers, the x87 instruction and data pointers. No generated instruction changes a control bit of MXCSR or a segment register, and none reports the x87 pointers; sticky MXCSR flags do pass from case to case.
- Contained.RunGeneratedCase: memory outside the three scratch pages is not modelled; an access there is taken to fault and to leave nothing. The NOP handed out after 200 refusals is not covered.
- HardwareSession.SameCaseSameOutcome: for self-contained cases both sessions report and neither has a call refused for, because leftover code bytes and a refused unchecked write or read do change the outcome (`TwoCaseLeak`, `PagesResetIff`, `ReadBackTrustedIff`). The exception a step ends in is the processor's; the event stream decides when, after what other events, and whether it is delivered.
- HardwareSession.Session.Teardown: that the victim goes away with its unanswered event and is never heard of again is assumed of the kill-on-close job. The code does not check that the victim was put into the job (`src/lanes/hardware_lane.cpp:316`).
- XMM registers: captured by the lanes and never compared; the comparator is stated over the fields it compares.
- Text of reports, the disassembly, `setup_error` and `detail` strings: formatting.
- Sweep.Supervisor.Run: rename failures, partial copies and the child's command line are not modelled; a sweep has fewer than 2^31 - 1 children, because the index is cast to int.
- Workers.QuiescentTotals: `finding_count` and `unicorn_outlier_saved` are kept as the number of increments; the int they are stored in wraps at 2^31, which `CountExactIff` and `CapKeptIff` make explicit.
- Host capability probing, the victim stub, stop-reason tables of seven and command-line parsing: one-branch lookups.
