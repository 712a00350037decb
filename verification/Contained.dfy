/** Which generated cases are self-contained on the reused victim (src/gen/instruction_gen.cpp against
    src/lanes/hardware_lane.cpp): run_one resets the registers, the data page and the stack page, but of
    the code page it overwrites only the bytes of the instruction.
 */
module Contained {
  import opened Bits
  import opened Types
  import opened Division
  import opened Instructions
  import opened Placement
  import opened Generator
  import opened DebugLoop
  import opened HardwareX87
  import opened HardwareSession
  import opened Comparator
  import opened Triage
  import opened JitCache
  import opened Verdict
  import StartState

  // ---------------------------------------------------------------- what a step reads of the code page

  predicate Covers(start: int, size: nat, address: int) {
    start <= address < start + size
  }

  /** The operand of the instruction covers this address, given the registers it starts with. */
  ghost predicate Touches(i: Instruction, gpr: Sixteen, address: int) {
    if i.BitTest? && i.op.Based? && i.offset.Dynamic? then Covers(BitAddress(i, gpr), BytesOf(i.w), address)
    else if i.StringOp? then
      exists df: bool, k: nat :: k < Iterations(i, gpr) && Covers(StringAddress(SizeOf(i), df, k), SizeOf(i), address)
    else OnMemory(OperandOf(i)) && Covers(EffectiveAddress(OperandOf(i), gpr), SizeOf(i), address)
  }

  ghost predicate TouchesCode(i: Instruction, gpr: Sixteen, k: nat) {
    Touches(i, gpr, CODE_BASE + k)
  }

  /** Some of the operand is what an earlier case may have left behind the instruction. */
  ghost predicate ReadsLeftover(i: Instruction, gpr: Sixteen, length: nat) {
    exists k: nat :: length <= k < PAGE_SIZE && TouchesCode(i, gpr, k)
  }

  /** Of the code page the processor reads the instruction itself and its operand, and of the context
      nothing the lane carries over. */
  ghost predicate ReadsOnly(cpu: View -> Effect, tc: TestCase, i: Instruction) {
    forall p: Prior, q: Prior ::
      SameWhereRead(tc, i, Prepared(tc, p, ALL_WRITTEN).pages.code, Prepared(tc, q, ALL_WRITTEN).pages.code) ==>
      OutcomeOf(cpu(Prepared(tc, p, ALL_WRITTEN))) == OutcomeOf(cpu(Prepared(tc, q, ALL_WRITTEN)))
  }

  ghost predicate SameWhereRead(tc: TestCase, i: Instruction, a: Page, b: Page) {
    forall k: nat :: k < PAGE_SIZE && (k < |tc.bytes| || TouchesCode(i, tc.initial.gpr, k)) ==> a[k] == b[k]
  }

  // ---------------------------------------------------------------- which instructions reach the code page

  /** Only a bit string addressed by a register reaches the code page at all. */
  lemma OnlyBitStringsReachCode(i: Instruction, p: Plan, noise: Sixteen, address: int)
    requires Planned(i, p) && CODE_BASE <= address < DATA_BASE && Touches(i, FinalGpr(p, noise), address)
    ensures i.BitTest? && i.op.Based? && i.offset.Dynamic?
  {
    if i.StringOp? {
      var gpr := FinalGpr(p, noise);
      var df: bool, k: nat :|
        k < Iterations(i, gpr) && Covers(StringAddress(SizeOf(i), df, k), SizeOf(i), address);
      StringOpsStay(i, p, noise, df, k);
    } else if !(i.BitTest? && i.op.Based? && i.offset.Dynamic?) {
      OperandInWindow(i, p, noise);
    }
  }

  /** The bit offsets that reach past the instruction's own bytes. */
  predicate OffsetReachesLeftover(w: OpWidth, disp: int, offset: int, length: nat) {
    var size := BytesOf(w);
    -((PAGE_SIZE + disp + size - 1 - length) / size) * w <= offset < ((-disp - 1) / size + 1) * w
  }

  lemma CellReachesLeftoverIff(w: OpWidth, disp: Disp, offset: int, length: nat)
    requires w != 8
    ensures OffsetReachesLeftover(w, disp, offset, length) <==>
      BitCell(w, disp, offset) < DATA_BASE && CODE_BASE + length < BitCell(w, disp, offset) + BytesOf(w)
  {
    var size, cell, d: int := BytesOf(w), offset / w, disp;
    var low, high := (PAGE_SIZE + d + size - 1 - length) / size, (-d - 1) / size;
    FloorAtLeast(PAGE_SIZE + d + size - 1 - length, size, -cell);
    FloorAtLeast(offset, w, -low);
    FloorAtLeast(-d - 1, size, cell);
    FloorAtLeast(offset, w, high + 1);
    assert -cell * size == -(size * cell) && cell * size == size * cell;
  }

  /** The exact condition: a generated case reads what an earlier one left if and only if it is a BT, BTS,
      BTR or BTC m,r whose bit offset lies in this interval. */
  lemma ReadsLeftoverIff(i: Instruction, p: Plan, noise: Sixteen, length: nat)
    requires Planned(i, p) && length < PAGE_SIZE
    ensures ReadsLeftover(i, FinalGpr(p, noise), length) <==>
      && i.BitTest? && i.op.Based? && i.offset.Dynamic?
      && OffsetReachesLeftover(i.w, i.op.disp, BitIndex(i, FinalGpr(p, noise)), length)
  {
    var gpr := FinalGpr(p, noise);
    if i.BitTest? && i.op.Based? && i.offset.Dynamic? {
      BasedAddress(i, p, noise);
      var start, size := BitAddress(i, gpr), BytesOf(i.w);
      CellReachesLeftoverIff(i.w, i.op.disp, BitIndex(i, gpr), length);
      if start < DATA_BASE && CODE_BASE + length < start + size {
        var address := if start < CODE_BASE + length then CODE_BASE + length else start;
        var k: nat := address - CODE_BASE;
        assert TouchesCode(i, gpr, k);
      }
    } else if ReadsLeftover(i, gpr, length) {
      var k: nat :| length <= k < PAGE_SIZE && TouchesCode(i, gpr, k);
      OnlyBitStringsReachCode(i, p, noise, CODE_BASE + k);
    }
  }

  // ---------------------------------------------------------------- self-contained cases

  /** A processor that reads one byte of the code page and reports it. */
  function Reporting(k: nat): View -> Effect
    requires k < PAGE_SIZE
  {
    (v: View) => Effect(SingleStep, v.regs.(rip := v.pages.code[k]), BLANK)
  }

  lemma LeftoverShows(tc: TestCase, i: Instruction, k: nat)
    requires |tc.bytes| <= k < PAGE_SIZE && TouchesCode(i, tc.initial.gpr, k)
    ensures ReadsOnly(Reporting(k), tc, i) && !SelfContained(Reporting(k), tc)
  {
    var p, q := Prior(BLANK, 0), Prior(BLANK.(code := Overlay(BLANK.code, k, [1])), 0);
    assert Prepared(tc, p, ALL_WRITTEN).pages.code[k] == 0 && Prepared(tc, q, ALL_WRITTEN).pages.code[k] == 1;
    assert OutcomeOf(Reporting(k)(Prepared(tc, p, ALL_WRITTEN))).after.rip == 0;
    assert OutcomeOf(Reporting(k)(Prepared(tc, q, ALL_WRITTEN))).after.rip == 1;
  }

  lemma NothingLeftoverRead(tc: TestCase, i: Instruction, cpu: View -> Effect)
    requires |tc.bytes| <= PAGE_SIZE && !ReadsLeftover(i, tc.initial.gpr, |tc.bytes|) && ReadsOnly(cpu, tc, i)
    ensures SelfContained(cpu, tc)
  {
    forall p: Prior, q: Prior
      ensures OutcomeOf(cpu(Prepared(tc, p, ALL_WRITTEN))) == OutcomeOf(cpu(Prepared(tc, q, ALL_WRITTEN)))
    {
      PreparedIsStart(tc, p);
      PreparedIsStart(tc, q);
      assert SameWhereRead(tc, i, Prepared(tc, p, ALL_WRITTEN).pages.code, Prepared(tc, q, ALL_WRITTEN).pages.code);
    }
  }

  /** On every processor that reads only the instruction and its operand, a generated case is
      self-contained exactly if it is not a bit string whose operand reaches past the instruction's own
      bytes into the code page. */
  lemma GeneratedSelfContainedIff(tc: TestCase, o: Origin)
    requires Produced(tc, o) && o.Generated?
    ensures var i := o.instruction;
      (forall cpu: View -> Effect :: ReadsOnly(cpu, tc, i) ==> SelfContained(cpu, tc)) <==>
      !(&& i.BitTest? && i.op.Based? && i.offset.Dynamic?
        && OffsetReachesLeftover(i.w, i.op.disp, BitIndex(i, tc.initial.gpr), |tc.bytes|))
  {
    var i := o.instruction;
    ReadsLeftoverIff(i, o.plan, o.gprNoise, |tc.bytes|);
    if ReadsLeftover(i, tc.initial.gpr, |tc.bytes|) {
      var k: nat :| |tc.bytes| <= k < PAGE_SIZE && TouchesCode(i, tc.initial.gpr, k);
      LeftoverShows(tc, i, k);
    } else {
      forall cpu: View -> Effect | ReadsOnly(cpu, tc, i) ensures SelfContained(cpu, tc) {
        NothingLeftoverRead(tc, i, cpu);
      }
    }
  }

  /** One generated case, on a processor that reads only the instruction and its operand: unless a call
      was refused or the case is such a bit string, it is filed by what seven and the processor make of
      the case's own start state, whatever ran before in either. */
  method RunGeneratedCase(
      tc: TestCase, ghost o: Origin, engine: Engine, jit: JitExecutor, memory: Memory, hw: Session, u: LaneOutcome)
      returns (filed: Filing, s: LaneOutcome, h: LaneOutcome, ghost t: Trace)
    requires Produced(tc, o) && o.Generated? && ReadsOnly(hw.os.cpu, tc, o.instruction)
    requires Paired(jit, memory) && hw.Valid() && (hw.ready || NoStorm(hw.os.replies)) && !u.capturesX87
    modifies jit, memory, hw, hw.os
    ensures Paired(jit, memory) && hw.Valid() && s == SevenOn(engine, tc)
    ensures filed == FilingOf(s, u, h, h.setupOk, MasksOf(tc)) && FiledAsCompared(filed, s, h, u, tc)
    ensures h.setupOk && !hw.os.Refused(old(hw.os.asked)) && !ReadsLeftover(o.instruction, tc.initial.gpr, |tc.bytes|) ==>
      FiledFor(filed, s, OutcomeOf(hw.os.cpu(StartOf(tc))), u, tc)
  {
    if !ReadsLeftover(o.instruction, tc.initial.gpr, |tc.bytes|) { NothingLeftoverRead(tc, o.instruction, hw.os.cpu); }
    filed, s, h, t := RunCase(tc, engine, jit, memory, hw, u);
  }

  // ---------------------------------------------------------------- the leak

  /** Where in the code page the bit tested by a bit string lies. */
  function TestedByte(i: Instruction, gpr: Sixteen): int
    requires i.BitTest? && i.offset.Dynamic? && i.op.Based?
  {
    BitAddress(i, gpr) - CODE_BASE + BitIndex(i, gpr) % i.w / 8
  }

  function TestedBit(i: Instruction, gpr: Sixteen): nat
    requires i.BitTest? && i.offset.Dynamic? && i.op.Based?
  {
    BitIndex(i, gpr) % i.w % 8
  }

  /** A bit string whose tested bit lies in the code page past the instruction. */
  predicate TestsLeftover(tc: TestCase, i: Instruction) {
    i.BitTest? && i.offset.Dynamic? && i.op.Based? && |tc.bytes| <= TestedByte(i, tc.initial.gpr) < PAGE_SIZE
  }

  predicate BitSet(page: Page, tc: TestCase, i: Instruction)
    requires TestsLeftover(tc, i)
  {
    Bit(page[TestedByte(i, tc.initial.gpr)], TestedBit(i, tc.initial.gpr))
  }

  /** The processor does what BT, BTS, BTR and BTC are for: CF receives the tested bit. */
  ghost predicate ComputesBit(cpu: View -> Effect, tc: TestCase, i: Instruction)
    requires TestsLeftover(tc, i)
  {
    forall p: Prior ::
      var v := Prepared(tc, p, ALL_WRITTEN);
      MapException(cpu(v).exception) == StopOk && (Bit(cpu(v).regs.eflags, 0) <==> BitSet(v.pages.code, tc, i))
  }

  lemma DifferentCarry(a: LaneOutcome, b: LaneOutcome, m: Masks)
    requires a.stop == b.stop == StopOk && m.flags == 1 && a.setupOk && b.setupOk
    requires Bit(a.after.rflags, 0) != Bit(b.after.rflags, 0)
    ensures Diverges(a, b, m)
  {
    BitAnd(a.after.rflags, 1, 0);
    BitAnd(b.after.rflags, 1, 0);
    assert Bit(1, 0);
  }

  lemma LeftoverBitKept(tc: TestCase, i: Instruction, prior: Prior)
    requires TestsLeftover(tc, i)
    ensures BitSet(Prepared(tc, prior, ALL_WRITTEN).pages.code, tc, i) <==> BitSet(prior.pages.code, tc, i)
  {
    PreparedIsStart(tc, prior);
  }

  lemma BlankBit(tc: TestCase, i: Instruction)
    requires TestsLeftover(tc, i)
    ensures !BitSet(BLANK.code, tc, i)
  {
    ShrZero(TestedBit(i, tc.initial.gpr));
  }

  /** What the processor reports over a prior depends on the bit left there, and not on the case alone. */
  lemma LeftoverBitDecides(cpu: View -> Effect, tc: TestCase, i: Instruction, p: Prior, q: Prior)
    requires TestsLeftover(tc, i) && ComputesBit(cpu, tc, i) && tc.flagsMask == 1
    requires BitSet(p.pages.code, tc, i) != BitSet(q.pages.code, tc, i)
    ensures Diverges(OutcomeOf(cpu(Prepared(tc, p, ALL_WRITTEN))), OutcomeOf(cpu(Prepared(tc, q, ALL_WRITTEN))), MasksOf(tc))
  {
    LeftoverBitKept(tc, i, p);
    LeftoverBitKept(tc, i, q);
    DifferentCarry(OutcomeOf(cpu(Prepared(tc, p, ALL_WRITTEN))), OutcomeOf(cpu(Prepared(tc, q, ALL_WRITTEN))), MasksOf(tc));
  }

  lemma BitTestMask(tc: TestCase, o: Origin)
    requires Produced(tc, o) && o.Generated? && o.instruction.BitTest?
    ensures tc.flagsMask == 1
  {
  }

  /** With the tested bit left set by an earlier case, a seven that is exactly right is filed as a
      finding: it finds its code page zero there. */
  lemma LeftoverBitIsAFinding(cpu: View -> Effect, tc: TestCase, o: Origin, prior: Prior, u: LaneOutcome)
    requires Produced(tc, o) && o.Generated? && TestsLeftover(tc, o.instruction)
    requires ComputesBit(cpu, tc, o.instruction) && BitSet(prior.pages.code, tc, o.instruction)
    ensures FilingOf(OutcomeOf(cpu(StartOf(tc))), u, OutcomeOf(cpu(Prepared(tc, prior, ALL_WRITTEN))), true,
                     MasksOf(tc)).Finding?
  {
    var blank := Prior(BLANK, 0);
    StartIsPrepared(tc);
    BitTestMask(tc, o);
    BlankBit(tc, o.instruction);
    LeftoverBitDecides(cpu, tc, o.instruction, blank, prior);
  }

  /** A case the generator can hand out for a plan without x87. */
  function CaseOf(p: Plan, bytes: seq<u8>, noise: Sixteen): TestCase {
    var gpr, seed := FinalGpr(p, noise), FinalSeed(p, Zeros(DATA_WINDOW));
    TestCaseFields(
      bytes, RegFields(gpr, 0, 0x202, SIXTEEN_ZEROS, SIXTEEN_ZEROS, DEFAULT_X87, Zeros(DATA_WINDOW)),
      p.touchesMemory, p.flagsMask, seed, CompareMask(p, gpr, seed))
  }

  lemma CaseOfIsProduced(i: Instruction, p: Plan, bytes: seq<u8>, noise: Sixteen)
    requires Planned(i, p) && !p.usesX87 && 0 < |bytes| <= MAX_INSTRUCTION
    ensures Produced(CaseOf(p, bytes, noise), Generated(i, 0, p, noise, Zeros(DATA_WINDOW), 0, 0, false))
  {
    forall k: nat ensures Bit(0x202, k) <==> k == 1 || k == 9 { StartState.FallbackFlags(k); }
  }

  /** `add qword [rdi], 0x01000000`: eight bytes, the last one odd. */
  const ADD := Other(8, Based(0))
  const ADD_PLAN := FRESH.(touchesMemory := true)
  const ADD_CASE := CaseOf(ADD_PLAN, [0x48, 0x81, 0x47, 0x00, 0x00, 0x00, 0x00, 0x01], SIXTEEN_ZEROS)

  /** `bt word [rdi + 7], ax` with RAX = 0x8000: five bytes, and the tested bit is bit 0 of byte 7 of the
      code page. */
  const BT := BitTest(16, Based(7), Dynamic(0))
  const BT_PLAN := FRESH.(touchesMemory := true, flagsMask := 1)
  const BT_NOISE: Sixteen := SIXTEEN_ZEROS[0 := 0x8000]
  const BT_CASE := CaseOf(BT_PLAN, [0x66, 0x0F, 0xA3, 0x47, 0x07], BT_NOISE)

  lemma BtTestsByteSeven()
    ensures TestsLeftover(BT_CASE, BT)
    ensures TestedByte(BT, BT_CASE.initial.gpr) == 7 && TestedBit(BT, BT_CASE.initial.gpr) == 0
  {
    var gpr := BT_CASE.initial.gpr;
    assert gpr[0] == 0x8000 && gpr[7] == DATA_BASE;
    assert BitIndex(BT, gpr) == -0x8000;
    assert EffectiveAddress(BT.op, gpr) == DATA_BASE + 7;
    assert BitAddress(BT, gpr) == CODE_BASE + 7;
  }

  /** Two generated cases in a row, neither refused anything: the last byte of the first decides what the
      second reports, and a seven that is right about both is filed as a finding. */
  lemma TwoCaseLeak(cpu: View -> Effect, before: Prior, u: LaneOutcome)
    requires cpu(Prepared(ADD_CASE, before, ALL_WRITTEN)).pages.code == Prepared(ADD_CASE, before, ALL_WRITTEN).pages.code
    requires TestsLeftover(BT_CASE, BT) ==> ComputesBit(cpu, BT_CASE, BT)
    ensures Produced(ADD_CASE, Generated(ADD, 0, ADD_PLAN, SIXTEEN_ZEROS, Zeros(DATA_WINDOW), 0, 0, false))
    ensures Produced(BT_CASE, Generated(BT, 0, BT_PLAN, BT_NOISE, Zeros(DATA_WINDOW), 0, 0, false))
    ensures var prior := Left(cpu(Prepared(ADD_CASE, before, ALL_WRITTEN)));
      FilingOf(OutcomeOf(cpu(StartOf(BT_CASE))), u, OutcomeOf(cpu(Prepared(BT_CASE, prior, ALL_WRITTEN))), true,
               MasksOf(BT_CASE)).Finding?
  {
    var prior := Left(cpu(Prepared(ADD_CASE, before, ALL_WRITTEN)));
    CaseOfIsProduced(ADD, ADD_PLAN, ADD_CASE.bytes, SIXTEEN_ZEROS);
    CaseOfIsProduced(BT, BT_PLAN, BT_CASE.bytes, BT_NOISE);
    BtTestsByteSeven();
    assert prior.pages.code[7] == 0x01;
    assert BitSet(prior.pages.code, BT_CASE, BT);
    LeftoverBitIsAFinding(cpu, BT_CASE, Generated(BT, 0, BT_PLAN, BT_NOISE, Zeros(DATA_WINDOW), 0, 0, false), prior, u);
  }
}
