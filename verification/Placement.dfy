/** Where the operands of every generated instruction land, resolved against the final start state:
    planting, pinning, overriding and the compare-mask fix-up are done by different functions of
    src/gen/instruction_gen.cpp, and only their composition means anything to a lane.
 */
module Placement {
  import opened Bits
  import opened Types
  import opened Division
  import opened Instructions

  function OperandOf(i: Instruction): Operand {
    match i
    case Branch(_) => NoOperand
    case Indirect(_, op) => op
    case MulDiv(_, _, op) => op
    case BitScan(_, _, _, op) => op
    case BitTest(_, op, _) => op
    case StringOp(_, _) => NoOperand
    case Exchange(_, _, op, _) => op
    case X87Memory(_, op) => op
    case Other(_, op) => op
  }

  function SizeOf(i: Instruction): nat {
    match i
    case Branch(_) => 0
    case Indirect(_, _) => 8
    case MulDiv(_, w, _) => BytesOf(w)
    case BitScan(_, w, _, _) => BytesOf(w)
    case BitTest(w, _, _) => BytesOf(w)
    case StringOp(w, _) => BytesOf(w)
    case Exchange(_, w, _, _) => BytesOf(w)
    case X87Memory(size, _) => size
    case Other(size, _) => size
  }

  // ---------------------------------------------------------------- pinning

  /** No family that touches memory moves RDI, except to mid-window. */
  lemma RdiWhenTouching(i: Instruction, p: Plan, noise: Sixteen)
    requires Planned(i, p) && p.touchesMemory
    ensures FinalGpr(p, noise)[7] == if i.StringOp? then MID_WINDOW else DATA_BASE
  {
  }

  lemma MemoryTouches(i: Instruction, p: Plan)
    requires Planned(i, p) && OnMemory(OperandOf(i))
    ensures p.touchesMemory && !i.StringOp?
  {
  }

  /** RSP is the harness stack top except after a JMP through RSP, and after a CMPXCHG of RSP that
      was forced equal to some other accumulator. */
  lemma RspPinnedIff(i: Instruction, p: Plan, noise: Sixteen)
    requires Planned(i, p)
    ensures FinalGpr(p, noise)[4] == STACK_TOP <==>
      && !(i.Indirect? && i.op == Register(4))
      && !(i.Exchange? && i.op == Register(4) && p.forceGpr[4].Some? && p.forceGpr[4] != Some(STACK_TOP))
  {
    if i.MulDiv? && i.op.Register? && p.forceGpr != NOTHING {
      var q: nat, remainder: nat :| Biases(p, i.w, i.op.r, q, remainder);
    }
  }

  /** CALL always pushes below the harness stack top. */
  lemma CallPushesOnHarnessStack(i: Instruction, p: Plan, noise: Sixteen)
    requires Planned(i, p) && i.Indirect? && i.call
    ensures FinalGpr(p, noise)[4] == STACK_TOP
  {
    RspPinnedIff(i, p, noise);
  }

  /** The README's pin on RSP is not kept: `jmp rsp` is generated. */
  lemma RspNotAlwaysPinned(noise: Sixteen)
    ensures var p := FRESH.(forceGpr := NOTHING[4 := Some(CODE_BASE)]);
      Planned(Indirect(false, Register(4)), p) && FinalGpr(p, noise)[4] == CODE_BASE
  {
  }

  // ---------------------------------------------------------------- the window

  /** Every operand in memory is addressed inside the compared window, bit-string operands aside. */
  lemma OperandInWindow(i: Instruction, p: Plan, noise: Sixteen)
    requires Planned(i, p) && OnMemory(OperandOf(i))
    requires i.BitTest? ==> i.offset.Immediate?
    ensures InWindow(EffectiveAddress(OperandOf(i), FinalGpr(p, noise)), SizeOf(i))
  {
    MemoryTouches(i, p);
    RdiWhenTouching(i, p, noise);
  }

  function BasedAt(d: Disp): int {
    DATA_BASE + d
  }

  /** The largest operand for which every displacement of random_disp8 stays in the window. */
  lemma DisplacementsFitIff(size: nat)
    ensures (forall d: Disp :: InWindow(BasedAt(d), size)) <==> size <= DATA_WINDOW - 0x7F
  {
    if size > DATA_WINDOW - 0x7F {
      var d: Disp := 0x7F;
      assert !InWindow(BasedAt(d), size);
    }
  }

  lemma BasedAddress(i: Instruction, p: Plan, noise: Sixteen)
    requires Planned(i, p) && OperandOf(i).Based?
    ensures EffectiveAddress(OperandOf(i), FinalGpr(p, noise)) == DATA_BASE + OperandOf(i).disp
  {
    MemoryTouches(i, p);
    RdiWhenTouching(i, p, noise);
  }

  // ---------------------------------------------------------------- planted data

  lemma PlantedLoad(data: Seed, d: Disp, bytes: seq<u8>)
    requires |bytes| <= 10
    ensures Load(Planted(data, d, bytes), DATA_BASE + d, |bytes|) == Some(Pack(bytes, 8))
  {
  }

  /** Little-endian planting is undone by the load. */
  lemma LittleEndianRoundTrip(value: u64)
    ensures Pack(LittleEndian(value), 8) == value
  {
    SixtyFourBits();
    PackOfUnpack(value, 8, 8);
  }

  /** Where an indirect JMP or CALL goes, read from the start state. */
  function Target(i: Instruction, gpr: Sixteen, seed: Seed): Option<nat>
    requires i.Indirect? && (i.op.Register? || i.op.Based?)
  {
    if i.op.Register? then Some(gpr[i.op.r]) else Load(seed, EffectiveAddress(i.op, gpr), 8)
  }

  /** Register or memory, the target of every indirect branch lies in the code page. */
  lemma IndirectLandsInCodePage(i: Instruction, p: Plan, gprNoise: Sixteen, seedNoise: Seed)
    requires Planned(i, p) && i.Indirect?
    ensures var t := Target(i, FinalGpr(p, gprNoise), FinalSeed(p, seedNoise));
      t.Some? && t.value < TWO_64 && InCodePage(t.value)
  {
    if i.op.Based? {
      var planted := p.qword.value.value;
      BasedAddress(i, p, gprNoise);
      PlantedLoad(seedNoise, i.op.disp, LittleEndian(planted));
      LittleEndianRoundTrip(planted);
    }
  }

  /** A planted x87 operand is what the instruction loads. */
  lemma PlantedOperandIsLoaded(i: Instruction, p: Plan, gprNoise: Sixteen, seedNoise: Seed)
    requires Planned(i, p) && i.X87Memory? && p.bytes.Some?
    ensures Load(FinalSeed(p, seedNoise), EffectiveAddress(i.op, FinalGpr(p, gprNoise)), i.size)
      == Some(Pack(p.bytes.value.value[..i.size], 8))
  {
    BasedAddress(i, p, gprNoise);
    PlantedLoad(seedNoise, i.op.disp, p.bytes.value.value[..i.size]);
  }

  // ---------------------------------------------------------------- string operations

  /** Iteration k of a string operation from mid-window, direction flag df. */
  function StringAddress(size: nat, df: bool, k: nat): int {
    if df then MID_WINDOW - k * size else MID_WINDOW + k * size
  }

  /** All n iterations stay in the window exactly for these counts. */
  lemma StringInWindowIff(size: nat, df: bool, n: nat)
    requires 0 < size <= 8
    ensures (forall k: nat :: k < n ==> InWindow(StringAddress(size, df, k), size))
      <==> n == 0 || (if df then (n - 1) * size else n * size) <= DATA_WINDOW / 2
  {
    if n > 0 {
      var last: nat := n - 1;
      assert n * size == last * size + size;
      forall k: nat | k < n ensures k * size <= last * size { MulMono(k, last, size); }
      assert InWindow(StringAddress(size, df, last), size) <==>
        (if df then last * size else n * size) <= DATA_WINDOW / 2;
    }
  }

  function Iterations(i: Instruction, gpr: Sixteen): nat
    requires i.StringOp?
  {
    if i.repeated then gpr[1] else 1
  }

  /** Every generated string operation stays in the window, whichever way DF sends it, through RSI
      and through RDI. */
  lemma StringOpsStay(i: Instruction, p: Plan, noise: Sixteen, df: bool, k: nat)
    requires Planned(i, p) && i.StringOp? && k < Iterations(i, FinalGpr(p, noise))
    ensures FinalGpr(p, noise)[6] == FinalGpr(p, noise)[7] == MID_WINDOW
    ensures InWindow(StringAddress(SizeOf(i), df, k), SizeOf(i))
  {
    StringInWindowIff(SizeOf(i), df, 1);
  }

  // ---------------------------------------------------------------- bit strings

  /** A register bit offset is signed, at operand width. */
  function SignedOffset(w: OpWidth, value: u64): int {
    var v := value % Range(w);
    if v < Range(w) / 2 then v else v - Range(w)
  }

  /** Which operand-sized cell of the bit string holds the addressed bit; floors toward minus infinity. */
  function BitCell(w: OpWidth, disp: Disp, offset: int): int {
    DATA_BASE + disp + BytesOf(w) * (offset / w)
  }

  lemma TimesMono(a: int, b: int, n: nat)
    requires a <= b
    ensures a * n <= b * n
  {
    MulMono(0, b - a, n);
    assert (b - a) * n == b * n - a * n;
  }

  lemma FloorAtLeast(x: int, n: nat, q: int)
    requires n > 0
    ensures q <= x / n <==> q * n <= x
  {
    var f, r := x / n, x % n;
    assert x == f * n + r;
    if q <= f {
      TimesMono(q, f, n);
    } else {
      TimesMono(f + 1, q, n);
      assert (f + 1) * n == f * n + n;
    }
  }

  /** BT, BTS, BTR and BTC with a register offset stay inside [lo, hi) of the scratch page exactly for
      these offsets. The window is lo = 0, hi = 0x100; the three mapped pages are -0x1000 to 0x2000. */
  lemma BitTestStaysIff(w: OpWidth, disp: Disp, offset: int, lo: int, hi: int)
    requires w != 8
    ensures DATA_BASE + lo <= BitCell(w, disp, offset) && BitCell(w, disp, offset) + BytesOf(w) <= DATA_BASE + hi
      <==> -((disp - lo) / BytesOf(w)) * w <= offset < (hi - disp) / BytesOf(w) * w
  {
    var size, cell := BytesOf(w), offset / w;
    FloorAtLeast(disp - lo, size, -cell);
    FloorAtLeast(offset, w, -((disp - lo) / size));
    FloorAtLeast(hi - disp, size, cell + 1);
    FloorAtLeast(offset, w, (hi - disp) / size);
    assert -cell * size == -(size * cell) && (cell + 1) * size == size * cell + size;
  }

  function BitIndex(i: Instruction, gpr: Sixteen): int
    requires i.BitTest? && i.offset.Dynamic?
  {
    SignedOffset(i.w, gpr[i.offset.b])
  }

  /** The address BT, BTS, BTR and BTC access, given the registers the case starts with. */
  function BitAddress(i: Instruction, gpr: Sixteen): int
    requires i.BitTest? && i.offset.Dynamic? && i.op.Based?
  {
    EffectiveAddress(i.op, gpr) + BytesOf(i.w) * (BitIndex(i, gpr) / i.w)
  }

  /** The exact interval, of every generated BT m,r on its finished start state. */
  lemma GeneratedBitTestStaysIff(i: Instruction, p: Plan, noise: Sixteen, lo: int, hi: int)
    requires Planned(i, p) && i.BitTest? && i.op.Based? && i.offset.Dynamic?
    ensures var gpr, size := FinalGpr(p, noise), BytesOf(i.w);
      DATA_BASE + lo <= BitAddress(i, gpr) && BitAddress(i, gpr) + size <= DATA_BASE + hi
      <==> -((i.op.disp - lo) / size) * i.w <= BitIndex(i, gpr) < (hi - i.op.disp) / size * i.w
  {
    BasedAddress(i, p, noise);
    BitTestStaysIff(i.w, i.op.disp, BitIndex(i, FinalGpr(p, noise)), lo, hi);
  }

  /** And the random offset register does leave the window: RDI as its own offset always does. */
  lemma BitTestEscapes(w: OpWidth, disp: Disp, noise: Sixteen)
    requires w != 8
    ensures var i, p := BitTest(w, Based(disp), Dynamic(7)), FRESH.(touchesMemory := true, flagsMask := 1);
      && Planned(i, p)
      && !InWindow(BitCell(w, disp, SignedOffset(w, FinalGpr(p, noise)[7])), BytesOf(w))
  {
  }

  // ---------------------------------------------------------------- division and bit scans

  /** The biased DIV of a finished start state does not fault. */
  lemma GeneratedDivNeverFaults(i: Instruction, p: Plan, noise: Sixteen)
    requires Planned(i, p) && i.MulDiv? && i.kind == DIV && p.forceGpr != NOTHING
    ensures var gpr := FinalGpr(p, noise);
      i.op.Register? && Div(i.w, gpr[0], gpr[2], gpr[i.op.r]).Divided?
  {
    var q: nat, remainder: nat :| Biases(p, i.w, i.op.r, q, remainder);
    var f, gpr := p.forceGpr, FinalGpr(p, noise);
    assert gpr[0] == f[0].value && gpr[i.op.r] == f[i.op.r].value;
    assert i.w != 8 ==> gpr[2] == f[2].value;
    BiasedNeverFaults(i.w, q, gpr[i.op.r], remainder, gpr[0], gpr[2]);
  }

  /** The source operand of a bit scan, read the way the processor reads it. */
  function SourceOperand(i: Instruction, gpr: Sixteen, seed: Seed): Option<nat>
    requires i.BitScan? && (i.op.Register? || i.op.Based?)
  {
    if i.op.Register? then Some(gpr[i.op.r] % Range(i.w))
    else Load(seed, EffectiveAddress(i.op, gpr), BytesOf(i.w))
  }

  lemma ModOfSum(w: OpWidth, low: nat, high: nat)
    requires (w == 16 || w == 32) && low < Range(w)
    ensures (low + Range(w) * high) % Range(w) == low
  {
  }

  lemma Truncated(w: OpWidth, v: nat)
    requires w == 16 || w == 32
    ensures And(v, Ones(w)) == v % Range(w)
  {
    var low, high := And(v, Ones(w)), Shr(v, w);
    AndOnes(v, w);
    RangeOf(w);
    ShiftByWidth(high, w);
    ModOfSum(w, low, high);
  }

  lemma RangeOf(w: OpWidth)
    ensures Ones(w) + 1 == Range(w) == Pow2(w)
  {
    OnesBelowPow2(w);
    SixteenBits();
    SixtyFourBits();
  }

  lemma ShiftBy16(v: nat)
    ensures Shl(v, 16) == 0x1_0000 * v
  {
    ShiftByByte(v);
    ShiftByByte(0x100 * v);
    ShlShl(v, 8, 8);
  }

  lemma ShiftBy32(v: nat)
    ensures Shl(v, 32) == 0x1_0000_0000 * v
  {
    ShiftBy16(v);
    ShiftBy16(0x1_0000 * v);
    ShlShl(v, 16, 16);
  }

  lemma ShiftByWidth(v: nat, w: OpWidth)
    requires w == 16 || w == 32
    ensures Shl(v, w) == Range(w) * v
  {
    if w == 16 { ShiftBy16(v); } else { ShiftBy32(v); }
  }

  lemma BitOfAllBut(n: nat, bit: nat, k: nat)
    requires bit < n
    ensures Bit(AllBut(n, bit), k) <==> k < n && k != bit
  {
    PowBelowOnes(n, bit);
    BitOnesMinus(n, Pow2(bit), k);
    BitOfPow2(bit, k);
  }

  lemma EveryGprBit(k: nat)
    ensures Bit(EVERY_GPR, k) <==> k < 16
  {
    RangeOf(16);
    BitOfOnes(16, k);
  }

  lemma WithoutBit(bit: Reg, k: nat)
    ensures Bit(Without(EVERY_GPR, bit), k) <==> k < 16 && k != bit
  {
    EveryGprBit(k);
    BitAnd(EVERY_GPR, AllBut(32, bit), k);
    BitOfAllBut(32, bit, k);
  }

  lemma MaskedSource(w: OpWidth, v: nat)
    requires w != 8 && v < TWO_64
    ensures (if 0 < BytesOf(w) < 8 then And(v, Ones(8 * BytesOf(w))) else v) == v % Range(w)
  {
    if w != 64 {
      assert 8 * BytesOf(w) == w;
      Truncated(w, v);
    }
  }

  lemma BytesFit(w: OpWidth, bytes: seq<u8>)
    requires |bytes| == BytesOf(w)
    ensures Pack(bytes, 8) < Range(w) <= TWO_64
  {
    PackBound(bytes, 8);
    assert 8 * BytesOf(w) == w;
    RangeOf(w);
  }

  lemma ScannedOperand(i: Instruction, p: Plan, gprNoise: Sixteen, seed: Seed)
    requires Planned(i, p) && i.BitScan? && i.kind < 2
    ensures var gpr := FinalGpr(p, gprNoise); var s := ScanSource(p, gpr, seed);
      s.Some? && s.value < TWO_64 && SourceOperand(i, gpr, seed) == Some(s.value % Range(i.w))
  {
    if i.op.Based? {
      BasedAddress(i, p, gprNoise);
      BytesFit(i.w, seed[i.op.disp..i.op.disp + BytesOf(i.w)]);
    }
  }

  /** The fix-up's view of the source and the processor's agree on whether it is zero. */
  lemma ScanZeroIff(i: Instruction, p: Plan, gprNoise: Sixteen, seed: Seed)
    requires Planned(i, p) && i.BitScan? && i.kind < 2
    ensures var gpr := FinalGpr(p, gprNoise);
      ScanIsZero(p, gpr, seed) <==> SourceOperand(i, gpr, seed) == Some(0)
  {
    ScannedOperand(i, p, gprNoise, seed);
    MaskedSource(i.w, ScanSource(p, FinalGpr(p, gprNoise), seed).value);
  }

  /** A register is left out of the comparison exactly when it is the destination of a BSF or BSR whose
      source, as the processor will read it from the finished start state, is zero. */
  lemma CompareMaskExact(i: Instruction, p: Plan, gprNoise: Sixteen, seedNoise: Seed, k: nat)
    requires Planned(i, p)
    ensures var gpr, seed := FinalGpr(p, gprNoise), FinalSeed(p, seedNoise);
      Bit(CompareMask(p, gpr, seed), k) <==>
        k < 16 && !(i.BitScan? && i.kind < 2 && k == i.dest && SourceOperand(i, gpr, seed) == Some(0))
  {
    EveryGprBit(k);
    if i.BitScan? && i.kind < 2 {
      ScanZeroIff(i, p, gprNoise, FinalSeed(p, seedNoise));
      WithoutBit(i.dest, k);
    }
  }

  /** Only flags the instruction defines are compared: of MUL and IMUL CF and OF, of DIV and IDIV none, of
      BSF and BSR ZF, of a bit test CF. */
  lemma OnlyDefinedFlagsCompared(i: Instruction, p: Plan, k: nat)
    requires Planned(i, p) && (i.MulDiv? || i.BitTest? || (i.BitScan? && i.kind < 2))
    ensures Bit(p.flagsMask, k) <==>
      if i.MulDiv? then i.kind < DIV && (k == 0 || k == 11) else if i.BitScan? then k == 6 else k == 0
  {
    MaskBits(k);
  }

  lemma MaskBits(k: nat)
    ensures !Bit(0, k) && (Bit(1, k) <==> k == 0) && (Bit(0x0040, k) <==> k == 6)
    ensures Bit(0x0801, k) <==> k == 0 || k == 11
  {
    ShrZero(k);
    SixteenBits();
    Nibble(1);
    Doubled(0); Doubled(4); Doubled(5); Doubled(8); Doubled(9); Doubled(10);
    BitOfPow2(0, k);
    BitOfPow2(6, k);
    BitOfPow2(11, k);
    OrDisjoint(1, 1, 11);
    BitOr(1, Pow2(11), k);
  }
}
