/** What a family of the generator hands to next() (the Instruction and the Ctx of
    src/gen/instruction_gen.cpp), and the start state that follows from it.

    The families whose operands interact with the start state are spelled out. The rest are Branch,
    X87Memory and Other: contracts on what such a family may leave in the context.
 */
module Instructions {
  import opened Bits
  import opened Types
  import opened Division

  datatype Option<T> = None | Some(value: T)

  type Reg = r: int | 0 <= r < 16
  /** A displacement of random_disp8: a signed byte that is never negative. */
  type Disp = d: int | 0 <= d <= 0x7F
  type Seed = s: seq<u8> | |s| == DATA_WINDOW witness Zeros(DATA_WINDOW)

  const MID_WINDOW: u64 := 0x0000_1000_0000_1080

  datatype Operand = NoOperand | Register(r: Reg) | Based(disp: Disp) | Absolute(addr: u64)
  datatype BitOffset = Immediate(imm: u8) | Dynamic(b: Reg)

  datatype Instruction =
    | Branch(target: u64)
    | Indirect(call: bool, op: Operand)
    | MulDiv(kind: nat, w: OpWidth, op: Operand)
    | BitScan(kind: nat, w: OpWidth, dest: Reg, op: Operand)
    | BitTest(w: OpWidth, op: Operand, offset: BitOffset)
    | StringOp(w: OpWidth, repeated: bool)
    | Exchange(compare: bool, w: OpWidth, op: Operand, src: Reg)
    | X87Memory(size: nat, op: Operand)
    | Other(size: nat, op: Operand)

  const DIV: nat := 2
  const IDIV: nat := 3

  // ---------------------------------------------------------------- the context

  datatype ForcedQword = ForcedQword(offset: nat, value: u64)
  datatype ForcedBytesFields = ForcedBytesFields(offset: nat, size: nat, value: seq<u8>)
  type ForcedBytes = f: ForcedBytesFields | f.size <= 10 && |f.value| == 10
    witness ForcedBytesFields(0, 0, Zeros(10))

  function BytesAt(offset: nat, bytes: seq<u8>): ForcedBytes
    requires |bytes| <= 10
  {
    ForcedBytesFields(offset, |bytes|, bytes + Zeros(10 - |bytes|))
  }

  const NOTHING: seq<Option<u64>> :=
    [None, None, None, None, None, None, None, None, None, None, None, None, None, None, None, None]
  type Forced = f: seq<Option<u64>> | |f| == 16 witness NOTHING

  datatype Plan = Plan(
    touchesMemory: bool, flagsMask: u64, forceGpr: Forced,
    scanDest: Option<Reg>, scanReg: Option<Reg>, scanDisp: Option<Disp>, scanBytes: nat,
    qword: Option<ForcedQword>, bytes: Option<ForcedBytes>, usesX87: bool, x87Needs: nat)

  const FRESH := Plan(false, COMPARE_FLAGS_MASK, NOTHING, None, None, None, 0, None, None, false, 0)

  predicate InCodePage(a: u64) {
    CODE_BASE <= a < CODE_BASE + PAGE_SIZE
  }

  predicate OnMemory(op: Operand) {
    op.Based? || op.Absolute?
  }

  // ---------------------------------------------------------------- what each family promises

  predicate IndirectPlan(call: bool, op: Operand, p: Plan) {
    match op
    case Register(r) =>
      && (call ==> r != 4)
      && p.forceGpr[r].Some? && InCodePage(p.forceGpr[r].value)
      && p == FRESH.(forceGpr := NOTHING[r := p.forceGpr[r]])
    case Based(disp) =>
      && p.qword.Some? && p.qword.value.offset == disp && InCodePage(p.qword.value.value)
      && p == FRESH.(touchesMemory := true, qword := p.qword)
    case _ => false
  }

  /** The registers forced by a biased DIV or IDIV with divisor register r. */
  predicate Biases(p: Plan, w: OpWidth, r: Reg, q: nat, remainder: nat) {
    var f := p.forceGpr;
    && r != 0 && r != 2 && r != 4
    && f[r].Some? && f[0].Some? && (w != 8 ==> f[2].Some?)
    && Halves(w, q, f[r].value, remainder, f[0].value, if w != 8 then f[2].value else 0)
    && f == (if w != 8 then NOTHING[r := f[r]][0 := f[0]][2 := f[2]] else NOTHING[r := f[r]][0 := f[0]])
  }

  ghost predicate MulDivPlan(kind: nat, w: OpWidth, op: Operand, p: Plan) {
    var base := FRESH.(flagsMask := if kind >= DIV then 0 else 0x0801);
    && kind <= IDIV
    && match op
       case Register(r) =>
         || p == base
         || (kind >= DIV && p == base.(forceGpr := p.forceGpr)
            && exists q: nat, remainder: nat :: Biases(p, w, r, q, remainder))
       case Based(_) => p == base.(touchesMemory := true)
       case _ => false
  }

  /** BSF and BSR are kinds 0 and 1; only they record their source. */
  predicate BitScanPlan(kind: nat, w: OpWidth, dest: Reg, op: Operand, p: Plan) {
    var base := FRESH.(touchesMemory := op.Based?, flagsMask := if kind < 2 then 0x0040 else COMPARE_FLAGS_MASK);
    var scan := base.(scanDest := Some(dest), scanBytes := BytesOf(w));
    && kind < 5 && w != 8
    && match op
       case Register(r) => p == if kind < 2 then scan.(scanReg := Some(r)) else base
       case Based(disp) => p == if kind < 2 then scan.(scanDisp := Some(disp)) else base
       case _ => false
  }

  predicate BitTestPlan(w: OpWidth, op: Operand, p: Plan) {
    w != 8 && (op.Register? || op.Based?) && p == FRESH.(touchesMemory := op.Based?, flagsMask := 1)
  }

  predicate StringPlan(repeated: bool, p: Plan) {
    var pinned := NOTHING[6 := Some(MID_WINDOW)][7 := Some(MID_WINDOW)];
    && p == FRESH.(touchesMemory := true, forceGpr := p.forceGpr)
    && if repeated
       then p.forceGpr == pinned[1 := Some(0)] || p.forceGpr == pinned[1 := Some(1)]
       else p.forceGpr == pinned
  }

  predicate ExchangePlan(compare: bool, op: Operand, p: Plan) {
    match op
    case Based(_) => p == FRESH.(touchesMemory := true)
    case Register(d) =>
      || p == FRESH
      || (&& compare && d != 0 && p.forceGpr[0].Some?
          && p == FRESH.(forceGpr := NOTHING[0 := p.forceGpr[0]][d := p.forceGpr[0]]))
    case _ => false
  }

  predicate X87MemoryPlan(size: nat, op: Operand, p: Plan) {
    && 0 < size <= 10 && op.Based? && p.x87Needs <= 8
    && (p.bytes.Some? ==> p.bytes.value.offset == op.disp && p.bytes.value.size == size)
    && p == FRESH.(touchesMemory := true, flagsMask := p.flagsMask, bytes := p.bytes,
                   usesX87 := true, x87Needs := p.x87Needs)
  }

  /** Everything else: of the registers at most RCX is forced, and no data is planted. */
  predicate OtherPlan(size: nat, op: Operand, p: Plan) {
    && size <= 32 && p.x87Needs <= 8
    && (OnMemory(op) ==> p.touchesMemory)
    && (op.Absolute? ==> DATA_BASE <= op.addr <= DATA_BASE + 120 && size <= 8)
    && p == FRESH.(touchesMemory := p.touchesMemory, flagsMask := p.flagsMask,
                   forceGpr := NOTHING[1 := p.forceGpr[1]], usesX87 := p.usesX87, x87Needs := p.x87Needs)
  }

  ghost predicate Planned(i: Instruction, p: Plan) {
    match i
    case Branch(target) => InCodePage(target) && p == FRESH.(forceGpr := NOTHING[1 := p.forceGpr[1]])
    case Indirect(call, op) => IndirectPlan(call, op, p)
    case MulDiv(kind, w, op) => MulDivPlan(kind, w, op, p)
    case BitScan(kind, w, dest, op) => BitScanPlan(kind, w, dest, op, p)
    case BitTest(w, op, _) => BitTestPlan(w, op, p)
    case StringOp(_, repeated) => StringPlan(repeated, p)
    case Exchange(compare, _, op, _) => ExchangePlan(compare, op, p)
    case X87Memory(size, op) => X87MemoryPlan(size, op, p)
    case Other(size, op) => OtherPlan(size, op, p)
  }

  // ---------------------------------------------------------------- the start state

  /** RSP, then RDI, then whatever the family forces. */
  function FinalGpr(p: Plan, noise: Sixteen): (gpr: Sixteen)
    ensures forall k :: 0 <= k < 16 && p.forceGpr[k].Some? ==> gpr[k] == p.forceGpr[k].value
    ensures forall k :: 0 <= k < 16 && p.forceGpr[k].None? && k != 4 && k != 7 ==> gpr[k] == noise[k]
  {
    seq(16, k requires 0 <= k < 16 =>
      if p.forceGpr[k].Some? then p.forceGpr[k].value
      else if k == 7 && p.touchesMemory then DATA_BASE
      else if k == 4 then STACK_TOP
      else noise[k])
  }

  /** Overwriting part of the window; bytes that do not fit are dropped as a whole. */
  function Planted(data: Seed, offset: nat, bytes: seq<u8>): (s: Seed)
    ensures offset + |bytes| <= DATA_WINDOW ==> s[offset..offset + |bytes|] == bytes
    ensures forall k :: 0 <= k < DATA_WINDOW && !(offset <= k < offset + |bytes|) ==> s[k] == data[k]
  {
    if offset + |bytes| <= DATA_WINDOW then data[..offset] + bytes + data[offset + |bytes|..] else data
  }

  function LittleEndian(value: u64): (b: seq<u8>)
    ensures |b| == 8
  {
    Unpack(value, 8, 8)
  }

  function FinalSeed(p: Plan, noise: Seed): Seed {
    var s := if p.qword.Some? then Planted(noise, p.qword.value.offset, LittleEndian(p.qword.value.value)) else noise;
    if p.bytes.Some? then Planted(s, p.bytes.value.offset, p.bytes.value.value[..p.bytes.value.size]) else s
  }

  /** The source a bit scan will see, before truncation to the operand width. */
  function ScanSource(p: Plan, gpr: Sixteen, seed: Seed): Option<nat> {
    if p.scanReg.Some? then Some(gpr[p.scanReg.value])
    else if p.scanDisp.Some? && p.scanDisp.value + p.scanBytes <= DATA_WINDOW then
      Some(Pack(seed[p.scanDisp.value..p.scanDisp.value + p.scanBytes], 8))
    else None
  }

  predicate ScanIsZero(p: Plan, gpr: Sixteen, seed: Seed) {
    var source := ScanSource(p, gpr, seed);
    && p.scanDest.Some? && source.Some?
    && (if 0 < p.scanBytes < 8 then And(source.value, Ones(8 * p.scanBytes)) else source.value) == 0
  }

  const EVERY_GPR: u32 := 0xFFFF

  /** `~(1u << bit)` as a word of n bits. */
  function AllBut(n: nat, bit: nat): (r: nat)
    requires bit < n
    ensures r <= Ones(n)
  {
    PowBelowOnes(n, bit);
    Ones(n) - Pow2(bit)
  }

  lemma {:induction false} PowBelowOnes(n: nat, bit: nat)
    requires bit < n
    ensures Pow2(bit) <= Ones(n)
  {
    if bit != 0 { PowBelowOnes(n - 1, bit - 1); }
  }

  function Without(mask: u32, bit: Reg): u32 {
    And(mask, AllBut(32, bit))
  }

  function CompareMask(p: Plan, gpr: Sixteen, seed: Seed): u32 {
    if ScanIsZero(p, gpr, seed) then Without(EVERY_GPR, p.scanDest.value) else EVERY_GPR
  }

  // ---------------------------------------------------------------- addressing the start state

  predicate InWindow(address: int, size: nat) {
    DATA_BASE <= address && address + size <= DATA_BASE + DATA_WINDOW
  }

  function EffectiveAddress(op: Operand, gpr: Sixteen): u64
    requires OnMemory(op)
  {
    match op
    case Based(disp) => (gpr[7] + disp) % TWO_64
    case Absolute(addr) => addr
  }

  /** What a little-endian load of the start state's scratch window finds. */
  function Load(seed: Seed, address: u64, size: nat): Option<nat> {
    if InWindow(address, size) then
      var offset := address - DATA_BASE;
      Some(Pack(seed[offset..offset + size], 8))
    else None
  }
}
