/** The data contract shared by the execution lanes (src/common/types.hpp). */
module Types {
  import opened Bits

  type u8 = x: int | 0 <= x < 0x100
  type u16 = x: int | 0 <= x < 0x1_0000
  type u32 = x: int | 0 <= x < 0x1_0000_0000
  type u64 = x: int | 0 <= x < 0x1_0000_0000_0000_0000

  const CODE_BASE: u64 := 0x0000_1000_0000_0000
  const DATA_BASE: u64 := 0x0000_1000_0000_1000
  const STACK_BASE: u64 := 0x0000_1000_0000_2000
  const STACK_TOP: u64 := 0x0000_1000_0000_2F00
  const PAGE_SIZE: nat := 0x1000
  const DATA_WINDOW: nat := 0x100

  /** CF, PF, AF, ZF, SF, DF and OF. */
  const COMPARE_FLAGS_MASK: u64 := 0x0CD5
  const X87_STATUS_MASK: u16 := 0xFFFF

  const EMPTY_TAG: nat := 3

  /** Eight registers held ST-relative, and the three words that describe them. The tag word holds
      two bits for each PHYSICAL register. */
  datatype X87Fields = X87Fields(
    signif: seq<u64>, signexp: seq<u16>, controlWord: u16, statusWord: u16, tagWord: u16)

  predicate X87Shape(x: X87Fields) {
    |x.signif| == 8 && |x.signexp| == 8
  }

  const DEFAULT_X87 := X87Fields([0, 0, 0, 0, 0, 0, 0, 0], [0, 0, 0, 0, 0, 0, 0, 0], 0x037F, 0, 0xFFFF)

  type X87State = x: X87Fields | X87Shape(x) witness DEFAULT_X87

  /** The Intel rule (FXSAVE entry of Volume 2A) that recreates a full tag from an in-use register's
      contents: 0 valid, 1 zero, 2 special. */
  function X87ClassifyTag(signexp: u16, signif: u64): (tag: nat)
    ensures tag < EMPTY_TAG
  {
    var exp := signexp % 0x8000;
    if exp == 0x7FFF then 2
    else if exp == 0 then (if signif == 0 then 1 else 2)
    else if signif / 0x8000_0000_0000_0000 != 0 then 0 else 2
  }

  // ---------------------------------------------------------------- the same, bit by bit

  /** Bits 2p+1:2p of the tag word. */
  function TagInBits(tagWord: nat, phys: nat): nat {
    Low(Bit(tagWord, 2 * phys)) + 2 * Low(Bit(tagWord, 2 * phys + 1))
  }

  /** The physical register that is ST(i): TOP, bits 13:11 of the status word, plus i, modulo 8. */
  function StackRegister(statusWord: nat, i: nat): (phys: nat)
    ensures phys < 8
  {
    (Low(Bit(statusWord, 11)) + 2 * Low(Bit(statusWord, 12)) + 4 * Low(Bit(statusWord, 13)) + i) % 8
  }

  /** Exponent, bits 14:0 of sign and exponent. */
  predicate ExponentClear(signexp: nat) {
    forall j :: 0 <= j < 15 ==> !Bit(signexp, j)
  }

  predicate ExponentFull(signexp: nat) {
    forall j :: 0 <= j < 15 ==> Bit(signexp, j)
  }

  predicate SignifClear(signif: nat) {
    forall j :: 0 <= j < 64 ==> !Bit(signif, j)
  }

  /** Zero is tagged 1, a normal number with its integer bit set 0, everything else 2. */
  predicate TaggedByContents(tag: nat, signexp: nat, signif: nat) {
    && tag < EMPTY_TAG
    && (tag == 1 <==> ExponentClear(signexp) && SignifClear(signif))
    && (tag == 0 <==> Bit(signif, 63) && !ExponentClear(signexp) && !ExponentFull(signexp))
  }

  /** The tag recreated for a register from its in-use bit and its contents. */
  predicate Recreated(inUse: bool, tag: nat, signexp: nat, signif: nat) {
    if inUse then TaggedByContents(tag, signexp, signif) else tag == EMPTY_TAG
  }

  function TopOf(statusWord: u16): (top: nat)
    ensures top < 8
  {
    Shr(statusWord, 11) % 8
  }

  function TagAt(tagWord: nat, phys: nat): (tag: nat)
    ensures tag <= EMPTY_TAG
  {
    Field(tagWord, phys, 2)
  }

  /** The physical register that is ST(i), and back: `(top + i) & 0x7` and `(phys - top) & 0x7`. */
  function PhysOf(top: nat, i: nat): (phys: nat)
    requires top < 8 && i < 8
    ensures phys < 8 && StOf(top, phys) == i
  {
    (top + i) % 8
  }

  function StOf(top: nat, phys: nat): (i: nat)
    requires top < 8 && phys < 8
    ensures i == if phys < top then phys + 8 - top else phys - top
  {
    (phys - top) % 8
  }

  /** Tag of ST(i), resolved through TOP. */
  function TagOfSt(x: X87State, i: nat): nat
    requires i < 8
  {
    TagAt(x.tagWord, PhysOf(TopOf(x.statusWord), i))
  }

  datatype RegFields = RegFields(
    gpr: Sixteen, rip: u64, rflags: u64, xmmLo: Sixteen, xmmHi: Sixteen, x87: X87State, dataAfter: seq<u8>)

  predicate RegShape(r: RegFields) {
    |r.dataAfter| == DATA_WINDOW
  }

  function Zeros(n: nat): (z: seq<u8>)
    ensures |z| == n
  {
    seq(n, _ => 0)
  }

  type Page = p: seq<u8> | |p| == PAGE_SIZE witness Zeros(PAGE_SIZE)

  function Overlay(p: Page, offset: nat, bytes: seq<u8>): Page
    requires offset + |bytes| <= PAGE_SIZE
  {
    p[..offset] + bytes + p[offset + |bytes|..]
  }

  /** The stack slot at kStackTop, and kCodeBase as the eight bytes stored there. */
  const RETURN_SLOT: nat := 0xF00
  const RETURN_ADDRESS: seq<u8> := [0, 0, 0, 0, 0, 0x10, 0, 0]

  type Sixteen = s: seq<u64> | |s| == 16 witness SIXTEEN_ZEROS

  const SIXTEEN_ZEROS: seq<u64> := [0, 0, 0, 0, 0, 0, 0, 0, 0, 0, 0, 0, 0, 0, 0, 0]

  const DEFAULT_REGS :=
    RegFields(SIXTEEN_ZEROS, 0, 0x202, SIXTEEN_ZEROS, SIXTEEN_ZEROS, DEFAULT_X87, Zeros(DATA_WINDOW))

  type RegState = r: RegFields | RegShape(r) witness DEFAULT_REGS

  datatype TestCaseFields = TestCaseFields(
    bytes: seq<u8>, initial: RegState, touchesMemory: bool, flagsMask: u64, dataSeed: seq<u8>,
    gprCompareMask: u32)

  const DEFAULT_CASE :=
    TestCaseFields([0x90], DEFAULT_REGS, false, COMPARE_FLAGS_MASK, Zeros(DATA_WINDOW), 0xFFFF)

  type TestCase = t: TestCaseFields | |t.dataSeed| == DATA_WINDOW witness DEFAULT_CASE

  /** The three scratch pages every lane maps. */
  datatype Pages = Pages(code: Page, data: Page, stack: Page)

  const BLANK := Pages(Zeros(PAGE_SIZE), Zeros(PAGE_SIZE), Zeros(PAGE_SIZE))

  /** The memory a test case asks for: its bytes, its data and the return address, all else zero. */
  function StartPages(tc: TestCase): Pages {
    Pages(if |tc.bytes| <= PAGE_SIZE then Overlay(BLANK.code, 0, tc.bytes) else BLANK.code,
          Overlay(BLANK.data, 0, tc.dataSeed), Overlay(BLANK.stack, RETURN_SLOT, RETURN_ADDRESS))
  }

  /** The byte mapped at an address of the three pages. */
  function ByteAt(p: Pages, address: int): u8
    requires CODE_BASE <= address < CODE_BASE + 3 * PAGE_SIZE
  {
    if address < DATA_BASE then p.code[address - CODE_BASE]
    else if address < STACK_BASE then p.data[address - DATA_BASE]
    else p.stack[address - STACK_BASE]
  }

  /** What data and stack a case asks for, address by address: its data at the scratch base, the code base
      as a little-endian return address at the stack top, and zeros elsewhere. */
  predicate DataLaw(p: Pages, tc: TestCase) {
    && (forall k :: 0 <= k < DATA_WINDOW ==> ByteAt(p, DATA_BASE + k) == tc.dataSeed[k])
    && (forall q :: 0 <= q < 8 ==> ByteAt(p, STACK_TOP + q) == Field(CODE_BASE, q, 8))
    && (forall a :: DATA_BASE + DATA_WINDOW <= a < STACK_TOP ==> ByteAt(p, a) == 0)
    && (forall a :: STACK_TOP + 8 <= a < STACK_BASE + PAGE_SIZE ==> ByteAt(p, a) == 0)
  }

  predicate CodeLaw(p: Pages, tc: TestCase)
    requires |tc.bytes| <= PAGE_SIZE
  {
    forall k :: 0 <= k < |tc.bytes| ==> ByteAt(p, CODE_BASE + k) == tc.bytes[k]
  }

  datatype Stop = StopOk | StopUd | StopGp | StopPf | StopDe | StopBp | StopHalted | StopOther

  datatype LaneOutcome = LaneOutcome(setupOk: bool, stop: Stop, after: RegState, capturesX87: bool)

  const DEFAULT_OUTCOME := LaneOutcome(true, StopOk, DEFAULT_REGS, false)

  // ---------------------------------------------------------------- facts about the words

  /** A tag word is determined by its eight tags. */
  lemma TagWordExtensional(a: u16, b: u16)
    requires forall p :: 0 <= p < 8 ==> TagAt(a, p) == TagAt(b, p)
    ensures a == b
  {
    assert Unpack(a, 8, 2) == Unpack(b, 8, 2) by {
      forall p | 0 <= p < 8 ensures Unpack(a, 8, 2)[p] == Unpack(b, 8, 2)[p] {
        assert TagAt(a, p) == TagAt(b, p);
      }
    }
    SixteenBits();
    PackOfUnpack(a, 8, 2);
    PackOfUnpack(b, 8, 2);
  }

  lemma SixteenBits()
    ensures Pow2(8) == 0x100 && Pow2(16) == 0x1_0000
  {
    ShiftByByte(1);
    ShlShl(1, 8, 8);
    ShiftByByte(0x100);
  }

  lemma SixtyFourBits()
    ensures Pow2(32) == 0x1_0000_0000 && Pow2(64) == 0x1_0000_0000_0000_0000
  {
    SixteenBits();
    ShlShl(1, 16, 8);
    ShiftByByte(0x1_0000);
    ShlShl(1, 24, 8);
    ShiftByByte(0x100_0000);
    ShlShl(1, 32, 8);
    ShiftByByte(0x1_0000_0000);
    ShlShl(1, 40, 8);
    ShiftByByte(0x100_0000_0000);
    ShlShl(1, 48, 8);
    ShiftByByte(0x1_0000_0000_0000);
    ShlShl(1, 56, 8);
    ShiftByByte(0x100_0000_0000_0000);
  }

  lemma Halve(t: nat)
    ensures t == Low(t % 2 == 1) + 2 * (t / 2)
  {
  }

  lemma ModEight(r: nat, k: nat)
    requires r < 8
    ensures (r + 8 * k) % 8 == r
  {
  }

  lemma LowThreeBits(t: nat)
    ensures t % 8 == Low(t % 2 == 1) + 2 * Low(t / 2 % 2 == 1) + 4 * Low(t / 2 / 2 % 2 == 1)
  {
    Halve(t);
    Halve(t / 2);
    Halve(t / 2 / 2);
    ModEight(Low(t % 2 == 1) + 2 * Low(t / 2 % 2 == 1) + 4 * Low(t / 2 / 2 % 2 == 1), t / 2 / 2 / 2);
  }

  lemma LowFifteen(v: u16)
    ensures And(v, Ones(15)) == v % 0x8000 && Ones(15) == 0x7FFF && v % 0x8000 < Pow2(15)
  {
    SixteenBits();
    Doubled(15);
    OnesBelowPow2(15);
    AndOnes(v, 15);
    var high := Shr(v, 15);
    ShlOfProduct(high, 15);
    ModHalfWord(And(v, Ones(15)), high);
  }

  lemma {:induction false} ShlOfProduct(v: nat, k: nat)
    ensures Shl(v, k) == v * Pow2(k)
  {
    if k != 0 {
      ShlOfProduct(v, k - 1);
      assert v * (2 * Pow2(k - 1)) == 2 * (v * Pow2(k - 1));
    }
  }

  lemma ModHalfWord(low: nat, high: nat)
    requires low < 0x8000
    ensures (low + high * 0x8000) % 0x8000 == low
  {
  }

  /** The exponent field is zero, or full, exactly if its fifteen bits are. */
  lemma ExponentInBits(signexp: u16)
    ensures signexp % 0x8000 == 0 <==> ExponentClear(signexp)
    ensures signexp % 0x8000 == 0x7FFF <==> ExponentFull(signexp)
  {
    var e := signexp % 0x8000;
    LowFifteen(signexp);
    forall j | 0 <= j < 15 ensures Bit(e, j) <==> Bit(signexp, j) {
      BitAnd(signexp, Ones(15), j);
      BitOfOnes(15, j);
    }
    ZeroInBits(e, 15);
    OnesInBits(e, 15);
  }

  /** The integer bit. */
  lemma IntegerBit(signif: u64)
    ensures signif / 0x8000_0000_0000_0000 != 0 <==> Bit(signif, 63)
  {
    var low, high := And(signif, Ones(63)), Shr(signif, 63);
    SixtyFourBits();
    Doubled(63);
    OnesBelowPow2(63);
    AndOnes(signif, 63);
    ShlOfProduct(high, 63);
    assert signif == low + high * 0x8000_0000_0000_0000;
    assert high < 2;
  }

  lemma ClassifiedByContents(signexp: u16, signif: u64)
    ensures TaggedByContents(X87ClassifyTag(signexp, signif), signexp, signif)
  {
    ExponentInBits(signexp);
    IntegerBit(signif);
    SixtyFourBits();
    ZeroInBits(signif, 64);
  }

  lemma ReturnAddressBytes(q: nat)
    requires q < 8
    ensures RETURN_ADDRESS[q] == Field(CODE_BASE, q, 8)
  {
    assert Pack(RETURN_ADDRESS, 8) == CODE_BASE by {
      assert Pack([], 8) == 0;
      assert RETURN_ADDRESS[1..][1..][1..][1..][1..] == [0x10, 0, 0];
    }
    FieldOfPack(RETURN_ADDRESS, q, 8);
  }

  lemma DataLawOf(p: Pages, tc: TestCase)
    requires p.data == Overlay(BLANK.data, 0, tc.dataSeed)
    requires p.stack == Overlay(BLANK.stack, RETURN_SLOT, RETURN_ADDRESS)
    ensures DataLaw(p, tc)
  {
    forall q | 0 <= q < 8 ensures ByteAt(p, STACK_TOP + q) == Field(CODE_BASE, q, 8) { ReturnAddressBytes(q); }
  }

  lemma StartPagesLaw(tc: TestCase)
    requires |tc.bytes| <= PAGE_SIZE
    ensures CodeLaw(StartPages(tc), tc) && DataLaw(StartPages(tc), tc)
    ensures forall a :: CODE_BASE + |tc.bytes| <= a < DATA_BASE ==> ByteAt(StartPages(tc), a) == 0
  {
    DataLawOf(StartPages(tc), tc);
  }

  /** TOP is bits 13:11 of the status word. */
  lemma TopBits(sw: u16)
    ensures TopOf(sw) == Low(Bit(sw, 11)) + 2 * Low(Bit(sw, 12)) + 4 * Low(Bit(sw, 13))
  {
    var t := Shr(sw, 11);
    ShrShr(sw, 11, 1);
    ShrShr(sw, 11, 2);
    assert Shr(t, 1) == t / 2;
    assert Shr(t, 2) == Shr(t / 2, 1) == t / 2 / 2;
    LowThreeBits(t);
  }
}
