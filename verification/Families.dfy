/** The instruction families (the gen_ functions of src/gen/instruction_gen.cpp). Each writes into a
    fresh context and may give up; what it hands over satisfies Planned.

    GenBranch, GenX87Memory and GenOther each stand for the families next() needs to know nothing
    else about.
 */
module Families {
  import opened Bits
  import opened Types
  import opened Draws
  import opened Division
  import opened Instructions

  class Ctx {
    var touchesMemory: bool
    var flagsMask: u64
    var forceGpr: Forced
    var scanDest: Option<Reg>
    var scanReg: Option<Reg>
    var scanDisp: Option<Disp>
    var scanBytes: nat
    var forceDataQword: Option<ForcedQword>
    var forceDataBytes: Option<ForcedBytes>
    var usesX87: bool
    var x87Needs: nat

    constructor ()
      ensures Contents() == FRESH
    {
      touchesMemory, flagsMask, forceGpr := false, COMPARE_FLAGS_MASK, NOTHING;
      scanDest, scanReg, scanDisp, scanBytes := None, None, None, 0;
      forceDataQword, forceDataBytes, usesX87, x87Needs := None, None, false, 0;
    }

    function Contents(): Plan
      reads this
    {
      Plan(touchesMemory, flagsMask, forceGpr, scanDest, scanReg, scanDisp, scanBytes,
           forceDataQword, forceDataBytes, usesX87, x87Needs)
    }

    method Force(r: Reg, value: u64)
      modifies this`forceGpr
      ensures forceGpr == old(forceGpr)[r := Some(value)]
    {
      forceGpr := forceGpr[r := Some(value)];
    }

    /** Copies at most ten bytes, into a zeroed buffer. */
    method PlantBytes(disp: Disp, src: seq<u8>, size: nat)
      requires size <= |src| && size <= 10
      modifies this`forceDataBytes
      ensures forceDataBytes == Some(BytesAt(disp, src[..size]))
    {
      var value: seq<u8> := Zeros(10);
      for i := 0 to size
        invariant value == src[..i] + Zeros(10 - i)
      {
        value := value[i := src[i]];
        assert value == src[..i + 1] + Zeros(10 - (i + 1));
      }
      var fb: ForcedBytes := ForcedBytesFields(disp, size, value);
      forceDataBytes := Some(fb);
    }

    /** Little-endian, and the shift by 8 * i is only defined below eight bytes. */
    method PlantInt(disp: Disp, value: u64, size: nat)
      requires size <= 8
      modifies this`forceDataBytes
      ensures forceDataBytes == Some(BytesAt(disp, Unpack(value, size, 8)))
    {
      var bytes: seq<u8> := Zeros(10);
      for i := 0 to size
        invariant bytes == Unpack(value, i, 8) + Zeros(10 - i)
      {
        bytes := bytes[i := Shr(value, 8 * i) % 0x100];
        assert bytes == Unpack(value, i + 1, 8) + Zeros(10 - (i + 1));
      }
      PlantBytes(disp, bytes, size);
      assert bytes[..size] == Unpack(value, size, 8);
    }

    /** However often a family asks, the least depth that serves every request so far. */
    method X87Setup(needs: nat)
      modifies this`usesX87, this`x87Needs
      ensures usesX87 && needs <= x87Needs && old(x87Needs) <= x87Needs
      ensures x87Needs == needs || x87Needs == old(x87Needs)
    {
      usesX87 := true;
      if needs > x87Needs { x87Needs := needs; }
    }
  }

  /** `static_cast<std::int8_t>` of an int in 0 .. 255. */
  function AsInt8(raw: nat): int
    requires raw < 0x100
  {
    if raw < 0x80 then raw else raw - 0x100
  }

  /** An exclusive bound of 0x80 is the largest that never wraps to a negative displacement. */
  lemma Disp8NeverWrapsIff(inclusiveBound: nat)
    requires inclusiveBound < 0x100
    ensures (forall raw: nat :: raw <= inclusiveBound ==> AsInt8(raw) >= 0) <==> inclusiveBound <= 0x7F
  {
    assert AsInt8(inclusiveBound) >= 0 <==> inclusiveBound <= 0x7F;
  }

  method RandomDisp8() returns (d: Disp) {
    var raw := RandInt(0, 0x7F);
    d := AsInt8(raw);
  }

  method RandomCodeTarget() returns (t: u64)
    ensures InCodePage(t)
  {
    var offset := RandInt(0, PAGE_SIZE - 16);
    t := CODE_BASE + offset;
  }

  method PickReg() returns (r: Reg) {
    r := RandInt(0, 15);
  }

  method PickWidth() returns (w: OpWidth) {
    var pick := RandInt(0, 3);
    w := if pick == 0 then 8 else if pick == 1 then 16 else if pick == 2 then 32 else 64;
  }

  method PickWideWidth() returns (w: OpWidth)
    ensures w != 8
  {
    var pick := RandInt(0, 2);
    w := if pick == 0 then 16 else if pick == 1 then 32 else 64;
  }

  /** Plants a code-page address in an eight-byte slot of the window. */
  method IndirectTargetDisp(c: Ctx) returns (d: Disp)
    modifies c`forceDataQword
    ensures c.forceDataQword.Some? && c.forceDataQword.value.offset == d
    ensures InCodePage(c.forceDataQword.value.value)
  {
    var slot := RandInt(0, 15);
    var target := RandomCodeTarget();
    c.forceDataQword := Some(ForcedQword(slot * 8, target));
    d := AsInt8(slot * 8);
  }

  method GenBranch(c: Ctx) returns (i: Option<Instruction>)
    requires c.Contents() == FRESH
    modifies c
    ensures i.Some? && Planned(i.value, c.Contents())
  {
    var bias := RandInt(0, 1);
    if bias == 0 {
      var count := RandInt(0, 3);
      c.Force(1, count);
    }
    var target := RandomCodeTarget();
    i := Some(Branch(target));
  }

  /** The register form takes any register, RSP included. */
  method GenJmp(c: Ctx) returns (i: Option<Instruction>)
    requires c.Contents() == FRESH
    modifies c
    ensures i.Some? && Planned(i.value, c.Contents())
  {
    var pick := RandInt(0, 3);
    match pick
    case 0 =>
      var offset := RandInt(2, 120);
      i := Some(Branch(CODE_BASE + offset));
    case 1 =>
      var target := RandomCodeTarget();
      i := Some(Branch(target));
    case 2 =>
      var r := PickReg();
      var target := RandomCodeTarget();
      c.Force(r, target);
      i := Some(Indirect(false, Register(r)));
    case _ =>
      var disp := IndirectTargetDisp(c);
      c.touchesMemory := true;
      i := Some(Indirect(false, Based(disp)));
  }

  /** The register form gives RSP up: the return address would be pushed somewhere unmapped. */
  method GenCall(c: Ctx) returns (i: Option<Instruction>)
    requires c.Contents() == FRESH
    modifies c
    ensures i.Some? ==> Planned(i.value, c.Contents())
  {
    var pick := RandInt(0, 2);
    match pick
    case 0 =>
      var target := RandomCodeTarget();
      i := Some(Branch(target));
    case 1 =>
      var r := PickReg();
      if r == 4 { return None; }
      var target := RandomCodeTarget();
      c.Force(r, target);
      i := Some(Indirect(true, Register(r)));
    case _ =>
      var disp := IndirectTargetDisp(c);
      c.touchesMemory := true;
      i := Some(Indirect(true, Based(disp)));
  }

  const NON_ACCUMULATOR: seq<Reg> := [1, 3, 5, 6, 7, 8, 9, 10, 11, 12, 13, 14, 15]

  /** An operand-sized quotient and divisor, a remainder, and the dividend they make. */
  method BiasedDividend(w: OpWidth) returns (divisor: u64, lo: u64, hi: u64, ghost q: nat, ghost remainder: nat)
    ensures Halves(w, q, divisor, remainder, lo, hi)
  {
    RangeIsOnes(w);
    divisor := RandomImm(w);
    if divisor == 0 { divisor := 1; }
    var quotient := RandomImm(w);
    var r: u64 := 0;
    if divisor > 1 {
      var any := RandomU64();
      r := any % divisor;
    }
    lo, hi := CarryChain(w, quotient, divisor, r);
    q, remainder := quotient, r;
  }

  /** The biased branch of gen_muldiv: a register form whose operands divide. */
  method BiasOperands(c: Ctx, w: OpWidth) returns (mapped: Reg, ghost q: nat, ghost remainder: nat)
    requires c.forceGpr == NOTHING
    modifies c`forceGpr
    ensures Biases(c.Contents(), w, mapped, q, remainder)
  {
    var index := RandInt(0, 12);
    mapped := NON_ACCUMULATOR[index];
    var divisor, lo, hi;
    divisor, lo, hi, q, remainder := BiasedDividend(w);
    c.Force(mapped, divisor);
    c.Force(0, lo);
    if w != 8 { c.Force(2, hi); }
  }

  lemma RangeIsOnes(w: OpWidth)
    ensures Range(w) == Ones(w) + 1
  {
    OnesBelowPow2(w);
    SixteenBits();
    SixtyFourBits();
  }

  method GenMulDiv(c: Ctx) returns (i: Option<Instruction>)
    requires c.Contents() == FRESH
    modifies c
    ensures i.Some? && Planned(i.value, c.Contents())
  {
    var kind: nat := RandInt(0, 3);
    var w := PickWidth();
    c.flagsMask := if kind >= DIV then 0 else 0x0801;
    var bias := RandInt(0, 2);
    if kind >= DIV && bias != 0 {
      var mapped;
      ghost var q, remainder;
      mapped, q, remainder := BiasOperands(c, w);
      return Some(MulDiv(kind, w, Register(mapped)));
    }
    var form := RandInt(0, 1);
    if form == 0 {
      var r := PickReg();
      return Some(MulDiv(kind, w, Register(r)));
    }
    c.touchesMemory := true;
    var disp := RandomDisp8();
    i := Some(MulDiv(kind, w, Based(disp)));
  }

  method RecordScan(c: Ctx, d: Reg, s: Option<Reg>, disp: Option<Disp>, w: OpWidth)
    modifies c
    ensures c.Contents() == old(c.Contents()).(scanDest := Some(d), scanReg := s, scanDisp := disp, scanBytes := BytesOf(w))
  {
    c.scanDest, c.scanReg, c.scanDisp, c.scanBytes := Some(d), s, disp, BytesOf(w);
  }

  method GenRmSrc(c: Ctx) returns (i: Option<Instruction>)
    requires c.Contents() == FRESH
    modifies c
    ensures i.Some? && Planned(i.value, c.Contents())
  {
    var kind: nat := RandInt(0, 4);
    var isScan := kind == 0 || kind == 1;
    if isScan { c.flagsMask := 0x0040; }
    var w := PickWideWidth();
    var d := PickReg();
    var form := RandInt(0, 1);
    if form == 0 {
      var s := PickReg();
      if isScan { RecordScan(c, d, Some(s), None, w); }
      return Some(BitScan(kind, w, d, Register(s)));
    }
    c.touchesMemory := true;
    var disp := RandomDisp8();
    if isScan { RecordScan(c, d, None, Some(disp), w); }
    i := Some(BitScan(kind, w, d, Based(disp)));
  }

  method GenBt(c: Ctx) returns (i: Option<Instruction>)
    requires c.Contents() == FRESH
    modifies c
    ensures i.Some? && Planned(i.value, c.Contents())
  {
    c.flagsMask := 1;
    var w := PickWideWidth();
    var useImm := RandInt(0, 1);
    var imm := RandomImm(8);
    var b := PickReg();
    assert Ones(8) == 0xFF;
    var offset := if useImm == 0 then Immediate(imm) else Dynamic(b);
    var form := RandInt(0, 1);
    if form == 0 {
      var a := PickReg();
      return Some(BitTest(w, Register(a), offset));
    }
    c.touchesMemory := true;
    var disp := RandomDisp8();
    i := Some(BitTest(w, Based(disp), offset));
  }

  method GenStringOps(c: Ctx) returns (i: Option<Instruction>)
    requires c.Contents() == FRESH
    modifies c
    ensures i.Some? && Planned(i.value, c.Contents())
  {
    c.touchesMemory := true;
    c.Force(6, MID_WINDOW);
    c.Force(7, MID_WINDOW);
    var w := PickWidth();
    var rep := RandInt(0, 2);
    if rep != 0 {
      var count := RandInt(0, 1);
      c.Force(1, count);
    }
    i := Some(StringOp(w, rep != 0));
  }

  method GenXaddCmpxchg(c: Ctx) returns (i: Option<Instruction>)
    requires c.Contents() == FRESH
    modifies c
    ensures i.Some? && Planned(i.value, c.Contents())
  {
    var w := PickWidth();
    var form := RandInt(0, 1);
    var compare := form != 0;
    var s := PickReg();
    var memory := RandInt(0, 2);
    if memory == 0 {
      c.touchesMemory := true;
      var disp := RandomDisp8();
      return Some(Exchange(compare, w, Based(disp), s));
    }
    var d := PickReg();
    var equal := RandInt(0, 1);
    if compare && equal == 0 && d != 0 {
      var shared := RandomU64();
      c.Force(0, shared);
      c.Force(d, shared);
    }
    i := Some(Exchange(compare, w, Register(d), s));
  }

  method PickX87Size() returns (size: nat)
    ensures 0 < size <= 10
  {
    var pick := RandInt(0, 3);
    size := if pick == 0 then 2 else if pick == 1 then 4 else if pick == 2 then 8 else 10;
  }

  /** The x87 memory forms: the operand's bytes are planted, three times in four. */
  method GenX87Memory(c: Ctx) returns (i: Option<Instruction>)
    requires c.Contents() == FRESH
    modifies c
    ensures i.Some? && Planned(i.value, c.Contents())
  {
    var needs := RandInt(0, 8);
    c.X87Setup(needs);
    c.touchesMemory := true;
    c.flagsMask := RandomU64();
    var size := PickX87Size();
    var disp := RandomDisp8();
    var plant := RandInt(0, 3);
    if plant != 0 {
      var value := RandomU64();
      if size <= 8 {
        c.PlantInt(disp, value, size);
      } else {
        var signexp: u16 := RandInt(0, 0xFFFF);
        c.PlantBytes(disp, LittleEndian(value) + Unpack(signexp, 2, 8), size);
      }
    }
    i := Some(X87Memory(size, Based(disp)));
  }

  method GenOther(c: Ctx) returns (i: Option<Instruction>)
    requires c.Contents() == FRESH
    modifies c
    ensures i.Some? ==> Planned(i.value, c.Contents())
  {
    c.flagsMask := RandomU64();
    var count := RandInt(0, 1);
    if count == 0 {
      var rcx := RandomU64();
      c.Force(1, rcx);
    }
    var form := RandInt(0, 4);
    if form == 0 { return None; }
    if form == 1 {
      c.touchesMemory := true;
      var disp := RandomDisp8();
      var size := RandInt(1, 32);
      return Some(Other(size, Based(disp)));
    }
    if form == 2 {
      c.touchesMemory := true;
      var slot := RandInt(0, 15);
      var size := RandInt(1, 8);
      return Some(Other(size, Absolute(DATA_BASE + slot * 8)));
    }
    if form == 3 {
      var needs := RandInt(0, 8);
      c.X87Setup(needs);
    }
    i := Some(Other(0, NoOperand));
  }
}
