/** InstructionGenerator::next (src/gen/instruction_gen.cpp): pick a family, encode its instruction,
    and build the start state around what the family asked for. */
module Generator {
  import opened Bits
  import opened Types
  import opened Draws
  import opened Division
  import opened Instructions
  import opened Families
  import X87Start

  /** The architectural limit on the length of an instruction. */
  const MAX_INSTRUCTION: nat := 15

  /** Where a test case came from. `form` stands for what of the instruction the model leaves out;
      `short` marks the one case in ten whose x87 stack may hold less than the instruction reads. */
  datatype Origin =
    | Fallback
    | Generated(instruction: Instruction, form: nat, plan: Plan, gprNoise: Sixteen, seedNoise: Seed,
                top: nat, depth: nat, short: bool)

  /** The flags a start state may carry: the compared ones, the reserved bit and IF. */
  ghost predicate StartFlagsOnly(rflags: u64) {
    forall k: nat :: Bit(rflags, k) ==> k == 1 || k == 9 || Bit(COMPARE_FLAGS_MASK, k)
  }

  ghost predicate Produced(tc: TestCase, o: Origin) {
    match o
    case Fallback =>
      tc == DEFAULT_CASE.(initial := DEFAULT_REGS.(gpr := SIXTEEN_ZEROS[4 := STACK_TOP], rflags := 0x202))
    case Generated(i, _, p, gprNoise, seedNoise, top, depth, short) =>
      && Planned(i, p)
      && 0 < |tc.bytes| <= MAX_INSTRUCTION
      && tc.touchesMemory == p.touchesMemory && tc.flagsMask == p.flagsMask
      && tc.initial.gpr == FinalGpr(p, gprNoise)
      && tc.dataSeed == FinalSeed(p, seedNoise)
      && tc.gprCompareMask == CompareMask(p, tc.initial.gpr, tc.dataSeed)
      && StartFlagsOnly(tc.initial.rflags) && Bit(tc.initial.rflags, 1) && Bit(tc.initial.rflags, 9)
      && (if p.usesX87
          then X87Start.WellFormed(tc.initial.x87, top, depth) && (short || p.x87Needs <= depth)
          else tc.initial.x87 == DEFAULT_X87)
  }

  const RANDOM_FLAGS: seq<u64> := [0x1, 0x4, 0x10, 0x40, 0x80, 0x400, 0x800]

  const RANDOM_POSITIONS: seq<nat> := [0, 2, 4, 6, 7, 10, 11]

  lemma RandomFlagPowers(j: nat)
    requires j < |RANDOM_FLAGS|
    ensures RANDOM_FLAGS[j] == Pow2(RANDOM_POSITIONS[j]) && RANDOM_POSITIONS[j] < 16
  {
    SixteenBits();
    Nibble(1);
    Doubled(0); Doubled(1); Doubled(4); Doubled(5); Doubled(6); Doubled(8); Doubled(9); Doubled(10);
  }

  lemma RandomFlagAt(j: nat)
    requires j < |RANDOM_FLAGS|
    ensures RANDOM_FLAGS[j] == Pow2(RANDOM_POSITIONS[j])
    ensures RANDOM_POSITIONS[j] < 16 && Bit(COMPARE_FLAGS_MASK, RANDOM_POSITIONS[j])
  {
    RandomFlagPowers(j);
    assert Bit(COMPARE_FLAGS_MASK, 0) && Bit(COMPARE_FLAGS_MASK, 2) && Bit(COMPARE_FLAGS_MASK, 4);
    assert Bit(COMPARE_FLAGS_MASK, 6) && Bit(COMPARE_FLAGS_MASK, 7);
    assert Bit(COMPARE_FLAGS_MASK, 10) && Bit(COMPARE_FLAGS_MASK, 11);
  }

  lemma InterruptFlag()
    ensures 0x200 == Pow2(9)
  {
    SixteenBits();
    Doubled(8);
  }

  lemma FlagsStart()
    ensures StartFlagsOnly(0x2) && Bit(0x2, 1)
  {
    Doubled(0);
    forall k: nat ensures Bit(0x2, k) <==> k == 1 { BitOfPow2(1, k); }
  }

  lemma FlagAdded(fl: u64, f: nat)
    requires StartFlagsOnly(fl) && f < 16 && (f == 9 || Bit(COMPARE_FLAGS_MASK, f))
    ensures Or(fl, Pow2(f)) < TWO_64
    ensures StartFlagsOnly(Or(fl, Pow2(f))) && Bit(Or(fl, Pow2(f)), f)
    ensures forall k: nat :: Bit(fl, k) ==> Bit(Or(fl, Pow2(f)), k)
  {
    SixtyFourBits();
    PowersGrow(f, 63);
    Doubled(63);
    OrBound(fl, Pow2(f), 64);
    forall k: nat ensures Bit(Or(fl, Pow2(f)), k) <==> Bit(fl, k) || k == f {
      BitOr(fl, Pow2(f), k);
      BitOfPow2(f, k);
    }
  }

  /** The encoding of an instruction, empty if it is refused. */
  type Encoder = (Instruction, nat) -> seq<u8>

  ghost predicate Encodes(encoder: Encoder) {
    forall i: Instruction, form: nat :: |encoder(i, form)| <= MAX_INSTRUCTION
  }

  lemma EncodedLength(encoder: Encoder, i: Instruction, form: nat)
    requires Encodes(encoder)
    ensures |encoder(i, form)| <= MAX_INSTRUCTION
  {
  }

  /** The case carries the encoding of the very instruction its start state was built for. */
  predicate CarriesEncoding(tc: TestCase, o: Origin, encoder: Encoder) {
    if o.Generated? then tc.bytes != [] && tc.bytes == encoder(o.instruction, o.form) else tc.bytes == [0x90]
  }

  class InstructionGenerator {
    const encoder: Encoder
    var discarded: nat

    constructor (encoder: Encoder)
      requires Encodes(encoder)
      ensures discarded == 0 && this.encoder == encoder && Encodes(this.encoder)
    {
      this.encoder := encoder;
      discarded := 0;
    }

    /** One of the 47 families. */
    method Dispatch(c: Ctx) returns (i: Option<Instruction>)
      requires c.Contents() == FRESH
      modifies c
      ensures i.Some? ==> Planned(i.value, c.Contents())
    {
      var pick := RandInt(0, 46);
      if pick >= 39 {
        i := GenX87(c);
        return;
      }
      match pick
      case 9 => i := GenBranch(c);
      case 10 => i := GenJmp(c);
      case 11 => i := GenCall(c);
      case 15 => i := GenBt(c);
      case 16 => i := GenRmSrc(c);
      case 18 => i := GenBranch(c);
      case 20 => i := GenXaddCmpxchg(c);
      case 24 => i := GenStringOps(c);
      case 26 => i := GenMulDiv(c);
      case _ => i := GenOther(c);
    }

    /** The eight x87 families. */
    method GenX87(c: Ctx) returns (i: Option<Instruction>)
      requires c.Contents() == FRESH
      modifies c
      ensures i.Some? ==> Planned(i.value, c.Contents())
    {
      var memory := RandInt(0, 1);
      if memory == 0 { i := GenX87Memory(c); } else { i := GenOther(c); }
    }

    method FillRegisters(c: Ctx) returns (gpr: Sixteen, ghost noise: Sixteen)
      ensures gpr == FinalGpr(c.Contents(), noise)
    {
      gpr := RandomRow();
      noise := gpr;
      gpr := gpr[4 := STACK_TOP];
      if c.touchesMemory { gpr := gpr[7 := DATA_BASE]; }
      ghost var pinned := gpr;
      for k := 0 to 16
        invariant forall j :: 0 <= j < 16 ==>
          gpr[j] == if j < k && c.forceGpr[j].Some? then c.forceGpr[j].value else pinned[j]
      {
        if c.forceGpr[k].Some? { gpr := gpr[k := c.forceGpr[k].value]; }
      }
      assert gpr == FinalGpr(c.Contents(), noise);
    }

    method FillData(c: Ctx) returns (seed: Seed, ghost noise: Seed)
      ensures seed == FinalSeed(c.Contents(), noise)
    {
      seed := RandomBytes(DATA_WINDOW);
      noise := seed;
      if c.forceDataQword.Some? && c.forceDataQword.value.offset + 8 <= DATA_WINDOW {
        seed := PlantInto(seed, c.forceDataQword.value.offset, LittleEndian(c.forceDataQword.value.value));
      }
      if c.forceDataBytes.Some? {
        var fb := c.forceDataBytes.value;
        if fb.offset + fb.size <= DATA_WINDOW {
          seed := PlantInto(seed, fb.offset, fb.value[..fb.size]);
        }
      }
    }

    method PlantInto(data: Seed, offset: nat, bytes: seq<u8>) returns (seed: Seed)
      requires offset + |bytes| <= DATA_WINDOW
      ensures seed == Planted(data, offset, bytes)
    {
      seed := data;
      for b := 0 to |bytes|
        invariant seed == data[..offset] + bytes[..b] + data[offset + b..]
      {
        seed := seed[offset + b := bytes[b]];
        assert seed == data[..offset] + bytes[..b + 1] + data[offset + (b + 1)..];
      }
    }

    method ReadScanSource(c: Ctx, gpr: Sixteen, seed: Seed) returns (source: Option<nat>)
      ensures source == ScanSource(c.Contents(), gpr, seed)
    {
      source := None;
      if c.scanReg.Some? {
        source := Some(gpr[c.scanReg.value]);
      } else if c.scanDisp.Some? {
        var disp: nat := c.scanDisp.value;
        if disp + c.scanBytes <= DATA_WINDOW {
          var value := Gather(seed[disp..disp + c.scanBytes]);
          source := Some(value);
        }
      }
    }

    /** BSF and BSR leave their destination undefined when the source they actually find is zero. */
    method FixCompareMask(c: Ctx, gpr: Sixteen, seed: Seed) returns (mask: u32)
      ensures mask == CompareMask(c.Contents(), gpr, seed)
    {
      mask := EVERY_GPR;
      if c.scanDest.None? { return; }
      var source := ReadScanSource(c, gpr, seed);
      if source.None? { return; }
      var value := source.value;
      if 0 < c.scanBytes < 8 { value := And(value, Ones(8 * c.scanBytes)); }
      if value == 0 { mask := Without(mask, c.scanDest.value); }
    }

    method Gather(bytes: seq<u8>) returns (value: nat)
      ensures value == Pack(bytes, 8)
    {
      value := 0;
      for b := 0 to |bytes|
        invariant value == Pack(bytes[..b], 8)
      {
        PackStep(bytes, b, 8);
        value := Or(value, Shl(bytes[b], 8 * b));
      }
      assert bytes[..|bytes|] == bytes;
    }

    method RandomFlags() returns (rflags: u64)
      ensures StartFlagsOnly(rflags) && Bit(rflags, 1) && Bit(rflags, 9)
    {
      var fl: u64 := 0x2;
      FlagsStart();
      for j := 0 to |RANDOM_FLAGS|
        invariant StartFlagsOnly(fl) && Bit(fl, 1)
      {
        var pick := RandInt(0, 1);
        if pick == 0 {
          RandomFlagAt(j);
          FlagAdded(fl, RANDOM_POSITIONS[j]);
          fl := Or(fl, RANDOM_FLAGS[j]);
        }
      }
      InterruptFlag();
      FlagAdded(fl, 9);
      rflags := Or(fl, 0x200);
    }

    /** A start state around the family's context. */
    method BuildCase(c: Ctx, ghost i: Instruction, ghost form: nat, bytes: seq<u8>)
        returns (tc: TestCase, ghost o: Origin)
      requires Planned(i, c.Contents()) && 0 < |bytes| <= MAX_INSTRUCTION && bytes == encoder(i, form)
      ensures o.Generated? && Produced(tc, o) && o.instruction == i && o.plan == c.Contents()
      ensures CarriesEncoding(tc, o, encoder)
    {
      var gpr, seed;
      ghost var gprNoise, seedNoise;
      gpr, gprNoise := FillRegisters(c);
      var xmmLo := RandomRow();
      var xmmHi := RandomRow();
      var x87: X87State := DEFAULT_X87;
      ghost var top, depth, short := 0, 0, false;
      if c.usesX87 { x87, top, depth, short := X87Start.BuildX87(c.x87Needs); }
      var rflags := RandomFlags();
      seed, seedNoise := FillData(c);
      var mask := FixCompareMask(c, gpr, seed);
      tc := TestCaseFields(bytes, RegFields(gpr, 0, rflags, xmmLo, xmmHi, x87, Zeros(DATA_WINDOW)),
                           c.touchesMemory, c.flagsMask, seed, mask);
      o := Generated(i, form, c.Contents(), gprNoise, seedNoise, top, depth, short);
    }

    /** Every case handed out carries the encoding of an instruction some family produced, on a start
        state built for it, or is the fallback after 200 refusals. */
    method Next() returns (tc: TestCase, ghost o: Origin)
      requires Encodes(encoder)
      modifies this
      ensures Produced(tc, o) && CarriesEncoding(tc, o, encoder)
      ensures o.Fallback? ==> discarded == old(discarded) + 200
      ensures o.Generated? ==> old(discarded) <= discarded < old(discarded) + 200
    {
      for attempt := 0 to 200
        invariant discarded == old(discarded) + attempt
      {
        var c := new Ctx();
        var i := Dispatch(c);
        if i.None? {
          discarded := discarded + 1;
          continue;
        }
        var form: nat := *;
        var bytes := encoder(i.value, form);
        if bytes == [] {
          discarded := discarded + 1;
          continue;
        }
        EncodedLength(encoder, i.value, form);
        tc, o := BuildCase(c, i.value, form, bytes);
        return;
      }
      tc := DEFAULT_CASE.(initial := DEFAULT_REGS.(gpr := SIXTEEN_ZEROS[4 := STACK_TOP], rflags := 0x202));
      o := Fallback;
    }
  }
}
