/** The starting FPU state that InstructionGenerator::next builds for the x87 families
    (src/gen/instruction_gen.cpp).

    Values are placed ST-relative, tags physically, and the status word is assembled by ORing stale
    bits around TOP. The hardware lane abridges the tags and the seven lane rotates the registers, so
    the two lanes start from the same state only if what comes out here is canonical.
 */
module X87Start {
  import opened Bits
  import opened Types
  import opened Draws
  import opened HardwareX87
  import opened SevenLane

  /** Condition codes and sticky exception flags; ES (bit 7) and B (bit 15) are not among them. */
  const STALE_BITS: seq<u16> := [0x1, 0x2, 0x4, 0x8, 0x10, 0x20, 0x40, 0x100, 0x200, 0x400, 0x4000]
  const STALE_POSITIONS: seq<nat> := [0, 1, 2, 3, 4, 5, 6, 8, 9, 10, 14]

  // ---------------------------------------------------------------- single bits of the words

  lemma StaleBitAt(j: nat)
    requires j < |STALE_BITS|
    ensures STALE_BITS[j] == Pow2(STALE_POSITIONS[j])
  {
    SixteenBits();
    Nibble(1);
    Doubled(0); Doubled(1); Doubled(2); Doubled(3); Doubled(4); Doubled(5);
    Doubled(8); Doubled(9); Doubled(14); Doubled(15);
    Doubled(10);
  }

  /** ORing a stale bit into the status word moves neither TOP nor the error summary. */
  predicate SameSummary(a: nat, b: nat) {
    forall i {:trigger Bit(a, i)} :: i in {7, 11, 12, 13, 15} ==> (Bit(a, i) <==> Bit(b, i))
  }

  lemma StaleKeepsSummary(sw: u16, j: nat)
    requires j < |STALE_BITS|
    ensures Or(sw, STALE_BITS[j]) < 0x1_0000
    ensures SameSummary(Or(sw, STALE_BITS[j]), sw)
  {
    SixteenBits();
    OrBound(sw, STALE_BITS[j], 16);
    StaleBitAt(j);
    forall i: nat | i in {7, 11, 12, 13, 15} ensures Bit(Or(sw, STALE_BITS[j]), i) <==> Bit(sw, i) {
      BitOr(sw, STALE_BITS[j], i);
      BitOfPow2(STALE_POSITIONS[j], i);
    }
  }

  lemma ShiftBy11(top: nat)
    ensures Shl(top, 11) == 2048 * top
    ensures Shr(2048 * top, 11) == top
  {
    ShrOfSum(0, top, 11);
    ShiftByByte(top);
    ShlShl(top, 8, 3);
    Quarter(256 * top);
    assert Shl(256 * top, 3) == 2 * Shl(256 * top, 2);
  }

  lemma ShiftedSummary(top: nat, k: nat)
    requires top < 8 && 7 < k <= 11
    ensures !Bit(Shl(top, k), 7) && !Bit(Shl(top, k), 15)
  {
    BitShl(top, k, 7);
    BitShl(top, k, 15);
    Doubled(0); Doubled(1); Doubled(2);
    BitOfLarge(top, 3, 15 - k);
  }

  lemma TopShifted(top: nat)
    requires top < 8
    ensures Shl(top, 11) < 0x1_0000 && TopOf(Shl(top, 11)) == top
    ensures !Bit(Shl(top, 11), 7) && !Bit(Shl(top, 11), 15)
  {
    ShiftBy11(top);
    ShiftedSummary(top, 11);
  }

  // ---------------------------------------------------------------- tags

  lemma {:induction false} FieldFits(t: nat, p: nat, n: nat)
    requires t < 4 && p < n
    ensures Shl(t, 2 * p) < Pow2(2 * n)
  {
    PowStep(n, 2);
    if p != 0 {
      FieldFits(t, p - 1, n - 1);
      ShlShl(t, 2 * (p - 1), 2);
      Quarter(Shl(t, 2 * (p - 1)));
    } else if n != 1 {
      FieldFits(t, 0, n - 1);
    }
  }

  /** `~(0x3u << (2 * p))` as a word of n bits. */
  function KeepMask(n: nat, p: nat): nat
    requires 2 * p + 2 <= n
  {
    MaskFits(n, p);
    Ones(n) - Shl(3, 2 * p)
  }

  lemma {:induction false} MaskFits(n: nat, p: nat)
    requires 2 * p + 2 <= n
    ensures Shl(3, 2 * p) <= Ones(n)
  {
    assert Ones(n) == 1 + 2 * (1 + 2 * Ones(n - 2));
    if p != 0 {
      MaskFits(n - 2, p - 1);
      ShlShl(3, 2 * (p - 1), 2);
      Quarter(Shl(3, 2 * (p - 1)));
    }
  }

  /** `tw & ~(0x3u << (2 * p))`, then `| tag << (2 * p)`. */
  function Retagged(tw: u16, p: nat, tag: nat): (r: u16)
    requires p < 8 && tag <= EMPTY_TAG
  {
    FieldFits(tag, p, 8);
    SixteenBits();
    OrBound(And(tw, KeepMask(32, p)), Shl(tag, 2 * p), 16);
    Or(And(tw, KeepMask(32, p)), Shl(tag, 2 * p))
  }

  lemma TwoBits(t: nat, j: nat)
    requires t < 4 && j >= 2
    ensures !Bit(t, j)
  {
    Quarter(1);
    BitOfLarge(t, 2, j);
  }

  lemma BitsOfThree(j: nat)
    ensures Bit(3, j) <==> j < 2
  {
    if j >= 2 { TwoBits(3, j); }
  }

  lemma KeepMaskBit(n: nat, p: nat, i: nat)
    requires 2 * p + 2 <= n && i < n
    ensures Bit(KeepMask(n, p), i) <==> !(2 * p <= i < 2 * p + 2)
  {
    MaskFits(n, p);
    BitOnesMinus(n, Shl(3, 2 * p), i);
    BitShl(3, 2 * p, i);
    if i >= 2 * p { BitsOfThree(i - 2 * p); }
  }

  lemma RetaggedBit(tw: u16, p: nat, tag: nat, i: nat)
    requires p < 8 && tag <= EMPTY_TAG && i < 16
    ensures Bit(Retagged(tw, p, tag), i) <==>
      if 2 * p <= i < 2 * p + 2 then Bit(tag, i - 2 * p) else Bit(tw, i)
  {
    KeepMaskBit(32, p, i);
    BitOr(And(tw, KeepMask(32, p)), Shl(tag, 2 * p), i);
    BitAnd(tw, KeepMask(32, p), i);
    BitShl(tag, 2 * p, i);
    if i >= 2 * p + 2 { TwoBits(tag, i - 2 * p); }
  }

  lemma FieldReplaced(r: nat, tw: nat, p: nat, tag: nat, q: nat)
    requires tag < 4
    requires Bit(r, 2 * q) <==> if q == p then Bit(tag, 0) else Bit(tw, 2 * q)
    requires Bit(r, 2 * q + 1) <==> if q == p then Bit(tag, 1) else Bit(tw, 2 * q + 1)
    ensures Field(r, q, 2) == if q == p then tag else Field(tw, q, 2)
  {
    FieldBits(r, q);
    if q == p {
      assert Shr(tag, 1) == tag / 2;
    } else {
      FieldBits(tw, q);
    }
  }

  lemma RetaggedField(tw: u16, p: nat, tag: nat, q: nat)
    requires p < 8 && tag <= EMPTY_TAG && q < 8
    ensures TagAt(Retagged(tw, p, tag), q) == if q == p then tag else TagAt(tw, q)
  {
    RetaggedBit(tw, p, tag, 2 * q);
    RetaggedBit(tw, p, tag, 2 * q + 1);
    FieldReplaced(Retagged(tw, p, tag), tw, p, tag, q);
  }

  lemma EveryTagEmpty(p: nat)
    requires p < 8
    ensures TagAt(0xFFFF, p) == EMPTY_TAG
  {
    SixteenBits();
    OnesBelowPow2(16);
    BitOnesMinus(16, 0, 2 * p);
    BitOnesMinus(16, 0, 2 * p + 1);
    ShrZero(2 * p);
    ShrZero(2 * p + 1);
    FieldBits(0xFFFF, p);
  }

  // ---------------------------------------------------------------- the state next() builds

  datatype Raw = Raw(signexp: u16, signif: u64)

  method RandomX87Value() returns (v: Raw) {
    v := *;
  }

  /** Bit by bit: exactly the first registers of the stack are in use, each tagged by its contents. */
  predicate StackLaw(x: X87State, depth: nat) {
    forall i :: 0 <= i < 8 ==>
      Recreated(i < depth, TagInBits(x.tagWord, StackRegister(x.statusWord, i)), x.signexp[i], x.signif[i])
  }

  lemma WellFormedLaw(x: X87State, top: nat, depth: nat)
    requires WellFormed(x, top, depth)
    ensures StackLaw(x, depth)
  {
    forall i | 0 <= i < 8
      ensures Recreated(i < depth, TagInBits(x.tagWord, StackRegister(x.statusWord, i)), x.signexp[i], x.signif[i])
    {
      var phys := PhysOf(top, i);
      RegisterIsPhysical(x.statusWord, i);
      FieldBits(x.tagWord, phys);
      assert TagOfSt(x, i) == TagAt(x.tagWord, phys) && StOf(top, phys) == i;
      ClassifiedByContents(x.signexp[i], x.signif[i]);
    }
  }

  /** Exceptions masked and precision extended, TOP where it was chosen, no exception pending, exactly
      ST(0) .. ST(depth - 1) in use, and every tag the one its contents imply. */
  predicate WellFormed(x: X87State, top: nat, depth: nat) {
    && top < 8 && depth <= 8
    && OnlyRoundingFree(x.controlWord)
    && TopOf(x.statusWord) == top
    && !Bit(x.statusWord, 7) && !Bit(x.statusWord, 15)
    && (forall i :: 0 <= i < 8 ==> (TagOfSt(x, i) == EMPTY_TAG <==> i >= depth))
    && Canonical(x)
  }

  /** All exceptions masked, precision extended. */
  const CONTROL: u16 := 0x037F

  /** Of the sixteen bits only the rounding control, bits 10 and 11, is free: all exceptions are masked
      and precision is extended. */
  predicate OnlyRoundingFree(cw: nat) {
    forall i :: 0 <= i < 16 && i != 10 && i != 11 ==> (Bit(cw, i) <==> i in {0, 1, 2, 3, 4, 5, 6, 8, 9})
  }

  lemma ControlBits()
    ensures OnlyRoundingFree(CONTROL)
  {
    SixteenBits();
    Quarter(0x100);
    ShlShl(1, 8, 2);
    OnesBelowPow2(10);
    Doubled(7);
    forall i: nat | i < 16 && i != 10 && i != 11 ensures Bit(CONTROL, i) <==> i in {0, 1, 2, 3, 4, 5, 6, 8, 9} {
      BitOnesMinus(10, Pow2(7), i);
      BitOfPow2(7, i);
    }
  }

  lemma WithRounding(cw: u16, rc: nat)
    requires rc < 4 && OnlyRoundingFree(cw)
    ensures Or(cw, Shl(rc, 10)) < 0x1_0000
    ensures OnlyRoundingFree(Or(cw, Shl(rc, 10)))
  {
    SixteenBits();
    FieldFits(rc, 5, 8);
    OrBound(cw, Shl(rc, 10), 16);
    forall i: nat | i < 16 && i != 10 && i != 11 ensures Bit(Or(cw, Shl(rc, 10)), i) <==> Bit(cw, i) {
      BitOr(cw, Shl(rc, 10), i);
      BitShl(rc, 10, i);
      if i > 11 { TwoBits(rc, i - 10); }
    }
  }

  method ChooseControlWord() returns (cw: u16)
    ensures OnlyRoundingFree(cw)
  {
    var rc := RandInt(0, 3);
    ControlBits();
    WithRounding(CONTROL, rc);
    cw := Or(CONTROL, Shl(rc, 10));
  }

  method ChooseStatusWord(top: nat) returns (sw: u16)
    requires top < 8
    ensures TopOf(sw) == top && !Bit(sw, 7) && !Bit(sw, 15)
  {
    TopShifted(top);
    sw := Shl(top, 11);
    var stale := RandInt(0, 3);
    if stale == 0 {
      for j := 0 to |STALE_BITS|
        invariant SameSummary(sw, Shl(top, 11))
      {
        var pick := RandInt(0, 5);
        if pick == 0 {
          StaleKeepsSummary(sw, j);
          sw := Or(sw, STALE_BITS[j]);
        }
      }
      TopBits(sw);
      TopBits(Shl(top, 11));
    }
  }

  /** Nine times in ten the stack holds at least what the instruction reads; otherwise anything. */
  method BuildX87(needs: nat) returns (x: X87State, ghost top: nat, ghost depth: nat, ghost short: bool)
    requires needs <= 8
    ensures WellFormed(x, top, depth) && StackLaw(x, depth)
    ensures !short ==> needs <= depth
  {
    var controlWord := ChooseControlWord();
    var t := RandInt(0, 7);
    var percent := RandInt(0, 99);
    var d;
    if percent < 10 {
      d := RandInt(0, 8);
    } else {
      d := RandInt(0, 8 - needs);
      d := needs + d;
    }
    var statusWord := ChooseStatusWord(t);
    var signif: seq<u64>, signexp: seq<u16>, tw: u16 := DEFAULT_X87.signif, DEFAULT_X87.signexp, 0xFFFF;
    forall p: nat | p < 8 ensures TagAt(0xFFFF, p) == EMPTY_TAG { EveryTagEmpty(p); }
    for i := 0 to d
      invariant |signif| == 8 && |signexp| == 8
      invariant forall p :: 0 <= p < 8 ==>
        TagAt(tw, p) == if StOf(t, p) < i then ImpliedTag(signif, signexp, t, p) else EMPTY_TAG
    {
      var v := RandomX87Value();
      signexp, signif := signexp[i := v.signexp], signif[i := v.signif];
      var phys, tag := PhysOf(t, i), X87ClassifyTag(v.signexp, v.signif);
      forall q: nat | q < 8 ensures TagAt(Retagged(tw, phys, tag), q) == if q == phys then tag else TagAt(tw, q) {
        RetaggedField(tw, phys, tag, q);
      }
      forall p: nat | p < 8 && StOf(t, p) == i ensures p == phys { RotationInverse(t, p); }
      tw := Retagged(tw, phys, tag);
    }
    x := X87Fields(signif, signexp, controlWord, statusWord, tw);
    top, depth, short := t, d, percent < 10;
    WellFormedLaw(x, top, depth);
  }

  /** Both lanes denote every state built here by the same X87State, the one that was built. */
  lemma LanesStartAlike(x: X87State, top: nat, depth: nat)
    requires WellFormed(x, top, depth)
    ensures StateOf(FileOf(x)) == x
    ensures ReadBack(ImageOf(x)) == x
  {
    SevenRoundTrip(x);
    RoundTripIffCanonical(x);
  }
}
