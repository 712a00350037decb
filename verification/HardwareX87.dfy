/** The x87 half of the hardware lane: X87State to and from the FXSAVE image inside a thread
    CONTEXT (src/lanes/hardware_lane.cpp).

    The image keeps its registers ST-relative but abridges the tag word to one in-use bit per
    PHYSICAL register, so writing a state out and reading it back projects it onto the states whose
    tags are the ones their contents imply.
 */
module HardwareX87 {
  import opened Bits
  import opened Types

  /** A 16-byte M128A slot. */
  type Slot = s: seq<u8> | |s| == 16 witness Zeros(16)

  datatype ImageFields = ImageFields(controlWord: u16, statusWord: u16, tagWord: u8, slots: seq<Slot>)

  type Image = i: ImageFields | |i.slots| == 8
    witness ImageFields(0, 0, 0, [Zeros(16), Zeros(16), Zeros(16), Zeros(16), Zeros(16), Zeros(16), Zeros(16), Zeros(16)])

  /** The FltSave area of a CONTEXT, written in place. */
  class FltSave {
    var controlWord: u16
    var statusWord: u16
    var tagWord: u8
    const floatRegisters: array<Slot>

    constructor ()
      ensures floatRegisters.Length == 8 && fresh(floatRegisters)
    {
      floatRegisters := new Slot[8](_ => Zeros(16));
    }

    function Contents(): Image
      requires floatRegisters.Length == 8
      reads this, floatRegisters
    {
      ImageFields(controlWord, statusWord, tagWord, floatRegisters[..])
    }
  }

  // ---------------------------------------------------------------- what the two conversions mean

  /** The bytes memcpy leaves in a zeroed slot: significand, then sign and exponent. */
  function SlotOf(signif: u64, signexp: u16): Slot {
    Unpack(signif, 8, 8) + Unpack(signexp, 2, 8) + Zeros(6)
  }

  function InUse(tagWord: u16): (f: seq<nat>)
    ensures |f| == 8 && Fields(f, 1)
  {
    seq(8, p requires 0 <= p < 8 => Low(TagAt(tagWord, p) != EMPTY_TAG))
  }

  function Abridge(tagWord: u16): u8 {
    PackBound(InUse(tagWord), 1);
    SixteenBits();
    Pack(InUse(tagWord), 1)
  }

  function ImageOf(x: X87State): Image {
    ImageFields(x.controlWord, x.statusWord, Abridge(x.tagWord),
                seq(8, i requires 0 <= i < 8 => SlotOf(x.signif[i], x.signexp[i])))
  }

  /** The tag the SDM recreates for a physical register that is in use. */
  function ImpliedTag(signif: seq<u64>, signexp: seq<u16>, top: nat, phys: nat): (tag: nat)
    requires |signif| == 8 && |signexp| == 8 && top < 8 && phys < 8
    ensures tag < EMPTY_TAG
  {
    X87ClassifyTag(signexp[StOf(top, phys)], signif[StOf(top, phys)])
  }

  function PackTags(tags: seq<nat>): u16
    requires |tags| == 8 && Fields(tags, 2)
  {
    PackBound(tags, 2);
    SixteenBits();
    Pack(tags, 2)
  }

  function RecreatedTags(abridged: nat, signif: seq<u64>, signexp: seq<u16>, top: nat): (tags: seq<nat>)
    requires |signif| == 8 && |signexp| == 8 && top < 8
    ensures |tags| == 8 && Fields(tags, 2)
  {
    seq(8, p requires 0 <= p < 8 =>
      if Field(abridged, p, 1) != 0 then ImpliedTag(signif, signexp, top, p) else EMPTY_TAG)
  }

  function SlotSignif(s: Slot): u64 {
    PackBound(s[..8], 8);
    SixtyFourBits();
    Pack(s[..8], 8)
  }

  function SlotSignexp(s: Slot): u16 {
    PackBound(s[8..10], 8);
    SixteenBits();
    Pack(s[8..10], 8)
  }

  function ReadBack(img: Image): X87State {
    var signif := seq(8, i requires 0 <= i < 8 => SlotSignif(img.slots[i]));
    var signexp := seq(8, i requires 0 <= i < 8 => SlotSignexp(img.slots[i]));
    X87Fields(signif, signexp, img.controlWord, img.statusWord,
              PackTags(RecreatedTags(img.tagWord, signif, signexp, TopOf(img.statusWord))))
  }

  // ---------------------------------------------------------------- the same, bit by bit

  /** A slot holds the significand in bytes 0 to 7 and sign and exponent in bytes 8 and 9. */
  predicate HoldsRegister(s: Slot, signif: nat, signexp: nat) {
    && (forall j :: 0 <= j < 64 ==> (Bit(s[j / 8], j % 8) <==> Bit(signif, j)))
    && (forall j :: 0 <= j < 16 ==> (Bit(s[8 + j / 8], j % 8) <==> Bit(signexp, j)))
  }

  /** The FXSAVE image of a state: ST-relative slots, padded with zeros, and one in-use bit for each
      physical register that is not tagged 11. */
  predicate ImageLaw(img: Image, x: X87State) {
    && img.controlWord == x.controlWord && img.statusWord == x.statusWord
    && (forall p :: 0 <= p < 8 ==> (Bit(img.tagWord, p) <==> TagInBits(x.tagWord, p) != EMPTY_TAG))
    && (forall i :: 0 <= i < 8 ==> HoldsRegister(img.slots[i], x.signif[i], x.signexp[i]))
    && (forall i :: 0 <= i < 8 ==> img.slots[i][10..] == Zeros(6))
  }

  /** The state read back from an image: every ST register as its slot holds it, and its tag recreated
      from its in-use bit and its contents. */
  predicate ReadLaw(img: Image, x: X87State) {
    && x.controlWord == img.controlWord && x.statusWord == img.statusWord
    && (forall i :: 0 <= i < 8 ==> HoldsRegister(img.slots[i], x.signif[i], x.signexp[i]))
    && (forall i :: 0 <= i < 8 ==>
          var phys := StackRegister(img.statusWord, i);
          Recreated(Bit(img.tagWord, phys), TagInBits(x.tagWord, phys), x.signexp[i], x.signif[i]))
  }

  lemma InTheSlot(s: Slot, signif: nat, signexp: nat)
    requires forall q :: 0 <= q < 8 ==> s[q] == Field(signif, q, 8)
    requires forall q :: 0 <= q < 2 ==> s[8 + q] == Field(signexp, q, 8)
    ensures HoldsRegister(s, signif, signexp)
  {
    forall j | 0 <= j < 64 ensures Bit(s[j / 8], j % 8) <==> Bit(signif, j) {
      ByteBit(signif, j / 8, j % 8);
    }
    forall j | 0 <= j < 16 ensures Bit(s[8 + j / 8], j % 8) <==> Bit(signexp, j) {
      ByteBit(signexp, j / 8, j % 8);
    }
  }

  lemma InUseBit(tagWord: u16, p: nat)
    requires p < 8
    ensures Bit(Abridge(tagWord), p) <==> TagInBits(tagWord, p) != EMPTY_TAG
  {
    FieldOfPack(InUse(tagWord), p, 1);
    FieldBits(tagWord, p);
  }

  lemma ImageOfLaw(x: X87State)
    ensures ImageLaw(ImageOf(x), x)
  {
    var img := ImageOf(x);
    forall p | 0 <= p < 8 ensures Bit(img.tagWord, p) <==> TagInBits(x.tagWord, p) != EMPTY_TAG {
      InUseBit(x.tagWord, p);
    }
    forall i | 0 <= i < 8
      ensures HoldsRegister(img.slots[i], x.signif[i], x.signexp[i]) && img.slots[i][10..] == Zeros(6)
    {
      InTheSlot(img.slots[i], x.signif[i], x.signexp[i]);
    }
  }

  lemma SlotLaw(s: Slot)
    ensures HoldsRegister(s, SlotSignif(s), SlotSignexp(s))
  {
    forall q | 0 <= q < 8 ensures s[q] == Field(SlotSignif(s), q, 8) { FieldOfPack(s[..8], q, 8); }
    forall q | 0 <= q < 2 ensures s[8 + q] == Field(SlotSignexp(s), q, 8) { FieldOfPack(s[8..10], q, 8); }
    InTheSlot(s, SlotSignif(s), SlotSignexp(s));
  }

  lemma RegisterIsPhysical(statusWord: u16, i: nat)
    requires i < 8
    ensures StackRegister(statusWord, i) == PhysOf(TopOf(statusWord), i)
  {
    TopBits(statusWord);
  }

  lemma RecreatedLaw(img: Image, i: nat)
    requires i < 8
    ensures var x, phys := ReadBack(img), StackRegister(img.statusWord, i);
      Recreated(Bit(img.tagWord, phys), TagInBits(x.tagWord, phys), x.signexp[i], x.signif[i])
  {
    var x, top := ReadBack(img), TopOf(img.statusWord);
    var phys := PhysOf(top, i);
    RegisterIsPhysical(img.statusWord, i);
    FieldBits(x.tagWord, phys);
    FieldOfPack(RecreatedTags(img.tagWord, x.signif, x.signexp, top), phys, 2);
    ClassifiedByContents(x.signexp[i], x.signif[i]);
  }

  lemma ReadBackLaw(img: Image)
    ensures ReadLaw(img, ReadBack(img))
  {
    var x := ReadBack(img);
    forall i | 0 <= i < 8 ensures HoldsRegister(img.slots[i], x.signif[i], x.signexp[i]) { SlotLaw(img.slots[i]); }
    forall i | 0 <= i < 8
      ensures var phys := StackRegister(img.statusWord, i);
        Recreated(Bit(img.tagWord, phys), TagInBits(x.tagWord, phys), x.signexp[i], x.signif[i])
    {
      RecreatedLaw(img, i);
    }
  }

  // ---------------------------------------------------------------- the two conversions

  method ApplyContextToX87(ctx: FltSave, x: X87State)
    requires ctx.floatRegisters.Length == 8
    modifies ctx, ctx.floatRegisters
    ensures ctx.Contents() == ImageOf(x) && ImageLaw(ctx.Contents(), x)
  {
    ctx.controlWord := x.controlWord;
    ctx.statusWord := x.statusWord;
    var abridged := 0;
    ghost var flags := InUse(x.tagWord);
    for phys := 0 to 8
      invariant ctx.controlWord == x.controlWord && ctx.statusWord == x.statusWord
      invariant abridged == Pack(flags[..phys], 1)
    {
      PackStep(flags, phys, 1);
      if TagAt(x.tagWord, phys) != EMPTY_TAG {
        abridged := Or(abridged, Shl(1, phys));
      } else {
        ShlZero(phys);
        assert Or(abridged, 0) == abridged;
      }
    }
    assert flags[..8] == flags;
    assert abridged == Abridge(x.tagWord);
    ctx.tagWord := abridged;
    for i := 0 to 8
      invariant ctx.controlWord == x.controlWord && ctx.statusWord == x.statusWord && ctx.tagWord == abridged
      invariant forall j :: 0 <= j < i ==> ctx.floatRegisters[j] == SlotOf(x.signif[j], x.signexp[j])
    {
      var slot: Slot := Zeros(16);
      slot := Unpack(x.signif[i], 8, 8) + slot[8..];
      assert slot[..8] == Unpack(x.signif[i], 8, 8) && slot[10..] == Zeros(6);
      slot := slot[..8] + Unpack(x.signexp[i], 2, 8) + slot[10..];
      ctx.floatRegisters[i] := slot;
    }
    assert ctx.floatRegisters[..] == ImageOf(x).slots;
    ImageOfLaw(x);
  }

  method ReadX87FromContext(ctx: FltSave) returns (x: X87State)
    requires ctx.floatRegisters.Length == 8
    ensures x == ReadBack(ctx.Contents()) && ReadLaw(ctx.Contents(), x)
  {
    var signif: seq<u64> := [];
    var signexp: seq<u16> := [];
    for i := 0 to 8
      invariant |signif| == |signexp| == i
      invariant forall j :: 0 <= j < i ==> signif[j] == SlotSignif(ctx.floatRegisters[j])
      invariant forall j :: 0 <= j < i ==> signexp[j] == SlotSignexp(ctx.floatRegisters[j])
    {
      signif := signif + [SlotSignif(ctx.floatRegisters[i])];
      signexp := signexp + [SlotSignexp(ctx.floatRegisters[i])];
    }
    assert signif == ReadBack(ctx.Contents()).signif;
    assert signexp == ReadBack(ctx.Contents()).signexp;
    var full := RecreateTagWord(ctx.tagWord, signif, signexp, TopOf(ctx.statusWord));
    x := X87Fields(signif, signexp, ctx.controlWord, ctx.statusWord, full);
    ReadBackLaw(ctx.Contents());
  }

  /** The tail of read_x87_from_context: the byte is physical-order, the registers stack-relative. */
  method RecreateTagWord(abridged: u8, signif: seq<u64>, signexp: seq<u16>, top: nat) returns (full: u16)
    requires |signif| == 8 && |signexp| == 8 && top < 8
    ensures full == PackTags(RecreatedTags(abridged, signif, signexp, top))
  {
    var word: nat := 0;
    ghost var tags := RecreatedTags(abridged, signif, signexp, top);
    for phys := 0 to 8
      invariant word == Pack(tags[..phys], 2)
    {
      var tag := EMPTY_TAG;
      if Shr(abridged, phys) % 2 != 0 {
        tag := ImpliedTag(signif, signexp, top, phys);
      }
      PackStep(tags, phys, 2);
      word := Or(word, Shl(tag, 2 * phys));
    }
    assert tags[..8] == tags;
    assert word == PackTags(tags);
    full := word;
  }

  // ---------------------------------------------------------------- the round trip

  /** Every in-use register carries the tag its own contents imply. */
  predicate Canonical(x: X87State) {
    forall p :: 0 <= p < 8 && TagAt(x.tagWord, p) != EMPTY_TAG ==>
      TagAt(x.tagWord, p) == ImpliedTag(x.signif, x.signexp, TopOf(x.statusWord), p)
  }

  /** What the victim thread is left holding after the lane has written x. */
  function Projected(x: X87State): X87State {
    ReadBack(ImageOf(x))
  }

  function ProjectedTag(x: X87State, phys: nat): nat
    requires phys < 8
  {
    if TagAt(x.tagWord, phys) == EMPTY_TAG then EMPTY_TAG
    else ImpliedTag(x.signif, x.signexp, TopOf(x.statusWord), phys)
  }

  lemma SlotRoundTrip(signif: u64, signexp: u16)
    ensures SlotSignif(SlotOf(signif, signexp)) == signif
    ensures SlotSignexp(SlotOf(signif, signexp)) == signexp
  {
    var s := SlotOf(signif, signexp);
    assert s[..8] == Unpack(signif, 8, 8);
    assert s[8..10] == Unpack(signexp, 2, 8);
    SixtyFourBits();
    SixteenBits();
    PackOfUnpack(signif, 8, 8);
    PackOfUnpack(signexp, 2, 8);
  }

  /** Writing a state and reading it back keeps both control words and all eight registers, and
      replaces each non-empty tag by the implied one. */
  lemma ProjectionFields(x: X87State)
    ensures Projected(x).controlWord == x.controlWord
    ensures Projected(x).statusWord == x.statusWord
    ensures Projected(x).signif == x.signif
    ensures Projected(x).signexp == x.signexp
    ensures forall p :: 0 <= p < 8 ==> TagAt(Projected(x).tagWord, p) == ProjectedTag(x, p)
  {
    var y, img := Projected(x), ImageOf(x);
    forall i | 0 <= i < 8 ensures y.signif[i] == x.signif[i] && y.signexp[i] == x.signexp[i] {
      SlotRoundTrip(x.signif[i], x.signexp[i]);
    }
    assert y.signif == x.signif && y.signexp == x.signexp;
    var tags := RecreatedTags(img.tagWord, x.signif, x.signexp, TopOf(x.statusWord));
    forall p | 0 <= p < 8
      ensures TagAt(y.tagWord, p) == ProjectedTag(x, p)
    {
      FieldOfPack(tags, p, 2);
      FieldOfPack(InUse(x.tagWord), p, 1);
    }
  }

  /** The round trip is lossless exactly on the canonical states. */
  lemma RoundTripIffCanonical(x: X87State)
    ensures Projected(x) == x <==> Canonical(x)
  {
    ProjectionFields(x);
    if Canonical(x) {
      TagWordExtensional(Projected(x).tagWord, x.tagWord);
    }
  }

  /** It is a projection: its results are canonical, so a second trip changes nothing. */
  lemma ProjectionIdempotent(x: X87State)
    ensures Canonical(Projected(x))
    ensures Projected(Projected(x)) == Projected(x)
  {
    ProjectionFields(x);
    RoundTripIffCanonical(Projected(x));
  }
}
