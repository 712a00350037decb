/** The seven lanes' mapping onto seven's CPU state (src/lanes/seven_lane.cpp, and the identical
    copies in seven_jit_lane.cpp): the physical x87 register file and the packed XMM registers.

    set_x87_status_word and friends are seven's; they are taken to store the word they are given and
    get_x87_top to return bits 13:11 of it.
 */
module SevenLane {
  import opened Bits
  import opened Types
  import opened HardwareX87

  datatype FileFields = FileFields(
    controlWord: u16, statusWord: u16, signif: seq<u64>, signexp: seq<u16>, tags: seq<u8>)

  type RegisterFile = f: FileFields | |f.signif| == |f.signexp| == |f.tags| == 8
    witness FileFields(0, 0, DEFAULT_X87.signif, DEFAULT_X87.signexp, Zeros(8))

  /** seven's x87 state: registers R0..R7 in physical order, one tag byte each. */
  class CpuX87 {
    var controlWord: u16
    var statusWord: u16
    const stackSignif: array<u64>
    const stackSignExp: array<u16>
    const tags: array<u8>

    constructor ()
      ensures Allocated() && fresh(stackSignif) && fresh(stackSignExp) && fresh(tags)
    {
      stackSignif := new u64[8](_ => 0);
      stackSignExp := new u16[8](_ => 0);
      tags := new u8[8](_ => 3);
    }

    predicate Allocated() {
      stackSignif.Length == stackSignExp.Length == tags.Length == 8
    }

    function Contents(): RegisterFile
      requires Allocated()
      reads this, stackSignif, stackSignExp, tags
    {
      FileFields(controlWord, statusWord, stackSignif[..], stackSignExp[..], tags[..])
    }
  }

  // ---------------------------------------------------------------- what the two conversions mean

  /** The file holding x: physical register p is ST((p - TOP) mod 8). */
  function FileOf(x: X87State): RegisterFile {
    var top := TopOf(x.statusWord);
    FileFields(x.controlWord, x.statusWord,
               seq(8, p requires 0 <= p < 8 => x.signif[StOf(top, p)]),
               seq(8, p requires 0 <= p < 8 => x.signexp[StOf(top, p)]),
               seq(8, p requires 0 <= p < 8 => TagAt(x.tagWord, p)))
  }

  function TagFields(tags: seq<u8>): (t: seq<nat>)
    ensures |t| == |tags| && Fields(t, 2)
  {
    seq(|tags|, p requires 0 <= p < |tags| => tags[p] % 4)
  }

  function StateOf(f: RegisterFile): X87State {
    var top := TopOf(f.statusWord);
    X87Fields(seq(8, i requires 0 <= i < 8 => f.signif[PhysOf(top, i)]),
              seq(8, i requires 0 <= i < 8 => f.signexp[PhysOf(top, i)]),
              f.controlWord, f.statusWord, PackTags(TagFields(f.tags)))
  }

  /** The same, bit by bit: ST(i) sits in the register TOP makes of it, one tag for each register. */
  predicate FileLaw(f: RegisterFile, x: X87State) {
    && f.controlWord == x.controlWord && f.statusWord == x.statusWord
    && (forall i :: 0 <= i < 8 ==>
          var phys := StackRegister(f.statusWord, i); f.signif[phys] == x.signif[i] && f.signexp[phys] == x.signexp[i])
    && (forall p :: 0 <= p < 8 ==> TagInBits(x.tagWord, p) == f.tags[p] % 4)
  }

  lemma FileOfLaw(x: X87State)
    ensures FileLaw(FileOf(x), x)
  {
    forall i | 0 <= i < 8
      ensures var phys := StackRegister(x.statusWord, i);
        FileOf(x).signif[phys] == x.signif[i] && FileOf(x).signexp[phys] == x.signexp[i]
    {
      RegisterIsPhysical(x.statusWord, i);
    }
    forall p | 0 <= p < 8 ensures TagInBits(x.tagWord, p) == FileOf(x).tags[p] % 4 { FieldBits(x.tagWord, p); }
  }

  lemma StateOfLaw(f: RegisterFile)
    ensures FileLaw(f, StateOf(f))
  {
    var x := StateOf(f);
    forall i | 0 <= i < 8
      ensures var phys := StackRegister(f.statusWord, i); f.signif[phys] == x.signif[i] && f.signexp[phys] == x.signexp[i]
    {
      RegisterIsPhysical(f.statusWord, i);
    }
    forall p | 0 <= p < 8 ensures TagInBits(x.tagWord, p) == f.tags[p] % 4 {
      FieldBits(x.tagWord, p);
      FieldOfPack(TagFields(f.tags), p, 2);
    }
  }

  // ---------------------------------------------------------------- the two conversions

  method ApplyX87(state: CpuX87, x: X87State)
    requires state.Allocated()
    modifies state, state.stackSignif, state.stackSignExp, state.tags
    ensures state.Contents() == FileOf(x) && FileLaw(state.Contents(), x)
  {
    state.controlWord := x.controlWord;
    state.statusWord := x.statusWord;
    ApplyStack(state, x, TopOf(state.statusWord));
    ApplyTags(state, x.tagWord);
    assert state.stackSignif[..] == FileOf(x).signif;
    assert state.stackSignExp[..] == FileOf(x).signexp;
    assert state.tags[..] == FileOf(x).tags;
    FileOfLaw(x);
  }

  /** The loop over ST(0) .. ST(7): every physical register receives the ST register TOP makes of it. */
  method ApplyStack(state: CpuX87, x: X87State, top: nat)
    requires state.Allocated() && top < 8
    modifies state.stackSignif, state.stackSignExp
    ensures forall p :: 0 <= p < 8 ==> state.stackSignif[p] == x.signif[StOf(top, p)]
    ensures forall p :: 0 <= p < 8 ==> state.stackSignExp[p] == x.signexp[StOf(top, p)]
  {
    for i := 0 to 8
      invariant forall j :: 0 <= j < i ==> state.stackSignif[PhysOf(top, j)] == x.signif[j]
      invariant forall j :: 0 <= j < i ==> state.stackSignExp[PhysOf(top, j)] == x.signexp[j]
    {
      var phys := PhysOf(top, i);
      state.stackSignif[phys] := x.signif[i];
      state.stackSignExp[phys] := x.signexp[i];
    }
    forall p | 0 <= p < 8
      ensures state.stackSignif[p] == x.signif[StOf(top, p)] && state.stackSignExp[p] == x.signexp[StOf(top, p)]
    {
      RotationInverse(top, p);
    }
  }

  /** The loop over R0 .. R7. */
  method ApplyTags(state: CpuX87, tagWord: u16)
    requires state.Allocated()
    modifies state.tags
    ensures forall p :: 0 <= p < 8 ==> state.tags[p] == TagAt(tagWord, p)
  {
    for phys := 0 to 8
      invariant forall j :: 0 <= j < phys ==> state.tags[j] == TagAt(tagWord, j)
    {
      state.tags[phys] := TagAt(tagWord, phys);
    }
  }

  method ReadX87(state: CpuX87) returns (x: X87State)
    requires state.Allocated()
    ensures x == StateOf(state.Contents()) && FileLaw(state.Contents(), x)
  {
    StateOfLaw(state.Contents());
    var top := TopOf(state.statusWord);
    var signif: seq<u64> := [];
    var signexp: seq<u16> := [];
    for i := 0 to 8
      invariant |signif| == |signexp| == i
      invariant forall j :: 0 <= j < i ==> signif[j] == state.stackSignif[PhysOf(top, j)]
      invariant forall j :: 0 <= j < i ==> signexp[j] == state.stackSignExp[PhysOf(top, j)]
    {
      var phys := PhysOf(top, i);
      signif := signif + [state.stackSignif[phys]];
      signexp := signexp + [state.stackSignExp[phys]];
    }
    var tw: nat := 0;
    ghost var tags := TagFields(state.tags[..]);
    for phys := 0 to 8
      invariant tw == Pack(tags[..phys], 2)
    {
      PackStep(tags, phys, 2);
      tw := Or(tw, Shl(state.tags[phys] % 4, 2 * phys));
    }
    assert tags[..8] == tags;
    assert tw == PackTags(tags);
    x := X87Fields(signif, signexp, state.controlWord, state.statusWord, tw);
    assert signif == StateOf(state.Contents()).signif;
    assert signexp == StateOf(state.Contents()).signexp;
  }

  // ---------------------------------------------------------------- round trips

  lemma RotationInverse(top: nat, phys: nat)
    requires top < 8 && phys < 8
    ensures PhysOf(top, StOf(top, phys)) == phys
  {
  }

  /** Rotating into seven's file and back is the identity on every state. */
  lemma SevenRoundTrip(x: X87State)
    ensures StateOf(FileOf(x)) == x
  {
    var y, top := StateOf(FileOf(x)), TopOf(x.statusWord);
    forall i | 0 <= i < 8 ensures y.signif[i] == x.signif[i] && y.signexp[i] == x.signexp[i] {
      assert StOf(top, PhysOf(top, i)) == i;
    }
    assert y.signif == x.signif && y.signexp == x.signexp;
    assert TagFields(FileOf(x).tags) == Unpack(x.tagWord, 8, 2);
    SixteenBits();
    PackOfUnpack(x.tagWord, 8, 2);
  }

  lemma FileRoundTripAt(f: RegisterFile, p: nat)
    requires p < 8
    ensures FileOf(StateOf(f)).signif[p] == f.signif[p]
    ensures FileOf(StateOf(f)).signexp[p] == f.signexp[p]
    ensures FileOf(StateOf(f)).tags[p] == f.tags[p] % 4
  {
    RotationInverse(TopOf(f.statusWord), p);
    FieldOfPack(TagFields(f.tags), p, 2);
  }

  lemma SameUpToTags(f: RegisterFile, g: RegisterFile)
    requires g.controlWord == f.controlWord && g.statusWord == f.statusWord
    requires forall p :: 0 <= p < 8 ==>
      g.signif[p] == f.signif[p] && g.signexp[p] == f.signexp[p] && g.tags[p] == f.tags[p] % 4
    ensures g == f <==> forall p :: 0 <= p < 8 ==> f.tags[p] <= EMPTY_TAG
  {
    assert g.signif == f.signif && g.signexp == f.signexp;
    if forall p :: 0 <= p < 8 ==> f.tags[p] <= EMPTY_TAG {
      assert g.tags == f.tags;
    }
  }

  /** In the other direction nothing is lost either, as long as the tag bytes are two-bit tags. */
  lemma FileRoundTrip(f: RegisterFile)
    ensures FileOf(StateOf(f)) == f <==> forall p :: 0 <= p < 8 ==> f.tags[p] <= EMPTY_TAG
  {
    forall p | 0 <= p < 8
      ensures FileOf(StateOf(f)).signif[p] == f.signif[p]
      ensures FileOf(StateOf(f)).signexp[p] == f.signexp[p]
      ensures FileOf(StateOf(f)).tags[p] == f.tags[p] % 4
    {
      FileRoundTripAt(f, p);
    }
    SameUpToTags(f, FileOf(StateOf(f)));
  }

  /** Both lanes start from the same x87 state exactly when the generated state is canonical. */
  lemma LanesAgreeIffCanonical(x: X87State)
    ensures StateOf(FileOf(x)) == ReadBack(ImageOf(x)) <==> Canonical(x)
  {
    SevenRoundTrip(x);
    RoundTripIffCanonical(x);
  }

  // ---------------------------------------------------------------- XMM registers

  const TWO_64: nat := 0x1_0000_0000_0000_0000

  function XmmBytes(lo: u64, hi: u64): (b: seq<nat>)
    ensures |b| == 16 && Fields(b, 8)
  {
    Unpack(lo, 8, 8) + Unpack(hi, 8, 8)
  }

  function PackedXmm(lo: u64, hi: u64): nat {
    Pack(XmmBytes(lo, hi), 8)
  }

  function UnpackedXmm(value: nat): (u64, u64) {
    var bytes := Unpack(value, 16, 8);
    PackBound(bytes[..8], 8);
    PackBound(bytes[8..], 8);
    SixtyFourBits();
    (Pack(bytes[..8], 8), Pack(bytes[8..], 8))
  }

  /** Byte by byte, each ORed in above the last. */
  method PackXmm(lo: u64, hi: u64) returns (out: nat)
    ensures out == lo + hi * TWO_64
  {
    var bytes := XmmBytes(lo, hi);
    out := 0;
    for i := 0 to 16
      invariant out == Pack(bytes[..i], 8)
    {
      PackStep(bytes, i, 8);
      out := Or(out, Shl(bytes[i], i * 8));
    }
    assert bytes[..16] == bytes;
    PackedIsConcatenation(lo, hi);
  }

  method UnpackXmm(value: nat) returns (lo: u64, hi: u64)
    ensures (lo, hi) == UnpackedXmm(value)
  {
    var bytes: seq<nat> := [];
    for i := 0 to 16
      invariant |bytes| == i
      invariant forall j :: 0 <= j < i ==> bytes[j] == Field(value, j, 8)
    {
      bytes := bytes + [Shr(value, i * 8) % 256];
    }
    assert bytes == Unpack(value, 16, 8);
    PackBound(bytes[..8], 8);
    PackBound(bytes[8..], 8);
    SixtyFourBits();
    lo := Pack(bytes[..8], 8);
    hi := Pack(bytes[8..], 8);
  }

  lemma ShiftBy64(v: nat)
    ensures Shl(v, 64) == v * TWO_64
  {
    ShiftByByte(v);
    ShlShl(v, 8, 8);
    ShiftByByte(Shl(v, 8));
    ShlShl(v, 16, 8);
    ShiftByByte(Shl(v, 16));
    ShlShl(v, 24, 8);
    ShiftByByte(Shl(v, 24));
    ShlShl(v, 32, 8);
    ShiftByByte(Shl(v, 32));
    ShlShl(v, 40, 8);
    ShiftByByte(Shl(v, 40));
    ShlShl(v, 48, 8);
    ShiftByByte(Shl(v, 48));
    ShlShl(v, 56, 8);
    ShiftByByte(Shl(v, 56));
  }

  lemma PackedIsConcatenation(lo: u64, hi: u64)
    ensures PackedXmm(lo, hi) == lo + hi * TWO_64
  {
    SixtyFourBits();
    PackOfUnpack(lo, 8, 8);
    PackOfUnpack(hi, 8, 8);
    PackAppend(Unpack(lo, 8, 8), Unpack(hi, 8, 8), 8);
    ShiftBy64(hi);
  }

  lemma XmmRoundTrip(lo: u64, hi: u64)
    ensures UnpackedXmm(lo + hi * TWO_64) == (lo, hi)
  {
    var v, b := PackedXmm(lo, hi), XmmBytes(lo, hi);
    PackedIsConcatenation(lo, hi);
    assert Unpack(v, 16, 8) == b by {
      forall p | 0 <= p < 16 ensures Unpack(v, 16, 8)[p] == b[p] {
        FieldOfPack(b, p, 8);
      }
    }
    assert b[..8] == Unpack(lo, 8, 8) && b[8..] == Unpack(hi, 8, 8);
    SixtyFourBits();
    PackOfUnpack(lo, 8, 8);
    PackOfUnpack(hi, 8, 8);
  }
}
