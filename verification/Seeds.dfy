/** Seed spreading (mix_seed in src/main.cpp): 64-bit arithmetic modulo 2^64. */
module Seeds {
  import opened Bits
  import opened Types

  const MODULUS: nat := 0x1_0000_0000_0000_0000
  const GOLDEN: nat := 0x9E3779B97F4A7C15
  const MIX_1: nat := 0xBF58476D1CE4E5B9
  const MIX_2: nat := 0x94D049BB133111EB

  /** An int for which `worker_id + 1` is defined. */
  type Index = i: int | -0x8000_0000 <= i < 0x7FFF_FFFF

  /** z ^ (z >> k) */
  function XorShift(z: u64, k: nat): u64 {
    SixtyFourBits();
    XorBound(z, Shr(z, k), 64);
    Xor(z, Shr(z, k))
  }

  function Times(z: u64, c: nat): u64 {
    (z * c) % MODULUS
  }

  /** (z ^ (z >> k)) * c */
  function Scramble(z: u64, k: nat, c: nat): u64 {
    Times(XorShift(z, k), c)
  }

  function Finish(z: u64): u64 {
    XorShift(Scramble(Scramble(z, 30, MIX_1), 27, MIX_2), 31)
  }

  /** `static_cast<std::uint64_t>(worker_id + 1)`. */
  function AsWord(workerId: Index): u64 {
    (workerId + 1) % MODULUS
  }

  function Offset(base: u64, x: u64): u64 {
    (base + x) % MODULUS
  }

  function Start(base: u64, workerId: Index): u64 {
    Offset(base, Times(AsWord(workerId), GOLDEN))
  }

  function MixSeed(base: u64, workerId: Index): u64 {
    Finish(Start(base, workerId))
  }

  // ---------------------------------------------------------------- each step is injective

  /** The high bits of z pass through unchanged and uncover the rest, k bits at a time. */
  lemma {:induction false} XorShiftBit(a: u64, b: u64, k: nat, i: nat)
    requires k > 0 && XorShift(a, k) == XorShift(b, k)
    ensures Bit(a, i) <==> Bit(b, i)
    decreases 64 - i
  {
    if i >= 64 {
      SixtyFourBits();
      BitOfLarge(a, 64, i);
      BitOfLarge(b, 64, i);
    } else {
      XorShiftBit(a, b, k, i + k);
      BitXor(a, Shr(a, k), i);
      BitXor(b, Shr(b, k), i);
      ShrShr(a, k, i);
      ShrShr(b, k, i);
    }
  }

  /** Bit i of z ^ (z >> k) is the exclusive or of bits i and i + k of z. */
  lemma XorShiftInBits(z: u64, k: nat, i: nat)
    ensures Bit(XorShift(z, k), i) <==> (Bit(z, i) != Bit(z, i + k))
  {
    BitXor(z, Shr(z, k), i);
    ShrShr(z, k, i);
  }

  lemma XorShiftInjective(a: u64, b: u64, k: nat)
    requires k > 0 && XorShift(a, k) == XorShift(b, k)
    ensures a == b
  {
    forall i | 0 <= i < 64 ensures Bit(a, i) <==> Bit(b, i) {
      XorShiftBit(a, b, k, i);
    }
    SixtyFourBits();
    SameBits(a, b, 64);
  }

  lemma ModUnique(z: u64, t: int)
    ensures (z + t * MODULUS) % MODULUS == z
  {
  }

  /** Multiplying by an odd constant is undone by its inverse modulo 2^64. */
  lemma UndoTimes(z: u64, c: nat, inverse: nat, t: nat)
    requires c * inverse == 1 + t * MODULUS
    ensures Times(Times(z, c), inverse) == z
  {
    var q := z * c / MODULUS;
    var r := Times(z, c);
    assert r == z * c - q * MODULUS;
    calc {
      r * inverse;
      (z * c - q * MODULUS) * inverse;
      z * (c * inverse) - q * inverse * MODULUS;
      z * (1 + t * MODULUS) - q * inverse * MODULUS;
      z + (z * t - q * inverse) * MODULUS;
    }
    ModUnique(z, z * t - q * inverse);
  }

  ghost predicate Invertible(c: nat) {
    exists inverse: nat, t: nat :: c * inverse == 1 + t * MODULUS
  }

  lemma TimesInjective(x: u64, y: u64, c: nat)
    requires Invertible(c) && Times(x, c) == Times(y, c)
    ensures x == y
  {
    var inverse: nat, t: nat :| c * inverse == 1 + t * MODULUS;
    UndoTimes(x, c, inverse, t);
    UndoTimes(y, c, inverse, t);
  }

  lemma ConstantsAreInvertible()
    ensures Invertible(GOLDEN) && Invertible(MIX_1) && Invertible(MIX_2)
  {
    assert GOLDEN * 0xF1DE_83E1_9937_733D == 1 + 0x957bbf35006ed677 * MODULUS;
    assert MIX_1 * 0x96DE_1B17_3F11_9089 == 1 + 0x70c3bca78f27f46c * MODULUS;
    assert MIX_2 * 0x3196_42B2_D24D_8EC3 == 1 + 0x1cd336eda85f1453 * MODULUS;
  }

  lemma ScrambleInjective(x: u64, y: u64, k: nat, c: nat)
    requires k > 0 && Invertible(c) && Scramble(x, k, c) == Scramble(y, k, c)
    ensures x == y
  {
    TimesInjective(XorShift(x, k), XorShift(y, k), c);
    XorShiftInjective(x, y, k);
  }

  lemma FinishInjective(x: u64, y: u64)
    requires Finish(x) == Finish(y)
    ensures x == y
  {
    ConstantsAreInvertible();
    var ax, ay := Scramble(x, 30, MIX_1), Scramble(y, 30, MIX_1);
    XorShiftInjective(Scramble(ax, 27, MIX_2), Scramble(ay, 27, MIX_2), 31);
    ScrambleInjective(ax, ay, 27, MIX_2);
    ScrambleInjective(x, y, 30, MIX_1);
  }

  lemma OffsetInjective(base: u64, x: u64, y: u64)
    requires Offset(base, x) == Offset(base, y)
    ensures x == y
  {
  }

  lemma AsWordInjective(v: Index, w: Index)
    requires AsWord(v) == AsWord(w)
    ensures v == w
  {
  }

  lemma StartInjective(base: u64, v: Index, w: Index)
    requires Start(base, v) == Start(base, w)
    ensures v == w
  {
    ConstantsAreInvertible();
    OffsetInjective(base, Times(AsWord(v), GOLDEN), Times(AsWord(w), GOLDEN));
    TimesInjective(AsWord(v), AsWord(w), GOLDEN);
    AsWordInjective(v, w);
  }

  /** Whatever the base seed, different worker or child indices get different seeds. */
  lemma MixSeedInjective(base: u64, v: Index, w: Index)
    requires MixSeed(base, v) == MixSeed(base, w)
    ensures v == w
  {
    FinishInjective(Start(base, v), Start(base, w));
    StartInjective(base, v, w);
  }
}
