/** Bit operations on natural numbers: the shifts, masks and ORs of the C++ source, and the
    packing of small fields into a word.

    A word is a natural number. `v >> k` is Shr, `v << k` is Shl (the caller truncates where the
    source does), `a | b` is Or and `a & b` is And. Every proof about them goes bit by bit.
 */
module Bits {

  function Shr(v: nat, k: nat): (r: nat)
    ensures r <= v
  {
    if k == 0 then v else Shr(v / 2, k - 1)
  }

  function Shl(v: nat, k: nat): (r: nat)
    ensures v <= r
  {
    if k == 0 then v else 2 * Shl(v, k - 1)
  }

  function Pow2(k: nat): nat {
    Shl(1, k)
  }

  predicate Bit(v: nat, i: nat) {
    Shr(v, i) % 2 == 1
  }

  function Low(b: bool): nat {
    if b then 1 else 0
  }

  function Or(a: nat, b: nat): nat
    decreases a + b
  {
    if a == 0 then b
    else if b == 0 then a
    else Low(a % 2 == 1 || b % 2 == 1) + 2 * Or(a / 2, b / 2)
  }

  function And(a: nat, b: nat): (r: nat)
    ensures r <= a && r <= b
    decreases a + b
  {
    if a == 0 || b == 0 then 0
    else Low(a % 2 == 1 && b % 2 == 1) + 2 * And(a / 2, b / 2)
  }

  function Xor(a: nat, b: nat): nat
    decreases a + b
  {
    if a == 0 then b
    else if b == 0 then a
    else Low((a % 2 == 1) != (b % 2 == 1)) + 2 * Xor(a / 2, b / 2)
  }

  /** The word with exactly the low n bits set. */
  function Ones(n: nat): nat {
    if n == 0 then 0 else 1 + 2 * Ones(n - 1)
  }

  // ---------------------------------------------------------------- single bits

  lemma {:induction false} ShrZero(k: nat)
    ensures Shr(0, k) == 0
  {
    if k != 0 { ShrZero(k - 1); }
  }

  lemma {:induction false} BitOr(a: nat, b: nat, i: nat)
    ensures Bit(Or(a, b), i) <==> Bit(a, i) || Bit(b, i)
  {
    ShrZero(i);
    if a != 0 && b != 0 && i != 0 {
      assert Or(a, b) / 2 == Or(a / 2, b / 2);
      BitOr(a / 2, b / 2, i - 1);
    }
  }

  lemma {:induction false} BitAnd(a: nat, b: nat, i: nat)
    ensures Bit(And(a, b), i) <==> Bit(a, i) && Bit(b, i)
  {
    ShrZero(i);
    if a != 0 && b != 0 && i != 0 {
      assert And(a, b) / 2 == And(a / 2, b / 2);
      BitAnd(a / 2, b / 2, i - 1);
    }
  }

  lemma {:induction false} BitXor(a: nat, b: nat, i: nat)
    ensures Bit(Xor(a, b), i) <==> (Bit(a, i) != Bit(b, i))
  {
    ShrZero(i);
    if a != 0 && b != 0 && i != 0 {
      assert Xor(a, b) / 2 == Xor(a / 2, b / 2);
      BitXor(a / 2, b / 2, i - 1);
    }
  }

  lemma {:induction false} BitShl(v: nat, k: nat, i: nat)
    ensures Bit(Shl(v, k), i) <==> i >= k && Bit(v, i - k)
  {
    if k != 0 {
      assert Shl(v, k) / 2 == Shl(v, k - 1);
      if i != 0 { BitShl(v, k - 1, i - 1); }
    }
  }

  lemma {:induction false} BitOnesMinus(n: nat, x: nat, i: nat)
    requires x <= Ones(n)
    ensures Bit(Ones(n) - x, i) <==> i < n && !Bit(x, i)
  {
    ShrZero(i);
    if n != 0 {
      assert (Ones(n) - x) / 2 == Ones(n - 1) - x / 2;
      if i != 0 { BitOnesMinus(n - 1, x / 2, i - 1); }
    }
  }

  lemma {:induction false} BitOfLarge(v: nat, n: nat, i: nat)
    requires v < Pow2(n) && n <= i
    ensures !Bit(v, i)
  {
    ShrZero(i);
    if n != 0 { BitOfLarge(v / 2, n - 1, i - 1); }
  }

  lemma Doubled(k: nat)
    ensures Pow2(k + 1) == 2 * Pow2(k)
  {
  }

  lemma BitOfPow2(k: nat, i: nat)
    ensures Bit(Pow2(k), i) <==> i == k
  {
    BitShl(1, k, i);
    if i > k { BitOfLarge(1, 1, i - k); }
  }

  /** Two n-bit words with the same bits are the same word. */
  lemma {:induction false} SameBits(a: nat, b: nat, n: nat)
    requires a < Pow2(n) && b < Pow2(n)
    requires forall i :: 0 <= i < n ==> (Bit(a, i) <==> Bit(b, i))
    ensures a == b
  {
    if n != 0 {
      assert Bit(a, 0) <==> Bit(b, 0);
      forall i | 0 <= i < n - 1 ensures Bit(a / 2, i) <==> Bit(b / 2, i) {
        assert Bit(a, i + 1) <==> Bit(b, i + 1);
      }
      SameBits(a / 2, b / 2, n - 1);
    }
  }

  lemma {:induction false} OrBound(a: nat, b: nat, n: nat)
    requires a < Pow2(n) && b < Pow2(n)
    ensures Or(a, b) < Pow2(n)
  {
    if n != 0 { OrBound(a / 2, b / 2, n - 1); }
  }

  lemma {:induction false} XorBound(a: nat, b: nat, n: nat)
    requires a < Pow2(n) && b < Pow2(n)
    ensures Xor(a, b) < Pow2(n)
  {
    if n != 0 { XorBound(a / 2, b / 2, n - 1); }
  }

  /** ORing a field above everything already present is addition. */
  lemma {:induction false} OrDisjoint(a: nat, t: nat, k: nat)
    requires a < Pow2(k)
    ensures Or(a, Shl(t, k)) == a + Shl(t, k)
  {
    if k != 0 && a != 0 && t != 0 {
      OrDisjoint(a / 2, t, k - 1);
    } else if t == 0 {
      ShlZero(k);
    }
  }

  // ---------------------------------------------------------------- shifts

  lemma {:induction false} ShlZero(k: nat)
    ensures Shl(0, k) == 0
  {
    if k != 0 { ShlZero(k - 1); }
  }

  lemma {:induction false} ShlAdd(u: nat, v: nat, k: nat)
    ensures Shl(u + v, k) == Shl(u, k) + Shl(v, k)
  {
    if k != 0 { ShlAdd(u, v, k - 1); }
  }

  lemma {:induction false} ShlShl(v: nat, a: nat, b: nat)
    ensures Shl(Shl(v, a), b) == Shl(v, a + b)
  {
    if b != 0 { ShlShl(v, a, b - 1); }
  }

  lemma {:induction false} ShrShr(v: nat, a: nat, b: nat)
    ensures Shr(Shr(v, a), b) == Shr(v, a + b)
  {
    if a != 0 { ShrShr(v / 2, a - 1, b); }
  }

  lemma {:induction false} ShlMono(u: nat, v: nat, k: nat)
    requires u <= v
    ensures Shl(u, k) <= Shl(v, k)
  {
    if k != 0 { ShlMono(u, v, k - 1); }
  }

  /** A value splits at bit k into its low part and the rest. */
  lemma {:induction false} ShrOfSum(low: nat, high: nat, k: nat)
    requires low < Pow2(k)
    ensures Shr(low + Shl(high, k), k) == high
    ensures low + Shl(high, k) < Pow2(k) + Shl(high, k)
  {
    if k != 0 {
      assert (low + Shl(high, k)) / 2 == low / 2 + Shl(high, k - 1);
      ShrOfSum(low / 2, high, k - 1);
    }
  }

  /** Masking keeps the low n bits; the rest is what a shift to the right keeps. */
  lemma {:induction false} AndOnes(v: nat, n: nat)
    ensures v == And(v, Ones(n)) + Shl(Shr(v, n), n)
  {
    if v == 0 {
      ShrZero(n);
      ShlZero(n);
    } else if n != 0 {
      AndOnes(v / 2, n - 1);
    }
  }

  lemma {:induction false} PowersGrow(j: nat, k: nat)
    requires j <= k
    ensures Pow2(j) <= Pow2(k)
  {
    if j < k { PowersGrow(j, k - 1); }
  }

  lemma {:induction false} OnesBelowPow2(n: nat)
    ensures Ones(n) + 1 == Pow2(n)
  {
    if n != 0 { OnesBelowPow2(n - 1); }
  }

  // ---------------------------------------------------------------- packed fields

  /** Field widths the source packs: one-bit in-use flags, two-bit x87 tags, bytes. */
  type Width = w: int | w == 1 || w == 2 || w == 8 witness 1

  /** v times, divided by and modulo the size of a field, each linear once w is known. */
  function Up(v: nat, w: Width): nat {
    if w == 1 then 2 * v else if w == 2 then 4 * v else 256 * v
  }

  function Down(v: nat, w: Width): nat {
    if w == 1 then v / 2 else if w == 2 then v / 4 else v / 256
  }

  function LowField(v: nat, w: Width): nat {
    if w == 1 then v % 2 else if w == 2 then v % 4 else v % 256
  }

  predicate Fits(v: nat, w: Width) {
    v < (if w == 1 then 2 else if w == 2 then 4 else 256)
  }

  predicate Fields(ds: seq<nat>, w: Width) {
    forall i :: 0 <= i < |ds| ==> Fits(ds[i], w)
  }

  /** Little-endian packing: field 0 in the lowest bits. */
  function Pack(ds: seq<nat>, w: Width): nat {
    if ds == [] then 0 else ds[0] + Up(Pack(ds[1..], w), w)
  }

  /** Field p of a word, (v >> (w * p)) & mask. */
  function Field(v: nat, p: nat, w: Width): nat {
    LowField(Shr(v, w * p), w)
  }

  function Unpack(v: nat, n: nat, w: Width): (ds: seq<nat>)
    ensures |ds| == n && Fields(ds, w)
  {
    seq(n, p requires 0 <= p < n => Field(v, p, w))
  }

  lemma Quarter(v: nat)
    ensures Shl(v, 2) == 4 * v
    ensures Shr(v, 2) == v / 4
  {
    assert Shr(v, 2) == Shr(v / 2, 1) == v / 2 / 2;
    assert Shl(v, 1) == 2 * v;
  }

  lemma Nibble(v: nat)
    ensures Shl(v, 4) == 16 * v
    ensures Shr(v, 4) == v / 16
  {
    Quarter(v);
    Quarter(v / 4);
    ShrShr(v, 2, 2);
    Quarter(4 * v);
    ShlShl(v, 2, 2);
  }

  lemma ShiftByByte(v: nat)
    ensures Shl(v, 8) == 256 * v
    ensures Shr(v, 8) == v / 256
  {
    Nibble(v);
    Nibble(v / 16);
    ShrShr(v, 4, 4);
    Nibble(16 * v);
    ShlShl(v, 4, 4);
  }

  lemma ShiftByField(v: nat, w: Width)
    ensures Shl(v, w) == Up(v, w)
    ensures Shr(v, w) == Down(v, w)
  {
    if w == 8 { ShiftByByte(v); }
    if w == 2 { Quarter(v); }
  }

  lemma FieldStep(v: nat, p: nat, w: Width)
    requires p > 0
    ensures Field(v, p, w) == Field(Down(v, w), p - 1, w)
  {
    ShiftByField(v, w);
    ShrShr(v, w, w * (p - 1));
    assert w + w * (p - 1) == w * p;
  }

  lemma Head2(low: nat, rest: nat)
    requires low < 2
    ensures (low + 2 * rest) % 2 == low && (low + 2 * rest) / 2 == rest
  {
  }

  lemma Head4(low: nat, rest: nat)
    requires low < 4
    ensures (low + 4 * rest) % 4 == low && (low + 4 * rest) / 4 == rest
  {
  }

  lemma Head256(low: nat, rest: nat)
    requires low < 256
    ensures (low + 256 * rest) % 256 == low && (low + 256 * rest) / 256 == rest
  {
  }

  lemma PackHead(low: nat, rest: nat, w: Width)
    requires Fits(low, w)
    ensures LowField(low + Up(rest, w), w) == low
    ensures Down(low + Up(rest, w), w) == rest
  {
    if w == 1 { Head2(low, rest); } else if w == 2 { Head4(low, rest); } else { Head256(low, rest); }
  }

  /** Reading field p back gives what was packed there, and zero past the end. */
  lemma {:induction false} FieldOfPack(ds: seq<nat>, p: nat, w: Width)
    requires Fields(ds, w)
    ensures Field(Pack(ds, w), p, w) == if p < |ds| then ds[p] else 0
  {
    if ds == [] {
      ShrZero(w * p);
    } else {
      PackHead(ds[0], Pack(ds[1..], w), w);
      if p != 0 {
        FieldStep(Pack(ds, w), p, w);
        FieldOfPack(ds[1..], p - 1, w);
      }
    }
  }

  lemma PowStep(n: nat, w: Width)
    requires n > 0
    ensures Pow2(w * n) == Up(Pow2(w * (n - 1)), w)
  {
    ShlShl(1, w * (n - 1), w);
    ShiftByField(Pow2(w * (n - 1)), w);
    assert w * (n - 1) + w == w * n;
  }

  /** Packing the fields of a word that fits rebuilds the word. */
  lemma {:induction false} PackOfUnpack(v: nat, n: nat, w: Width)
    requires v < Pow2(w * n)
    ensures Pack(Unpack(v, n, w), w) == v
  {
    if n != 0 {
      var ds, q := Unpack(v, n, w), Down(v, w);
      PowStep(n, w);
      assert ds[1..] == Unpack(q, n - 1, w) by {
        forall p | 0 <= p < n - 1 ensures ds[1..][p] == Unpack(q, n - 1, w)[p] {
          FieldStep(v, p + 1, w);
        }
      }
      PackOfUnpack(q, n - 1, w);
      assert ds[0] == LowField(v, w);
    }
  }

  lemma {:induction false} PackBound(ds: seq<nat>, w: Width)
    requires Fields(ds, w)
    ensures Pack(ds, w) < Pow2(w * |ds|)
  {
    if ds != [] {
      PackBound(ds[1..], w);
      PowStep(|ds|, w);
      assert Fits(ds[0], w);
    }
  }

  lemma {:induction false} PackAppend(a: seq<nat>, b: seq<nat>, w: Width)
    ensures Pack(a + b, w) == Pack(a, w) + Shl(Pack(b, w), w * |a|)
  {
    if a == [] {
      assert a + b == b;
    } else {
      assert (a + b)[1..] == a[1..] + b;
      PackAppend(a[1..], b, w);
      ShlShl(Pack(b, w), w * (|a| - 1), w);
      ShiftByField(Shl(Pack(b, w), w * (|a| - 1)), w);
      assert w * (|a| - 1) + w == w * |a|;
    }
  }

  /** One turn of the source's packing loops, `out |= field << (w * p)`. */
  lemma PackStep(ds: seq<nat>, p: nat, w: Width)
    requires p < |ds| && Fields(ds, w)
    ensures Or(Pack(ds[..p], w), Shl(ds[p], w * p)) == Pack(ds[..p + 1], w)
  {
    PackBound(ds[..p], w);
    OrDisjoint(Pack(ds[..p], w), ds[p], w * p);
    assert ds[..p + 1] == ds[..p] + [ds[p]];
    PackAppend(ds[..p], [ds[p]], w);
    assert Pack([ds[p]], w) == ds[p];
  }

  lemma BitOfOnes(n: nat, k: nat)
    ensures Bit(Ones(n), k) <==> k < n
  {
    ShrZero(k);
    BitOnesMinus(n, 0, k);
  }

  lemma LowByte(v: nat)
    ensures And(v, Ones(8)) == v % 256
  {
    AndOnes(v, 8);
    ShiftByByte(Shr(v, 8));
    OnesBelowPow2(8);
    ShiftByByte(1);
    Head256(And(v, Ones(8)), Shr(v, 8));
  }

  /** Bit r of byte q of a word. */
  lemma ByteBit(v: nat, q: nat, r: nat)
    requires r < 8
    ensures Bit(Field(v, q, 8), r) <==> Bit(v, 8 * q + r)
  {
    var x := Shr(v, 8 * q);
    LowByte(x);
    BitAnd(x, Ones(8), r);
    BitOfOnes(8, r);
    ShrShr(v, 8 * q, r);
  }

  /** Words agree under a mask exactly if they agree on each of its bits. */
  lemma SameUnderMask(a: nat, b: nat, m: nat, n: nat)
    requires a < Pow2(n) && b < Pow2(n) && m < Pow2(n)
    ensures And(a, m) == And(b, m) <==> forall i :: 0 <= i < n && Bit(m, i) ==> (Bit(a, i) <==> Bit(b, i))
  {
    forall i | 0 <= i < n
      ensures Bit(And(a, m), i) <==> Bit(a, i) && Bit(m, i)
      ensures Bit(And(b, m), i) <==> Bit(b, i) && Bit(m, i)
    {
      BitAnd(a, m, i);
      BitAnd(b, m, i);
    }
    if forall i :: 0 <= i < n && Bit(m, i) ==> (Bit(a, i) <==> Bit(b, i)) {
      SameBits(And(a, m), And(b, m), n);
    }
  }

  /** A word is zero exactly if all its bits are clear. */
  lemma ZeroInBits(v: nat, n: nat)
    requires v < Pow2(n)
    ensures v == 0 <==> forall i :: 0 <= i < n ==> !Bit(v, i)
  {
    forall i | 0 <= i < n ensures !Bit(0, i) { ShrZero(i); }
    if forall i :: 0 <= i < n ==> !Bit(v, i) { SameBits(v, 0, n); }
  }

  lemma OnesInBits(v: nat, n: nat)
    requires v < Pow2(n)
    ensures v == Ones(n) <==> forall i :: 0 <= i < n ==> Bit(v, i)
  {
    OnesBelowPow2(n);
    forall i | 0 <= i < n ensures Bit(Ones(n), i) { BitOfOnes(n, i); }
    if forall i :: 0 <= i < n ==> Bit(v, i) { SameBits(v, Ones(n), n); }
  }

  lemma FieldBits(v: nat, p: nat)
    ensures Field(v, p, 2) == Low(Bit(v, 2 * p)) + 2 * Low(Bit(v, 2 * p + 1))
  {
    ShrShr(v, 2 * p, 1);
  }
}
