/** The biased DIV operands of gen_muldiv (src/gen/instruction_gen.cpp): a 128-bit dividend is
    assembled from a quotient, a divisor and a remainder, and split over RAX and RDX. */
module Division {
  import opened Types

  const TWO_64: nat := 0x1_0000_0000_0000_0000

  type OpWidth = w: int | w == 8 || w == 16 || w == 32 || w == 64 witness 8

  function Range(w: OpWidth): nat {
    if w == 8 then 0x100 else if w == 16 then 0x1_0000 else if w == 32 then 0x1_0000_0000 else TWO_64
  }

  function BytesOf(w: OpWidth): nat {
    if w == 8 then 1 else if w == 16 then 2 else if w == 32 then 4 else 8
  }

  // ---------------------------------------------------------------- the intrinsics

  lemma MulMono(a: nat, b: nat, c: nat)
    requires a <= b
    ensures a * c <= b * c
  {
    assert b * c == a * c + (b - a) * c;
  }

  lemma MulNext(a: nat, b: nat, c: nat)
    requires a < b
    ensures a * c + c <= b * c
  {
    MulMono(a + 1, b, c);
    assert (a + 1) * c == a * c + c;
  }

  lemma QuotientBelow(n: nat, m: nat, d: nat)
    requires n < m * d && 0 < d
    ensures n / d < m
  {
    assert n == d * (n / d) + n % d;
    if n / d >= m { MulMono(m, n / d, d); }
  }

  lemma ProductFits(a: nat, b: nat, m: nat)
    requires a < m && b < m
    ensures a * b < m * m
  {
    MulMono(a, m, b);
    MulNext(b, m, m);
  }

  method Umul128(a: u64, b: u64) returns (lo: u64, hi: u64)
    ensures lo + hi * TWO_64 == a * b
  {
    ProductFits(a, b, TWO_64);
    QuotientBelow(a * b, TWO_64, TWO_64);
    lo, hi := a * b % TWO_64, a * b / TWO_64;
  }

  method AddCarry(carryIn: nat, a: u64, b: u64) returns (carry: nat, sum: u64)
    requires carryIn <= 1
    ensures carry <= 1 && sum + carry * TWO_64 == carryIn + a + b
  {
    carry, sum := (carryIn + a + b) / TWO_64, (carryIn + a + b) % TWO_64;
  }

  // ---------------------------------------------------------------- what DIV does

  datatype DivOutcome = DivideError | Divided(quotient: int, remainder: int)

  /** AX, DX:AX, EDX:EAX or RDX:RAX. */
  function Accumulator(w: OpWidth, rax: u64, rdx: u64): nat {
    if w == 8 then rax % 0x1_0000
    else if w == 16 then rdx % 0x1_0000 * 0x1_0000 + rax % 0x1_0000
    else if w == 32 then rdx % 0x1_0000_0000 * 0x1_0000_0000 + rax % 0x1_0000_0000
    else rdx * TWO_64 + rax
  }

  function Divide(w: OpWidth, dividend: nat, divisor: nat): DivOutcome {
    if divisor == 0 || dividend / divisor >= Range(w) then DivideError
    else Divided(dividend / divisor, dividend % divisor)
  }

  /** Unsigned DIV. */
  function Div(w: OpWidth, rax: u64, rdx: u64, source: u64): DivOutcome {
    Divide(w, Accumulator(w, rax, rdx), source % Range(w))
  }

  // ---------------------------------------------------------------- the biased operands

  /** What the branch draws: operand-sized quotient and non-zero divisor, and a remainder below it. */
  predicate Biased(w: OpWidth, q: nat, d: nat, r: nat) {
    q < Range(w) && 0 < d < Range(w) && r < d
  }

  function Dividend(q: nat, d: nat, r: nat): nat {
    q * d + r
  }

  lemma BelowTimes(q: nat, d: nat, r: nat, n: nat)
    requires q < n && r < d
    ensures Dividend(q, d, r) < n * d
  {
    MulNext(q, n, d);
  }

  /** Division by d undoes multiplication by d. */
  lemma DivisionUnique(q: nat, d: nat, r: nat)
    requires r < d
    ensures Dividend(q, d, r) / d == q && Dividend(q, d, r) % d == r
  {
    var n := Dividend(q, d, r);
    var k, m := n / d, n % d;
    assert n == d * k + m;
    if k < q { MulNext(k, q, d); }
    if q < k { MulNext(q, k, d); }
  }

  lemma RangeBound(w: OpWidth)
    ensures Range(w) <= TWO_64
    ensures w != 64 ==> Range(w) * Range(w) <= TWO_64
  {
  }

  lemma HighHalf(w: OpWidth, q: nat, d: nat, r: nat)
    requires Biased(w, q, d, r)
    ensures Dividend(q, d, r) / TWO_64 < d
  {
    RangeBound(w);
    BelowTimes(q, d, r, TWO_64);
    QuotientBelow(Dividend(q, d, r), d, TWO_64);
  }

  /** The carry chain loses nothing: no carry leaves the high half, and the high half stays below the
      divisor, which is the hardware's condition for not faulting. */
  method CarryChain(w: OpWidth, q: u64, d: u64, r: u64) returns (lo: u64, hi: u64)
    requires Biased(w, q, d, r)
    ensures lo + hi * TWO_64 == Dividend(q, d, r)
    ensures hi < d
  {
    var productLo, productHi := Umul128(q, d);
    var carry, carryOut;
    carry, lo := AddCarry(0, productLo, r);
    carryOut, hi := AddCarry(carry, productHi, 0);
    HighHalf(w, q, d, r);
  }

  lemma NarrowDividend(w: OpWidth, q: nat, d: nat, r: nat)
    requires Biased(w, q, d, r) && w != 64
    ensures Dividend(q, d, r) < Range(w) * Range(w) <= TWO_64
  {
    RangeBound(w);
    BelowTimes(q, d, r, Range(w));
    MulMono(d, Range(w), Range(w));
  }

  // ---------------------------------------------------------------- what DIV makes of them

  /** RAX and RDX as forced: the halves of the dividend. The 8-bit form does not force RDX. */
  predicate Halves(w: OpWidth, q: nat, d: nat, r: nat, rax: u64, rdx: u64) {
    && Biased(w, q, d, r)
    && rax == Dividend(q, d, r) % TWO_64
    && (w != 8 ==> rdx == Dividend(q, d, r) / TWO_64)
  }

  /** Splitting a dividend over RAX and RDX and reassembling it at width w. */
  lemma Reassembled(w: OpWidth, n: nat, rax: u64, rdx: u64)
    requires rax == n % TWO_64 && (w != 8 ==> rdx == n / TWO_64)
    requires w == 8 ==> n < 0x1_0000
    requires w == 16 || w == 32 ==> n < TWO_64
    ensures Accumulator(w, rax, rdx) == if w == 8 || w == 64 then n else n % Range(w)
  {
  }

  lemma SmallDividend(w: OpWidth, n: nat, d: nat)
    requires n < Range(w) && d > 0
    ensures Divide(w, n, d) == Divided(n / d, n % d)
  {
    MulMono(1, d, Range(w));
    QuotientBelow(n, Range(w), d);
  }

  /** The dividend DIV sees. At 16 and 32 bits the forced high half is zero, so it is the operand
      sized low half. */
  function Seen(w: OpWidth, n: nat): nat {
    if w == 8 || w == 64 then n else n % Range(w)
  }

  lemma SeenOutcome(w: OpWidth, n: nat, d: nat, rax: u64, rdx: u64)
    requires 0 < d < Range(w) && rax == n % TWO_64 && (w != 8 ==> rdx == n / TWO_64)
    requires w == 8 ==> n < 0x1_0000
    requires w == 16 || w == 32 ==> n < TWO_64
    requires w == 8 || w == 64 ==> n / d < Range(w)
    ensures Div(w, rax, rdx, d) == Divided(Seen(w, n) / d, Seen(w, n) % d)
  {
    Reassembled(w, n, rax, rdx);
    assert Accumulator(w, rax, rdx) == Seen(w, n) && d % Range(w) == d;
    if w == 16 || w == 32 { SmallDividend(w, n % Range(w), d); }
  }

  lemma BiasedOutcome(w: OpWidth, q: nat, d: nat, r: nat, rax: u64, rdx: u64)
    requires Halves(w, q, d, r, rax, rdx)
    ensures var n := Seen(w, Dividend(q, d, r)); Div(w, rax, rdx, d) == Divided(n / d, n % d)
  {
    if w != 64 { NarrowDividend(w, q, d, r); }
    DivisionUnique(q, d, r);
    SeenOutcome(w, Dividend(q, d, r), d, rax, rdx);
  }

  /** The operands the generator forces never make DIV fault, at any width. */
  lemma BiasedNeverFaults(w: OpWidth, q: nat, d: nat, r: nat, rax: u64, rdx: u64)
    requires Halves(w, q, d, r, rax, rdx)
    ensures Div(w, rax, rdx, d).Divided?
  {
    BiasedOutcome(w, q, d, r, rax, rdx);
  }

  lemma SameDivision(n: nat, k: nat, d: nat)
    requires d > 0 && n / d == k / d && n % d == k % d
    ensures n == k
  {
    assert n == d * (n / d) + n % d;
    assert k == d * (k / d) + k % d;
  }

  /** Truncating a dividend keeps quotient and remainder only if it keeps the dividend. */
  lemma TruncationKeeps(w: OpWidth, n: nat, q: nat, d: nat, r: nat)
    requires r < d && n == Dividend(q, d, r)
    ensures var k := n % Range(w); (k / d == q && k % d == r) <==> n < Range(w)
  {
    DivisionUnique(q, d, r);
    var k := n % Range(w);
    if k / d == q && k % d == r { SameDivision(n, k, d); }
  }

  /** DIV gives back the drawn quotient and remainder exactly when the operand size holds the whole
      dividend; 8 and 64 bits always do, 16 and 32 do not. */
  lemma BiasedRecoveredIff(w: OpWidth, q: nat, d: nat, r: nat, rax: u64, rdx: u64)
    requires Halves(w, q, d, r, rax, rdx)
    ensures Div(w, rax, rdx, d) == Divided(q, r) <==> w == 8 || w == 64 || Dividend(q, d, r) < Range(w)
  {
    BiasedOutcome(w, q, d, r, rax, rdx);
    DivisionUnique(q, d, r);
    TruncationKeeps(w, Dividend(q, d, r), q, d, r);
  }
}
