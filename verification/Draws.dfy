/** The random choices of the generator. A draw is any value in its range: every result proved about
    the generator holds for every sequence of choices. */
module Draws {
  import opened Bits
  import opened Types

  method RandInt(lo: int, hi: int) returns (r: int)
    requires lo <= hi
    ensures lo <= r <= hi
  {
    r :| lo <= r <= hi;
  }

  /** random_interesting_u64: a pool value, a neighbour of one, or anything. */
  method RandomU64() returns (v: u64) {
    v := *;
  }

  /** `v & ((1 << bits) - 1)`. */
  method RandomImm(bits: nat) returns (v: u64)
    ensures v <= Ones(bits)
  {
    var any := RandomU64();
    v := And(any, Ones(bits));
  }

  method RandomRow() returns (row: Sixteen) {
    row := SIXTEEN_ZEROS;
    for i := 0 to 16 {
      var v := RandomU64();
      row := row[i := v];
    }
  }

  method RandomBytes(n: nat) returns (bytes: seq<u8>)
    ensures |bytes| == n
  {
    bytes := Zeros(n);
    for i := 0 to n
      invariant |bytes| == n
    {
      var b := RandInt(0, 255);
      bytes := bytes[i := b];
    }
  }
}
