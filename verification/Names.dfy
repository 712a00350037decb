/** Names of the files the fuzzer writes: `finding_%06d.txt` (src/report/report.cpp) and the
    per-seed archive entries of a sweep (src/main.cpp). Different numbers give different names.
 */
module Names {
  import opened Types

  type Base = b: int | b == 10 || b == 16 witness 10

  const DIGITS := "0123456789ABCDEF"

  function Quot(v: nat, b: Base): nat { if b == 10 then v / 10 else v / 16 }
  function Rem(v: nat, b: Base): (r: nat)
    ensures r < 16
  {
    if b == 10 then v % 10 else v % 16
  }

  /** Digits without leading zeros: %d and %llX. */
  function Numeral(v: nat, b: Base): (s: string)
    ensures s != [] && forall c :: c in s ==> c in DIGITS
  {
    if v < b then [DIGITS[v]] else Numeral(Quot(v, b), b) + [DIGITS[Rem(v, b)]]
  }

  /** Zero-padded to at least `width` digits. */
  function Padded(v: nat, width: nat): (s: string)
    ensures s != [] && forall c :: c in s ==> c in DIGITS
  {
    if width <= 1 then Numeral(v, 10) else Padded(v / 10, width - 1) + [DIGITS[v % 10]]
  }

  /** "%06d" of an int; the width counts the sign. */
  function SixDigits(index: int): string {
    if index < 0 then "-" + Padded(-index, 5) else Padded(index, 6)
  }

  function FindingFile(index: int): string {
    "/finding_" + SixDigits(index) + ".txt"
  }

  // ---------------------------------------------------------------- reading the digits back

  function DigitOf(c: char): (d: nat)
    requires c in DIGITS
    ensures d < 16 && DIGITS[d] == c
  {
    if c == '0' then 0 else if c == '1' then 1 else if c == '2' then 2 else if c == '3' then 3
    else if c == '4' then 4 else if c == '5' then 5 else if c == '6' then 6 else if c == '7' then 7
    else if c == '8' then 8 else if c == '9' then 9 else if c == 'A' then 10 else if c == 'B' then 11
    else if c == 'C' then 12 else if c == 'D' then 13 else if c == 'E' then 14 else 15
  }

  /** The number a string of digits stands for, most significant first. */
  function ValueOf(s: string, b: Base): nat
    requires forall c :: c in s ==> c in DIGITS
  {
    if s == [] then 0
    else
      var rest, last := ValueOf(s[..|s| - 1], b), DigitOf(s[|s| - 1]);
      if b == 10 then 10 * rest + last else 16 * rest + last
  }

  lemma ValueOfAppended(s: string, c: char, b: Base)
    requires c in DIGITS && forall d :: d in s ==> d in DIGITS
    ensures forall d :: d in s + [c] ==> d in DIGITS
    ensures ValueOf(s + [c], b) == (if b == 10 then 10 * ValueOf(s, b) else 16 * ValueOf(s, b)) + DigitOf(c)
  {
    assert (s + [c])[..|s|] == s;
  }

  /** A numeral reads back as its number. */
  lemma {:induction false} NumeralValue(v: nat, b: Base)
    ensures ValueOf(Numeral(v, b), b) == v
  {
    var d := if v < b then v else Rem(v, b);
    DigitsDistinct(DigitOf(DIGITS[d]), d);
    if v < b {
      assert [DIGITS[v]] == [] + [DIGITS[v]];
      ValueOfAppended([], DIGITS[v], b);
    } else {
      NumeralValue(Quot(v, b), b);
      ValueOfAppended(Numeral(Quot(v, b), b), DIGITS[d], b);
    }
  }

  lemma LastDigit(s: string, d: nat)
    requires d < 10 && forall c :: c in s ==> c in DIGITS
    ensures forall c :: c in s + [DIGITS[d]] ==> c in DIGITS
    ensures ValueOf(s + [DIGITS[d]], 10) == 10 * ValueOf(s, 10) + d
  {
    DigitsDistinct(DigitOf(DIGITS[d]), d);
    ValueOfAppended(s, DIGITS[d], 10);
  }

  lemma PaddedStep(v: nat, w: nat, d: nat, s: string, t: string)
    requires v == 10 * w + d && d < 10 && t == s + [DIGITS[d]]
    requires (forall c :: c in s ==> c in DIGITS) && (forall c :: c in t ==> c in DIGITS) && ValueOf(s, 10) == w
    ensures ValueOf(t, 10) == v
  {
    LastDigit(s, d);
  }

  /** Padding keeps the number, and reaches the width. */
  lemma {:induction false} PaddedValue(v: nat, width: nat)
    ensures ValueOf(Padded(v, width), 10) == v
  {
    if width <= 1 {
      NumeralValue(v, 10);
    } else {
      var w, d := v / 10, v % 10;
      PaddedValue(w, width - 1);
      PaddedStep(v, w, d, Padded(w, width - 1), Padded(v, width));
    }
  }

  lemma {:induction false} PaddedLength(v: nat, width: nat)
    ensures |Padded(v, width)| >= width
  {
    if width > 1 { PaddedLength(v / 10, width - 1); }
  }

  lemma DigitsDistinct(i: nat, j: nat)
    requires i < 16 && j < 16 && DIGITS[i] == DIGITS[j]
    ensures i == j
  {
  }

  lemma LastAndRest(s: string, t: string, c: char, d: char)
    requires s + [c] == t + [d]
    ensures s == t && c == d
  {
    assert |s| == |t|;
    assert (s + [c])[..|s|] == s && (t + [d])[..|t|] == t;
    assert (s + [c])[|s|] == c && (t + [d])[|t|] == d;
  }

  lemma {:induction false} NumeralInjective(v: nat, w: nat, b: Base)
    requires Numeral(v, b) == Numeral(w, b)
    ensures v == w
  {
    if v < b && w < b {
      assert Numeral(v, b)[0] == Numeral(w, b)[0];
      DigitsDistinct(v, w);
    } else {
      NumeralLength(v, b);
      NumeralLength(w, b);
      LastAndRest(Numeral(Quot(v, b), b), Numeral(Quot(w, b), b), DIGITS[Rem(v, b)], DIGITS[Rem(w, b)]);
      DigitsDistinct(Rem(v, b), Rem(w, b));
      NumeralInjective(Quot(v, b), Quot(w, b), b);
    }
  }

  lemma NumeralLength(v: nat, b: Base)
    ensures |Numeral(v, b)| == 1 <==> v < b
  {
  }

  lemma {:induction false} PaddedInjective(v: nat, w: nat, width: nat)
    requires Padded(v, width) == Padded(w, width)
    ensures v == w
  {
    if width <= 1 {
      NumeralInjective(v, w, 10);
    } else {
      LastAndRest(Padded(v / 10, width - 1), Padded(w / 10, width - 1), DIGITS[v % 10], DIGITS[w % 10]);
      DigitsDistinct(v % 10, w % 10);
      PaddedInjective(v / 10, w / 10, width - 1);
    }
  }

  lemma Inner(pre: string, a: string, b: string, post: string)
    requires pre + a + post == pre + b + post
    ensures a == b
  {
    assert |a| == |b|;
    assert (pre + a + post)[|pre|..|pre| + |a|] == a;
    assert (pre + b + post)[|pre|..|pre| + |b|] == b;
  }

  lemma SignCharacter(index: int)
    ensures SixDigits(index) != [] && (SixDigits(index)[0] == '-' <==> index < 0)
  {
    var s := SixDigits(index);
    assert index >= 0 ==> s[0] in DIGITS;
  }

  /** Dump files of different indices never share a name, whatever their sign. */
  lemma FindingFileInjective(i: int, j: int)
    requires FindingFile(i) == FindingFile(j)
    ensures i == j
  {
    Inner("/finding_", SixDigits(i), SixDigits(j), ".txt");
    SignCharacter(i);
    SignCharacter(j);
    if i < 0 {
      assert SixDigits(i)[1..] == Padded(-i, 5) && SixDigits(j)[1..] == Padded(-j, 5);
      PaddedInjective(-i, -j, 5);
    } else {
      PaddedInjective(i, j, 6);
    }
  }

  // ---------------------------------------------------------------- sweep archive

  datatype Kind = Findings | Outliers | Crash | Hang

  function Prefix(k: Kind): string {
    match k
    case Findings => "findings_0x"
    case Outliers => "outliers_0x"
    case Crash => "crash_0x"
    case Hang => "watchdog_hang_0x"
  }

  function Suffix(k: Kind): string {
    if k.Crash? || k.Hang? then ".dmp" else ""
  }

  function ArchiveName(k: Kind, seed: u64): string {
    Prefix(k) + Numeral(seed, 16) + Suffix(k)
  }

  /** No two seeds and no two kinds of output share an archive entry. */
  lemma ArchiveNameInjective(k: Kind, seed: u64, k': Kind, seed': u64)
    requires ArchiveName(k, seed) == ArchiveName(k', seed')
    ensures k == k' && seed == seed'
  {
    assert ArchiveName(k, seed)[0] == Prefix(k)[0];
    assert ArchiveName(k', seed')[0] == Prefix(k')[0];
    assert k == k';
    Inner(Prefix(k), Numeral(seed, 16), Numeral(seed', 16), Suffix(k));
    NumeralInjective(seed, seed', 16);
  }
}
