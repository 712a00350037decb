/** The comparator (diff_pair in src/main.cpp): which fields of two outcomes are compared, and when
    "reports nothing" may be used as if it were an equivalence.
 */
module Comparator {
  import opened Bits
  import opened Types
  import opened HardwareX87

  datatype Line =
    | StopLine(stopA: Stop, stopB: Stop)
    | GprLine(index: nat, gprA: u64, gprB: u64)
    | RipLine(ripA: u64, ripB: u64)
    | FlagsLine(flagsA: nat, flagsB: nat)
    | DataLine
    | ControlLine(cwA: u16, cwB: u16)
    | StatusLine(swA: nat, swB: nat)
    | TagLine(twA: u16, twB: u16)
    | StackLine(st: nat, expA: u16, sigA: u64, expB: u16, sigB: u64)

  datatype Divergence = Divergence(pairing: string, lines: seq<Line>)

  /** What a test case says about which bits to compare. */
  datatype Masks = Masks(flags: u64, gpr: u32, status: u16)

  // ---------------------------------------------------------------- agreement

  predicate GprAgree(a: RegState, b: RegState, mask: u32, i: nat)
    requires i < 16
  {
    Bit(mask, i) ==> a.gpr[i] == b.gpr[i]
  }

  predicate SlotAgree(a: X87State, b: X87State, i: nat)
    requires i < 8
  {
    TagOfSt(a, i) == EMPTY_TAG || TagOfSt(b, i) == EMPTY_TAG ||
    (a.signexp[i] == b.signexp[i] && a.signif[i] == b.signif[i])
  }

  predicate X87Agree(a: X87State, b: X87State, statusMask: u16) {
    && a.controlWord == b.controlWord
    && And(a.statusWord, statusMask) == And(b.statusWord, statusMask)
    && a.tagWord == b.tagWord
    && forall i :: 0 <= i < 8 ==> SlotAgree(a, b, i)
  }

  /** Agreement on everything compared outside the x87 file. */
  predicate CoreAgree(a: LaneOutcome, b: LaneOutcome, m: Masks) {
    && a.stop == b.stop
    && (a.stop == StopOk ==>
      && (forall i :: 0 <= i < 16 ==> GprAgree(a.after, b.after, m.gpr, i))
      && a.after.rip == b.after.rip
      && And(a.after.rflags, m.flags) == And(b.after.rflags, m.flags)
      && a.after.dataAfter == b.after.dataAfter)
  }

  predicate Agree(a: LaneOutcome, b: LaneOutcome, m: Masks) {
    && CoreAgree(a, b, m)
    && (a.stop == StopOk && a.capturesX87 && b.capturesX87 ==> X87Agree(a.after.x87, b.after.x87, m.status))
  }

  /** diff_pair reports something. */
  predicate Diverges(a: LaneOutcome, b: LaneOutcome, m: Masks) {
    a.setupOk && b.setupOk && !Agree(a, b, m)
  }

  // ---------------------------------------------------------------- the lines reported

  function When(c: bool, l: Line): seq<Line> {
    if c then [l] else []
  }

  function GprLines(a: RegState, b: RegState, mask: u32, n: nat): seq<Line>
    requires n <= 16
  {
    if n == 0 then []
    else GprLines(a, b, mask, n - 1)
         + When(!GprAgree(a, b, mask, n - 1), GprLine(n - 1, a.gpr[n - 1], b.gpr[n - 1]))
  }

  function StackLines(a: X87State, b: X87State, n: nat): seq<Line>
    requires n <= 8
  {
    if n == 0 then []
    else StackLines(a, b, n - 1)
         + When(!SlotAgree(a, b, n - 1),
                StackLine(n - 1, a.signexp[n - 1], a.signif[n - 1], b.signexp[n - 1], b.signif[n - 1]))
  }

  function X87Lines(a: X87State, b: X87State, statusMask: u16): seq<Line> {
    var sa, sb := And(a.statusWord, statusMask), And(b.statusWord, statusMask);
    When(a.controlWord != b.controlWord, ControlLine(a.controlWord, b.controlWord))
    + When(sa != sb, StatusLine(sa, sb))
    + When(a.tagWord != b.tagWord, TagLine(a.tagWord, b.tagWord))
    + StackLines(a, b, 8)
  }

  function CoreLines(a: RegState, b: RegState, m: Masks): seq<Line> {
    var fa, fb := And(a.rflags, m.flags), And(b.rflags, m.flags);
    GprLines(a, b, m.gpr, 16)
    + When(a.rip != b.rip, RipLine(a.rip, b.rip))
    + When(fa != fb, FlagsLine(fa, fb))
    + When(a.dataAfter != b.dataAfter, DataLine)
  }

  function StateLines(a: LaneOutcome, b: LaneOutcome, m: Masks): seq<Line> {
    CoreLines(a.after, b.after, m)
    + if a.capturesX87 && b.capturesX87 then X87Lines(a.after.x87, b.after.x87, m.status) else []
  }

  function DiffLines(a: LaneOutcome, b: LaneOutcome, m: Masks): seq<Line> {
    When(a.stop != b.stop, StopLine(a.stop, b.stop))
    + if a.stop == StopOk && b.stop == StopOk then StateLines(a, b, m) else []
  }

  function Report(pairing: string, a: LaneOutcome, b: LaneOutcome, m: Masks): (r: seq<Divergence>)
    ensures |r| == (if Diverges(a, b, m) then 1 else 0)
  {
    NoLinesIffAgree(a, b, m);
    if a.setupOk && b.setupOk && DiffLines(a, b, m) != [] then [Divergence(pairing, DiffLines(a, b, m))] else []
  }

  lemma EmptyStep(lines: seq<Line>, c: bool, l: Line)
    ensures lines + When(c, l) == [] <==> lines == [] && !c
  {
    assert |lines + When(c, l)| == |lines| + |When(c, l)|;
  }

  lemma {:induction false} NoGprLines(a: RegState, b: RegState, mask: u32, n: nat)
    requires n <= 16
    ensures GprLines(a, b, mask, n) == [] <==> forall i :: 0 <= i < n ==> GprAgree(a, b, mask, i)
  {
    if n != 0 { NoGprLines(a, b, mask, n - 1); }
  }

  lemma {:induction false} NoStackLines(a: X87State, b: X87State, n: nat)
    requires n <= 8
    ensures StackLines(a, b, n) == [] <==> forall i :: 0 <= i < n ==> SlotAgree(a, b, i)
  {
    if n != 0 {
      var i := n - 1;
      NoStackLines(a, b, i);
      EmptyStep(StackLines(a, b, i), !SlotAgree(a, b, i),
                StackLine(i, a.signexp[i], a.signif[i], b.signexp[i], b.signif[i]));
    }
  }

  /** The report is empty exactly when the two outcomes agree on every compared field. */
  lemma NoLinesIffAgree(a: LaneOutcome, b: LaneOutcome, m: Masks)
    ensures DiffLines(a, b, m) == [] <==> Agree(a, b, m)
  {
    NoGprLines(a.after, b.after, m.gpr, 16);
    NoStackLines(a.after.x87, b.after.x87, 8);
    assert X87Lines(a.after.x87, b.after.x87, m.status) == [] <==> X87Agree(a.after.x87, b.after.x87, m.status);
  }

  method DiffStack(xa: X87State, xb: X87State) returns (lines: seq<Line>)
    ensures lines == StackLines(xa, xb, 8)
  {
    lines := [];
    for i := 0 to 8
      invariant lines == StackLines(xa, xb, i)
    {
      if TagOfSt(xa, i) == EMPTY_TAG || TagOfSt(xb, i) == EMPTY_TAG { continue; }
      if xa.signexp[i] != xb.signexp[i] || xa.signif[i] != xb.signif[i] {
        lines := lines + [StackLine(i, xa.signexp[i], xa.signif[i], xb.signexp[i], xb.signif[i])];
      }
    }
  }

  method DiffGprs(a: RegState, b: RegState, mask: u32) returns (lines: seq<Line>)
    ensures lines == GprLines(a, b, mask, 16)
  {
    lines := [];
    for i := 0 to 16
      invariant lines == GprLines(a, b, mask, i)
    {
      if Shr(mask, i) % 2 == 0 { continue; }
      if a.gpr[i] != b.gpr[i] {
        lines := lines + [GprLine(i, a.gpr[i], b.gpr[i])];
      }
    }
  }

  method DiffX87(xa: X87State, xb: X87State, statusMask: u16) returns (lines: seq<Line>)
    ensures lines == X87Lines(xa, xb, statusMask)
  {
    lines := [];
    if xa.controlWord != xb.controlWord { lines := [ControlLine(xa.controlWord, xb.controlWord)]; }
    var sa, sb := And(xa.statusWord, statusMask), And(xb.statusWord, statusMask);
    if sa != sb { lines := lines + [StatusLine(sa, sb)]; }
    if xa.tagWord != xb.tagWord { lines := lines + [TagLine(xa.tagWord, xb.tagWord)]; }
    var slots := DiffStack(xa, xb);
    lines := lines + slots;
  }

  method DiffCore(a: RegState, b: RegState, m: Masks) returns (lines: seq<Line>)
    ensures lines == CoreLines(a, b, m)
  {
    lines := DiffGprs(a, b, m.gpr);
    if a.rip != b.rip { lines := lines + [RipLine(a.rip, b.rip)]; }
    var fa, fb := And(a.rflags, m.flags), And(b.rflags, m.flags);
    if fa != fb { lines := lines + [FlagsLine(fa, fb)]; }
    if a.dataAfter != b.dataAfter { lines := lines + [DataLine]; }
  }

  method DiffState(a: LaneOutcome, b: LaneOutcome, m: Masks) returns (lines: seq<Line>)
    ensures lines == StateLines(a, b, m)
  {
    lines := DiffCore(a.after, b.after, m);
    if a.capturesX87 && b.capturesX87 {
      var x87 := DiffX87(a.after.x87, b.after.x87, m.status);
      lines := lines + x87;
    }
  }

  method DiffPair(pairing: string, a: LaneOutcome, b: LaneOutcome, m: Masks, before: seq<Divergence>)
    returns (out: seq<Divergence>)
    ensures out == before + Report(pairing, a, b, m)
  {
    out := before;
    if !a.setupOk || !b.setupOk { return; }
    var lines: seq<Line> := [];
    if a.stop != b.stop { lines := lines + [StopLine(a.stop, b.stop)]; }
    if a.stop == StopOk && b.stop == StopOk {
      var state := DiffState(a, b, m);
      lines := lines + state;
    }
    assert lines == DiffLines(a, b, m);
    if lines != [] { out := out + [Divergence(pairing, lines)]; }
  }

  // ---------------------------------------------------------------- what is compared, bit by bit

  predicate SameFlags(a: nat, b: nat, mask: u64) {
    forall i :: 0 <= i < 64 && Bit(mask, i) ==> (Bit(a, i) <==> Bit(b, i))
  }

  predicate EmptyInBits(x: X87State, i: nat) {
    TagInBits(x.tagWord, StackRegister(x.statusWord, i)) == EMPTY_TAG
  }

  /** Control, status and tag word, and every register of the stack that is in use on both sides. */
  predicate SameX87(a: X87State, b: X87State) {
    && a.controlWord == b.controlWord && a.statusWord == b.statusWord && a.tagWord == b.tagWord
    && forall i :: 0 <= i < 8 && !EmptyInBits(a, i) && !EmptyInBits(b, i) ==>
         a.signexp[i] == b.signexp[i] && a.signif[i] == b.signif[i]
  }

  /** Two outcomes are the same as far as these masks ask: the stop, and after a clean step RIP, the data
      window, every GPR and every flag the masks name, and x87 if both captured it. */
  predicate SameInBits(a: LaneOutcome, b: LaneOutcome, flags: u64, gpr: u32) {
    && a.stop == b.stop
    && (a.stop == StopOk ==>
      && a.after.rip == b.after.rip && a.after.dataAfter == b.after.dataAfter
      && (forall i :: 0 <= i < 16 && Bit(gpr, i) ==> a.after.gpr[i] == b.after.gpr[i])
      && SameFlags(a.after.rflags, b.after.rflags, flags)
      && (a.capturesX87 && b.capturesX87 ==> SameX87(a.after.x87, b.after.x87)))
  }

  lemma FullStatusMask(a: u16, b: u16)
    ensures And(a, X87_STATUS_MASK) == And(b, X87_STATUS_MASK) <==> a == b
  {
    SixteenBits();
    OnesBelowPow2(16);
    SameUnderMask(a, b, X87_STATUS_MASK, 16);
    forall i | 0 <= i < 16 ensures Bit(X87_STATUS_MASK, i) { BitOfOnes(16, i); }
    if forall i :: 0 <= i < 16 ==> (Bit(a, i) <==> Bit(b, i)) { SameBits(a, b, 16); }
  }

  lemma EmptyIffEmpty(x: X87State, i: nat)
    requires i < 8
    ensures TagOfSt(x, i) == EMPTY_TAG <==> EmptyInBits(x, i)
  {
    RegisterIsPhysical(x.statusWord, i);
    FieldBits(x.tagWord, PhysOf(TopOf(x.statusWord), i));
  }

  lemma X87AgreeInBits(a: X87State, b: X87State)
    ensures X87Agree(a, b, X87_STATUS_MASK) <==> SameX87(a, b)
  {
    FullStatusMask(a.statusWord, b.statusWord);
    forall i | 0 <= i < 8
      ensures SlotAgree(a, b, i) <==>
              (!EmptyInBits(a, i) && !EmptyInBits(b, i) ==> a.signexp[i] == b.signexp[i] && a.signif[i] == b.signif[i])
    {
      EmptyIffEmpty(a, i);
      EmptyIffEmpty(b, i);
    }
  }

  /** With the status mask in use the comparison is exactly that. */
  lemma AgreeInBits(a: LaneOutcome, b: LaneOutcome, m: Masks)
    requires m.status == X87_STATUS_MASK
    ensures Agree(a, b, m) <==> SameInBits(a, b, m.flags, m.gpr)
  {
    SixtyFourBits();
    SameUnderMask(a.after.rflags, b.after.rflags, m.flags, 64);
    X87AgreeInBits(a.after.x87, b.after.x87);
    assert forall i :: 0 <= i < 16 ==>
      (GprAgree(a.after, b.after, m.gpr, i) <==> (Bit(m.gpr, i) ==> a.after.gpr[i] == b.after.gpr[i]));
  }

  // ---------------------------------------------------------------- which lines are reported

  predicate CountsInX87(x: X87State, y: X87State, mask: u16, l: Line) {
    match l
    case ControlLine(v, w) => v == x.controlWord && w == y.controlWord && v != w
    case StatusLine(v, w) => v == And(x.statusWord, mask) && w == And(y.statusWord, mask) && v != w
    case TagLine(v, w) => v == x.tagWord && w == y.tagWord && v != w
    case StackLine(i, ea, sa, eb, sb) =>
      && i < 8 && TagOfSt(x, i) != EMPTY_TAG && TagOfSt(y, i) != EMPTY_TAG
      && ea == x.signexp[i] && sa == x.signif[i] && eb == y.signexp[i] && sb == y.signif[i] && (ea, sa) != (eb, sb)
    case _ => false
  }

  predicate CountsInCore(a: RegState, b: RegState, m: Masks, l: Line) {
    match l
    case GprLine(i, v, w) => i < 16 && Bit(m.gpr, i) && v == a.gpr[i] && w == b.gpr[i] && v != w
    case RipLine(v, w) => v == a.rip && w == b.rip && v != w
    case FlagsLine(v, w) => v == And(a.rflags, m.flags) && w == And(b.rflags, m.flags) && v != w
    case DataLine => a.dataAfter != b.dataAfter
    case _ => false
  }

  /** A line stands in the report exactly if it names a difference that counts, with both values. */
  predicate Counts(a: LaneOutcome, b: LaneOutcome, m: Masks, l: Line) {
    || (a.stop != b.stop && l == StopLine(a.stop, b.stop))
    || (a.stop == b.stop == StopOk && CountsInCore(a.after, b.after, m, l))
    || (a.stop == b.stop == StopOk && a.capturesX87 && b.capturesX87
        && CountsInX87(a.after.x87, b.after.x87, m.status, l))
  }

  lemma {:induction false} GprLineIff(a: RegState, b: RegState, mask: u32, n: nat, l: Line)
    requires n <= 16
    ensures l in GprLines(a, b, mask, n) <==>
      l.GprLine? && l.index < n && !GprAgree(a, b, mask, l.index) && l == GprLine(l.index, a.gpr[l.index], b.gpr[l.index])
  {
    if n != 0 { GprLineIff(a, b, mask, n - 1, l); }
  }

  lemma {:induction false} StackLineIff(a: X87State, b: X87State, n: nat, l: Line)
    requires n <= 8
    ensures l in StackLines(a, b, n) <==>
      l.StackLine? && l.st < n && !SlotAgree(a, b, l.st) &&
      l == StackLine(l.st, a.signexp[l.st], a.signif[l.st], b.signexp[l.st], b.signif[l.st])
  {
    if n != 0 { StackLineIff(a, b, n - 1, l); }
  }

  lemma X87LineIff(a: X87State, b: X87State, mask: u16, l: Line)
    ensures l in X87Lines(a, b, mask) <==> CountsInX87(a, b, mask, l)
  {
    StackLineIff(a, b, 8, l);
  }

  lemma CoreLineIff(a: RegState, b: RegState, m: Masks, l: Line)
    ensures l in CoreLines(a, b, m) <==> CountsInCore(a, b, m, l)
  {
    GprLineIff(a, b, m.gpr, 16, l);
  }

  lemma LineReportedIff(a: LaneOutcome, b: LaneOutcome, m: Masks, l: Line)
    ensures l in DiffLines(a, b, m) <==> Counts(a, b, m, l)
  {
    CoreLineIff(a.after, b.after, m, l);
    X87LineIff(a.after.x87, b.after.x87, m.status, l);
  }

  // ---------------------------------------------------------------- when agreement is a congruence

  lemma DivergesSymmetric(a: LaneOutcome, b: LaneOutcome, m: Masks)
    ensures Diverges(a, b, m) <==> Diverges(b, a, m)
    ensures CoreAgree(a, b, m) <==> CoreAgree(b, a, m)
  {
    assert forall i :: 0 <= i < 16 ==> (GprAgree(a.after, b.after, m.gpr, i) <==> GprAgree(b.after, a.after, m.gpr, i));
    assert forall i :: 0 <= i < 8 ==> (SlotAgree(a.after.x87, b.after.x87, i) <==> SlotAgree(b.after.x87, a.after.x87, i));
  }

  lemma CoreAgreeTransitive(a: LaneOutcome, b: LaneOutcome, c: LaneOutcome, m: Masks)
    requires CoreAgree(a, b, m) && CoreAgree(b, c, m)
    ensures CoreAgree(a, c, m)
  {
    if a.stop == StopOk {
      forall i | 0 <= i < 16 ensures GprAgree(a.after, c.after, m.gpr, i) {
        assert GprAgree(a.after, b.after, m.gpr, i) && GprAgree(b.after, c.after, m.gpr, i);
      }
    }
  }

  /** The status mask keeps the three TOP bits. */
  predicate CoversTop(statusMask: u16) {
    Bit(statusMask, 11) && Bit(statusMask, 12) && Bit(statusMask, 13)
  }

  lemma MaskedTop(swA: u16, swB: u16, mask: u16)
    requires CoversTop(mask) && And(swA, mask) == And(swB, mask)
    ensures TopOf(swA) == TopOf(swB)
  {
    TopBits(swA);
    TopBits(swB);
    BitAnd(swA, mask, 11);
    BitAnd(swA, mask, 12);
    BitAnd(swA, mask, 13);
    BitAnd(swB, mask, 11);
    BitAnd(swB, mask, 12);
    BitAnd(swB, mask, 13);
  }

  lemma X87AgreeTransitive(a: X87State, b: X87State, c: X87State, mask: u16)
    requires CoversTop(mask) && X87Agree(a, b, mask) && X87Agree(b, c, mask)
    ensures X87Agree(a, c, mask)
  {
    MaskedTop(a.statusWord, b.statusWord, mask);
    MaskedTop(b.statusWord, c.statusWord, mask);
    forall i | 0 <= i < 8 ensures SlotAgree(a, c, i) {
      assert SlotAgree(a, b, i) && SlotAgree(b, c, i);
    }
  }

  /** An outcome may be replaced by one it agrees with. */
  lemma AgreeingOutcomesInterchange(a: LaneOutcome, c: LaneOutcome, b: LaneOutcome, m: Masks)
    requires a.setupOk && c.setupOk && a.capturesX87 == c.capturesX87
    requires a.capturesX87 ==> CoversTop(m.status)
    requires !Diverges(a, c, m)
    ensures Diverges(a, b, m) <==> Diverges(c, b, m)
  {
    DivergesSymmetric(a, c, m);
    if Agree(c, b, m) { AgreeThrough(a, c, b, m); }
    if Agree(a, b, m) { AgreeThrough(c, a, b, m); }
  }

  lemma AgreeThrough(a: LaneOutcome, c: LaneOutcome, b: LaneOutcome, m: Masks)
    requires a.capturesX87 == c.capturesX87 && (a.capturesX87 ==> CoversTop(m.status))
    requires Agree(a, c, m) && Agree(c, b, m)
    ensures Agree(a, b, m)
  {
    CoreAgreeTransitive(a, c, b, m);
    if a.stop == StopOk && a.capturesX87 && b.capturesX87 {
      X87AgreeTransitive(a.after.x87, c.after.x87, b.after.x87, m.status);
    }
  }

  /** With this status mask, outcomes capturing x87 as (captureA, captureC) say may always be
      interchanged once they agree. */
  ghost predicate Interchangeable(statusMask: u16, captureA: bool, captureC: bool) {
    forall a: LaneOutcome, c: LaneOutcome, b: LaneOutcome, m: Masks |
      a.setupOk && c.setupOk && a.capturesX87 == captureA && c.capturesX87 == captureC
      && m.status == statusMask && !Diverges(a, c, m) ::
      Diverges(a, b, m) <==> Diverges(c, b, m)
  }

  /** Exactly when the comparator is a congruence: both lanes capture x87, or neither does, and in
      the first case the status mask must keep TOP. */
  lemma InterchangeableIff(statusMask: u16, captureA: bool, captureC: bool)
    ensures Interchangeable(statusMask, captureA, captureC) <==>
            captureA == captureC && (captureA ==> CoversTop(statusMask))
  {
    var m := Masks(0, 0, statusMask);
    if captureA != captureC {
      CaptureMismatchBreaks(m, captureA);
    } else if captureA && !CoversTop(statusMask) {
      LosingTopBreaks(m);
    } else {
      forall a: LaneOutcome, c: LaneOutcome, b: LaneOutcome, m: Masks |
        a.setupOk && c.setupOk && a.capturesX87 == captureA && c.capturesX87 == captureC
        && m.status == statusMask && !Diverges(a, c, m)
        ensures Diverges(a, b, m) <==> Diverges(c, b, m)
      {
        AgreeingOutcomesInterchange(a, c, b, m);
      }
    }
  }

  function WithX87(x: X87State, captures: bool): LaneOutcome {
    LaneOutcome(true, StopOk, DEFAULT_REGS.(x87 := x), captures)
  }

  /** The shape of seven, Unicorn and hardware: only two of them capture x87. */
  lemma CaptureMismatchBreaks(m: Masks, captureA: bool)
    ensures !Interchangeable(m.status, captureA, !captureA)
  {
    var a, c := WithX87(DEFAULT_X87, captureA), WithX87(DEFAULT_X87, !captureA);
    var b := WithX87(DEFAULT_X87.(controlWord := 0), true);
    assert !X87Agree(DEFAULT_X87, DEFAULT_X87.(controlWord := 0), m.status);
    assert Agree(a, c, m);
    assert Diverges(a, b, m) != Diverges(c, b, m);
  }

  function R0Tags(n: nat): (tags: seq<nat>)
    ensures |tags| == n && Fields(tags, 2)
  {
    seq(n, p => if p == 0 then 0 else EMPTY_TAG)
  }

  /** One live physical register, R0, seen through a given TOP. */
  function OnlyR0(statusWord: u16, signif0: u64): X87State {
    DEFAULT_X87.(statusWord := statusWord, tagWord := PackTags(R0Tags(8)),
                 signif := DEFAULT_X87.signif[0 := signif0])
  }

  lemma TagOfOnlyR0(statusWord: u16, signif0: u64, phys: nat)
    requires phys < 8
    ensures TagAt(OnlyR0(statusWord, signif0).tagWord, phys) == if phys == 0 then 0 else EMPTY_TAG
  {
    FieldOfPack(R0Tags(8), phys, 2);
  }

  lemma LiveSlotOfOnlyR0(statusWord: u16, signif0: u64, i: nat)
    requires i < 8
    ensures TagOfSt(OnlyR0(statusWord, signif0), i) == EMPTY_TAG <==> PhysOf(TopOf(statusWord), i) != 0
  {
    TagOfOnlyR0(statusWord, signif0, PhysOf(TopOf(statusWord), i));
  }

  lemma MissingBit(statusMask: u16, k: nat)
    requires 11 <= k <= 13 && !Bit(statusMask, k)
    ensures Pow2(k) < 0x1_0000 && And(Pow2(k), statusMask) == 0 && TopOf(Pow2(k)) != 0
  {
    SixteenBits();
    ShlShl(1, 8, k - 8);
    assert Shl(256, k - 8) == Pow2(k);
    assert Shl(256, 3) == 2048 && Shl(256, 4) == 4096 && Shl(256, 5) == 8192;
    TopBits(Pow2(k));
    BitShl(1, k, k);
    forall i | 0 <= i < 16 ensures Bit(And(Pow2(k), statusMask), i) <==> Bit(0, i) {
      BitAnd(Pow2(k), statusMask, i);
      BitShl(1, k, i);
      ShrZero(i);
      if i > k { BitOfLarge(1, 1, i - k); }
    }
    SameBits(And(Pow2(k), statusMask), 0, 16);
  }

  /** Without one TOP bit, states with R0 under different tops look alike and hide R0. */
  lemma HiddenR0(k: nat)
    requires 11 <= k <= 13 && Pow2(k) < 0x1_0000 && TopOf(Pow2(k)) != 0
    ensures forall i, s :: 0 <= i < 8 && 0 <= s <= 1 ==> SlotAgree(OnlyR0(Pow2(k), 0), OnlyR0(0, s), i)
    ensures forall i, s :: 0 <= i < 8 && 0 <= s <= 1 ==> SlotAgree(OnlyR0(0, s), OnlyR0(Pow2(k), 0), i)
    ensures !SlotAgree(OnlyR0(0, 0), OnlyR0(0, 1), 0)
  {
    assert TopOf(0) == 0 by { ShrZero(11); }
    forall i, s | 0 <= i < 8 && 0 <= s <= 1
      ensures SlotAgree(OnlyR0(Pow2(k), 0), OnlyR0(0, s), i)
      ensures SlotAgree(OnlyR0(0, s), OnlyR0(Pow2(k), 0), i)
    {
      LiveSlotOfOnlyR0(0, s, i);
      LiveSlotOfOnlyR0(Pow2(k), 0, i);
    }
    LiveSlotOfOnlyR0(0, 0, 0);
    LiveSlotOfOnlyR0(0, 1, 0);
  }

  lemma LosingTopBreaks(m: Masks)
    requires !CoversTop(m.status)
    ensures !Interchangeable(m.status, true, true)
  {
    var k := if !Bit(m.status, 11) then 11 else if !Bit(m.status, 12) then 12 else 13;
    MissingBit(m.status, k);
    HiddenR0(k);
    var xa, xb, xc := OnlyR0(0, 0), OnlyR0(0, 1), OnlyR0(Pow2(k), 0);
    OnlyR0Diverges(xa, xb, xc, m);
  }

  lemma OnlyR0Diverges(xa: X87State, xb: X87State, xc: X87State, m: Masks)
    requires X87Agree(xa, xc, m.status) && X87Agree(xc, xb, m.status) && !X87Agree(xa, xb, m.status)
    ensures !Interchangeable(m.status, true, true)
  {
    var a, b, c := WithX87(xa, true), WithX87(xb, true), WithX87(xc, true);
    assert Agree(a, c, m) && Agree(c, b, m);
    assert Diverges(a, b, m) && !Diverges(c, b, m);
  }

  /** The mask the comparator uses keeps every bit. */
  lemma FullMaskCoversTop()
    ensures CoversTop(X87_STATUS_MASK)
  {
    assert Ones(8) == 255;
    assert Ones(16) == 65535;
    forall k | 11 <= k <= 13 ensures Bit(X87_STATUS_MASK, k) {
      BitOnesMinus(16, 0, k);
      ShrZero(k);
    }
  }
}
