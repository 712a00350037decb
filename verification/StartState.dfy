/** Generator and lanes together: what the lanes make of the start state of a generated case. */
module StartState {
  import opened Bits
  import opened Types
  import opened HardwareX87
  import opened SevenLane
  import opened Generator
  import X87Start
  import HardwareSession

  lemma EmptyStackIsCanonical()
    ensures Canonical(DEFAULT_X87)
  {
    forall p: nat | p < 8 ensures TagAt(DEFAULT_X87.tagWord, p) == EMPTY_TAG { X87Start.EveryTagEmpty(p); }
  }

  /** For every generated case, seven's rotated register file and the victim's FXSAVE image denote the
      one x87 state the generator chose. */
  lemma GeneratedCasesStartAlike(tc: TestCase, o: Origin)
    requires Produced(tc, o)
    ensures StateOf(FileOf(tc.initial.x87)) == tc.initial.x87
    ensures ReadBack(ImageOf(tc.initial.x87)) == tc.initial.x87
  {
    EmptyStackIsCanonical();
    SevenRoundTrip(tc.initial.x87);
    RoundTripIffCanonical(tc.initial.x87);
  }

  lemma FallbackFlags(k: nat)
    ensures Bit(0x202, k) <==> k == 1 || k == 9
  {
    InterruptFlag();
    FlagsStart();
    Doubled(0);
    OrBound(0x2, 0x200, 16);
    assert Or(0x2, 0x200) == 0x202;
    BitOr(0x2, 0x200, k);
    BitOfPow2(1, k);
    BitOfPow2(9, k);
  }

  /** The victim starts with the generated flags, except that TF replaces IF. */
  lemma GeneratedFlagsReachHardware(tc: TestCase, o: Origin, k: nat)
    requires Produced(tc, o) && k < 32
    ensures Bit(HardwareSession.EflagsOf(tc.initial.rflags), k) <==> k == 8 || (k != 9 && Bit(tc.initial.rflags, k))
  {
    HardwareSession.StartFlags(tc.initial.rflags, k);
    HardwareSession.ComparedFlags(k);
    if o.Fallback? { FallbackFlags(k); }
  }
}
