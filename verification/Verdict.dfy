/** One case through the lanes and into the triage (the body of run_worker's loop in src/main.cpp):
    what a filing says about seven and the processor.
 */
module Verdict {
  import opened Types
  import opened Comparator
  import opened Triage
  import opened DebugLoop
  import opened HardwareX87
  import opened HardwareSession
  import opened JitCache

  /** What seven reports when it runs from this memory and these registers. */
  type Engine = (Pages, RegState) -> LaneOutcome

  function MasksOf(tc: TestCase): Masks {
    Masks(tc.flagsMask, tc.gprCompareMask, X87_STATUS_MASK)
  }

  /** seven's lane always captures x87, and reports a failure only if its set-up failed. */
  function SevenOutcome(engine: Engine, setupOk: bool, pages: Pages, tc: TestCase): LaneOutcome {
    if setupOk then engine(pages, tc.initial).(setupOk := true, capturesX87 := true) else FAILED
  }

  /** What seven is meant to report: a function of the test case alone. */
  function SevenOn(engine: Engine, tc: TestCase): LaneOutcome {
    SevenOutcome(engine, true, StartPages(tc), tc)
  }

  /** The memory seven runs from is the memory the victim is meant to start from, and the registers are
      the same; the flags differ by TF and IF. */
  lemma LanesStartFromTheSameMemory(tc: TestCase)
    ensures var v := Prepared(tc, Prior(BLANK, 0), ALL_WRITTEN);
      && v.pages == StartPages(tc)
      && v.regs.gpr == tc.initial.gpr && v.regs.xmmLo == tc.initial.xmmLo && v.regs.xmmHi == tc.initial.xmmHi
      && (Canonical(tc.initial.x87) ==> ReadBack(v.regs.x87) == tc.initial.x87)
  {
    StartIsPrepared(tc);
    RoundTripIffCanonical(tc.initial.x87);
  }

  /** Both were set up, and they differ in something the test case asks to compare. */
  predicate Differ(a: LaneOutcome, b: LaneOutcome, tc: TestCase) {
    a.setupOk && b.setupOk && !SameInBits(a, b, tc.flagsMask, tc.gprCompareMask)
  }

  lemma DifferIffDiverges(a: LaneOutcome, b: LaneOutcome, tc: TestCase)
    ensures Differ(a, b, tc) <==> Diverges(a, b, MasksOf(tc))
  {
    AgreeInBits(a, b, MasksOf(tc));
  }

  /** What is filed, and which pairs are recorded, in terms of what the test case asks to compare. */
  predicate FiledAsCompared(filed: Filing, s: LaneOutcome, h: LaneOutcome, u: LaneOutcome, tc: TestCase) {
    var su, sh, uh := Differ(s, u, tc), Differ(s, h, tc), Differ(u, h, tc);
    && (filed.Finding? <==> if h.setupOk then sh else su)
    && (filed.Outlier? <==> h.setupOk && !sh && (su || uh))
    && (filed.Finding? ==> Pairings(filed.list) == NamedIf(su, SEVEN_VS_UNICORN) + NamedIf(sh, SEVEN_VS_HW) + NamedIf(uh, UNICORN_VS_HW))
    && (filed.Outlier? ==> Pairings(filed.list) == NamedIf(su, SEVEN_VS_UNICORN) + NamedIf(uh, UNICORN_VS_HW))
  }

  lemma FilingOfCompares(s: LaneOutcome, h: LaneOutcome, u: LaneOutcome, tc: TestCase)
    requires h.setupOk ==> s.setupOk
    ensures FiledAsCompared(FilingOf(s, u, h, h.setupOk, MasksOf(tc)), s, h, u, tc)
  {
    DifferIffDiverges(s, u, tc);
    DifferIffDiverges(s, h, tc);
    DifferIffDiverges(u, h, tc);
    FilingRecordsPairs(s, u, h, h.setupOk, MasksOf(tc));
  }

  /** A filing is what seven and this processor outcome call for, against Unicorn. */
  predicate FiledFor(filed: Filing, s: LaneOutcome, truth: LaneOutcome, u: LaneOutcome, tc: TestCase) {
    && (filed.Finding? <==> Differ(s, truth, tc))
    && (filed.Outlier? <==> !Differ(s, truth, tc) && Differ(s, u, tc) && Differ(u, truth, tc))
  }

  /** One turn of the loop with the JIT engine. Hardware never runs without seven, so an outlier always
      records two disagreements. Unless Windows refused a call, the case is filed by what seven makes
      of the memory and registers the case asks for, against what the processor makes of them over
      whatever earlier cases left: a finding if and only if the two differ, and an outlier if and only
      if they agree and Unicorn differs from both. For a self-contained case what earlier cases left
      does not enter into it. */
  method RunCase(tc: TestCase, engine: Engine, jit: JitExecutor, memory: Memory, hw: Session, u: LaneOutcome)
      returns (filed: Filing, s: LaneOutcome, h: LaneOutcome, ghost t: Trace)
    requires Paired(jit, memory) && hw.Valid() && (hw.ready || NoStorm(hw.os.replies)) && !u.capturesX87
    modifies jit, memory, hw, hw.os
    ensures Paired(jit, memory) && hw.Valid()
    ensures filed == FilingOf(s, u, h, h.setupOk, MasksOf(tc)) && FiledAsCompared(filed, s, h, u, tc)
    ensures h.setupOk ==> s.setupOk
    ensures s.setupOk == SetsUp(tc) && (s.setupOk ==> s == SevenOn(engine, tc))
    ensures filed.Outlier? ==> h.setupOk && |filed.list| == 2
    ensures old(hw.ready) ==> t.prior == old(hw.Carried())
    ensures h.setupOk && !hw.os.Refused(old(hw.os.asked)) ==>
      FiledFor(filed, s, OutcomeOf(hw.os.cpu(Prepared(tc, t.prior, ALL_WRITTEN))), u, tc)
    ensures h.setupOk && !hw.os.Refused(old(hw.os.asked)) && SelfContained(hw.os.cpu, tc) ==>
      FiledFor(filed, s, OutcomeOf(hw.os.cpu(StartOf(tc))), u, tc)
  {
    var setupOk, pages := RunSevenJit(tc, jit, memory);
    s := SevenOutcome(engine, setupOk, pages, tc);
    h, t := hw.RunOne(tc);
    CompleteIsTruth(tc, hw.os.cpu, t);
    filed := TriageCase(s, u, h, h.setupOk, MasksOf(tc));
    if filed.Outlier? { OutlierPairsIffSevenRan(s, u, h, MasksOf(tc)); }
    if h.setupOk && h.capturesX87 { TriageSound(s, u, h, MasksOf(tc)); }
    FilingOfCompares(s, h, u, tc);
    DifferIffDiverges(s, h, tc);
    DifferIffDiverges(s, u, tc);
    DifferIffDiverges(u, h, tc);
  }

  // ---------------------------------------------------------------- when the read-back is refused

  /** A reported outcome agrees with the processor on every compared field, whatever the step did, if
      and only if both reads succeeded. Neither failure is reported. */
  lemma ReadBackTrustedIff(t: Trace)
    ensures (forall e: Effect, m: Masks :: Agree(Observed(e, t), OutcomeOf(e), m)) <==> t.gotContext && t.gotData
  {
    var m := Masks(0, 0, 0);
    if !t.gotContext {
      var e := SomeStep(1, BLANK);
      assert !Agree(Observed(e, t), OutcomeOf(e), m);
    } else if !t.gotData {
      var e := SomeStep(0, BLANK.(data := Overlay(Zeros(PAGE_SIZE), 0, [1])));
      assert OutcomeOf(e).after.dataAfter[0] == 1;
      assert !Agree(Observed(e, t), OutcomeOf(e), m);
    }
  }

  function SomeStep(rip: u64, pages: Pages): Effect {
    Effect(SingleStep,
           Registers(SIXTEEN_ZEROS, SIXTEEN_ZEROS, SIXTEEN_ZEROS, ImageOf(DEFAULT_X87), rip, 0, 0), pages)
  }

  /** The failing case: the context read is refused after a clean step, and seven did exactly what the
      processor did. It is filed as a finding against seven. */
  lemma RefusedReadIsAFinding(e: Effect, t: Trace, u: LaneOutcome, m: Masks)
    requires !t.gotContext && e.exception == SingleStep && e.regs.rip != 0
    ensures FilingOf(OutcomeOf(e), u, Observed(e, t), true, m).Finding?
  {
  }
}
