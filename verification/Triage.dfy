/** The triage of one test case in run_worker (src/main.cpp): finding, Unicorn-only outlier, or
    clean.
 */
module Triage {
  import opened Types
  import opened Comparator

  datatype Filing = Finding(list: seq<Divergence>) | Outlier(list: seq<Divergence>) | Clean

  const SEVEN_VS_UNICORN := "seven-vs-unicorn"
  const SEVEN_VS_HW := "seven-vs-hw"
  const UNICORN_VS_HW := "unicorn-vs-hw"

  /** What each case is filed as. hwOk is false when the hardware lane is off or its setup failed this
      round. */
  function FilingOf(s: LaneOutcome, u: LaneOutcome, h: LaneOutcome, hwOk: bool, m: Masks): Filing {
    var sevenVsUnicorn := Report(SEVEN_VS_UNICORN, s, u, m);
    var sevenVsHw := if hwOk then Report(SEVEN_VS_HW, s, h, m) else [];
    var unicornVsHw := if hwOk then Report(UNICORN_VS_HW, u, h, m) else [];
    if sevenVsUnicorn + sevenVsHw + unicornVsHw == [] then Clean
    else if hwOk && sevenVsHw == [] then Outlier(sevenVsUnicorn + unicornVsHw)
    else Finding(sevenVsUnicorn + sevenVsHw + unicornVsHw)
  }

  method TriageCase(s: LaneOutcome, u: LaneOutcome, h: LaneOutcome, hwOk: bool, m: Masks)
    returns (filed: Filing)
    ensures filed == FilingOf(s, u, h, hwOk, m)
  {
    var sevenVsHw: seq<Divergence>, unicornVsHw: seq<Divergence> := [], [];
    var sevenVsUnicorn := DiffPair(SEVEN_VS_UNICORN, s, u, m, []);
    if hwOk {
      sevenVsHw := DiffPair(SEVEN_VS_HW, s, h, m, sevenVsHw);
      unicornVsHw := DiffPair(UNICORN_VS_HW, u, h, m, unicornVsHw);
    }
    assert sevenVsUnicorn == Report(SEVEN_VS_UNICORN, s, u, m);
    assert hwOk ==> sevenVsHw == Report(SEVEN_VS_HW, s, h, m);
    assert hwOk ==> unicornVsHw == Report(UNICORN_VS_HW, u, h, m);
    if hwOk && sevenVsHw == [] && (sevenVsUnicorn != [] || unicornVsHw != []) {
      return Outlier(sevenVsUnicorn + unicornVsHw);
    }
    var divergences := sevenVsUnicorn;
    divergences := divergences + sevenVsHw;
    divergences := divergences + unicornVsHw;
    filed := if divergences != [] then Finding(divergences) else Clean;
  }

  // ---------------------------------------------------------------- what is recorded

  function Pairings(list: seq<Divergence>): seq<string> {
    seq(|list|, k requires 0 <= k < |list| => list[k].pairing)
  }

  function NamedIf(c: bool, pairing: string): seq<string> {
    if c then [pairing] else []
  }

  /** A filing records exactly the pairs that diverge, in order; an outlier leaves out seven against
      hardware, which agree. */
  lemma FilingRecordsPairs(s: LaneOutcome, u: LaneOutcome, h: LaneOutcome, hwOk: bool, m: Masks)
    ensures var filed := FilingOf(s, u, h, hwOk, m);
      filed.Clean? || Pairings(filed.list) ==
        NamedIf(Diverges(s, u, m), SEVEN_VS_UNICORN) + NamedIf(hwOk && Diverges(s, h, m), SEVEN_VS_HW)
        + NamedIf(hwOk && Diverges(u, h, m), UNICORN_VS_HW)
  {
  }

  /** Each pair with the lines of its own two outcomes. */
  lemma FilingRecordsLines(s: LaneOutcome, u: LaneOutcome, h: LaneOutcome, hwOk: bool, m: Masks, d: Divergence)
    requires !FilingOf(s, u, h, hwOk, m).Clean? && d in FilingOf(s, u, h, hwOk, m).list
    ensures d == Divergence(SEVEN_VS_UNICORN, DiffLines(s, u, m)) || d == Divergence(SEVEN_VS_HW, DiffLines(s, h, m))
         || d == Divergence(UNICORN_VS_HW, DiffLines(u, h, m))
  {
  }

  // ---------------------------------------------------------------- what the filing is worth

  /** With hardware up, seven set up, and both capturing x87 alike: an outlier is exactly a case
      where seven matches hardware and Unicorn differs from both, and carries both disagreements;
      a finding is exactly a case where seven differs from hardware. */
  lemma TriageSound(s: LaneOutcome, u: LaneOutcome, h: LaneOutcome, m: Masks)
    requires s.setupOk && h.setupOk && s.capturesX87 == h.capturesX87 && m.status == X87_STATUS_MASK
    ensures var filed := FilingOf(s, u, h, true, m);
      && (filed.Outlier? <==> !Diverges(s, h, m) && Diverges(s, u, m) && Diverges(u, h, m))
      && (filed.Outlier? ==> |filed.list| == 2)
      && (filed.Finding? <==> Diverges(s, h, m))
  {
    FullMaskCoversTop();
    if !Diverges(s, h, m) {
      AgreeingOutcomesInterchange(s, h, u, m);
      DivergesSymmetric(h, u, m);
    }
  }

  /** A disagreement between seven and hardware outside the x87 file always implicates Unicorn's
      answer on one side: it cannot agree with both. */
  lemma CoreFindingHasAThirdVoice(s: LaneOutcome, u: LaneOutcome, h: LaneOutcome, m: Masks)
    requires s.setupOk && u.setupOk && h.setupOk && !CoreAgree(s, h, m)
    ensures FilingOf(s, u, h, true, m).Finding? && |FilingOf(s, u, h, true, m).list| >= 2
    ensures Diverges(s, u, m) || Diverges(u, h, m)
  {
    if Agree(s, u, m) && Agree(u, h, m) { CoreAgreeTransitive(s, u, h, m); }
  }

  /** With Unicorn never capturing x87, an outlier lists two pairs exactly when seven was set up. */
  lemma OutlierPairsIffSevenRan(s: LaneOutcome, u: LaneOutcome, h: LaneOutcome, m: Masks)
    requires h.setupOk && !u.capturesX87 && FilingOf(s, u, h, true, m).Outlier?
    ensures |FilingOf(s, u, h, true, m).list| == 2 <==> s.setupOk
  {
    if s.setupOk {
      if !Diverges(s, u, m) { CoreAgreeThroughOutlier(u, s, h, m); }
      if !Diverges(u, h, m) { CoreAgreeThroughOutlier(u, h, s, m); }
    }
  }

  lemma CoreAgreeThroughOutlier(u: LaneOutcome, p: LaneOutcome, q: LaneOutcome, m: Masks)
    requires u.setupOk && p.setupOk && q.setupOk && !u.capturesX87
    requires !Diverges(p, q, m) || !Diverges(q, p, m)
    requires !Diverges(p, u, m) || !Diverges(u, p, m)
    ensures !Diverges(u, q, m) && !Diverges(q, u, m)
  {
    DivergesSymmetric(p, q, m);
    DivergesSymmetric(p, u, m);
    DivergesSymmetric(u, q, m);
    CoreAgreeTransitive(u, p, q, m);
  }

  // ---------------------------------------------------------------- an engine left out

  /** --no-seven puts a default outcome in seven's place, set up and never run, and it is compared all
      the same. A case is a finding exactly when hardware differs from that default outside x87, and
      otherwise an outlier exactly when Unicorn does. */
  lemma WithoutSeven(u: LaneOutcome, h: LaneOutcome, m: Masks)
    requires h.setupOk && !u.capturesX87
    ensures var filed := FilingOf(DEFAULT_OUTCOME, u, h, true, m);
      && (filed.Finding? <==> !CoreAgree(DEFAULT_OUTCOME, h, m))
      && (filed.Outlier? <==> CoreAgree(DEFAULT_OUTCOME, h, m) && u.setupOk && !CoreAgree(DEFAULT_OUTCOME, u, m))
  {
    if CoreAgree(DEFAULT_OUTCOME, h, m) {
      DivergesSymmetric(DEFAULT_OUTCOME, h, m);
      DivergesSymmetric(h, u, m);
      DivergesSymmetric(DEFAULT_OUTCOME, u, m);
      if CoreAgree(DEFAULT_OUTCOME, u, m) { CoreAgreeTransitive(h, DEFAULT_OUTCOME, u, m); }
    }
  }

  /** --no-unicorn does the same to Unicorn: where seven matches hardware, the case is an outlier
      exactly when hardware differs from the default outside x87. */
  lemma WithoutUnicorn(s: LaneOutcome, h: LaneOutcome, m: Masks)
    requires s.setupOk && h.setupOk && s.capturesX87 == h.capturesX87 && m.status == X87_STATUS_MASK
    ensures var filed := FilingOf(s, DEFAULT_OUTCOME, h, true, m);
      && (filed.Finding? <==> Diverges(s, h, m))
      && (filed.Outlier? <==> !Diverges(s, h, m) && !CoreAgree(DEFAULT_OUTCOME, h, m))
  {
    TriageSound(s, DEFAULT_OUTCOME, h, m);
    if !Diverges(s, h, m) {
      FullMaskCoversTop();
      AgreeingOutcomesInterchange(s, h, DEFAULT_OUTCOME, m);
      DivergesSymmetric(h, DEFAULT_OUTCOME, m);
    }
  }

  /** Either way no case is clean whose step faulted or retired elsewhere than at address zero. */
  lemma LeftOutEngineAlwaysFiled(s: LaneOutcome, u: LaneOutcome, h: LaneOutcome, m: Masks)
    requires h.setupOk && (h.stop != StopOk || h.after.rip != 0)
    ensures !FilingOf(DEFAULT_OUTCOME, u, h, true, m).Clean?
    ensures !FilingOf(s, DEFAULT_OUTCOME, h, true, m).Clean?
  {
    assert !CoreAgree(DEFAULT_OUTCOME, h, m);
    assert Diverges(DEFAULT_OUTCOME, h, m);
  }
}
