/** Unknown evidence never raises autonomy: measuring a missing observation fails no gate that passed and never
    lowers the level. */
module AutonomyMonotone {
  import opened Contracts
  import opened Scoring
  import opened Autonomy

  /** `more` differs from `less` only in debt or remediation observations `less` was missing. */
  ghost predicate Measures(less: Evidence, more: Evidence) {
    && more == less.(debt := more.debt, remediation := more.remediation)
    && Refines(less.debt, more.debt)
    && (less.remediation.Some? ==>
          more.remediation.Some? && Refines(less.remediation.value, more.remediation.value))
  }

  /** The same gates in the same order, none of which turns from passed to failed. */
  predicate Improves(x: seq<Gate>, y: seq<Gate>) {
    && |x| == |y|
    && forall i :: 0 <= i < |x| ==>
         x[i].code == y[i].code && x[i].ceiling == y[i].ceiling && (x[i].passed ==> y[i].passed)
  }

  lemma ImprovesAppend(a: seq<Gate>, b: seq<Gate>, c: seq<Gate>, d: seq<Gate>)
    requires Improves(a, b) && Improves(c, d)
    ensures Improves(a + c, b + d)
  {
  }

  lemma {:induction false} ImprovesKeepsOrder(x: seq<Gate>, y: seq<Gate>)
    requires Improves(x, y)
    ensures Lowest(x) <= Lowest(y)
  {
    if x != [] {
      ImprovesKeepsOrder(x[..|x| - 1], y[..|y| - 1]);
    }
  }

  lemma ImprovesKeepsPassed(x: seq<Gate>, y: seq<Gate>)
    requires Improves(x, y)
    ensures forall g :: g in x && g.passed ==> g in y
  {
    forall g | g in x && g.passed ensures g in y {
      var i :| 0 <= i < |x| && x[i] == g;
      assert y[i] == g;
    }
  }

  // ----- the gates group by group

  lemma {:induction false} FeatureGatesAppend(before: seq<Gate>, rule: FeatureRule, r: RemediationInputs,
                                              features: seq<RemediationFeature>)
    ensures FeatureGates(before, rule, r, features) == before + FeatureGates([], rule, r, features)
  {
    if features != [] {
      FeatureGatesAppend(before, rule, r, features[..|features| - 1]);
    }
  }

  lemma SiteGatesAppend(before: seq<Gate>, r: RemediationInputs)
    ensures SiteGates(before, r) == before + SiteGates([], r)
  {
    hide FeatureGates;
    var x := FeatureGates(before, BoundedRule, r, BOUNDED_FEATURES);
    var y := FeatureGates([], BoundedRule, r, BOUNDED_FEATURES);
    FeatureGatesAppend(before, BoundedRule, r, BOUNDED_FEATURES);
    FeatureGatesAppend(x, MigrationRule, r, MIGRATION_FEATURES);
    FeatureGatesAppend(y, MigrationRule, r, MIGRATION_FEATURES);
    FeatureGatesAppend(FeatureGates(x, MigrationRule, r, MIGRATION_FEATURES) + [ReversibleGate(r)], PrRule, r,
                       PR_FEATURES);
    FeatureGatesAppend(FeatureGates(y, MigrationRule, r, MIGRATION_FEATURES) + [ReversibleGate(r)], PrRule, r,
                       PR_FEATURES);
  }

  function SitedGates(e: Evidence): seq<Gate> {
    if e.remediation.Some? then SiteGates([], e.remediation.value) else []
  }

  function IdentityGate(e: Evidence): Gate {
    Gate(EvidenceIdentity, IdentityFailures(e) == [], 0)
  }

  /** Everything after the remediation's own gates. */
  function ClosingGates(e: Evidence): seq<Gate> {
    PatchGates([], e) + VerificationGates([], e) + [IdentityGate(e)]
  }

  lemma SelectingGatesSplit(e: Evidence)
    ensures SelectingGates(e) == EvidenceGates([], e) + SitedGates(e) + ClosingGates(e)
  {
    hide EvidenceGates, FixIdentities, PatchBound, WorkloadsCovered, ConfirmedRegression, AllPassed, PatchMatches;
    hide RiskAtMost, Confidence, SiteGates, IdentityFailures;
    if e.remediation.Some? {
      SiteGatesAppend(EvidenceGates([], e), e.remediation.value);
    }
  }

  // ----- each group improves

  lemma ObservationsMonotone(less: Evidence, more: Evidence)
    requires Measures(less, more)
    ensures DebtRisk(less.debt) <= DebtRisk(more.debt)
    ensures Confidence(less) <= Confidence(more)
    ensures forall bound :: RiskAtMost(less, bound) ==> RiskAtMost(more, bound)
    ensures FullyObserved(less) ==> FullyObserved(more)
  {
    DebtScoreMonotone(less.debt, more.debt);
    if less.remediation.Some? {
      RemediationScoreMonotone(less.remediation.value, more.remediation.value);
    }
  }

  lemma SameRegression(less: Evidence, more: Evidence)
    requires Measures(less, more)
    ensures ConfirmedRegression(less) == ConfirmedRegression(more)
  {
  }

  lemma EvidenceGatesImprove(less: Evidence, more: Evidence)
    requires Measures(less, more)
    ensures Improves(EvidenceGates([], less), EvidenceGates([], more))
  {
    hide DebtRisk, Confidence, RiskAtMost, FullyObserved, ConfirmedRegression, Refines;
    ObservationsMonotone(less, more);
    SameRegression(less, more);
  }

  lemma {:induction false} FeatureGatesImprove(
    x: seq<Gate>, y: seq<Gate>, rule: FeatureRule, r: RemediationInputs, s: RemediationInputs,
    features: seq<RemediationFeature>)
    requires Refines(r, s) && Improves(x, y)
    ensures Improves(FeatureGates(x, rule, r, features), FeatureGates(y, rule, s, features))
  {
    if features != [] {
      FeatureGatesImprove(x, y, rule, r, s, features[..|features| - 1]);
    }
  }

  lemma SiteGatesImprove(r: RemediationInputs, s: RemediationInputs)
    requires Refines(r, s)
    ensures Improves(SiteGates([], r), SiteGates([], s))
  {
    hide FeatureGates;
    FeatureGatesImprove([], [], BoundedRule, r, s, BOUNDED_FEATURES);
    var x, y := FeatureGates([], BoundedRule, r, BOUNDED_FEATURES), FeatureGates([], BoundedRule, s, BOUNDED_FEATURES);
    FeatureGatesImprove(x, y, MigrationRule, r, s, MIGRATION_FEATURES);
    x := FeatureGates(x, MigrationRule, r, MIGRATION_FEATURES);
    y := FeatureGates(y, MigrationRule, s, MIGRATION_FEATURES);
    FeatureGatesImprove(x + [ReversibleGate(r)], y + [ReversibleGate(s)], PrRule, r, s, PR_FEATURES);
  }

  lemma PatchGatesImprove(less: Evidence, more: Evidence)
    requires Measures(less, more)
    ensures Improves(PatchGates([], less), PatchGates([], more))
  {
    hide Confidence, RiskAtMost, Refines;
    ObservationsMonotone(less, more);
  }

  lemma {:induction false} SameResultMismatches(
    before: seq<IdentityCode>, less: Evidence, more: Evidence, patch: PatchArtifact, results: seq<VerificationResult>)
    requires Measures(less, more)
    ensures ResultMismatches(before, less, patch, results) == ResultMismatches(before, more, patch, results)
  {
    if results != [] {
      SameResultMismatches(before, less, more, patch, results[..|results| - 1]);
    }
  }

  lemma SameIdentities(less: Evidence, more: Evidence)
    requires Measures(less, more)
    ensures IdentityFailures(less) == IdentityFailures(more)
  {
    if less.patch.Some? {
      SameResultMismatches(PatchMismatches(CandidateMismatches([], less), less, less.patch.value),
                           less, more, less.patch.value, less.results);
    }
  }

  lemma SameVerification(less: Evidence, more: Evidence)
    requires Measures(less, more)
    ensures VerificationGates([], less) == VerificationGates([], more)
  {
  }

  lemma ClosingGatesImprove(less: Evidence, more: Evidence)
    requires Measures(less, more)
    ensures Improves(ClosingGates(less), ClosingGates(more))
  {
    PatchGatesImprove(less, more);
    SameIdentities(less, more);
    SameVerification(less, more);
    hide PatchGates, VerificationGates, IdentityFailures;
  }

  /** Measuring never turns a gate from passed to failed: a passed gate is among the gates afterwards too, and
      after an assessment the gates are the same ones in the same order. The policy gate is not among them: it
      compares the policy with the very level that the others allow. */
  lemma PassedGatesStayPassed(less: Evidence, more: Evidence)
    requires Measures(less, more)
    ensures forall g :: g in SelectingGates(less) && g.passed ==> g in SelectingGates(more)
    ensures less.remediation.Some? ==> Improves(SelectingGates(less), SelectingGates(more))
  {
    SelectingGatesSplit(less);
    SelectingGatesSplit(more);
    EvidenceGatesImprove(less, more);
    ClosingGatesImprove(less, more);
    if less.remediation.Some? {
      SiteGatesImprove(less.remediation.value, more.remediation.value);
    }
    var x, y, u, v := EvidenceGates([], less), EvidenceGates([], more), ClosingGates(less), ClosingGates(more);
    hide SelectingGates, EvidenceGates, SiteGates, ClosingGates, Improves;
    if less.remediation.Some? {
      ImprovesAppend(x, y, SitedGates(less), SitedGates(more));
      ImprovesAppend(x + SitedGates(less), y + SitedGates(more), u, v);
      ImprovesKeepsPassed(SelectingGates(less), SelectingGates(more));
    } else {
      ImprovesKeepsPassed(x, y);
      ImprovesKeepsPassed(u, v);
    }
  }

  /** Without an assessment the confidence is zero, so nothing may even be recommended. */
  lemma UnassessedReports(e: Evidence)
    requires e.remediation.None?
    ensures LevelOf(e) == 0
  {
    SelectingGatesSplit(e);
    assert EvidenceGates([], e)[1] == Gate(RecommendConfidence, false, 0);
    assert EvidenceGates([], e)[1] in SelectingGates(e);
    LevelIsMinimumOfCeilings(e);
  }

  /** Replacing missing observations by measured ones never lowers the autonomy level. */
  lemma MeasuringNeverLowersLevel(less: Evidence, more: Evidence)
    requires Measures(less, more)
    ensures LevelOf(less) <= LevelOf(more)
  {
    hide Improves, SelectingGates, Lowest, Refines;
    if less.remediation.None? {
      UnassessedReports(less);
    } else {
      PassedGatesStayPassed(less, more);
      ImprovesKeepsOrder(SelectingGates(less), SelectingGates(more));
      PolicyCapsLowest(SelectingGates(less), PolicyMax(less));
      PolicyCapsLowest(SelectingGates(more), PolicyMax(more));
    }
  }
}
