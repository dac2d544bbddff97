/** What each single observation does to the scores: the published weights, directions and extremes
    (`lou/scoring/rules.py`). */
module ScoringFeatures {
  import opened Common
  import opened Scoring

  // ----- sums written out

  lemma {:induction false} TotalSnoc(us: seq<real>, u: real)
    ensures Total(us + [u]) == Total(us) + u
  {
    assert (us + [u])[..|us|] == us;
  }

  lemma TotalOfThree(a: real, b: real, c: real)
    ensures Total([a, b, c]) == a + b + c
  {
    TotalSnoc([a, b], c);
    TotalSnoc([a], b);
    TotalSnoc([], a);
    assert [a, b, c] == [a, b] + [c] && [a, b] == [a] + [b] && [a] == [] + [a];
  }

  lemma TotalOfFour(a: real, b: real, c: real, d: real)
    ensures Total([a, b, c, d]) == a + b + c + d
  {
    TotalOfThree(a, b, c);
    TotalSnoc([a, b, c], d);
    assert [a, b, c, d] == [a, b, c] + [d];
  }

  lemma TotalOfEight(us: seq<real>)
    requires |us| == 8
    ensures Total(us) == us[0] + us[1] + us[2] + us[3] + us[4] + us[5] + us[6] + us[7]
  {
    TotalOfFour(us[0], us[1], us[2], us[3]);
    assert us[..4] == [us[0], us[1], us[2], us[3]];
    TotalSnoc(us[..4], us[4]);
    assert us[..5] == us[..4] + [us[4]];
    TotalSnoc(us[..5], us[5]);
    assert us[..6] == us[..5] + [us[5]];
    TotalSnoc(us[..6], us[6]);
    assert us[..7] == us[..6] + [us[6]];
    TotalSnoc(us[..7], us[7]);
    assert us == us[..7] + [us[7]];
  }

  // ----- debt

  function Seen(inputs: DebtInputs, f: DebtFeature): real {
    if f in inputs then inputs[f] else 0.0
  }

  function WeightedPrincipal(inputs: DebtInputs): (p: real)
    ensures 0.0 <= p <= 1.0
  {
    0.35 * Seen(inputs, Complexity) + 0.35 * Seen(inputs, CoverageDeficit) + 0.30 * Seen(inputs, EstimatedPatchSize)
  }

  function WeightedGrowth(inputs: DebtInputs): (g: real)
    ensures 0.0 <= g <= 1.0
  {
    0.30 * Seen(inputs, Churn) + 0.25 * Seen(inputs, GraphCentrality) + 0.25 * Seen(inputs, RuntimeImpact)
    + 0.20 * Seen(inputs, PathCriticality)
  }

  lemma PrincipalIsWeighted(inputs: DebtInputs)
    ensures Principal(inputs) == WeightedPrincipal(inputs)
  {
    var terms := Terms(PRINCIPAL_WEIGHTS, DebtValues(PRINCIPAL_FEATURES, inputs), 1.0);
    TotalOfThree(terms[0], terms[1], terms[2]);
    assert terms == [terms[0], terms[1], terms[2]];
  }

  lemma FourTerms(a: real, b: real, c: real, d: real, p: real, growth: real)
    requires growth == 0.30 * a + 0.25 * b + 0.25 * c + 0.20 * d
    ensures Total([0.30 * p * a, 0.25 * p * b, 0.25 * p * c, 0.20 * p * d]) == growth * p
  {
    TotalOfFour(0.30 * p * a, 0.25 * p * b, 0.25 * p * c, 0.20 * p * d);
    hide Total;
  }

  lemma InterestTerms(inputs: DebtInputs, p: real)
    ensures Terms(INTEREST_WEIGHTS, DebtValues(INTEREST_FEATURES, inputs), p)
            == [0.30 * p * Seen(inputs, Churn), 0.25 * p * Seen(inputs, GraphCentrality),
                0.25 * p * Seen(inputs, RuntimeImpact), 0.20 * p * Seen(inputs, PathCriticality)]
  {
    var terms := Terms(INTEREST_WEIGHTS, DebtValues(INTEREST_FEATURES, inputs), p);
    assert terms[0] == 0.30 * p * Seen(inputs, Churn);
    assert terms[1] == 0.25 * p * Seen(inputs, GraphCentrality);
    assert terms[2] == 0.25 * p * Seen(inputs, RuntimeImpact);
    assert terms[3] == 0.20 * p * Seen(inputs, PathCriticality);
  }

  lemma InterestIsGrowth(inputs: DebtInputs)
    ensures Interest(inputs) == WeightedGrowth(inputs) * Principal(inputs)
  {
    hide WeightedPrincipal, Seen, Total, Terms, Principal;
    PrincipalIsWeighted(inputs);
    var p := Principal(inputs);
    InterestTerms(inputs, p);
    FourTerms(Seen(inputs, Churn), Seen(inputs, GraphCentrality), Seen(inputs, RuntimeImpact),
              Seen(inputs, PathCriticality), p, WeightedGrowth(inputs));
    GrowthOf(inputs, p);
  }

  lemma InterestIsWeighted(inputs: DebtInputs)
    ensures Interest(inputs) == WeightedGrowth(inputs) * WeightedPrincipal(inputs)
  {
    hide WeightedPrincipal, WeightedGrowth, Interest, Principal;
    InterestIsGrowth(inputs);
    PrincipalIsWeighted(inputs);
  }

  lemma GrowthOf(inputs: DebtInputs, p: real)
    requires 0.0 <= p <= 1.0
    ensures 0.0 <= WeightedGrowth(inputs) * p <= 1.0
  {
    hide WeightedGrowth;
    ProductMonotone(WeightedGrowth(inputs), 1.0, p, 1.0);
  }

  /** Debt risk is half of the weighted principal plus half of what the weighted growth adds to it. */
  lemma DebtRiskIsWeighted(inputs: DebtInputs)
    ensures DebtRisk(inputs)
            == 0.5 * WeightedPrincipal(inputs) + 0.5 * (WeightedGrowth(inputs) * WeightedPrincipal(inputs))
  {
    hide WeightedPrincipal, WeightedGrowth, Principal, Interest;
    PrincipalIsWeighted(inputs);
    InterestIsWeighted(inputs);
    ProductMonotone(WeightedGrowth(inputs), 1.0, WeightedPrincipal(inputs), 1.0);
    HalfSum(Principal(inputs), Interest(inputs));
  }

  // ----- remediation

  /** What an observation counts as risk: a protective one by what it lacks, any other as it is, an unknown one as the
      worst; with a possible migration a patch counts as half irreversible at least. */
  function Risky(inputs: RemediationInputs, f: RemediationFeature): real {
    if f == Coverage || f == VerificationStrength then (if f in inputs then 1.0 - inputs[f] else 1.0)
    else if f == Reversibility then Irreversible(inputs)
    else if f in inputs then inputs[f] else 1.0
  }

  function Irreversible(inputs: RemediationInputs): real {
    var lacking := if Reversibility in inputs then 1.0 - inputs[Reversibility] else 1.0;
    if NoMigration(inputs) then lacking else Max(lacking, 0.5)
  }

  /** Both kinds of migration are known to be ruled out. */
  predicate NoMigration(inputs: RemediationInputs) {
    && SchemaMigrationRisk in inputs && inputs[SchemaMigrationRisk] == 0.0
    && DataMigrationRisk in inputs && inputs[DataMigrationRisk] == 0.0
  }

  /** Remediation risk is the weighted sum of the eight risks; the cap at one never binds. */
  lemma RemediationRiskIsWeighted(inputs: RemediationInputs)
    ensures RemediationRisk(inputs)
            == 0.20 * Risky(inputs, BlastRadius) + 0.15 * Risky(inputs, Criticality) + 0.15 * Risky(inputs, Coverage)
               + 0.15 * Risky(inputs, Reversibility) + 0.15 * Risky(inputs, VerificationStrength)
               + 0.10 * Risky(inputs, PatchSize) + 0.05 * Risky(inputs, SchemaMigrationRisk)
               + 0.05 * Risky(inputs, DataMigrationRisk)
  {
    hide Risky, Total, RiskTerms;
    TermAt(inputs, 0, BlastRadius, 0.20);
    TermAt(inputs, 1, Criticality, 0.15);
    TermAt(inputs, 2, Coverage, 0.15);
    TermAt(inputs, 3, Reversibility, 0.15);
    TermAt(inputs, 4, VerificationStrength, 0.15);
    TermAt(inputs, 5, PatchSize, 0.10);
    TermAt(inputs, 6, SchemaMigrationRisk, 0.05);
    TermAt(inputs, 7, DataMigrationRisk, 0.05);
    TotalOfEight(RiskTerms(inputs));
    RiskyIsUnit(inputs);
  }

  lemma TermAt(inputs: RemediationInputs, i: nat, f: RemediationFeature, weight: real)
    requires i < 8 && REMEDIATION_FEATURES[i] == f && REMEDIATION_WEIGHTS[i] == weight
    ensures |RiskTerms(inputs)| == 8 && RiskTerms(inputs)[i] == weight * Risky(inputs, f)
  {
    assert NormalRisk(inputs, f) == Risky(inputs, f);
    hide NormalRisk, Risky;
  }

  lemma RiskyIsUnit(inputs: RemediationInputs)
    ensures forall f :: 0.0 <= Risky(inputs, f) <= 1.0
  {
  }

  predicate Protects(f: RemediationFeature) {
    f == Coverage || f == Reversibility || f == VerificationStrength
  }

  /** A larger value of a protective feature never raises the risk, one of any other feature never lowers it, and what
      only measures the evidence leaves it alone. */
  lemma RiskFollowsFeature(inputs: RemediationInputs, f: RemediationFeature, v: Unit, w: Unit)
    requires v <= w
    ensures Protects(f) ==> RemediationRisk(inputs[f := w]) <= RemediationRisk(inputs[f := v])
    ensures !Protects(f) ==> RemediationRisk(inputs[f := v]) <= RemediationRisk(inputs[f := w])
    ensures f in {ContextCompleteness, EvidenceConfidence} ==>
              RemediationRisk(inputs[f := v]) == RemediationRisk(inputs[f := w]) == RemediationRisk(inputs)
  {
    RemediationRiskIsWeighted(inputs);
    RemediationRiskIsWeighted(inputs[f := v]);
    RemediationRiskIsWeighted(inputs[f := w]);
    RiskyFollows(inputs, f, v, w);
  }

  ghost predicate NoRiskier(a: RemediationInputs, b: RemediationInputs) {
    forall f :: Risky(a, f) <= Risky(b, f)
  }

  lemma RiskyFollows(inputs: RemediationInputs, f: RemediationFeature, v: Unit, w: Unit)
    requires v <= w
    ensures Protects(f) ==> NoRiskier(inputs[f := w], inputs[f := v])
    ensures !Protects(f) ==> NoRiskier(inputs[f := v], inputs[f := w])
    ensures f in {ContextCompleteness, EvidenceConfidence} ==>
              forall g :: g != f ==> Risky(inputs[f := v], g) == Risky(inputs[f := w], g) == Risky(inputs, g)
  {
  }

  predicate Weighs(f: RemediationFeature) {
    f !in {ContextCompleteness, EvidenceConfidence}
  }

  predicate AsSafeAsCanBe(inputs: RemediationInputs, f: RemediationFeature) {
    f in inputs && inputs[f] == if Protects(f) then 1.0 else 0.0
  }

  predicate AsBadAsCanBe(inputs: RemediationInputs, f: RemediationFeature) {
    f in inputs ==> inputs[f] == if Protects(f) then 0.0 else 1.0
  }

  /** The risk is zero if and only if every one of the eight observations is known and as safe as it can be, and one if
      and only if every one is unknown or as bad as it can be. */
  lemma RiskExtremes(inputs: RemediationInputs)
    ensures RemediationRisk(inputs) == 0.0 <==> forall f :: Weighs(f) ==> AsSafeAsCanBe(inputs, f)
    ensures RemediationRisk(inputs) == 1.0 <==> forall f :: Weighs(f) ==> AsBadAsCanBe(inputs, f)
  {
    RemediationRiskIsWeighted(inputs);
    RiskyIsUnit(inputs);
    RiskyExtremes(inputs);
    hide Risky, AsSafeAsCanBe, AsBadAsCanBe;
    EightWeigh();
  }

  lemma EightWeigh()
    ensures Weighs(BlastRadius) && Weighs(Criticality) && Weighs(Coverage) && Weighs(Reversibility)
    ensures Weighs(VerificationStrength) && Weighs(PatchSize) && Weighs(SchemaMigrationRisk)
    ensures Weighs(DataMigrationRisk)
    ensures forall f :: Weighs(f) ==>
              || f == BlastRadius || f == Criticality || f == Coverage || f == Reversibility
              || f == VerificationStrength || f == PatchSize || f == SchemaMigrationRisk || f == DataMigrationRisk
  {
  }

  lemma RiskyExtremes(inputs: RemediationInputs)
    ensures (forall f :: Weighs(f) ==> Risky(inputs, f) == 0.0) <==>
              forall f :: Weighs(f) ==> AsSafeAsCanBe(inputs, f)
    ensures (forall f :: Weighs(f) ==> Risky(inputs, f) == 1.0) <==>
              forall f :: Weighs(f) ==> AsBadAsCanBe(inputs, f)
  {
    forall f | Weighs(f) && f != Reversibility
      ensures Risky(inputs, f) == 0.0 <==> AsSafeAsCanBe(inputs, f)
      ensures Risky(inputs, f) == 1.0 <==> AsBadAsCanBe(inputs, f)
    {
    }
    EightWeigh();
  }

  // ----- confidence

  lemma {:induction false} KnownCountsAll<F>(features: seq<F>, inputs: map<F, Unit>)
    requires Distinct(features)
    ensures Known(features, inputs) == |features| <==> forall f :: f in features ==> f in inputs
    ensures Known(features, inputs) == 0 <==> forall f :: f in features ==> f !in inputs
  {
    var all := set f | f in features;
    var known := set f | f in features && f in inputs;
    DistinctCount(features);
    if known == all {
      assert forall f :: f in features ==> f in known;
    } else {
      var x :| x in all && x !in known;
      Subsets(known, all - {x});
    }
    if f :| f in features && f in inputs {
      assert f in known;
    }
  }

  lemma {:induction false} DistinctCount<F>(features: seq<F>)
    requires Distinct(features)
    ensures |set f | f in features| == |features|
  {
    if features != [] {
      DistinctCount(features[1..]);
      assert (set f | f in features) == {features[0]} + (set f | f in features[1..]);
    }
  }

  /** Confidence is full if and only if everything was observed with full context and full evidence, and zero if and
      only if nothing was, or the context or the evidence is unknown or worth nothing. */
  lemma ConfidenceExtremes(inputs: RemediationInputs)
    ensures RemediationConfidence(inputs) == 1.0 <==>
              && (forall f :: f in inputs)
              && inputs[ContextCompleteness] == 1.0 && inputs[EvidenceConfidence] == 1.0
    ensures RemediationConfidence(inputs) == 0.0 <==>
              || (forall f :: f in inputs ==> f in {ContextCompleteness, EvidenceConfidence})
              || ContextCompleteness !in inputs || inputs[ContextCompleteness] == 0.0
              || EvidenceConfidence !in inputs || inputs[EvidenceConfidence] == 0.0
  {
    KnownCountsAll(REMEDIATION_FEATURES, inputs);
    AllButEvidence();
    var k, c, e := Known(REMEDIATION_FEATURES, inputs) as real / 8.0, OrZero(inputs, ContextCompleteness),
                   OrZero(inputs, EvidenceConfidence);
    KnownMonotone(REMEDIATION_FEATURES, inputs, inputs);
    hide Known;
    ProductExtremes(k, c, e);
  }

  lemma AllButEvidence()
    ensures Distinct(REMEDIATION_FEATURES) && |REMEDIATION_FEATURES| == 8
    ensures forall f :: f in REMEDIATION_FEATURES <==> Weighs(f)
  {
    var fs := REMEDIATION_FEATURES;
    forall f ensures f in fs <==> Weighs(f) {
      assert fs[0] == BlastRadius && fs[1] == Criticality && fs[2] == Coverage && fs[3] == Reversibility;
      assert fs[4] == VerificationStrength && fs[5] == PatchSize && fs[6] == SchemaMigrationRisk;
      assert fs[7] == DataMigrationRisk;
      EightWeigh();
    }
  }

  lemma Shrinks(a: real, b: real)
    requires 0.0 <= a && 0.0 <= b <= 1.0
    ensures 0.0 <= a * b <= a
  {
    ProductMonotone(a, a, b, 1.0);
  }

  lemma ProductExtremes(k: real, c: real, e: real)
    requires 0.0 <= k <= 1.0 && 0.0 <= c <= 1.0 && 0.0 <= e <= 1.0
    ensures k * c * e == 1.0 <==> k == 1.0 && c == 1.0 && e == 1.0
    ensures k * c * e == 0.0 <==> k == 0.0 || c == 0.0 || e == 0.0
  {
    var kc := k * c;
    Shrinks(k, c);
    Shrinks(c, k);
    Shrinks(kc, e);
    Shrinks(e, kc);
    assert k * c * e == kc * e && c * k == kc && e * kc == kc * e;
  }

  lemma KnownGrowsByOne<F>(features: seq<F>, inputs: map<F, Unit>, f: F, v: Unit)
    requires f in features && f !in inputs
    ensures Known(features, inputs[f := v]) == Known(features, inputs) + 1
  {
    assert (set g | g in features && g in inputs[f := v]) == (set g | g in features && g in inputs) + {f};
  }

  /** Each of the eight observations adds an eighth of the context and evidence it is judged by. */
  lemma ConfidencePerObservation(inputs: RemediationInputs, f: RemediationFeature, v: Unit)
    requires Weighs(f) && f !in inputs
    ensures RemediationConfidence(inputs[f := v])
            == RemediationConfidence(inputs)
               + OrZero(inputs, ContextCompleteness) * OrZero(inputs, EvidenceConfidence) / 8.0
  {
    AllButEvidence();
    KnownGrowsByOne(REMEDIATION_FEATURES, inputs, f, v);
    hide Known;
    var n, c, e := Known(REMEDIATION_FEATURES, inputs) as real, OrZero(inputs, ContextCompleteness),
                   OrZero(inputs, EvidenceConfidence);
    Distributes(n, c, e, 8.0);
  }

  /** Each of the seven observations adds a seventh of the evidence it is judged by. */
  lemma DebtConfidencePerObservation(inputs: DebtInputs, f: DebtFeature, v: Unit)
    requires f != DebtEvidenceConfidence && f !in inputs
    ensures DebtConfidence(inputs[f := v]) == DebtConfidence(inputs) + OrZero(inputs, DebtEvidenceConfidence) / 7.0
  {
    var fs := PRINCIPAL_FEATURES + INTEREST_FEATURES;
    assert fs[0] == Complexity && fs[1] == CoverageDeficit && fs[2] == EstimatedPatchSize && fs[3] == Churn;
    assert fs[4] == GraphCentrality && fs[5] == RuntimeImpact && fs[6] == PathCriticality;
    KnownGrowsByOne(fs, inputs, f, v);
    hide Known;
    Distributes(Known(fs, inputs) as real, OrZero(inputs, DebtEvidenceConfidence), 1.0, 7.0);
  }

  lemma Distributes(n: real, c: real, e: real, d: real)
    requires d > 0.0
    ensures (n + 1.0) / d * c * e == n / d * c * e + c * e / d
  {
    assert (n + 1.0) / d == n / d + 1.0 / d;
    assert (n / d + 1.0 / d) * c == n / d * c + 1.0 / d * c;
    assert (n / d * c + 1.0 / d * c) * e == n / d * c * e + 1.0 / d * c * e;
    assert 1.0 / d * c * e == (1.0 / d) * (c * e);
    assert (1.0 / d) * (c * e) == c * e / d;
  }

  /** The score names exactly the unknown observations, and says that the floor was applied exactly when reversibility
      is known to exceed one half while a migration is possible. */
  lemma ScoreSays(inputs: RemediationInputs)
    ensures var score := RemediationScoreOf(inputs);
            && score.remediationRisk == RemediationRisk(inputs) && score.confidence == RemediationConfidence(inputs)
            && (forall f :: f in score.missing <==> f !in inputs)
            && (score.reversibilityFloored <==>
                  Reversibility in inputs && inputs[Reversibility] > 0.5 && !NoMigration(inputs))
  {
    hide RemediationRisk, RemediationConfidence;
  }
}
