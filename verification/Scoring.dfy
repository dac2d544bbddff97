/** Debt and remediation scores (`lou/scoring/rules.py`), over exact reals. */
module Scoring {
  import opened Common

  type Unit = r: real | 0.0 <= r <= 1.0

  datatype DebtFeature =
    | Complexity | CoverageDeficit | EstimatedPatchSize
    | Churn | GraphCentrality | RuntimeImpact | PathCriticality
    | DebtEvidenceConfidence

  datatype RemediationFeature =
    | BlastRadius | Criticality | Coverage | Reversibility | VerificationStrength
    | PatchSize | SchemaMigrationRisk | DataMigrationRisk
    | ContextCompleteness | EvidenceConfidence

  // An absent key is an observation the source holds as `None`: unknown, never zero.
  type DebtInputs = map<DebtFeature, Unit>
  type RemediationInputs = map<RemediationFeature, Unit>

  const PRINCIPAL_FEATURES: seq<DebtFeature> := [Complexity, CoverageDeficit, EstimatedPatchSize]
  const PRINCIPAL_WEIGHTS: seq<real> := [0.35, 0.35, 0.30]
  const INTEREST_FEATURES: seq<DebtFeature> := [Churn, GraphCentrality, RuntimeImpact, PathCriticality]
  const INTEREST_WEIGHTS: seq<real> := [0.30, 0.25, 0.25, 0.20]
  const REMEDIATION_FEATURES: seq<RemediationFeature> :=
    [BlastRadius, Criticality, Coverage, Reversibility, VerificationStrength, PatchSize,
     SchemaMigrationRisk, DataMigrationRisk]
  const REMEDIATION_WEIGHTS: seq<real> := [0.20, 0.15, 0.15, 0.15, 0.15, 0.10, 0.05, 0.05]
  const PROTECTIVE_FEATURES := {Coverage, Reversibility, VerificationStrength}

  datatype RemediationScore = RemediationScore(remediationRisk: real, confidence: real,
                                               missing: set<RemediationFeature>,
                                               reversibilityFloored: bool)

  // ----- sums of weighted terms

  function Total(terms: seq<real>): real {
    if terms == [] then 0.0 else Total(terms[..|terms| - 1]) + terms[|terms| - 1]
  }

  /** `_component`: the sum of the contributions, capped at one. */
  function Component(terms: seq<real>): real {
    Min(1.0, Total(terms))
  }

  /** One contribution per weight; `scale` is one except for interest, which grows with principal. */
  function Terms(weights: seq<real>, values: seq<real>, scale: real): seq<real>
    requires |weights| == |values|
  {
    seq(|weights|, i requires 0 <= i < |weights| => weights[i] * scale * values[i])
  }

  /** How many of the (distinct) features were observed. */
  function Known<F(==)>(features: seq<F>, inputs: map<F, Unit>): nat {
    |set f | f in features && f in inputs|
  }

  function OrZero<F(==)>(inputs: map<F, Unit>, feature: F): real {
    if feature in inputs then inputs[feature] else 0.0
  }

  // ----- debt

  function DebtValues(features: seq<DebtFeature>, inputs: DebtInputs): seq<real> {
    seq(|features|, i requires 0 <= i < |features| => OrZero(inputs, features[i]))
  }

  function Principal(inputs: DebtInputs): real {
    Component(Terms(PRINCIPAL_WEIGHTS, DebtValues(PRINCIPAL_FEATURES, inputs), 1.0))
  }

  function Interest(inputs: DebtInputs): real {
    Component(Terms(INTEREST_WEIGHTS, DebtValues(INTEREST_FEATURES, inputs), Principal(inputs)))
  }

  function DebtRisk(inputs: DebtInputs): real {
    Component([Principal(inputs) * 0.5, Interest(inputs) * 0.5])
  }

  function DebtConfidence(inputs: DebtInputs): real {
    (Known(PRINCIPAL_FEATURES + INTEREST_FEATURES, inputs) as real / 7.0)
    * OrZero(inputs, DebtEvidenceConfidence)
  }

  // ----- remediation

  predicate MigrationPossible(inputs: RemediationInputs) {
    || SchemaMigrationRisk !in inputs || inputs[SchemaMigrationRisk] > 0.0
    || DataMigrationRisk !in inputs || inputs[DataMigrationRisk] > 0.0
  }

  /** The risk one observation stands for before the migration floor. */
  function RawRisk(inputs: RemediationInputs, feature: RemediationFeature): real {
    if feature !in inputs then 1.0
    else if feature in PROTECTIVE_FEATURES then 1.0 - inputs[feature]
    else inputs[feature]
  }

  predicate Floored(inputs: RemediationInputs, feature: RemediationFeature) {
    feature == Reversibility && MigrationPossible(inputs) && RawRisk(inputs, feature) < 0.5
  }

  function NormalRisk(inputs: RemediationInputs, feature: RemediationFeature): real {
    if Floored(inputs, feature) then 0.5 else RawRisk(inputs, feature)
  }

  function RiskTerms(inputs: RemediationInputs): seq<real> {
    Terms(REMEDIATION_WEIGHTS, RiskValues(inputs), 1.0)
  }

  function RiskValues(inputs: RemediationInputs): seq<real> {
    seq(|REMEDIATION_FEATURES|, i requires 0 <= i < |REMEDIATION_FEATURES| =>
      NormalRisk(inputs, REMEDIATION_FEATURES[i]))
  }

  function RemediationRisk(inputs: RemediationInputs): real {
    Component(RiskTerms(inputs))
  }

  function RemediationConfidence(inputs: RemediationInputs): real {
    (Known(REMEDIATION_FEATURES, inputs) as real / 8.0)
    * OrZero(inputs, ContextCompleteness) * OrZero(inputs, EvidenceConfidence)
  }

  function RemediationScoreOf(inputs: RemediationInputs): RemediationScore {
    RemediationScore(RemediationRisk(inputs), RemediationConfidence(inputs),
                     (set f: RemediationFeature | f !in inputs), Floored(inputs, Reversibility))
  }

  /** `score_remediation`: one pass that appends a contribution per weight. */
  method ScoreRemediation(inputs: RemediationInputs) returns (score: RemediationScore)
    ensures score == RemediationScoreOf(inputs)
  {
    hide Known, OrZero, Total;
    var contributions: seq<real> := [];
    var floored := false;
    for i := 0 to |REMEDIATION_FEATURES|
      invariant contributions == RiskTerms(inputs)[..i]
      invariant floored == (Reversibility in REMEDIATION_FEATURES[..i] && Floored(inputs, Reversibility))
    {
      var name := REMEDIATION_FEATURES[i];
      var normalized := if name in inputs then inputs[name] else 1.0;
      if name in PROTECTIVE_FEATURES {
        normalized := if name in inputs then 1.0 - inputs[name] else 1.0;
      }
      if name == Reversibility && MigrationPossible(inputs) && normalized < 0.5 {
        normalized := 0.5;
        floored := true;
      }
      assert normalized == NormalRisk(inputs, name);
      contributions := contributions + [REMEDIATION_WEIGHTS[i] * 1.0 * normalized];
      assert RiskTerms(inputs)[..i + 1] == RiskTerms(inputs)[..i] + [RiskTerms(inputs)[i]];
    }
    assert REMEDIATION_FEATURES[3] == Reversibility;
    assert contributions == RiskTerms(inputs);
    var completeness := Known(REMEDIATION_FEATURES, inputs) as real / 8.0;
    score := RemediationScore(
      Component(contributions),
      completeness * OrZero(inputs, ContextCompleteness) * OrZero(inputs, EvidenceConfidence),
      (set f: RemediationFeature | f !in inputs), floored);
  }

  // ----- what more evidence does to a score

  /** `more` keeps every observation of `less` and may add some that were unknown. */
  ghost predicate Refines<F(!new)>(less: map<F, Unit>, more: map<F, Unit>) {
    forall f :: f in less ==> f in more && more[f] == less[f]
  }

  lemma {:induction false} TotalMonotone(us: seq<real>, vs: seq<real>)
    requires |us| == |vs| && forall i :: 0 <= i < |us| ==> us[i] <= vs[i]
    ensures Total(us) <= Total(vs)
  {
    if us != [] {
      TotalMonotone(us[..|us| - 1], vs[..|vs| - 1]);
    }
  }

  lemma {:induction false} TotalNonNegative(us: seq<real>)
    requires forall i :: 0 <= i < |us| ==> 0.0 <= us[i]
    ensures 0.0 <= Total(us)
  {
    if us != [] {
      TotalNonNegative(us[..|us| - 1]);
    }
  }

  lemma ProductMonotone(a: real, b: real, c: real, d: real)
    requires 0.0 <= a <= b && 0.0 <= c <= d
    ensures 0.0 <= a * c <= b * d
  {
    assert 0.0 <= a * c <= b * c <= b * d;
  }

  lemma {:induction false} ElementsAtMost<F>(features: seq<F>)
    ensures |set f | f in features| <= |features|
  {
    if features != [] {
      ElementsAtMost(features[1..]);
      assert (set f | f in features) == {features[0]} + (set f | f in features[1..]);
    }
  }

  lemma Subsets<F>(a: set<F>, b: set<F>)
    requires a <= b
    ensures |a| <= |b|
  {
    if a != {} {
      var x :| x in a;
      Subsets(a - {x}, b - {x});
    }
  }

  lemma KnownMonotone<F(!new)>(features: seq<F>, less: map<F, Unit>, more: map<F, Unit>)
    requires Refines(less, more)
    ensures Known(features, less) <= Known(features, more) <= |features|
  {
    Subsets(set f | f in features && f in less, set f | f in features && f in more);
    Subsets(set f | f in features && f in more, set f | f in features);
    ElementsAtMost(features);
  }

  lemma TermsMonotone(weights: seq<real>, us: seq<real>, vs: seq<real>, s: real, t: real)
    requires |weights| == |us| == |vs| && 0.0 <= s <= t
    requires forall i :: 0 <= i < |weights| ==> 0.0 <= weights[i] && 0.0 <= us[i] <= vs[i]
    ensures 0.0 <= Total(Terms(weights, us, s)) <= Total(Terms(weights, vs, t))
  {
    var xs, ys := Terms(weights, us, s), Terms(weights, vs, t);
    forall i | 0 <= i < |weights| ensures 0.0 <= xs[i] <= ys[i] {
      ProductMonotone(weights[i], weights[i], s, t);
      ProductMonotone(weights[i] * s, weights[i] * t, us[i], vs[i]);
    }
    TotalNonNegative(xs);
    TotalMonotone(xs, ys);
  }

  lemma HalfSum(p: real, i: real)
    ensures Total([p * 0.5, i * 0.5]) == (p + i) * 0.5
  {
    var terms := [p * 0.5, i * 0.5];
    assert terms[..1] == [p * 0.5] && [p * 0.5][..0] == [];
    assert Total([p * 0.5]) == Total([p * 0.5][..0]) + p * 0.5;
    assert Total(terms) == Total(terms[..1]) + i * 0.5;
  }

  lemma PrincipalMonotone(less: DebtInputs, more: DebtInputs)
    requires Refines(less, more)
    ensures 0.0 <= Principal(less) <= Principal(more) <= 1.0
  {
    TermsMonotone(PRINCIPAL_WEIGHTS, DebtValues(PRINCIPAL_FEATURES, less),
                  DebtValues(PRINCIPAL_FEATURES, more), 1.0, 1.0);
  }

  lemma InterestMonotone(less: DebtInputs, more: DebtInputs)
    requires Refines(less, more)
    ensures 0.0 <= Interest(less) <= Interest(more) <= 1.0
  {
    PrincipalMonotone(less, more);
    TermsMonotone(INTEREST_WEIGHTS, DebtValues(INTEREST_FEATURES, less),
                  DebtValues(INTEREST_FEATURES, more), Principal(less), Principal(more));
  }

  lemma DebtConfidenceMonotone(less: DebtInputs, more: DebtInputs)
    requires Refines(less, more)
    ensures 0.0 <= DebtConfidence(less) <= DebtConfidence(more) <= 1.0
  {
    var features := PRINCIPAL_FEATURES + INTEREST_FEATURES;
    KnownMonotone(features, less, more);
    var m, n := Known(features, less) as real / 7.0, Known(features, more) as real / 7.0;
    ProductMonotone(m, n, OrZero(less, DebtEvidenceConfidence), OrZero(more, DebtEvidenceConfidence));
    ProductMonotone(n, 1.0, OrZero(more, DebtEvidenceConfidence), 1.0);
  }

  /** Learning a debt observation can only raise the debt risk and its confidence. */
  lemma DebtScoreMonotone(less: DebtInputs, more: DebtInputs)
    requires Refines(less, more)
    ensures 0.0 <= DebtRisk(less) <= DebtRisk(more) <= 1.0
    ensures 0.0 <= DebtConfidence(less) <= DebtConfidence(more) <= 1.0
  {
    PrincipalMonotone(less, more);
    InterestMonotone(less, more);
    HalfSum(Principal(less), Interest(less));
    HalfSum(Principal(more), Interest(more));
    DebtConfidenceMonotone(less, more);
  }

  lemma RemediationConfidenceMonotone(less: RemediationInputs, more: RemediationInputs)
    requires Refines(less, more)
    ensures 0.0 <= RemediationConfidence(less) <= RemediationConfidence(more) <= 1.0
  {
    KnownMonotone(REMEDIATION_FEATURES, less, more);
    assert |REMEDIATION_FEATURES| == 8;
    TripleProduct(Known(REMEDIATION_FEATURES, less) as real / 8.0, Known(REMEDIATION_FEATURES, more) as real / 8.0,
                  OrZero(less, ContextCompleteness), OrZero(more, ContextCompleteness),
                  OrZero(less, EvidenceConfidence), OrZero(more, EvidenceConfidence));
  }

  lemma TripleProduct(a: real, b: real, c: real, d: real, e: real, f: real)
    requires 0.0 <= a <= b <= 1.0 && 0.0 <= c <= d <= 1.0 && 0.0 <= e <= f <= 1.0
    ensures 0.0 <= a * c * e <= b * d * f <= 1.0
  {
    ProductMonotone(a, b, c, d);
    ProductMonotone(b, 1.0, d, 1.0);
    ProductMonotone(a * c, b * d, e, f);
    ProductMonotone(b * d, 1.0, f, 1.0);
  }

  /** Learning a safety observation can only lower the remediation risk, even through the migration
      floor, and raise its confidence. */
  lemma RemediationScoreMonotone(less: RemediationInputs, more: RemediationInputs)
    requires Refines(less, more)
    ensures 0.0 <= RemediationRisk(more) <= RemediationRisk(less) <= 1.0
    ensures 0.0 <= RemediationConfidence(less) <= RemediationConfidence(more) <= 1.0
  {
    TermsMonotone(REMEDIATION_WEIGHTS, RiskValues(more), RiskValues(less), 1.0, 1.0);
    RemediationConfidenceMonotone(less, more);
  }
}
