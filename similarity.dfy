/** The weighted similarity score between two cases of the case base
    (compare_cases), with exact real arithmetic in place of floats. */
module Similarity {

  /** One recorded case: disease description, damaged-area pattern,
      severity and the solution recorded for it. Stored as the record
      fields DescDoenca, area-damaged, severity and solution. */
  datatype Case = Case(desc: string, area: string, severity: int, solution: string)

  /** The weight of each attribute in the score. */
  datatype Weights = Weights(desc: real, area: real, severity: real) {

    /** The normalisation denominator: the sum of the three weights. */
    function Total(): real {
      desc + area + severity
    }

    /** Non-negative weights with a positive sum: the configurations for
        which the score is a percentage. */
    predicate Valid() {
      desc >= 0.0 && area >= 0.0 && severity >= 0.0 && Total() > 0.0
    }
  }

  /** The fixed weights of the program. */
  const DefaultWeights := Weights(0.4, 0.3, 0.3)

  /** The fixed weights are a valid configuration whose sum is exactly 1, so
      the percentage is the raw score times 100. */
  lemma DefaultWeightsValid()
    ensures DefaultWeights.Valid() && DefaultWeights.Total() == 1.0
  {
  }

  /** The largest severity the score assumes; the severity term decays
      linearly over it. */
  const MaxSeverity := 5

  /** The vocabularies offered by the input form. DescOptions and AreaOptions
      only record the form's lists: the form does not enforce them, so no
      member assumes them. SeverityOptions is the range the bounds assume. */
  const DescOptions: seq<string> := ["cancro do caule", "mancha alvo", "fungo de solo", "ferrugem asiática"]
  const AreaOptions: seq<string> := ["espalhado", "áreas baixas", "localizada"]
  const SeverityOptions: seq<int> := [1, 2, 3, 4, 5]

  function Abs(x: int): (r: nat)
    ensures r == x || r == -x
  {
    if x < 0 then -x else x
  }

  /** Credit for a categorical attribute: the full weight on an exact match,
      nothing otherwise. */
  function MatchCredit(same: bool, weight: real): (r: real)
    ensures same ==> r == weight
    ensures !same ==> r == 0.0
    ensures weight >= 0.0 ==> 0.0 <= r <= weight
  {
    if same then weight else 0.0
  }

  /** Credit for severity: the weight scaled by 1 - |s1 - s2| / MaxSeverity. */
  function SeverityCredit(s1: int, s2: int, weight: real): (r: real)
    ensures s1 == s2 ==> r == weight
    ensures Abs(s1 - s2) == MaxSeverity ==> r == 0.0
  {
    weight * (1.0 - (Abs(s1 - s2) as real) / (MaxSeverity as real))
  }

  /** The un-normalised score accumulated before the division. */
  function RawScore(a: Case, b: Case, w: Weights): (r: real)
    ensures a.desc == b.desc && a.area == b.area && a.severity == b.severity ==> r == w.Total()
  {
    MatchCredit(a.desc == b.desc, w.desc)
    + MatchCredit(a.area == b.area, w.area)
    + SeverityCredit(a.severity, b.severity, w.severity)
  }

  /** The similarity percentage of two cases. A zero weight sum is a
      division by zero in the program, so callers must avoid it. */
  function CompareCases(a: Case, b: Case, w: Weights): (r: real)
    requires w.Total() != 0.0
    ensures r * w.Total() == RawScore(a, b, w) * 100.0
    ensures a.desc == b.desc && a.area == b.area && a.severity == b.severity ==> r == 100.0
  {
    RawScore(a, b, w) / w.Total() * 100.0
  }

  /** A case is fully similar to itself, whatever the (non-zero-sum) weights:
      the second ensures of CompareCases, applied to a case and itself. */
  lemma SelfSimilarity(c: Case, w: Weights)
    requires w.Total() != 0.0
    ensures CompareCases(c, c, w) == 100.0
  {
    assert RawScore(c, c, w) == w.Total();
  }

  /** The score does not depend on the order of its arguments. */
  lemma Symmetry(a: Case, b: Case, w: Weights)
    requires w.Total() != 0.0
    ensures CompareCases(a, b, w) == CompareCases(b, a, w)
  {
    assert Abs(a.severity - b.severity) == Abs(b.severity - a.severity);
    assert SeverityCredit(a.severity, b.severity, w.severity) == SeverityCredit(b.severity, a.severity, w.severity);
    assert RawScore(a, b, w) == RawScore(b, a, w);
  }

  /** With severities at most MaxSeverity apart the severity credit lies
      between zero and the full severity weight. */
  lemma SeverityCreditBounds(s1: int, s2: int, weight: real)
    requires weight >= 0.0
    requires Abs(s1 - s2) <= MaxSeverity
    ensures 0.0 <= SeverityCredit(s1, s2, weight) <= weight
  {
    var f := 1.0 - (Abs(s1 - s2) as real) / (MaxSeverity as real);
    assert 0.0 <= f <= 1.0;
    assert SeverityCredit(s1, s2, weight) == weight * f;
    assert 0.0 <= weight * f;
    assert weight * f <= weight * 1.0;
  }

  /** With valid weights and severities from the form's range, the raw score
      lies between zero and the weight sum. */
  lemma RawScoreBounds(a: Case, b: Case, w: Weights)
    requires w.Valid()
    requires a.severity in SeverityOptions && b.severity in SeverityOptions
    ensures 0.0 <= RawScore(a, b, w) <= w.Total()
  {
    SeverityCreditBounds(a.severity, b.severity, w.severity);
  }

  /** Dividing a value in [0, t] by t > 0 and scaling by 100 lands in
      [0, 100]. */
  lemma PercentBounds(s: real, t: real)
    requires t > 0.0 && 0.0 <= s <= t
    ensures 0.0 <= s / t * 100.0 <= 100.0
  {
    var q := s / t;
    assert q * t == s;
  }

  /** The score is a percentage: it lies in [0, 100]. */
  lemma Bounds(a: Case, b: Case, w: Weights)
    requires w.Valid()
    requires a.severity in SeverityOptions && b.severity in SeverityOptions
    ensures 0.0 <= CompareCases(a, b, w) <= 100.0
  {
    RawScoreBounds(a, b, w);
    PercentBounds(RawScore(a, b, w), w.Total());
  }

  /** With every weight positive, the score is 100 exactly when the two
      cases agree on description, area and severity. */
  lemma FullScoreIffSameAttributes(a: Case, b: Case, w: Weights)
    requires w.desc > 0.0 && w.area > 0.0 && w.severity > 0.0
    ensures CompareCases(a, b, w) == 100.0
            <==> a.desc == b.desc && a.area == b.area && a.severity == b.severity
  {
    var s, t := RawScore(a, b, w), w.Total();
    var q := s / t;
    assert q * t == s;
    assert CompareCases(a, b, w) == q * 100.0;
    var f := 1.0 - (Abs(a.severity - b.severity) as real) / (MaxSeverity as real);
    assert SeverityCredit(a.severity, b.severity, w.severity) == w.severity * f;
    assert f <= 1.0;
    assert w.severity * f <= w.severity * 1.0;
    if a.desc == b.desc && a.area == b.area && a.severity == b.severity {
      assert s == t;
      assert q == 1.0;
    } else {
      if a.severity != b.severity {
        assert f < 1.0;
        assert w.severity * f < w.severity * 1.0;
      }
      assert s < t;
      if q >= 1.0 {
        assert q * t >= 1.0 * t;
      }
    }
  }

  /** The worked value with the default weights: same description, different
      area, severities one apart give 64, below the default threshold 70;
      same labels with severities 1 and 5 give 76, above it. */
  lemma WorkedExamples()
    ensures CompareCases(Case("mancha alvo", "localizada", 3, ""),
                         Case("mancha alvo", "espalhado", 4, ""), DefaultWeights) == 64.0
    ensures CompareCases(Case("mancha alvo", "localizada", 1, ""),
                         Case("mancha alvo", "localizada", 5, ""), DefaultWeights) == 76.0
  {
  }
}
