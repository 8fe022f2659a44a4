/** The four ARCS motivation factors, the scores a student submits for
    them, and the "low score" rule shared by the advice and the report. */
module Survey {

  /** The four factors of the ARCS model, in the order the form asks them. */
  datatype Factor = Attention | Relevance | Confidence | Satisfaction

  /** The fixed order in which the form, the advice and the chart list the factors. */
  const Factors: seq<Factor> := [Attention, Relevance, Confidence, Satisfaction]

  /** Position of a factor in the fixed order. */
  function Rank(f: Factor): (r: nat)
    ensures r < |Factors| && Factors[r] == f
  {
    match f
    case Attention => 0
    case Relevance => 1
    case Confidence => 2
    case Satisfaction => 3
  }

  /** One submitted answer set: one slider value per factor. */
  datatype Scores = Scores(attention: int, relevance: int, confidence: int, satisfaction: int)

  function ScoreOf(s: Scores, f: Factor): int
  {
    match f
    case Attention => s.attention
    case Relevance => s.relevance
    case Confidence => s.confidence
    case Satisfaction => s.satisfaction
  }

  /** Bounds and initial position of every slider on the form. */
  const MinScore := 1
  const MaxScore := 100
  const DefaultScore := 50

  /** What the sliders can produce; nothing downstream re-checks it. */
  predicate InSliderRange(s: Scores)
  {
    forall f: Factor :: MinScore <= ScoreOf(s, f) <= MaxScore
  }

  /** Scores strictly below this value get advice. */
  const LowThreshold := 30

  predicate IsLow(v: int)
  {
    v < LowThreshold
  }

  /** True when no factor is low, i.e. the advice falls back to the overall-state block. */
  predicate NoneLow(s: Scores)
  {
    forall f: Factor :: !IsLow(ScoreOf(s, f))
  }
}
