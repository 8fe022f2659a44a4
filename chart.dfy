/** The data behind the bar chart: the four factors in the fixed order, each
    paired with the score submitted for it. */
module ChartData {
  import opened Wrappers
  import opened Survey

  /** The chart's table: one column of factor labels, one column of scores. */
  datatype ChartFrame = ChartFrame(items: seq<string>, scores: seq<int>)

  /** The English label the chart gives each factor. */
  function Label(f: Factor): string
  {
    match f
    case Attention => "Attention"
    case Relevance => "Relevance"
    case Confidence => "Confidence"
    case Satisfaction => "Satisfaction"
  }

  /** The chart data of one submission. */
  function Chart(s: Scores): (frame: ChartFrame)
    ensures |frame.items| == |frame.scores| == |Factors|
    ensures forall i :: 0 <= i < |Factors| ==>
      frame.items[i] == Label(Factors[i]) && frame.scores[i] == ScoreOf(s, Factors[i])
  {
    ChartFrame(["Attention", "Relevance", "Confidence", "Satisfaction"],
               [s.attention, s.relevance, s.confidence, s.satisfaction])
  }

  /** Reads the scores back off a chart table laid out in the fixed order. */
  function ChartScores(frame: ChartFrame): Option<Scores>
  {
    if |frame.scores| == |frame.items| == |Factors|
       && forall i :: 0 <= i < |Factors| ==> frame.items[i] == Label(Factors[i])
    then Some(Scores(frame.scores[0], frame.scores[1], frame.scores[2], frame.scores[3]))
    else None
  }

  /** The chart pairs each factor with its submitted score, unchanged. */
  lemma ChartRoundTrip(s: Scores)
    ensures ChartScores(Chart(s)) == Some(s)
  {
  }

  /** Each factor's bar is at that factor's position in the fixed order. */
  lemma ChartBarOf(s: Scores, f: Factor)
    ensures Chart(s).items[Rank(f)] == Label(f) && Chart(s).scores[Rank(f)] == ScoreOf(s, f)
  {
  }
}
