/** What happens when the form is submitted: the advice list, the HTML
    report built from it, and the chart data, all from the same scores. */
module Diagnosis {
  import opened Wrappers
  import opened Survey
  import opened AdviceRules
  import opened HtmlReport
  import opened ChartData

  /** The submit handler. The student ID is read on the form but used nowhere. */
  method Diagnose(name: string, userId: string, now: string, s: Scores)
    returns (adviceBlocks: seq<AdviceBlock>, htmlBlocks: string, chart: ChartFrame)
    ensures adviceBlocks == Advice(s)
    ensures htmlBlocks == Report(name, now, s, adviceBlocks)
    ensures chart == Chart(s)
  {
    adviceBlocks := BuildAdvice(s);
    htmlBlocks := BuildReport(name, now, s, adviceBlocks);
    chart := Chart(s);
  }

  /** The report of a submission shows the question, advice and evaluation of every low factor. */
  lemma ReportShowsLowFactor(name: string, now: string, s: Scores, f: Factor)
    requires IsLow(ScoreOf(s, f))
    ensures Contains(Report(name, now, s, Advice(s)), Wording(FactorQuestion(f)))
    ensures Contains(Report(name, now, s, Advice(s)), Wording(FactorAdvice(f)))
    ensures Contains(Report(name, now, s, Advice(s)), Wording(FactorEvaluation(f)))
  {
    AdviceBlockIff(s, f);
    AdviceBlockContents(s);
    var i :| 0 <= i < |Advice(s)| && AboutFactor(Advice(s)[i]) == Some(f);
    FallbackIsAboutNoFactor();
    assert IsLowBlock(Advice(s)[i], s);
    ReportShowsBlock(name, now, s, Advice(s), i);
  }

  /** When no factor is low, the report shows the overall-state texts. */
  lemma ReportShowsOverallState(name: string, now: string, s: Scores)
    requires NoneLow(s)
    ensures Contains(Report(name, now, s, Advice(s)), Wording(OverallQuestion))
    ensures Contains(Report(name, now, s, Advice(s)), Wording(OverallAdvice))
    ensures Contains(Report(name, now, s, Advice(s)), Wording(OverallEvaluation))
  {
    AdviceFallbackIff(s);
    assert Advice(s)[0] == Fallback;
    ReportShowsBlock(name, now, s, Advice(s), 0);
  }

  /** A bar of the chart is below the threshold exactly when its factor has a block in the advice. */
  lemma ChartAgreesWithAdvice(s: Scores, i: nat)
    requires i < |Factors|
    ensures IsLow(Chart(s).scores[i]) <==> HasBlockFor(Advice(s), Factors[i])
  {
    AdviceBlockIff(s, Factors[i]);
  }
}
