# ARCS motivation self-check: advice rule and report, in Dafny

The Streamlit script `arcs_for_students_app_web.py` asks a student four
questions, one per ARCS factor (Attention, Relevance, Confidence,
Satisfaction). Each answer is a slider value from 1 to 100. On submit the
script does three things:

- It builds the **advice list**. For each factor in that fixed order it appends
  one block when the score is strictly below 30. A block holds the factor's
  question, the score, and the factor's advice and self-evaluation texts. When
  no block was appended, it appends a single "overall state" block
  (`全体の状態`) instead. That block's score is the string `"-"`.
- It builds the **HTML report** by concatenation. First a header with the name,
  the timestamp and the four scores. Then one section per advice block, in list
  order, showing its question, advice and evaluation. Then `</div>`.
- It builds the **chart data**: the four factor labels in the fixed order, each
  paired with its score.

The project models these three steps:

- `Wrappers` (`wrappers.dfy`): the generic `Option` type.
- `Survey` (`survey.dfy`): factors, scores, the slider range and the threshold 30.
- `AdviceRules` (`advice.dfy`): the advice texts and blocks. It has a
  table-driven reference definition `Advice` and a method `BuildAdvice` that
  mirrors the script's four conditional appends and the fallback append. The
  method is proved equal to `Advice`.
- `HtmlReport` (`report.dfy`): the header and section templates, and decimal
  rendering of scores. The method `BuildReport` mirrors the script's `+=` loop
  and is proved equal to `Report`.
- `ChartData` (`chart.dfy`): the chart's two-column table.
- `Diagnosis` (`diagnosis.dfy`): the submit handler, plus properties that tie
  the three outputs together.

Modelling decisions:

- A block's texts are `Message` values: factor question, factor advice, factor
  evaluation, or one of the three overall-state texts. `AdviceRules.Wording`
  gives the exact Japanese text of each. The report is rendered from that
  wording.
- The score field is `Score(v)` or `NoScore`. `NoScore` stands for the `"-"`
  of the overall-state block.
- A block is recognised as being about a factor by its question
  (`AboutFactor`).
- An f-string is modelled as its pieces, literal and interpolated, joined in
  order (`Join`). Integers are written in decimal as Python writes them
  (`Decimal`).
- Like the script, the model inserts the name and timestamp into the HTML
  unescaped.

What the script does not do:

- It keeps no submission history. It computes no change from a previous
  submission, no correlation, and stores and exports nothing. Its scale is
  1..100, not 1–7. The model has none of these either.
- It does not check that scores are in range: only the sliders keep values in
  1..100. So the model's functions are total over all integers, and the slider
  range appears only as a hypothesis of `AdviceRules.AdviceScoresBounded`.

## Model

| member | source | states |
|---|---|---|
| `Survey.Rank` | arcs_for_students_app_web.py:103 | each factor has one position in the fixed order Attention, Relevance, Confidence, Satisfaction, and the order lists it there |
| `AdviceRules.DefaultFormGetsFallback` | arcs_for_students_app_web.py:22-25 | the slider default 50 is inside 1..100 and not low, and a form submitted with all four sliders at the default gets exactly the overall-state block and no factor advice |
| `AdviceRules.Block` | arcs_for_students_app_web.py:39-68 | a factor's block is about that factor, carries exactly the given score and that factor's advice and evaluation texts, and is never the overall-state block |
| `AdviceRules.FallbackIsAboutNoFactor` | arcs_for_students_app_web.py:70-76 | the overall-state block's question belongs to no factor |
| `AdviceRules.BlocksOf` | arcs_for_students_app_web.py:39-68 | one block per listed factor, position by position, each with that factor's own score |
| `AdviceRules.BuildAdvice` | arcs_for_students_app_web.py:36-76 | the list built by the four conditional appends plus the fallback append equals the table-driven advice list `Advice` |
| `AdviceRules.LowFactorsUnrolled` | arcs_for_students_app_web.py:36-68 | walking the factor table front to back keeps the same factors as the four appends made one after the other |
| `AdviceRules.LowFactorsSound` | arcs_for_students_app_web.py:38-68 | the rule table keeps only factors whose score is below 30, and at most as many as it has |
| `AdviceRules.LowFactorsComplete` | arcs_for_students_app_web.py:38-68 | the rule table keeps every factor whose score is below 30 |
| `AdviceRules.LowFactorsOrdered` | arcs_for_students_app_web.py:38-68 | walking an ordered table keeps the factors in that order |
| `AdviceRules.AdviceBlockIff` | arcs_for_students_app_web.py:38-62 | a factor has a block if and only if its score is strictly below 30 (a score of exactly 30 gets none) |
| `AdviceRules.AdviceOrder` | arcs_for_students_app_web.py:38-68 | blocks appear in strictly increasing factor order Attention, Relevance, Confidence, Satisfaction, so no factor has two blocks |
| `AdviceRules.AdviceBlockContents` | arcs_for_students_app_web.py:39-76 | every block is either the overall-state block or a low factor's block carrying that factor's own score, question, advice and evaluation |
| `AdviceRules.AdviceFallbackIff` | arcs_for_students_app_web.py:70-76 | the overall-state block is present if and only if all four scores are at least 30, and when present it is the only block |
| `AdviceRules.AdviceLength` | arcs_for_students_app_web.py:36-76 | the advice list is never empty and has at most four blocks, for any scores |
| `AdviceRules.AdviceScoresBounded` | arcs_for_students_app_web.py:22-68 | for slider-range input, every factor block's score lies in 1..29, and a block without a score occurs only as the lone overall-state block |
| `HtmlReport.NatDecimal` | arcs_for_students_app_web.py:84 | a score is written as at least one decimal digit, with no leading zero |
| `HtmlReport.DecimalRoundTrip` | arcs_for_students_app_web.py:84 | reading back the decimal text of any integer gives that integer, negatives included |
| `HtmlReport.NumberAtDecimal` | arcs_for_students_app_web.py:84 | a decimal written inside a text and followed by a non-digit or the end is read back there as the same integer |
| `HtmlReport.JoinShowsPiece` | arcs_for_students_app_web.py:79-93 | every interpolated piece of an f-string appears in its text, right after the pieces before it |
| `HtmlReport.BuildReport` | arcs_for_students_app_web.py:79-94 | the string built by the header assignment, the `+=` loop over the blocks and the final `</div>` equals `Report`: header, then the sections of all blocks in list order, then the footer |
| `HtmlReport.SectionsAppend` | arcs_for_students_app_web.py:87-93 | the sections of two lists joined are the sections of the first followed by those of the second |
| `HtmlReport.SectionShowsBlock` | arcs_for_students_app_web.py:88-93 | a block's section shows its question, advice and evaluation wording |
| `HtmlReport.SectionIgnoresScore` | arcs_for_students_app_web.py:88-93 | a section does not depend on the block's score: the score field, and so the overall block's `"-"`, is never printed in a section |
| `HtmlReport.HeaderShowsScore` | arcs_for_students_app_web.py:84 | each factor's score stands in the header in decimal at that factor's score position, directly after that factor's own label (`注意: `, `｜関連性: `, `｜自信: `, `｜満足感: `) and directly before a non-digit |
| `HtmlReport.HeaderShows` | arcs_for_students_app_web.py:79-86 | the header shows the name directly after `氏名：</strong>`, the timestamp directly after `日時：</strong>`, and each factor's score directly after its own label, each at its fixed piece position |
| `HtmlReport.ReportFrame` | arcs_for_students_app_web.py:79-94 | the report starts with the header and ends with `</div>` |
| `HtmlReport.SectionsAround` | arcs_for_students_app_web.py:87-93 | the sections of a list are those before block i, then block i's, then those after it |
| `HtmlReport.ReportPlacesSection` | arcs_for_students_app_web.py:87-94 | block i's section occurs in the report right after the header and the sections of blocks 0..i-1, and block i+1's starts where it ends, with the footer after the last |
| `HtmlReport.ReportShowsBlock` | arcs_for_students_app_web.py:87-94 | the report shows every block's question, advice and evaluation |
| `HtmlReport.ReportShowsHeader` | arcs_for_students_app_web.py:79-94 | the report shows the name, the timestamp and every factor's score at the same positions and after the same labels as the header |
| `HtmlReport.ReportReadsScores` | arcs_for_students_app_web.py:79-94 | reading the number at a factor's score position in the report gives back exactly that factor's submitted score |
| `ChartData.Chart` | arcs_for_students_app_web.py:102-105 | the chart table has exactly four rows, labelled in the fixed factor order, each paired with that factor's submitted score |
| `ChartData.ChartRoundTrip` | arcs_for_students_app_web.py:102-105 | the scores can be read back unchanged from the chart table |
| `ChartData.ChartBarOf` | arcs_for_students_app_web.py:103-104 | every factor's bar sits at that factor's position with its label and score |
| `Diagnosis.Diagnose` | arcs_for_students_app_web.py:28-105 | the submit handler yields the advice list `Advice`, the report of exactly that list, and the chart of the same scores |
| `Diagnosis.ReportShowsLowFactor` | arcs_for_students_app_web.py:36-94 | when a factor's score is below 30, the report shows that factor's question, advice and evaluation |
| `Diagnosis.ReportShowsOverallState` | arcs_for_students_app_web.py:70-94 | when no score is below 30, the report shows the overall-state question, advice and evaluation |
| `Diagnosis.ChartAgreesWithAdvice` | arcs_for_students_app_web.py:36-105 | a chart bar is below 30 exactly when its factor has a block in the advice |

## Left out

- The Streamlit page, form, sliders, subheaders, markdown and `components.html` calls (lines 13-34, 95-99 and 115-121) are user-interface plumbing. Only the slider range 1..100 and the default 50 are kept.
- `datetime.now()` (line 29) reads the clock. The timestamp is an opaque string parameter.
- The matplotlib figure and the pandas DataFrame mechanics (lines 107-113) are rendering in foreign libraries. Only the two columns of the chart table are kept.
- The student ID (line 21) is read but never used by the script. `Diagnosis.Diagnose` accepts it and ignores it.
- No history, delta-from-previous rule, correlation, persistence or 1–7 scale exists in this script, so none is modelled.
- The model does not prove that the wordings of different messages are distinct strings. A block is recognised by its `Message`, not by comparing the rendered text.
- The report properties say what the report contains and where. They do not prove the converse of `Diagnosis.ReportShowsLowFactor`, that a factor without a block has none of its text in the report: the name, typed freely, could contain it.
