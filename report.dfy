/** The printable HTML report: a header with the name, the timestamp and the
    four scores, one section per advice block in list order, and a closing tag. */
module HtmlReport {
  import opened Survey
  import opened AdviceRules

  // ----- Decimal rendering of a score, as an f-string writes an int -----

  predicate IsDigit(c: char)
  {
    '0' <= c <= '9'
  }

  predicate AllDigits(t: string)
  {
    forall i :: 0 <= i < |t| ==> IsDigit(t[i])
  }

  function DigitChar(d: int): (c: char)
    requires 0 <= d < 10
    ensures IsDigit(c) && c as int - '0' as int == d
  {
    ('0' as int + d) as char
  }

  /** Decimal digits of n, most significant first, without leading zeros. */
  function NatDecimal(n: nat): (t: string)
    ensures |t| >= 1 && AllDigits(t)
    ensures n > 0 ==> t[0] != '0'
    decreases n
  {
    if n < 10 then [DigitChar(n)] else NatDecimal(n / 10) + [DigitChar(n % 10)]
  }

  /** The text an f-string produces for an int: a minus sign for negatives, then the digits. */
  function Decimal(n: int): string
  {
    if n < 0 then "-" + NatDecimal(-n) else NatDecimal(n)
  }

  /** The value of a string of decimal digits. */
  function DigitsValue(t: string): nat
    requires AllDigits(t)
    decreases |t|
  {
    if t == [] then 0 else 10 * DigitsValue(t[..|t| - 1]) + (t[|t| - 1] as int - '0' as int)
  }

  predicate IsDecimal(t: string)
  {
    (|t| >= 1 && AllDigits(t)) || (|t| >= 2 && t[0] == '-' && AllDigits(t[1..]))
  }

  /** Reads back a decimal rendering. */
  function ParseDecimal(t: string): int
    requires IsDecimal(t)
  {
    if t[0] == '-' then -(DigitsValue(t[1..]) as int) else DigitsValue(t)
  }

  lemma {:induction false} NatDecimalRoundTrip(n: nat)
    ensures DigitsValue(NatDecimal(n)) == n
    decreases n
  {
    if n >= 10 {
      NatDecimalRoundTrip(n / 10);
      var t := NatDecimal(n);
      assert t[..|t| - 1] == NatDecimal(n / 10);
    }
  }

  /** The score printed in the header determines the score: rendering loses nothing. */
  lemma DecimalRoundTrip(n: int)
    ensures IsDecimal(Decimal(n)) && ParseDecimal(Decimal(n)) == n
  {
    if n < 0 {
      NatDecimalRoundTrip(-n);
      assert Decimal(n)[1..] == NatDecimal(-n);
    } else {
      NatDecimalRoundTrip(n);
    }
  }

  /** The digits found in t from position k on, up to the first non-digit. */
  function DigitRun(t: string, k: nat): (d: string)
    requires k <= |t|
    ensures AllDigits(d) && k + |d| <= |t|
    decreases |t| - k
  {
    if k < |t| && IsDigit(t[k]) then [t[k]] + DigitRun(t, k + 1) else ""
  }

  /** The integer written in t at position k: an optional minus sign, then a run of digits. */
  function NumberAt(t: string, k: nat): int
    requires k <= |t|
  {
    if k < |t| && t[k] == '-' then -(DigitsValue(DigitRun(t, k + 1)) as int) else DigitsValue(DigitRun(t, k))
  }

  /** A run of digits that ends at the end of t or before a non-digit is the whole digit run there. */
  lemma {:induction false} DigitRunOf(t: string, k: nat, d: string)
    requires OccursAt(d, t, k) && AllDigits(d)
    requires k + |d| == |t| || !IsDigit(t[k + |d|])
    ensures DigitRun(t, k) == d
    decreases |d|
  {
    if d != [] {
      assert t[k] == t[k..k + |d|][0] == d[0];
      assert t[k + 1..k + 1 + |d[1..]|] == t[k..k + |d|][1..];
      DigitRunOf(t, k + 1, d[1..]);
      assert d == [d[0]] + d[1..];
    }
  }

  /** An integer written in decimal inside a text, followed by a non-digit or the end, is read back as that integer. */
  lemma NumberAtDecimal(t: string, k: nat, n: int)
    requires OccursAt(Decimal(n), t, k)
    requires k + |Decimal(n)| == |t| || !IsDigit(t[k + |Decimal(n)|])
    ensures NumberAt(t, k) == n
  {
    var d := Decimal(n);
    assert t[k] == t[k..k + |d|][0] == d[0];
    if n < 0 {
      var m := NatDecimal(-n);
      assert d == "-" + m;
      assert t[k + 1..k + 1 + |m|] == t[k..k + |d|][1..] == m;
      DigitRunOf(t, k + 1, m);
      NatDecimalRoundTrip(-n);
    } else {
      assert IsDigit(d[0]);
      DigitRunOf(t, k, d);
      NatDecimalRoundTrip(n);
    }
  }

  // ----- Templates -----

  const HeaderOpen := "\n    <div style=\"font-family: Arial, sans-serif; border:1px solid #ccc; padding:20px;\">\n    <p><strong>氏名：</strong>"
  const TimeLabel := "　　<strong>日時：</strong>"
  const ScoresIntro := "</p>\n    <p style=\"margin-top: 1em; color: #444;\">このレポートは印刷するか、PDF等で保存しておきましょう。</p>\n    <p style=\"margin-top: 1.5em;\"><strong style=\"font-size: 20px;\">【スコア】</strong><br>\n    <span style=\"font-size: 22px;\">"
  const AttentionLabel := "注意: "
  const RelevanceLabel := "｜関連性: "
  const ConfidenceLabel := "｜自信: "
  const SatisfactionLabel := "｜満足感: "
  const HeaderClose := "</span></p>\n    <hr>\n    "

  const SectionOpen := "\n        <h4>■ 質問："
  const AdviceLabel := "</h4>\n        <p><strong>▶ アドバイス：</strong>"
  const EvaluationLabel := "</p>\n        <p><strong>▶ 自己評価方法：</strong>"
  const SectionClose := "</p>\n        <hr>\n        "

  const Footer := "</div>"

  /** The text of an f-string: its literal and interpolated pieces, concatenated in order. */
  function Join(pieces: seq<string>): string
  {
    if pieces == [] then "" else pieces[0] + Join(pieces[1..])
  }

  /** The pieces of the report header: name, timestamp, then the four scores in the fixed order. */
  function HeaderPieces(name: string, now: string, s: Scores): seq<string>
  {
    [HeaderOpen, name, TimeLabel, now, ScoresIntro, AttentionLabel, Decimal(s.attention),
     RelevanceLabel, Decimal(s.relevance), ConfidenceLabel, Decimal(s.confidence),
     SatisfactionLabel, Decimal(s.satisfaction), HeaderClose]
  }

  function Header(name: string, now: string, s: Scores): string
  {
    Join(HeaderPieces(name, now, s))
  }

  /** The pieces of one report section: the block's question, advice and evaluation (its score is not shown). */
  function SectionPieces(b: AdviceBlock): seq<string>
  {
    [SectionOpen, Wording(b.question), AdviceLabel, Wording(b.advice),
     EvaluationLabel, Wording(b.evaluation), SectionClose]
  }

  function Section(b: AdviceBlock): string
  {
    Join(SectionPieces(b))
  }

  /** The sections of a list of blocks, in list order. */
  function Sections(bs: seq<AdviceBlock>): string
    decreases |bs|
  {
    if bs == [] then "" else Sections(bs[..|bs| - 1]) + Section(bs[|bs| - 1])
  }

  /** The whole report for a name, a timestamp, the scores and the advice list. */
  function Report(name: string, now: string, s: Scores, bs: seq<AdviceBlock>): string
  {
    Header(name, now, s) + Sections(bs) + Footer
  }

  /** Builds the report as the script does: the header, then one section per block, then the footer. */
  method BuildReport(name: string, now: string, s: Scores, adviceBlocks: seq<AdviceBlock>) returns (htmlBlocks: string)
    ensures htmlBlocks == Report(name, now, s, adviceBlocks)
  {
    ghost var header := Header(name, now, s);
    htmlBlocks := Header(name, now, s);
    for i := 0 to |adviceBlocks|
      invariant htmlBlocks == header + Sections(adviceBlocks[..i])
    {
      assert adviceBlocks[..i + 1][..i] == adviceBlocks[..i];
      AppendAssoc(header, Sections(adviceBlocks[..i]), Section(adviceBlocks[i]));
      htmlBlocks := htmlBlocks + Section(adviceBlocks[i]);
    }
    assert adviceBlocks[..|adviceBlocks|] == adviceBlocks;
    htmlBlocks := htmlBlocks + Footer;
  }

  // ----- Where things appear in the text -----

  lemma AppendAssoc(a: string, b: string, c: string)
    ensures (a + b) + c == a + (b + c)
  {
  }

  /** sub is found in t starting at position k. */
  predicate OccursAt(sub: string, t: string, k: int)
  {
    0 <= k && k + |sub| <= |t| && t[k..k + |sub|] == sub
  }

  ghost predicate Contains(t: string, sub: string)
  {
    exists k :: OccursAt(sub, t, k)
  }

  lemma OccursAtStart(sub: string, q: string)
    ensures OccursAt(sub, sub + q, 0)
  {
  }

  lemma OccursAfter(sub: string, t: string, k: int, p: string)
    requires OccursAt(sub, t, k)
    ensures OccursAt(sub, p + t, |p| + k)
  {
  }

  lemma OccursBefore(sub: string, t: string, k: int, q: string)
    requires OccursAt(sub, t, k)
    ensures OccursAt(sub, t + q, k)
  {
  }

  /** An occurrence inside an occurrence is an occurrence. */
  lemma OccursWithin(a: string, b: string, c: string, i: int, j: int)
    requires OccursAt(a, b, i) && OccursAt(b, c, j)
    ensures OccursAt(a, c, j + i)
  {
    forall n | 0 <= n < |a| ensures c[j + i..j + i + |a|][n] == a[n] {
      assert a[n] == b[i..i + |a|][n] == b[i + n];
      assert b[i + n] == c[j..j + |b|][i + n] == c[j + i + n];
    }
    assert c[j + i..j + i + |a|] == a;
  }

  /** Every piece of an f-string appears in its text, after the pieces before it. */
  lemma {:induction false} JoinShowsPiece(pieces: seq<string>, k: nat)
    requires k < |pieces|
    ensures OccursAt(pieces[k], Join(pieces), |Join(pieces[..k])|)
  {
    if k == 0 {
      OccursAtStart(pieces[0], Join(pieces[1..]));
      assert pieces[..0] == [];
    } else {
      var rest := pieces[1..];
      JoinShowsPiece(rest, k - 1);
      assert rest[k - 1] == pieces[k];
      OccursAfter(pieces[k], Join(rest), |Join(rest[..k - 1])|, pieces[0]);
      assert pieces[..k][1..] == rest[..k - 1];
    }
  }

  lemma {:induction false} JoinAppend(xs: seq<string>, ys: seq<string>)
    ensures Join(xs + ys) == Join(xs) + Join(ys)
    decreases |xs|
  {
    if xs == [] {
      assert xs + ys == ys;
    } else {
      assert (xs + ys)[1..] == xs[1..] + ys;
      JoinAppend(xs[1..], ys);
      AppendAssoc(xs[0], Join(xs[1..]), Join(ys));
    }
  }

  /** Piece k + 1 of an f-string starts right where piece k ends. */
  lemma JoinNext(pieces: seq<string>, k: nat)
    requires k < |pieces|
    ensures |Join(pieces[..k + 1])| == |Join(pieces[..k])| + |pieces[k]|
  {
    assert pieces[..k + 1] == pieces[..k] + [pieces[k]];
    JoinAppend(pieces[..k], [pieces[k]]);
    assert [pieces[k]][1..] == [];
  }

  /** Piece k of an f-string follows piece k - 1 directly. */
  lemma JoinShowsLabelled(ps: seq<string>, k: nat)
    requires 1 <= k < |ps|
    ensures OccursAt(ps[k - 1], Join(ps), |Join(ps[..k])| - |ps[k - 1]|)
    ensures OccursAt(ps[k], Join(ps), |Join(ps[..k])|)
  {
    JoinShowsPiece(ps, k - 1);
    JoinNext(ps, k - 1);
    JoinShowsPiece(ps, k);
  }

  /** The character right after piece k of an f-string is the first character of piece k + 1. */
  lemma JoinShowsNext(ps: seq<string>, k: nat)
    requires k + 1 < |ps| && |ps[k + 1]| > 0
    ensures |Join(ps[..k])| + |ps[k]| < |Join(ps)|
    ensures Join(ps)[|Join(ps[..k])| + |ps[k]|] == ps[k + 1][0]
  {
    JoinNext(ps, k);
    JoinShowsPiece(ps, k + 1);
    var t, e := Join(ps), |Join(ps[..k + 1])|;
    assert t[e] == t[e..e + |ps[k + 1]|][0];
  }

  /** Piece k of an f-string stands right after piece k - 1 and right before a non-digit,
      when piece k + 1 starts with one. */
  lemma JoinShowsBetween(ps: seq<string>, k: nat)
    requires 1 <= k && k + 1 < |ps| && |ps[k + 1]| > 0 && !IsDigit(ps[k + 1][0])
    ensures LabelledAt(Join(ps), |Join(ps[..k])|, ps[k - 1], ps[k])
  {
    JoinShowsLabelled(ps, k);
    JoinShowsNext(ps, k);
  }

  lemma LabelledAtExtend(h: string, q: string, k: int, caption: string, d: string)
    requires LabelledAt(h, k, caption, d)
    ensures LabelledAt(h + q, k, caption, d)
  {
    OccursBefore(caption, h, k - |caption|, q);
    OccursBefore(d, h, k, q);
    assert (h + q)[k + |d|] == h[k + |d|];
  }

  /** What stands in a prefix of a text stands in the text. */
  lemma ShowsHeaderFieldsExtend(h: string, q: string, name: string, now: string, s: Scores)
    requires ShowsHeaderFields(h, name, now, s)
    ensures ShowsHeaderFields(h + q, name, now, s)
  {
    OccursBefore(HeaderOpen, h, NameStart(name, now, s) - |HeaderOpen|, q);
    OccursBefore(name, h, NameStart(name, now, s), q);
    OccursBefore(TimeLabel, h, TimeStart(name, now, s) - |TimeLabel|, q);
    OccursBefore(now, h, TimeStart(name, now, s), q);
    forall f: Factor ensures ShowsScore(h + q, name, now, s, f) {
      assert ShowsScore(h, name, now, s, f);
      LabelledAtExtend(h, q, ScoreStart(name, now, s, f), ScoreLabel(f), Decimal(ScoreOf(s, f)));
    }
  }

  lemma SectionsAppend(xs: seq<AdviceBlock>, ys: seq<AdviceBlock>)
    ensures Sections(xs + ys) == Sections(xs) + Sections(ys)
    decreases |ys|
  {
    if ys == [] {
      assert xs + ys == xs;
    } else {
      var ys' := ys[..|ys| - 1];
      assert (xs + ys)[..|xs + ys| - 1] == xs + ys';
      SectionsAppend(xs, ys');
      AppendAssoc(Sections(xs), Sections(ys'), Section(ys[|ys| - 1]));
    }
  }

  /** The section of a block shows the block's question, advice and evaluation. */
  lemma SectionShowsBlock(b: AdviceBlock)
    ensures Contains(Section(b), Wording(b.question))
    ensures Contains(Section(b), Wording(b.advice))
    ensures Contains(Section(b), Wording(b.evaluation))
  {
    JoinShowsPiece(SectionPieces(b), 1);
    JoinShowsPiece(SectionPieces(b), 3);
    JoinShowsPiece(SectionPieces(b), 5);
  }

  /** A section does not depend on the block's score: the score field, and so the overall block's "-", is never printed in a section. */
  lemma SectionIgnoresScore(b: AdviceBlock, v: ScoreField)
    ensures Section(b.(score := v)) == Section(b)
  {
  }

  /** Where piece k of the header starts. */
  function HeaderAt(name: string, now: string, s: Scores, k: nat): nat
    requires k <= |HeaderPieces(name, now, s)|
  {
    |Join(HeaderPieces(name, now, s)[..k])|
  }

  /** Where the name starts in the header. */
  function NameStart(name: string, now: string, s: Scores): nat
  {
    HeaderAt(name, now, s, 1)
  }

  /** Where the timestamp starts in the header. */
  function TimeStart(name: string, now: string, s: Scores): nat
  {
    HeaderAt(name, now, s, 3)
  }

  /** Where factor f's score starts in the header. */
  function ScoreStart(name: string, now: string, s: Scores, f: Factor): nat
  {
    HeaderAt(name, now, s, 6 + 2 * Rank(f))
  }

  /** The label printed in front of a factor's score. */
  function ScoreLabel(f: Factor): string
  {
    match f
    case Attention => AttentionLabel
    case Relevance => RelevanceLabel
    case Confidence => ConfidenceLabel
    case Satisfaction => SatisfactionLabel
  }

  /** d stands in t at position k, right after caption and followed by a non-digit. */
  ghost predicate LabelledAt(t: string, k: int, caption: string, d: string)
  {
    && OccursAt(caption, t, k - |caption|)
    && OccursAt(d, t, k)
    && k + |d| < |t|
    && !IsDigit(t[k + |d|])
  }

  /** Factor f's score stands in text t in decimal, right after f's label and followed by a non-digit. */
  ghost predicate ShowsScore(t: string, name: string, now: string, s: Scores, f: Factor)
  {
    LabelledAt(t, ScoreStart(name, now, s, f), ScoreLabel(f), Decimal(ScoreOf(s, f)))
  }

  /** What the header shows, found in text t: the name right after its label, the timestamp right
      after its label, and each factor's score after that factor's label. */
  ghost predicate ShowsHeaderFields(t: string, name: string, now: string, s: Scores)
  {
    && OccursAt(HeaderOpen, t, NameStart(name, now, s) - |HeaderOpen|) && OccursAt(name, t, NameStart(name, now, s))
    && OccursAt(TimeLabel, t, TimeStart(name, now, s) - |TimeLabel|) && OccursAt(now, t, TimeStart(name, now, s))
    && (forall f: Factor :: ShowsScore(t, name, now, s, f))
  }

  /** Score piece k of the header stands right after its label piece and before a non-digit. */
  lemma HeaderLabelledAt(name: string, now: string, s: Scores, k: nat)
    requires k == 6 || k == 8 || k == 10 || k == 12
    ensures LabelledAt(Header(name, now, s), HeaderAt(name, now, s, k),
                       HeaderPieces(name, now, s)[k - 1], HeaderPieces(name, now, s)[k])
  {
    var ps := HeaderPieces(name, now, s);
    assert |ps[k + 1]| > 0 && !IsDigit(ps[k + 1][0]) by {
      if k == 6 {
        assert ps[k + 1] == RelevanceLabel;
      } else if k == 8 {
        assert ps[k + 1] == ConfidenceLabel;
      } else if k == 10 {
        assert ps[k + 1] == SatisfactionLabel;
      } else {
        assert ps[k + 1] == HeaderClose;
      }
    }
    JoinShowsBetween(ps, k);
  }

  /** The header shows factor f's score after f's label. */
  lemma HeaderShowsScore(name: string, now: string, s: Scores, f: Factor)
    ensures ShowsScore(Header(name, now, s), name, now, s, f)
  {
    var k := 6 + 2 * Rank(f);
    HeaderLabelledAt(name, now, s, k);
    assert HeaderPieces(name, now, s)[k - 1] == ScoreLabel(f) && HeaderPieces(name, now, s)[k] == Decimal(ScoreOf(s, f)) by {
      match f
      case Attention =>
      case Relevance =>
      case Confidence =>
      case Satisfaction =>
    }
  }

  /** The header shows the name, the timestamp and every factor's score, each after its own label. */
  lemma HeaderShows(name: string, now: string, s: Scores)
    ensures ShowsHeaderFields(Header(name, now, s), name, now, s)
  {
    var ps := HeaderPieces(name, now, s);
    JoinShowsLabelled(ps, 1);
    JoinShowsLabelled(ps, 3);
    forall f: Factor ensures ShowsScore(Header(name, now, s), name, now, s, f) {
      HeaderShowsScore(name, now, s, f);
    }
  }

  /** The report begins with the header and ends with the closing tag. */
  lemma ReportFrame(name: string, now: string, s: Scores, bs: seq<AdviceBlock>)
    ensures OccursAt(Header(name, now, s), Report(name, now, s, bs), 0)
    ensures OccursAt(Footer, Report(name, now, s, bs), |Report(name, now, s, bs)| - |Footer|)
  {
  }

  /** Where the section of block i starts: after the header and the sections of the blocks before it. */
  function SectionStart(name: string, now: string, s: Scores, bs: seq<AdviceBlock>, i: nat): nat
    requires i <= |bs|
  {
    |Header(name, now, s)| + |Sections(bs[..i])|
  }

  lemma SplitAround<T>(xs: seq<T>, i: nat)
    requires i < |xs|
    ensures xs == xs[..i] + ([xs[i]] + xs[i + 1..])
    ensures xs[..i + 1] == xs[..i] + [xs[i]]
  {
  }

  /** The sections of a list split around block i. */
  lemma SectionsAround(bs: seq<AdviceBlock>, i: nat)
    requires i < |bs|
    ensures Sections(bs) == Sections(bs[..i]) + (Section(bs[i]) + Sections(bs[i + 1..]))
    ensures Sections(bs[..i + 1]) == Sections(bs[..i]) + Section(bs[i])
  {
    var pre, post, b := bs[..i], bs[i + 1..], bs[i];
    assert Sections([b]) == Section(b) by {
      assert [b][..0] == [];
    }
    SplitAround(bs, i);
    SectionsAppend(pre, [b] + post);
    SectionsAppend([b], post);
    SectionsAppend(pre, [b]);
  }

  /** Block i's section appears in the report, right before block i + 1's: one section per block, in list order. */
  lemma ReportPlacesSection(name: string, now: string, s: Scores, bs: seq<AdviceBlock>, i: nat)
    requires i < |bs|
    ensures OccursAt(Section(bs[i]), Report(name, now, s, bs), SectionStart(name, now, s, bs, i))
    ensures SectionStart(name, now, s, bs, i) + |Section(bs[i])| == SectionStart(name, now, s, bs, i + 1)
    ensures SectionStart(name, now, s, bs, |bs|) + |Footer| == |Report(name, now, s, bs)|
  {
    var h, sec := Header(name, now, s), Section(bs[i]);
    var sp, sq := Sections(bs[..i]), Sections(bs[i + 1..]);
    SectionsAround(bs, i);
    assert bs[..|bs|] == bs;
    OccursAtStart(sec, sq);
    OccursAfter(sec, sec + sq, 0, sp);
    OccursAfter(sec, sp + (sec + sq), |sp|, h);
    OccursBefore(sec, h + (sp + (sec + sq)), |h| + |sp|, Footer);
  }

  /** The report shows every block's question, advice and evaluation. */
  lemma ReportShowsBlock(name: string, now: string, s: Scores, bs: seq<AdviceBlock>, i: nat)
    requires i < |bs|
    ensures Contains(Report(name, now, s, bs), Wording(bs[i].question))
    ensures Contains(Report(name, now, s, bs), Wording(bs[i].advice))
    ensures Contains(Report(name, now, s, bs), Wording(bs[i].evaluation))
  {
    var r, b := Report(name, now, s, bs), bs[i];
    var k := SectionStart(name, now, s, bs, i);
    ReportPlacesSection(name, now, s, bs, i);
    SectionShowsBlock(b);
    var kq :| OccursAt(Wording(b.question), Section(b), kq);
    var ka :| OccursAt(Wording(b.advice), Section(b), ka);
    var ke :| OccursAt(Wording(b.evaluation), Section(b), ke);
    OccursWithin(Wording(b.question), Section(b), r, kq, k);
    OccursWithin(Wording(b.advice), Section(b), r, ka, k);
    OccursWithin(Wording(b.evaluation), Section(b), r, ke, k);
  }

  /** The report shows the name, the timestamp and every factor's score, each after its own label. */
  lemma ReportShowsHeader(name: string, now: string, s: Scores, bs: seq<AdviceBlock>)
    ensures ShowsHeaderFields(Report(name, now, s, bs), name, now, s)
  {
    var h := Header(name, now, s);
    HeaderShows(name, now, s);
    ShowsHeaderFieldsExtend(h, Sections(bs), name, now, s);
    ShowsHeaderFieldsExtend(h + Sections(bs), Footer, name, now, s);
  }

  /** A number written right after a caption and followed by a non-digit reads back as itself. */
  lemma LabelledNumber(t: string, k: int, caption: string, n: int)
    requires LabelledAt(t, k, caption, Decimal(n))
    ensures 0 <= k <= |t| && NumberAt(t, k) == n
  {
    NumberAtDecimal(t, k, n);
  }

  /** Reading the number after a factor's label in the report gives that factor's score back. */
  lemma ReportReadsScores(name: string, now: string, s: Scores, bs: seq<AdviceBlock>)
    ensures forall f: Factor ::
      ScoreStart(name, now, s, f) <= |Report(name, now, s, bs)| &&
      NumberAt(Report(name, now, s, bs), ScoreStart(name, now, s, f)) == ScoreOf(s, f)
  {
    var r := Report(name, now, s, bs);
    ReportShowsHeader(name, now, s, bs);
    forall f: Factor
      ensures ScoreStart(name, now, s, f) <= |r| && NumberAt(r, ScoreStart(name, now, s, f)) == ScoreOf(s, f)
    {
      assert ShowsScore(r, name, now, s, f);
      LabelledNumber(r, ScoreStart(name, now, s, f), ScoreLabel(f), ScoreOf(s, f));
    }
  }
}
