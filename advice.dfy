/** The advice rule: one block per factor whose score is below the
    threshold, in the fixed factor order, or a single overall-state block
    when no factor is low. */
module AdviceRules {
  import opened Wrappers
  import opened Survey

  /** The "score" entry of a block: a factor's score, or "-" for the overall-state block. */
  datatype ScoreField = Score(value: int) | NoScore

  /** The fixed texts a block can carry. The wording of each is given by Wording. */
  datatype Message =
    | FactorQuestion(f: Factor) | FactorAdvice(f: Factor) | FactorEvaluation(f: Factor)
    | OverallQuestion | OverallAdvice | OverallEvaluation

  /** One entry of the advice list: question, score, advice and self-evaluation text. */
  datatype AdviceBlock = AdviceBlock(question: Message, score: ScoreField, advice: Message, evaluation: Message)

  /** The wording of every fixed text. */
  function Wording(m: Message): string
  {
    match m
    case FactorQuestion(Attention) => "（指定された科目・課題について）学習にワクワク感がありますか？"
    case FactorAdvice(Attention) => "最近の学習が退屈に感じるなら、「色を使ってノートを整理してみる」「生成AIを使って、学習内容をクイズ形式にしてみる」といった工夫を試してみましょう。"
    case FactorEvaluation(Attention) => "次の学習時に「内容を思い出しやすかったか」「次に学ぶことにワクワクできたか」を振り返って○△×で記録してみましょう。"
    case FactorQuestion(Relevance) => "ここでの学びは自分に関係があると感じますか？"
    case FactorAdvice(Relevance) => "学んでいることが自分に関係ないと感じたら、「ここで学ぶ知識やスキルが将来どんなことに役立つか」を検索して、具体例を書き出してみましょう。"
    case FactorEvaluation(Relevance) => "例を探したあとの気持ちを書き出して、「自分との関連性を、自分なりに納得できたか」をメモに残しておきましょう。"
    case FactorQuestion(Confidence) => "この科目・課題をやりきれる自信はありますか？"
    case FactorAdvice(Confidence) => "難しそうだと感じたら、「一番簡単そうなところだけやってみる」「5分だけタイマーをセットして取りかかる」など、細切れにしてできるところから順番に進める方法を始めてみましょう。"
    case FactorEvaluation(Confidence) => "細切れにしてみた後、「やってみたら案外できたか？」を思い出して、○×△で記録しておきましょう。"
    case FactorQuestion(Satisfaction) => "ここまでの自分の学びに満足していますか？"
    case FactorAdvice(Satisfaction) => "ここまでに学んだことを「一言で説明する」「友達や家族に話す」「SNSや日記に書く」など、言葉にしてアウトプットすることで達成感を得やすくなります。"
    case FactorEvaluation(Satisfaction) => "その行動の後、「気分が少しでもよくなったかどうか」「振り返って意味を感じられたか」をチェックしてみましょう。"
    case OverallQuestion => "全体の状態"
    case OverallAdvice => "現在のモチベーションは良好のようです。この調子で継続して学習を進めましょう！"
    case OverallEvaluation => "定期的に記録して、状態の変化を確認するのがおすすめです。"
  }

  /** The overall-state block, used only when no factor is low. */
  const Fallback := AdviceBlock(OverallQuestion, NoScore, OverallAdvice, OverallEvaluation)

  /** The factor a block is about, recognised by its question; None for the overall-state question. */
  function AboutFactor(b: AdviceBlock): Option<Factor>
  {
    match b.question
    case FactorQuestion(f) => Some(f)
    case _ => None
  }

  /** The advice block for factor f with score v: that factor's question, advice and evaluation. */
  function Block(f: Factor, v: int): (b: AdviceBlock)
    ensures AboutFactor(b) == Some(f) && b.score == Score(v)
    ensures b.advice == FactorAdvice(f) && b.evaluation == FactorEvaluation(f)
    ensures b != Fallback
  {
    AdviceBlock(FactorQuestion(f), Score(v), FactorAdvice(f), FactorEvaluation(f))
  }

  /** The overall-state block is about no factor. */
  lemma FallbackIsAboutNoFactor()
    ensures AboutFactor(Fallback) == None
  {
  }

  /** Reference definition: walk the factor table and keep the factors whose score is low. */
  function LowFactors(fs: seq<Factor>, s: Scores): seq<Factor>
  {
    if fs == [] then []
    else (if IsLow(ScoreOf(s, fs[0])) then [fs[0]] else []) + LowFactors(fs[1..], s)
  }

  /** One block per listed factor, carrying that factor's score. */
  function BlocksOf(fs: seq<Factor>, s: Scores): (bs: seq<AdviceBlock>)
    ensures |bs| == |fs|
    ensures forall i :: 0 <= i < |fs| ==> bs[i] == Block(fs[i], ScoreOf(s, fs[i]))
  {
    if fs == [] then [] else [Block(fs[0], ScoreOf(s, fs[0]))] + BlocksOf(fs[1..], s)
  }

  /** The advice list for one submission. */
  function Advice(s: Scores): seq<AdviceBlock>
  {
    var low := LowFactors(Factors, s);
    if low == [] then [Fallback] else BlocksOf(low, s)
  }

  /** Builds the advice list by conditional appends, in the order the form asks. */
  method BuildAdvice(s: Scores) returns (adviceBlocks: seq<AdviceBlock>)
    ensures adviceBlocks == Advice(s)
  {
    ghost var kept: seq<Factor> := [];
    adviceBlocks := [];
    if s.attention < LowThreshold {
      adviceBlocks := adviceBlocks + [AdviceBlock(FactorQuestion(Attention), Score(s.attention), FactorAdvice(Attention), FactorEvaluation(Attention))];
      BlocksOfSnoc(kept, Attention, s);
      kept := kept + [Attention];
    }
    assert adviceBlocks == BlocksOf(kept, s) && kept == LowFactorsUpTo(s, 1);
    if s.relevance < LowThreshold {
      adviceBlocks := adviceBlocks + [AdviceBlock(FactorQuestion(Relevance), Score(s.relevance), FactorAdvice(Relevance), FactorEvaluation(Relevance))];
      BlocksOfSnoc(kept, Relevance, s);
      kept := kept + [Relevance];
    }
    assert adviceBlocks == BlocksOf(kept, s) && kept == LowFactorsUpTo(s, 2);
    if s.confidence < LowThreshold {
      adviceBlocks := adviceBlocks + [AdviceBlock(FactorQuestion(Confidence), Score(s.confidence), FactorAdvice(Confidence), FactorEvaluation(Confidence))];
      BlocksOfSnoc(kept, Confidence, s);
      kept := kept + [Confidence];
    }
    assert adviceBlocks == BlocksOf(kept, s) && kept == LowFactorsUpTo(s, 3);
    if s.satisfaction < LowThreshold {
      adviceBlocks := adviceBlocks + [AdviceBlock(FactorQuestion(Satisfaction), Score(s.satisfaction), FactorAdvice(Satisfaction), FactorEvaluation(Satisfaction))];
      BlocksOfSnoc(kept, Satisfaction, s);
      kept := kept + [Satisfaction];
    }
    assert adviceBlocks == BlocksOf(kept, s) && kept == LowFactorsUpTo(s, 4);
    LowFactorsUnrolled(s);
    if adviceBlocks == [] {
      adviceBlocks := adviceBlocks + [Fallback];
    }
  }

  /** The low factors among the first n factors of the fixed order, as the appends so far have kept them. */
  ghost function LowFactorsUpTo(s: Scores, n: nat): seq<Factor>
    requires n <= |Factors|
  {
    if n == 0 then []
    else LowFactorsUpTo(s, n - 1) + (if IsLow(ScoreOf(s, Factors[n - 1])) then [Factors[n - 1]] else [])
  }

  lemma BlocksOfSnoc(fs: seq<Factor>, f: Factor, s: Scores)
    ensures BlocksOf(fs + [f], s) == BlocksOf(fs, s) + [Block(f, ScoreOf(s, f))]
  {
  }

  /** The factor table walked out for the four fixed factors. */
  lemma LowFactorsUnrolled(s: Scores)
    ensures LowFactors(Factors, s) == LowFactorsUpTo(s, 4)
  {
    var fA := if IsLow(s.attention) then [Attention] else [];
    var fR := if IsLow(s.relevance) then [Relevance] else [];
    var fC := if IsLow(s.confidence) then [Confidence] else [];
    var fS := if IsLow(s.satisfaction) then [Satisfaction] else [];
    assert Factors[1..] == [Relevance, Confidence, Satisfaction];
    assert Factors[1..][1..] == [Confidence, Satisfaction];
    assert Factors[1..][1..][1..] == [Satisfaction];
    assert Factors[1..][1..][1..][1..] == [];
    assert LowFactors([Satisfaction], s) == fS;
    assert LowFactors([Confidence, Satisfaction], s) == fC + fS;
    assert LowFactors([Relevance, Confidence, Satisfaction], s) == fR + (fC + fS);
    assert LowFactors(Factors, s) == fA + (fR + (fC + fS));
    assert fA + (fR + (fC + fS)) == fA + fR + fC + fS;
    assert LowFactorsUpTo(s, 1) == fA;
    assert LowFactorsUpTo(s, 2) == fA + fR;
    assert LowFactorsUpTo(s, 3) == fA + fR + fC;
    assert LowFactorsUpTo(s, 4) == fA + fR + fC + fS;
  }

  // ----- Properties of the advice list -----

  /** Factors listed strictly in the fixed order (hence each at most once). */
  ghost predicate Increasing(fs: seq<Factor>)
  {
    forall i, j :: 0 <= i < j < |fs| ==> Rank(fs[i]) < Rank(fs[j])
  }

  /** Block b is the block of a low factor and carries that factor's score and texts. */
  ghost predicate IsLowBlock(b: AdviceBlock, s: Scores)
  {
    match AboutFactor(b)
    case None => false
    case Some(f) => IsLow(ScoreOf(s, f)) && b == Block(f, ScoreOf(s, f))
  }

  /** Some block of bs is about factor f. */
  ghost predicate HasBlockFor(bs: seq<AdviceBlock>, f: Factor)
  {
    exists i :: 0 <= i < |bs| && AboutFactor(bs[i]) == Some(f)
  }

  /** Any two blocks of bs are about factors in strictly increasing fixed order. */
  ghost predicate InFactorOrder(bs: seq<AdviceBlock>)
  {
    forall i, j :: 0 <= i < j < |bs| ==>
      AboutFactor(bs[i]).Some? && AboutFactor(bs[j]).Some? &&
      Rank(AboutFactor(bs[i]).value) < Rank(AboutFactor(bs[j]).value)
  }

  /** The table walk keeps only low factors of the table, and no more of them than the table has. */
  lemma {:induction false} LowFactorsSound(fs: seq<Factor>, s: Scores)
    ensures |LowFactors(fs, s)| <= |fs|
    ensures forall f :: f in LowFactors(fs, s) ==> f in fs && IsLow(ScoreOf(s, f))
  {
    if fs != [] {
      LowFactorsSound(fs[1..], s);
      assert forall f :: f in fs[1..] ==> f in fs;
    }
  }

  /** The table walk keeps every low factor of the table. */
  lemma {:induction false} LowFactorsComplete(fs: seq<Factor>, s: Scores, f: Factor)
    requires f in fs && IsLow(ScoreOf(s, f))
    ensures f in LowFactors(fs, s)
  {
    if f != fs[0] {
      assert f in fs[1..];
      LowFactorsComplete(fs[1..], s, f);
    }
  }

  /** Walking an increasing table keeps its order. */
  lemma {:induction false} LowFactorsOrdered(fs: seq<Factor>, s: Scores)
    requires Increasing(fs)
    ensures Increasing(LowFactors(fs, s))
  {
    if fs != [] {
      var rest := fs[1..];
      assert Increasing(rest) by {
        forall i, j | 0 <= i < j < |rest| ensures Rank(rest[i]) < Rank(rest[j]) {
          assert rest[i] == fs[i + 1] && rest[j] == fs[j + 1];
        }
      }
      LowFactorsOrdered(rest, s);
      LowFactorsSound(rest, s);
      var tail := LowFactors(rest, s);
      var head := if IsLow(ScoreOf(s, fs[0])) then [fs[0]] else [];
      var all := LowFactors(fs, s);
      assert all == head + tail;
      forall i, j | 0 <= i < j < |all| ensures Rank(all[i]) < Rank(all[j]) {
        assert all[j] == tail[j - |head|];
        if i >= |head| {
          assert all[i] == tail[i - |head|];
        } else {
          assert tail[j - |head|] in rest;
          var k :| 0 <= k < |rest| && rest[k] == tail[j - |head|];
          assert fs[k + 1] == all[j];
        }
      }
    }
  }

  lemma FactorsIncreasing()
    ensures Increasing(Factors)
  {
  }

  /** A factor gets a block exactly when its score is strictly below the threshold. */
  lemma AdviceBlockIff(s: Scores, f: Factor)
    ensures HasBlockFor(Advice(s), f) <==> IsLow(ScoreOf(s, f))
  {
    var low := LowFactors(Factors, s);
    LowFactorsSound(Factors, s);
    FallbackIsAboutNoFactor();
    if IsLow(ScoreOf(s, f)) {
      assert f == Factors[Rank(f)];
      LowFactorsComplete(Factors, s, f);
      var k :| 0 <= k < |low| && low[k] == f;
      assert AboutFactor(Advice(s)[k]) == Some(f);
    }
    if HasBlockFor(Advice(s), f) {
      var i :| 0 <= i < |Advice(s)| && AboutFactor(Advice(s)[i]) == Some(f);
      assert low != [];
      assert Advice(s)[i] == Block(low[i], ScoreOf(s, low[i]));
      assert low[i] == f;
    }
  }

  /** Blocks follow the fixed factor order, with at most one block per factor. */
  lemma AdviceOrder(s: Scores)
    ensures InFactorOrder(Advice(s))
    ensures forall i, j :: 0 <= i < j < |Advice(s)| ==> AboutFactor(Advice(s)[i]) != AboutFactor(Advice(s)[j])
  {
    FactorsIncreasing();
    LowFactorsOrdered(Factors, s);
  }

  /** Every block is the overall-state block or a low factor's block with its own score and texts. */
  lemma AdviceBlockContents(s: Scores)
    ensures forall i :: 0 <= i < |Advice(s)| ==> Advice(s)[i] == Fallback || IsLowBlock(Advice(s)[i], s)
  {
    var low := LowFactors(Factors, s);
    LowFactorsSound(Factors, s);
    forall i | 0 <= i < |Advice(s)| && low != [] ensures IsLowBlock(Advice(s)[i], s) {
      assert low[i] in low;
    }
  }

  /** The overall-state block appears exactly when no factor is low, and is then alone. */
  lemma AdviceFallbackIff(s: Scores)
    ensures Fallback in Advice(s) <==> NoneLow(s)
    ensures Fallback in Advice(s) ==> Advice(s) == [Fallback]
  {
    var low := LowFactors(Factors, s);
    LowFactorsSound(Factors, s);
    if low == [] {
      forall f: Factor ensures !IsLow(ScoreOf(s, f)) {
        assert f == Factors[Rank(f)];
        if IsLow(ScoreOf(s, f)) {
          LowFactorsComplete(Factors, s, f);
        }
      }
    } else {
      assert low[0] in low;
      assert Fallback !in BlocksOf(low, s);
    }
  }

  /** A form submitted with every slider left at its default gets only the overall-state block. */
  lemma DefaultFormGetsFallback()
    ensures MinScore <= DefaultScore <= MaxScore && !IsLow(DefaultScore)
    ensures Advice(Scores(DefaultScore, DefaultScore, DefaultScore, DefaultScore)) == [Fallback]
  {
    var s := Scores(DefaultScore, DefaultScore, DefaultScore, DefaultScore);
    assert NoneLow(s);
    AdviceFallbackIff(s);
  }

  /** The advice list is never empty and has at most one block per factor. */
  lemma AdviceLength(s: Scores)
    ensures 1 <= |Advice(s)| <= |Factors|
  {
    LowFactorsSound(Factors, s);
  }

  /** For slider-range input, every factor block's score lies in 1..29 and the overall block has none. */
  lemma AdviceScoresBounded(s: Scores)
    requires InSliderRange(s)
    ensures forall i :: 0 <= i < |Advice(s)| ==>
      match Advice(s)[i].score
      case Score(v) => MinScore <= v < LowThreshold
      case NoScore => Advice(s) == [Fallback]
  {
    var low := LowFactors(Factors, s);
    LowFactorsSound(Factors, s);
    if low != [] {
      forall i | 0 <= i < |low| ensures MinScore <= ScoreOf(s, low[i]) < LowThreshold {
        assert low[i] in low;
      }
    }
  }
}
