/**
 * The orchestration inside the assessment request handler: select the
 * parameters, run the updater, score, decide pass/fail, find the weak
 * concepts and, only on failure, the remediation videos.
 */
module Assess {
  import opened Wrappers
  import opened Params
  import opened RealFacts
  import opened Bkt
  import opened Concepts
  import opened Remediation
  import opened Rounding
  import JsKeys

  datatype AssessmentRequest = AssessmentRequest(
    subjectId: string,
    topicTitle: string,
    responses: seq<bool>,
    difficulty: string,
    questionConcepts: seq<string>)

  /** `responses.filter(Boolean).length`. */
  function CountCorrect(responses: seq<bool>): (n: nat)
    ensures n <= |responses|
    ensures n == |responses| <==> forall i :: 0 <= i < |responses| ==> responses[i]
    ensures n == 0 <==> forall i :: 0 <= i < |responses| ==> !responses[i]
    decreases |responses|
  {
    if responses == [] then 0
    else (if responses[0] then 1 else 0) + CountCorrect(responses[1..])
  }

  /** Counting right answers distributes over concatenation. */
  lemma {:induction false} CountCorrectAppend(a: seq<bool>, b: seq<bool>)
    ensures CountCorrect(a + b) == CountCorrect(a) + CountCorrect(b)
    decreases |a|
  {
    if a != [] {
      assert (a + b)[1..] == a[1..] + b;
      CountCorrectAppend(a[1..], b);
    } else {
      assert a + b == b;
    }
  }

  /**
   * `(correctAnswers / responses.length) * 100`. With no responses this is
   * 0 / 0, which is NaN, modelled as None.
   */
  function Score(correct: nat, total: nat): (s: Option<real>)
    requires correct <= total
    ensures s.None? <==> total == 0
    ensures s.Some? ==> s.value * (total as real) == 100.0 * (correct as real)
    ensures s.Some? ==> 0.0 <= s.value <= 100.0
  {
    if total == 0 then None
    else
      var s := (correct as real) / (total as real) * 100.0;
      assert (correct as real) / (total as real) * (total as real) == correct as real;
      assert s <= 100.0 by {
        assert (correct as real) / (total as real) <= 1.0;
      }
      Some(s)
  }

  /** `score >= 90 && finalMastery >= 0.7`; a comparison with NaN is false. */
  predicate Passed(score: Option<real>, finalMastery: real) {
    score.Some? && score.value >= 90.0 && finalMastery >= 0.7
  }

  /**
   * The pass rule in integers: at least nine right answers in ten, and a
   * final mastery of at least 0.7. Neither half is enough on its own.
   */
  lemma PassRule(correct: nat, total: nat, finalMastery: real)
    requires correct <= total
    ensures Passed(Score(correct, total), finalMastery) <==>
      total > 0 && 10 * correct >= 9 * total && finalMastery >= 0.7
  {
    if total > 0 {
      var s := Score(correct, total).value;
      var n := total as real;
      assert s * n == 100.0 * (correct as real);
      ScoreThreshold(s, n, correct as real);
    }
  }

  /** A percentage `s` of `n` questions with `c` right reaches 90 exactly when c / n reaches nine tenths. */
  lemma ScoreThreshold(s: real, n: real, c: real)
    requires n > 0.0 && s * n == 100.0 * c
    ensures s >= 90.0 <==> 10.0 * c >= 9.0 * n
  {
    assert (s - 90.0) * n == 100.0 * c - 90.0 * n;
    PositiveFactor(90.0 - s, n);
  }

  /** The unrounded outcome of one assessment. */
  datatype Analysis = Analysis(
    params: BktParams,
    run: BktRun,
    correctAnswers: nat,
    totalQuestions: nat,
    score: Option<real>,
    passed: bool,
    weakConcepts: seq<string>,
    remediationVideos: seq<Remedy>)

  /**
   * The handler as written: the weak concepts come from the plain-object
   * aggregator, so a tag named like a member of Object.prototype is never
   * reported. The remediation records are the own-key resolver's; on these
   * weak concepts the plain-object resolver yields exactly their spread
   * (HandlerRemediationAsWritten).
   */
  function Analyze(req: AssessmentRequest, encode: string -> string): (a: Analysis)
    ensures IsPreset(a.params) && a.params == DifficultyParams(req.difficulty)
    ensures FollowsStepRule(a.params, req.responses, a.run.trace)
    ensures |a.run.trace| == |req.responses| + 1
    ensures forall i :: 0 <= i < |a.run.trace| ==> IsProb(a.run.trace[i])
    ensures a.run.finalMastery == a.run.trace[|req.responses|] && IsProb(a.run.finalMastery)
    ensures a.totalQuestions == |req.responses|
    ensures a.correctAnswers == CountCorrect(req.responses)
    ensures a.score == Score(a.correctAnswers, a.totalQuestions)
    ensures a.passed <==>
      |req.responses| > 0 && 10 * a.correctAnswers >= 9 * |req.responses| && a.run.finalMastery >= 0.7
    ensures a.weakConcepts == WeakConceptsAsWritten(req.responses, req.questionConcepts)
    ensures a.passed ==> a.remediationVideos == []
    ensures !a.passed ==>
      a.remediationVideos == GetRemediationVideos(a.weakConcepts, req.subjectId, req.topicTitle, encode)
  {
    var params := DifficultyParams(req.difficulty);
    var run := RunBkt(params, req.responses);
    var correct := CountCorrect(req.responses);
    var score := Score(correct, |req.responses|);
    var passed := Passed(score, run.finalMastery);
    PassRule(correct, |req.responses|, run.finalMastery);
    TraceCharacterized(params, req.responses, run.trace);
    var weak := WeakConceptsAsWritten(req.responses, req.questionConcepts);
    var videos := if passed then [] else GetRemediationVideos(weak, req.subjectId, req.topicTitle, encode);
    Analysis(params, run, correct, |req.responses|, score, passed, weak, videos)
  }

  /**
   * On the weak concepts the plain-object aggregator reports, the
   * plain-object resolver and the own-key one agree: none of those concepts
   * is an inherited method, so every record is the spread of the own-key
   * one.
   */
  lemma AsWrittenResolverAgrees(responses: seq<bool>, concepts: seq<string>, subjectId: string, topicTitle: string, encode: string -> string)
    ensures var weak := WeakConceptsAsWritten(responses, concepts);
      var asWritten := GetRemediationVideosAsWritten(weak, subjectId, topicTitle, encode);
      var fixed := GetRemediationVideos(weak, subjectId, topicTitle, encode);
      && |asWritten| == |fixed|
      && forall i :: 0 <= i < |fixed| ==> asWritten[i] == Spread(fixed[i])
  {
    var weak := WeakConceptsAsWritten(responses, concepts);
    AsWrittenDropsInheritedNames(responses, concepts);
    JsKeys.InheritedNamesAreNamedKeys();
    AsWrittenDiffersOnlyOnInheritedMethods(weak, subjectId, topicTitle, encode);
    forall i | 0 <= i < |weak| ensures weak[i] !in JsKeys.InheritedMethodLength {
      assert weak[i] !in JsKeys.ObjectPrototypeNames;
    }
  }

  /**
   * The remediation records the handler sends on a failure are the spread
   * of the model's: the plain-object lookup never misfires inside the
   * handler.
   */
  lemma HandlerRemediationAsWritten(req: AssessmentRequest, encode: string -> string)
    ensures var a := Analyze(req, encode);
      var sent := GetRemediationVideosAsWritten(a.weakConcepts, req.subjectId, req.topicTitle, encode);
      !a.passed ==>
        && |sent| == |a.remediationVideos|
        && forall i :: 0 <= i < |sent| ==> sent[i] == Spread(a.remediationVideos[i])
  {
    AsWrittenResolverAgrees(req.responses, req.questionConcepts, req.subjectId, req.topicTitle, encode);
  }

  /**
   * The handler with the own-key aggregator. Everything but the weak
   * concepts and the remediation is the handler's.
   */
  function AnalyzeCorrected(req: AssessmentRequest, encode: string -> string): (a: Analysis)
    ensures var h := Analyze(req, encode);
      && a.params == h.params && a.run == h.run && a.score == h.score && a.passed == h.passed
      && a.correctAnswers == h.correctAnswers && a.totalQuestions == h.totalQuestions
    ensures a.weakConcepts == WeakConcepts(req.responses, req.questionConcepts)
    ensures a.passed ==> a.remediationVideos == []
    ensures !a.passed ==>
      a.remediationVideos == GetRemediationVideos(a.weakConcepts, req.subjectId, req.topicTitle, encode)
  {
    var h := Analyze(req, encode);
    var weak := WeakConcepts(req.responses, req.questionConcepts);
    h.(weakConcepts := weak, remediationVideos := if h.passed then [] else GetRemediationVideos(weak, req.subjectId, req.topicTitle, encode))
  }

  /** When no answered question carries a name inherited from Object.prototype, the two handlers give the same outcome. */
  lemma AnalyzeCorrectedOffPrototype(req: AssessmentRequest, encode: string -> string)
    requires forall i :: 0 <= i < |req.responses| ==> TagAt(req.questionConcepts, i) !in JsKeys.ObjectPrototypeNames
    ensures AnalyzeCorrected(req, encode) == Analyze(req, encode)
  {
    AsWrittenAgreesOffPrototype(req.responses, req.questionConcepts);
  }

  datatype BktAnalysis = BktAnalysis(pLearn: real, pGuess: real, pSlip: real, pKnown: real, trace: seq<real>)

  /** The response body, with the display rounding applied. */
  datatype AssessmentResult = AssessmentResult(
    passed: bool,
    masteryProbability: real,
    score: Option<int>,
    totalQuestions: nat,
    correctAnswers: nat,
    weakConcepts: seq<string>,
    remediationVideos: seq<Remedy>,
    bktAnalysis: BktAnalysis)

  function RoundScore(score: Option<real>): (r: Option<int>)
    ensures r.None? <==> score.None?
    ensures r.Some? ==> score.value - 0.5 < r.value as real <= score.value + 0.5
    ensures r.Some? && 0.0 <= score.value <= 100.0 ==> 0 <= r.value <= 100
  {
    match score
    case None => None
    case Some(s) => Some(Round(s))
  }

  /**
   * The response body built from an analysis: the verdict, counts and lists
   * as analysed, the mastery and every trace element rounded to the nearest
   * hundredth, the score to the nearest whole percent, and the parameters
   * echoed.
   */
  function Report(a: Analysis): (r: AssessmentResult)
    ensures r.passed == a.passed
    ensures r.totalQuestions == a.totalQuestions && r.correctAnswers == a.correctAnswers
    ensures r.weakConcepts == a.weakConcepts && r.remediationVideos == a.remediationVideos
    ensures r.bktAnalysis.pLearn == a.params.pT
    ensures r.bktAnalysis.pGuess == a.params.pG
    ensures r.bktAnalysis.pSlip == a.params.pS
    ensures r.bktAnalysis.pKnown == r.masteryProbability
    ensures WholeHundredths(r.masteryProbability)
    ensures forall i :: 0 <= i < |r.bktAnalysis.trace| ==> WholeHundredths(r.bktAnalysis.trace[i])
    ensures a.run.finalMastery - 0.005 < r.masteryProbability <= a.run.finalMastery + 0.005
    ensures IsProb(a.run.finalMastery) ==> IsProb(r.masteryProbability)
    ensures |r.bktAnalysis.trace| == |a.run.trace|
    ensures forall i :: 0 <= i < |r.bktAnalysis.trace| ==>
      a.run.trace[i] - 0.005 < r.bktAnalysis.trace[i] <= a.run.trace[i] + 0.005
    ensures (forall i :: 0 <= i < |a.run.trace| ==> IsProb(a.run.trace[i])) ==>
      forall i :: 0 <= i < |r.bktAnalysis.trace| ==> IsProb(r.bktAnalysis.trace[i])
    ensures r.score.None? <==> a.score.None?
    ensures r.score.Some? ==> a.score.value - 0.5 < r.score.value as real <= a.score.value + 0.5
    ensures a.score.Some? && 0.0 <= a.score.value <= 100.0 ==> 0 <= r.score.value <= 100
  {
    var mastery := RoundCents(a.run.finalMastery);
    AssessmentResult(
      a.passed, mastery, RoundScore(a.score), a.totalQuestions, a.correctAnswers, a.weakConcepts, a.remediationVideos,
      BktAnalysis(a.params.pT, a.params.pG, a.params.pS, mastery, RoundTrace(a.run.trace)))
  }
}
