/** Worked assessments showing the rules at their boundaries. */
module Scenarios {
  import opened Params
  import opened RealFacts
  import opened Bkt
  import opened Assess

  /**
   * One right answer at the advanced tier scores 100 percent but leaves
   * mastery near 0.42, so the assessment fails: a perfect score alone does
   * not pass.
   */
  lemma PerfectScoreCanFail(subjectId: string, topicTitle: string, encode: string -> string)
    ensures var a := Analyze(AssessmentRequest(subjectId, topicTitle, [true], "advanced", ["Overfitting"]), encode);
      && a.correctAnswers == a.totalQuestions == 1
      && a.run.finalMastery < 0.7
      && !a.passed
  {
    var p := Advanced;
    var post := Posterior(p, p.pL0, true);
    assert post * 0.215 == 0.08 by {
      assert CorrectEvidence(p, p.pL0) == 0.215;
    }
    assert Trace(p, [true]) == [p.pL0, Update(p, p.pL0, true)];
  }

  /**
   * At the foundational tier, one wrong then two right answers lift mastery
   * above 0.8, yet two right out of three is far from 90 percent, so the
   * assessment fails: high mastery alone does not pass.
   */
  lemma HighMasteryCanFail(subjectId: string, topicTitle: string, encode: string -> string)
    ensures var a := Analyze(AssessmentRequest(subjectId, topicTitle, [false, true, true], "foundational", []), encode);
      && a.correctAnswers == 2 && a.totalQuestions == 3
      && a.run.finalMastery >= 0.7
      && !a.passed
  {
    var rs := [false, true, true];
    HighMasteryTrace();
    CountCorrectAppend([false], [true, true]);
    PassRule(2, 3, Trace(Foundational, rs)[3]);
  }

  lemma HighMasteryTrace()
    ensures Trace(Foundational, [false, true, true])[3] >= 0.7
  {
    var p := Foundational;
    var rs := [false, true, true];
    var t := Trace(p, rs);
    TraceStep(p, rs);
    WrongFromPrior();
    RightFromLow(t[1]);
    RightFromMid(t[2]);
  }

  lemma WrongFromPrior()
    ensures Update(Foundational, 0.3, false) >= 0.195
  {
    var p := Foundational;
    var post := Posterior(p, 0.3, false);
    assert IncorrectEvidence(p, 0.3) == 0.555;
    assert post * 0.555 == 0.03;
  }

  lemma RightFromLow(x: real)
    requires 0.195 <= x <= 1.0
    ensures Update(Foundational, x, true) >= 0.54
  {
    var p := Foundational;
    EvidencePositive(p, x);
    PosteriorAbove(Posterior(p, x, true), CorrectEvidence(p, x), x, 0.46);
  }

  lemma RightFromMid(x: real)
    requires 0.54 <= x <= 1.0
    ensures Update(Foundational, x, true) >= 0.7
  {
    var p := Foundational;
    EvidencePositive(p, x);
    PosteriorAbove(Posterior(p, x, true), CorrectEvidence(p, x), x, 0.65);
  }

  /**
   * A lower bound on the foundational right-answer posterior 0.9 x / e,
   * where e = 0.65 x + 0.25, from a lower bound on the linear form that
   * clears the denominator.
   */
  lemma PosteriorAbove(post: real, e: real, x: real, lo: real)
    requires e == 0.65 * x + 0.25 && e > 0.0
    requires post * e == 0.9 * x
    requires 0.9 * x - lo * e > 0.0
    ensures post > lo
  {
    assert (post - lo) * e == post * e - lo * e;
    PositiveFactor(post - lo, e);
  }
}
