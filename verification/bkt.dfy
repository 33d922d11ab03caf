/**
 * The BKT Updater: a strict left fold over the responses that applies Bayes'
 * rule for the observation and then the learning transition.
 */
module Bkt {
  import opened Params
  import opened RealFacts

  predicate IsProb(x: real) {
    0.0 <= x <= 1.0
  }

  /** P(correct) when the skill is known with probability pL. */
  function CorrectEvidence(p: BktParams, pL: real): real {
    (1.0 - p.pS) * pL + p.pG * (1.0 - pL)
  }

  /** P(incorrect) when the skill is known with probability pL. */
  function IncorrectEvidence(p: BktParams, pL: real): real {
    p.pS * pL + (1.0 - p.pG) * (1.0 - pL)
  }

  lemma RatioIsProb(num: real, den: real)
    requires 0.0 <= num <= den && den > 0.0
    ensures IsProb(num / den)
    ensures num / den * den == num
  {
    var q := num / den;
    assert q * den == num;
    if q < 0.0 {
      MulPos(-q, den);
    }
    if q > 1.0 {
      MulPos(q - 1.0, den);
    }
  }

  /** Learning at a positive rate from a posterior below one lands strictly above it. */
  lemma LearnRaises(pL: real, post: real, next: real, t: real)
    requires pL <= post < 1.0 && t > 0.0
    requires next == post + t * (1.0 - post)
    ensures next > pL
  {
    MulPos(t, 1.0 - post);
  }

  lemma LearnFacts(t: real, post: real)
    requires 0.0 <= t <= 1.0 && IsProb(post)
    ensures post <= post + t * (1.0 - post) <= 1.0
    ensures 1.0 - (post + t * (1.0 - post)) == (1.0 - t) * (1.0 - post)
  {
    var gap := 1.0 - post;
    MulNonNeg(t, gap);
    MulNonNeg(1.0 - t, gap);
    assert (1.0 - t) * gap == gap - t * gap;
  }

  /** Both Bayes denominators are positive for valid parameters and any probability pL. */
  lemma EvidencePositive(p: BktParams, pL: real)
    requires Valid(p) && IsProb(pL)
    ensures CorrectEvidence(p, pL) > 0.0
    ensures IncorrectEvidence(p, pL) > 0.0
    ensures (1.0 - p.pS) * pL <= CorrectEvidence(p, pL)
    ensures p.pS * pL <= IncorrectEvidence(p, pL)
  {
    var known, unknown := pL, 1.0 - pL;
    assert CorrectEvidence(p, pL) == (1.0 - p.pS) * known + p.pG * unknown;
    assert IncorrectEvidence(p, pL) == p.pS * known + (1.0 - p.pG) * unknown;
    MulNonNeg(1.0 - p.pS, known);
    MulNonNeg(p.pG, unknown);
    MulNonNeg(p.pS, known);
    MulNonNeg(1.0 - p.pG, unknown);
    if known == 0.0 {
      MulPos(p.pG, unknown);
      MulPos(1.0 - p.pG, unknown);
    } else {
      MulPos(1.0 - p.pS, known);
      MulPos(p.pS, known);
    }
  }

  /**
   * The posterior probability that the skill is known after observing one
   * response: the value that satisfies Bayes' rule
   * P(L | obs) * P(obs) == P(obs | L) * P(L).
   */
  function Posterior(p: BktParams, pL: real, correct: bool): (post: real)
    requires Valid(p) && IsProb(pL)
    ensures IsProb(post)
    ensures correct ==> post * CorrectEvidence(p, pL) == (1.0 - p.pS) * pL
    ensures !correct ==> post * IncorrectEvidence(p, pL) == p.pS * pL
  {
    EvidencePositive(p, pL);
    MulNonNeg(1.0 - p.pS, pL);
    MulNonNeg(p.pS, pL);
    if correct then
      RatioIsProb((1.0 - p.pS) * pL, CorrectEvidence(p, pL));
      (1.0 - p.pS) * pL / CorrectEvidence(p, pL)
    else
      RatioIsProb(p.pS * pL, IncorrectEvidence(p, pL));
      p.pS * pL / IncorrectEvidence(p, pL)
  }

  /**
   * The learning transition: an unknown skill becomes known with probability
   * pT, so the probability of not knowing it shrinks by the factor 1 - pT.
   */
  function Learn(p: BktParams, post: real): (next: real)
    requires Valid(p) && IsProb(post)
    ensures IsProb(next)
    ensures post <= next
    ensures 1.0 - next == (1.0 - p.pT) * (1.0 - post)
  {
    LearnFacts(p.pT, post);
    post + p.pT * (1.0 - post)
  }

  /** One step of the fold: Bayes update on the observation, then learning. */
  function Update(p: BktParams, pL: real, correct: bool): (next: real)
    requires Valid(p) && IsProb(pL)
    ensures IsProb(next)
    ensures Posterior(p, pL, correct) <= next
  {
    Learn(p, Posterior(p, pL, correct))
  }

  /**
   * The mastery trace produced from the current estimate pL: pL itself,
   * followed by the estimate after each response in turn.
   */
  function TraceFrom(p: BktParams, pL: real, responses: seq<bool>): (trace: seq<real>)
    requires Valid(p) && IsProb(pL)
    ensures |trace| == |responses| + 1
    ensures trace[0] == pL
    ensures forall i :: 0 <= i < |trace| ==> IsProb(trace[i])
    decreases |responses|
  {
    if responses == [] then [pL]
    else [pL] + TraceFrom(p, Update(p, pL, responses[0]), responses[1..])
  }

  /** The full mastery trace of an assessment, starting from the prior pL0. */
  function Trace(p: BktParams, responses: seq<bool>): (trace: seq<real>)
    requires Valid(p)
    ensures |trace| == |responses| + 1
    ensures trace[0] == p.pL0
    ensures forall i :: 0 <= i < |trace| ==> IsProb(trace[i])
  {
    TraceFrom(p, p.pL0, responses)
  }

  /** What the updater returns: the last estimate and the whole trace. */
  datatype BktRun = BktRun(finalMastery: real, trace: seq<real>)

  function RunBkt(p: BktParams, responses: seq<bool>): (r: BktRun)
    requires Valid(p)
    ensures |r.trace| == |responses| + 1
    ensures r.trace[0] == p.pL0
    ensures r.trace == Trace(p, responses)
    ensures forall i :: 0 <= i < |r.trace| ==> IsProb(r.trace[i])
    ensures r.finalMastery == r.trace[|responses|]
    ensures IsProb(r.finalMastery)
  {
    var trace := Trace(p, responses);
    BktRun(trace[|trace| - 1], trace)
  }

  /** Each element of the trace is obtained from the previous one and the matching response alone. */
  lemma {:induction false} TraceFromStep(p: BktParams, pL: real, responses: seq<bool>, i: nat)
    requires Valid(p) && IsProb(pL)
    requires i < |responses|
    ensures TraceFrom(p, pL, responses)[i + 1] == Update(p, TraceFrom(p, pL, responses)[i], responses[i])
    decreases i
  {
    if i > 0 {
      var next := Update(p, pL, responses[0]);
      TraceFromStep(p, next, responses[1..], i - 1);
    }
  }

  /** The step rule for the trace of an assessment. */
  lemma TraceStep(p: BktParams, responses: seq<bool>)
    requires Valid(p)
    ensures forall i :: 0 <= i < |responses| ==>
      Trace(p, responses)[i + 1] == Update(p, Trace(p, responses)[i], responses[i])
  {
    forall i | 0 <= i < |responses|
      ensures Trace(p, responses)[i + 1] == Update(p, Trace(p, responses)[i], responses[i])
    {
      TraceFromStep(p, p.pL0, responses, i);
    }
  }

  /**
   * A sequence is the trace of an assessment exactly when it has one more
   * element than there are responses, starts at the prior and follows the
   * step rule: the fold has no look-ahead and no other source of values.
   */
  predicate FollowsStepRule(p: BktParams, responses: seq<bool>, t: seq<real>)
    requires Valid(p)
  {
    && |t| == |responses| + 1
    && t[0] == p.pL0
    && (forall i :: 0 <= i < |responses| ==> IsProb(t[i]) && t[i + 1] == Update(p, t[i], responses[i]))
  }

  lemma {:induction false} TraceCharacterized(p: BktParams, responses: seq<bool>, t: seq<real>)
    requires Valid(p)
    ensures FollowsStepRule(p, responses, t) <==> t == Trace(p, responses)
  {
    var trace := Trace(p, responses);
    TraceStep(p, responses);
    if FollowsStepRule(p, responses, t) {
      forall k | 0 <= k < |t| ensures t[k] == trace[k] {
        TraceAgrees(p, responses, t, k);
      }
    }
  }

  lemma {:induction false} TraceAgrees(p: BktParams, responses: seq<bool>, t: seq<real>, k: nat)
    requires Valid(p)
    requires FollowsStepRule(p, responses, t)
    requires k < |t|
    ensures t[k] == Trace(p, responses)[k]
    decreases k
  {
    if k > 0 {
      TraceAgrees(p, responses, t, k - 1);
      TraceStep(p, responses);
    }
  }

  /**
   * The imperative loop of the updater: push the prior, then for each
   * response push the updated estimate. It computes exactly the fold.
   */
  method RunBktLoop(p: BktParams, responses: seq<bool>) returns (finalMastery: real, trace: seq<real>)
    requires Valid(p)
    ensures FollowsStepRule(p, responses, trace)
    ensures finalMastery == trace[|responses|]
    ensures trace == Trace(p, responses)
  {
    var pL := p.pL0;
    trace := [pL];
    var i := 0;
    while i < |responses|
      invariant 0 <= i <= |responses|
      invariant |trace| == i + 1
      invariant trace[0] == p.pL0
      invariant pL == trace[i] && IsProb(pL)
      invariant forall j :: 0 <= j < i ==> IsProb(trace[j]) && trace[j + 1] == Update(p, trace[j], responses[j])
    {
      pL := Update(p, pL, responses[i]);
      trace := trace + [pL];
      i := i + 1;
    }
    finalMastery := pL;
    TraceCharacterized(p, responses, trace);
  }

  /**
   * With guess and slip rates summing to at most one, a right answer is
   * evidence of knowledge: the posterior does not fall below the prior
   * estimate, and a wrong answer does not raise it.
   */
  lemma PosteriorDirection(p: BktParams, pL: real)
    requires Valid(p) && IsProb(pL)
    requires p.pG + p.pS <= 1.0
    ensures Posterior(p, pL, true) >= pL
    ensures Posterior(p, pL, false) <= pL
  {
    EvidencePositive(p, pL);
    BayesNoLower(1.0 - p.pS, p.pG, pL, Posterior(p, pL, true));
    BayesNoHigher(p.pS, 1.0 - p.pG, pL, Posterior(p, pL, false));
  }

  /**
   * Bayes' rule with likelihood a when known and g when unknown: if a >= g
   * the posterior is at least the prior.
   */
  lemma BayesNoLower(a: real, g: real, pL: real, post: real)
    requires IsProb(pL) && g <= a
    requires a * pL + g * (1.0 - pL) > 0.0
    requires post * (a * pL + g * (1.0 - pL)) == a * pL
    ensures post >= pL
  {
    var c := a * pL + g * (1.0 - pL);
    assert a - c == (1.0 - pL) * (a - g);
    MulNonNeg(1.0 - pL, a - g);
    MulNonNeg(pL, a - c);
    assert pL * (a - c) == pL * a - pL * c;
    assert (pL - post) * c == pL * c - post * c;
    NonPosFactor(pL - post, c);
  }

  /** The mirror case: if a <= g the posterior is at most the prior. */
  lemma BayesNoHigher(a: real, g: real, pL: real, post: real)
    requires IsProb(pL) && a <= g
    requires a * pL + g * (1.0 - pL) > 0.0
    requires post * (a * pL + g * (1.0 - pL)) == a * pL
    ensures post <= pL
  {
    var c := a * pL + g * (1.0 - pL);
    assert c - a == (1.0 - pL) * (g - a);
    MulNonNeg(1.0 - pL, g - a);
    MulNonNeg(pL, c - a);
    assert pL * (c - a) == pL * c - pL * a;
    assert (post - pL) * c == post * c - pL * c;
    NonPosFactor(post - pL, c);
  }

  /**
   * A right answer strictly raises an estimate below one when learning is
   * possible: the posterior does not drop, and learning then adds pT times
   * the remaining gap.
   */
  lemma CorrectAnswerRaisesMastery(p: BktParams, pL: real)
    requires Valid(p) && IsProb(pL) && pL < 1.0
    requires p.pG + p.pS <= 1.0 && p.pT > 0.0
    ensures Update(p, pL, true) > pL
  {
    var post := Posterior(p, pL, true);
    PosteriorDirection(p, pL);
    EvidencePositive(p, pL);
    PosteriorBelowOne(1.0 - p.pS, p.pG, pL, post);
    var next := Learn(p, post);
    assert Update(p, pL, true) == next == post + p.pT * (1.0 - post);
    LearnRaises(pL, post, next, p.pT);
  }

  /** With a positive guess rate, a right answer never makes the skill certainly known. */
  lemma PosteriorBelowOne(a: real, g: real, pL: real, post: real)
    requires g > 0.0 && 0.0 <= pL < 1.0
    requires a * pL + g * (1.0 - pL) > 0.0
    requires post * (a * pL + g * (1.0 - pL)) == a * pL
    ensures post < 1.0
  {
    var c := a * pL + g * (1.0 - pL);
    MulPos(g, 1.0 - pL);
    if post >= 1.0 {
      MulMono(1.0, post, c);
    }
  }

  /** Under a run of right answers the trace never decreases. */
  lemma {:induction false} AllCorrectNonDecreasing(p: BktParams, pL: real, responses: seq<bool>)
    requires Valid(p) && IsProb(pL) && p.pG + p.pS <= 1.0
    requires forall i :: 0 <= i < |responses| ==> responses[i]
    ensures forall i :: 0 <= i < |responses| ==>
      TraceFrom(p, pL, responses)[i] <= TraceFrom(p, pL, responses)[i + 1]
  {
    var t := TraceFrom(p, pL, responses);
    forall i | 0 <= i < |responses| ensures t[i] <= t[i + 1] {
      TraceFromStep(p, pL, responses, i);
      PosteriorDirection(p, t[i]);
    }
  }

  /**
   * For every preset, a non-empty run of right answers ends strictly above
   * the prior, never decreasing on the way.
   */
  lemma {:induction false} AllCorrectRaisesPrior(p: BktParams, responses: seq<bool>)
    requires IsPreset(p)
    requires |responses| > 0
    requires forall i :: 0 <= i < |responses| ==> responses[i]
    ensures RunBkt(p, responses).finalMastery > p.pL0
    ensures forall i :: 0 <= i < |responses| ==> Trace(p, responses)[i] <= Trace(p, responses)[i + 1]
  {
    PresetsAreValid(p);
    var t := Trace(p, responses);
    AllCorrectNonDecreasing(p, p.pL0, responses);
    TraceFromStep(p, p.pL0, responses, 0);
    CorrectAnswerRaisesMastery(p, p.pL0);
    MonotoneFromOne(t, |responses|);
  }

  lemma {:induction false} MonotoneFromOne(t: seq<real>, k: nat)
    requires 1 <= k < |t|
    requires forall i :: 0 <= i < |t| - 1 ==> t[i] <= t[i + 1]
    ensures t[1] <= t[k]
    decreases k
  {
    if k > 1 {
      MonotoneFromOne(t, k - 1);
    }
  }

  /**
   * For every preset, a wrong answer from an estimate below one half leaves
   * it below one half: the posterior drops under one quarter and learning
   * adds at most pT of the remaining gap.
   */
  lemma WrongAnswerStaysBelowHalf(p: BktParams, pL: real)
    requires IsPreset(p)
    requires 0.0 <= pL < 0.5
    ensures Update(p, pL, false) < 0.5
  {
    PresetsAreValid(p);
    EvidencePositive(p, pL);
    var post := Posterior(p, pL, false);
    WrongPosteriorSmall(p.pS, p.pG, pL, post);
    LearnBelowHalf(p.pT, post);
    assert Update(p, pL, false) == post + p.pT * (1.0 - post);
  }

  /**
   * With slip at most 0.2 and guess at most 0.25, Bayes' rule after a wrong
   * answer takes an estimate below one half to one below one quarter.
   */
  lemma WrongPosteriorSmall(s: real, g: real, pL: real, post: real)
    requires 0.0 < s <= 0.2 && 0.0 < g <= 0.25 && 0.0 <= pL < 0.5
    requires s * pL + (1.0 - g) * (1.0 - pL) > 0.0
    requires post * (s * pL + (1.0 - g) * (1.0 - pL)) == s * pL
    ensures post < 0.25
  {
    var known, unknown := s * pL, (1.0 - g) * (1.0 - pL);
    var a, b := 1.0 - g, 1.0 - pL;
    MulMono(s, 0.2, pL);
    ScaledBelow(a, b, unknown);
    KnownOutweighed(known, unknown, b, pL);
    if post >= 0.25 {
      MulMono(0.25, post, known + unknown);
    }
  }

  /** A product whose first factor is at least 0.75 is at least 0.75 times the second. */
  lemma ScaledBelow(a: real, b: real, u: real)
    requires 0.75 <= a && b >= 0.0 && u == a * b
    ensures 0.75 * b <= u
  {
    MulMono(0.75, a, b);
  }

  /** The linear step: a known share of at most 0.2 pL against an unknown share of at least 0.75 (1 - pL). */
  lemma KnownOutweighed(known: real, unknown: real, b: real, pL: real)
    requires 0.0 <= pL < 0.5 && b == 1.0 - pL
    requires known <= 0.2 * pL && 0.75 * b <= unknown
    ensures 0.25 * unknown > 0.75 * known
  {
  }

  /** Learning at rate at most 0.15 from below one quarter stays below one half. */
  lemma LearnBelowHalf(t: real, post: real)
    requires 0.0 <= t <= 0.15 && 0.0 <= post < 0.25
    ensures post + t * (1.0 - post) < 0.5
  {
    MulMono(1.0 - post, 1.0, t);
    assert t * (1.0 - post) == (1.0 - post) * t <= t;
  }

  /**
   * For every preset, a run of wrong answers keeps every element of the trace
   * below one half: the prior is at most 0.3 and each step stays below 0.5.
   */
  lemma {:induction false} AllIncorrectStaysBelowHalf(p: BktParams, responses: seq<bool>)
    requires IsPreset(p)
    requires forall i :: 0 <= i < |responses| ==> !responses[i]
    ensures forall i :: 0 <= i < |responses| + 1 ==> Trace(p, responses)[i] < 0.5
  {
    PresetsAreValid(p);
    var t := Trace(p, responses);
    forall i | 0 <= i < |responses| + 1 ensures t[i] < 0.5 {
      BelowHalfUpTo(p, responses, i);
    }
  }

  lemma {:induction false} BelowHalfUpTo(p: BktParams, responses: seq<bool>, k: nat)
    requires IsPreset(p)
    requires forall i :: 0 <= i < |responses| ==> !responses[i]
    requires k <= |responses|
    ensures Valid(p) && Trace(p, responses)[k] < 0.5
    decreases k
  {
    PresetsAreValid(p);
    if k > 0 {
      BelowHalfUpTo(p, responses, k - 1);
      var t := Trace(p, responses);
      TraceFromStep(p, p.pL0, responses, k - 1);
      WrongAnswerStaysBelowHalf(p, t[k - 1]);
    }
  }
}
