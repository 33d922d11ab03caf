/** The Parameter Selector: difficulty tier to Bayesian Knowledge Tracing parameters. */
module Params {

  /**
   * The four parameters of the two-state knowledge model:
   * pL0 the prior probability that the skill is known, pT the probability of
   * learning it after each opportunity, pG the probability of guessing a right
   * answer without the skill, pS the probability of slipping despite it.
   */
  datatype BktParams = BktParams(pL0: real, pT: real, pG: real, pS: real)

  /** The parameters under which every Bayes update is well defined and stays a probability. */
  predicate Valid(p: BktParams) {
    && 0.0 <= p.pL0 <= 1.0
    && 0.0 <= p.pT <= 1.0
    && 0.0 < p.pG < 1.0
    && 0.0 < p.pS < 1.0
  }

  /** Every parameter lies strictly between 0 and 1, as all three presets do. */
  predicate StrictlyInside(p: BktParams) {
    && 0.0 < p.pL0 < 1.0
    && 0.0 < p.pT < 1.0
    && 0.0 < p.pG < 1.0
    && 0.0 < p.pS < 1.0
  }

  const Foundational := BktParams(0.3, 0.15, 0.25, 0.1)
  const Intermediate := BktParams(0.2, 0.1, 0.2, 0.15)
  const Advanced := BktParams(0.1, 0.08, 0.15, 0.2)

  predicate IsPreset(p: BktParams) {
    p == Foundational || p == Intermediate || p == Advanced
  }

  /**
   * The switch over the difficulty string. Only the three literal tier names
   * select their own row; every other string, the empty one included, falls
   * through to the default branch, which repeats the intermediate row.
   */
  function DifficultyParams(difficulty: string): (p: BktParams)
    ensures IsPreset(p)
    ensures StrictlyInside(p) && Valid(p)
    ensures p.pG + p.pS < 1.0
    ensures p == Foundational <==> difficulty == "foundational"
    ensures p == Advanced <==> difficulty == "advanced"
    ensures p == Intermediate <==> difficulty != "foundational" && difficulty != "advanced"
  {
    match difficulty
    case "foundational" => BktParams(0.3, 0.15, 0.25, 0.1)
    case "intermediate" => BktParams(0.2, 0.1, 0.2, 0.15)
    case "advanced" => BktParams(0.1, 0.08, 0.15, 0.2)
    case _ => BktParams(0.2, 0.1, 0.2, 0.15)
  }

  /** Each preset is a valid parameter set whose guess and slip rates sum to less than one. */
  lemma PresetsAreValid(p: BktParams)
    requires IsPreset(p)
    ensures Valid(p) && StrictlyInside(p)
    ensures p.pG + p.pS < 1.0
  {
  }
}
