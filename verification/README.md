# BKT mastery analysis, modelled in Dafny

The assessment endpoint of the learning platform decides whether a student has
mastered a topic. It takes the student's right/wrong answers, a difficulty
tier and a concept tag per question. It then:

1. selects one of three Bayesian Knowledge Tracing (BKT) parameter presets;
2. runs the BKT updater, a left fold that applies Bayes' rule to each answer
   followed by the learning transition `post + pT * (1 - post)`, and keeps the
   whole mastery trace;
3. scores the answers and applies the pass rule `score >= 90 && mastery >= 0.7`;
4. finds the weak concepts, i.e. tags with strictly fewer than half of their
   questions answered right;
5. only when the assessment fails, maps each weak concept to one remediation
   video: a curated one from a static table, or a synthesized YouTube search
   link.

The model is functional. Probabilities are exact `real`s, sequences are `seq`,
and the JavaScript object the aggregator uses is modelled explicitly: its own
keys in creation order, the order `Object.entries` lists them in, and the
names every object literal inherits from `Object.prototype`.

Modules, one per part of `app/api/assess/route.ts`:

- `Params` (`params.dfy`) is the parameter selector.
- `Bkt` (`bkt.dfy`) is the updater: Bayes posterior, learning step, trace fold,
  the imperative loop, and monotonicity and bounds lemmas.
- `Concepts` (`concepts.dfy`) is the weak-concept aggregator. It is written
  once, parameterised by the set of tag names that resolve on the prototype.
  The source's plain-object version uses the inherited names; the corrected
  version uses none.
- `JsKeys` (`jskeys.dfy`) holds the `Object.entries` key order of
  ECMA-262 (section 10.1.11.1, OrdinaryOwnPropertyKeys), the inherited
  `Object.prototype` names and the `length` of each inherited method.
- `Remediation` (`remediation.dfy`) is the remediation resolver: the
  13-row table verbatim, the own-key lookup, and the lookup as written.
- `Rounding` (`rounding.dfy`) is `Math.round` on exact reals, for the response
  body.
- `Assess` (`assess.dfy`) is the pure part of the request handler: count,
  score, verdict, weak concepts, conditional remediation, and the response
  body.
- `Scenarios` (`scenarios.dfy`) holds worked assessments showing that neither
  half of the pass rule is enough on its own.
- `Seqs`, `Wrappers` and `RealFacts` are generic helpers: filter,
  distinctness, ordering, `Option`, and sign and order facts about products
  of reals.

Where a comment and the code disagree, the model follows the code. The
comment on the pass rule asks for a score above 90 and a mastery above 0.7,
but the code compares with `>=` on both, and so does the model
(`Assess.PassRule`).

The weak concepts come out in the order of `Object.entries`. It lists
array-index tags (canonical numerals up to 2^32 - 2, such as `"7"`) first, in
ascending numeric order, and then the other tags in the order their tallies
were created, which is the order of each tag's first question. The key order
is proved in general (`JsKeys.OwnKeysOrder`); for the weak concepts,
first-question order is stated when no answered tag is an array index.

The response for an empty answer list has score `0 / 0`, which is NaN. The
model represents this as `None`. A NaN score fails the `>= 90` comparison, so
the assessment fails. The model does not require a non-empty answer list.

## Model

| member | source | states |
|---|---|---|
| Params.DifficultyParams | app/api/assess/route.ts:33-44 | The result is always one of the three presets. It is the foundational one exactly for "foundational", the advanced one exactly for "advanced", and the intermediate one for every other string. Every value lies strictly in (0,1) and pG + pS < 1. |
| Params.PresetsAreValid | app/api/assess/route.ts:33-44 | Every preset has all four values strictly between 0 and 1 and guess plus slip below one. |
| Bkt.EvidencePositive | app/api/assess/route.ts:54-65 | For valid parameters and any probability pL, both Bayes denominators (P(correct) and P(incorrect)) are positive. Each is at least its own "known" term. |
| Bkt.Posterior | app/api/assess/route.ts:54-66 | The posterior is a probability and satisfies Bayes' rule: posterior times P(observation) equals P(observation given known) times pL, for the branch chosen by the answer. |
| Bkt.Learn | app/api/assess/route.ts:68-70 | The learning step yields a probability no lower than the posterior, and the unknown mass shrinks by the factor 1 - pT. |
| Bkt.RunBkt | app/api/assess/route.ts:46-75 | The trace is the fold of the update over the answers. It has one more element than there are answers, starts at pL0, and every element is a probability. The final mastery is the last trace element. |
| Bkt.TraceStep | app/api/assess/route.ts:50-72 | Each trace element is the Bayes update plus learning step of the previous element and the matching answer, and of nothing else. |
| Bkt.TraceCharacterized | app/api/assess/route.ts:46-75 | A sequence is the trace exactly when it has length n + 1, starts at pL0 and follows the step rule. |
| Bkt.RunBktLoop | app/api/assess/route.ts:46-75 | The push-as-you-go loop produces a trace that follows the step rule, equals the functional fold, and has the final mastery as its last element. |
| Bkt.PosteriorDirection | app/api/assess/route.ts:54-66 | When pG + pS <= 1, a right answer never lowers the estimate in the Bayes step and a wrong answer never raises it. |
| Bkt.CorrectAnswerRaisesMastery | app/api/assess/route.ts:54-70 | Under the same condition, with pT > 0 and an estimate below one, a right answer strictly raises the estimate. |
| Bkt.AllCorrectRaisesPrior | app/api/assess/route.ts:46-75 | For every preset, a non-empty run of right answers gives a non-decreasing trace and ends strictly above the prior. |
| Bkt.WrongAnswerStaysBelowHalf | app/api/assess/route.ts:60-70 | For every preset, a wrong answer from an estimate below one half leaves it below one half. |
| Bkt.AllIncorrectStaysBelowHalf | app/api/assess/route.ts:46-75 | For every preset, every element of the trace of an all-wrong run is below one half. |
| Concepts.TagAt | app/api/assess/route.ts:84 | A question's tag is never empty. It is the given tag when that is present and non-empty, and "General" otherwise. |
| Concepts.WeakIffBelowHalf | app/api/assess/route.ts:96 | The ratio test `correct / total < 0.5` holds exactly when total > 0 and 2 * correct < total, so exactly half is not weak. |
| Concepts.WeakConceptsWithCharacterized | app/api/assess/route.ts:77-98 | For any set of prototype-resolved names, the result lists a tag exactly when the tag was answered, is not such a name, and has 2 * correct < total. The counts come from an independent definition. No tag appears twice. Array-index tags come first in ascending order. Without such tags, the order is that of each tag's first question. |
| Concepts.WeakConceptsCharacterized | app/api/assess/route.ts:77-98 | The same rule for the own-key aggregator: every answered tag with fewer than half right is listed, once, in the order above. |
| Concepts.ExtraConceptsIgnored | app/api/assess/route.ts:83-84 | For either aggregator (any set of prototype-resolved names), the result depends only on the tags of the answered questions, so entries past the last answer are never read. |
| Concepts.UntaggedQuestionsArePooled | app/api/assess/route.ts:84-92 | For the own-key aggregator: with no tags at all, every question counts under "General". The result is ["General"] when fewer than half were right, and [] otherwise. |
| Concepts.AllWrongIsWeak | app/api/assess/route.ts:83-97 | For the own-key aggregator: an answered tag whose every question was answered wrong is reported weak. |
| Concepts.AllWrongIsWeakAsWritten | app/api/assess/route.ts:81-97 | For the plain-object aggregator: an answered tag that is not an Object.prototype name and whose every question was answered wrong is reported weak. |
| Concepts.AllRightIsNotWeak | app/api/assess/route.ts:83-97 | For the own-key aggregator: a tag whose every question was answered right is never reported weak. |
| Concepts.OnlyTagIsWeak | app/api/assess/route.ts:83-97 | For the own-key aggregator: when every answered question has the same tag, the result is that tag or nothing. |
| Concepts.AsWrittenAgreesOffPrototype | app/api/assess/route.ts:81-92 | When no answered tag is an Object.prototype name, the plain-object aggregator gives the same list as the own-key one. |
| Concepts.AsWrittenDropsInheritedNames | app/api/assess/route.ts:81-92 | The plain-object aggregator never reports a tag that is an Object.prototype name. |
| Concepts.AsWrittenEmptyOnInheritedTags | app/api/assess/route.ts:81-92 | When every answered tag is an Object.prototype name, the plain-object aggregator reports nothing, however the questions were answered. |
| Concepts.ToStringTagIsLost | app/api/assess/route.ts:84-92 | One wrong answer tagged "toString" gives [] from the plain-object aggregator and ["toString"] from the own-key one. |
| JsKeys.OwnKeysOrder | app/api/assess/route.ts:95 | Object.entries lists exactly the created keys, none twice when they were distinct, with array-index keys first in ascending numeric order, and the other keys in creation order. |
| JsKeys.NamedKeysKeepCreationOrder | app/api/assess/route.ts:95 | When no key is an array index, Object.entries lists the keys in creation order. |
| JsKeys.InheritedNamesAreNamedKeys | app/api/assess/route.ts:81 | No inherited Object.prototype name is an array index. The inherited methods together with `__proto__` are exactly those names. |
| Remediation.CuratedFindsRow | app/api/assess/route.ts:188 | The table lookup succeeds exactly when some row names the concept, and it then returns that row's videos. |
| Remediation.TableShape | app/api/assess/route.ts:106-185 | Every concept found in the table has exactly one curated video. |
| Remediation.GetRemediationVideos | app/api/assess/route.ts:187-199 | There is one record per weak concept, in the same order, and record i names concept i. A listed concept gets the first curated title and url. Any other concept gets the title "Remediation: c in topic" and a url that is the search prefix followed by the encoded "c subject tutorial". |
| Remediation.AsWrittenDiffersOnlyOnInheritedMethods | app/api/assess/route.ts:187-199 | The plain-object resolver agrees with the own-key one on every concept except unlisted inherited methods with a positive `length`. For exactly those it builds a record with neither title nor url. |
| Remediation.HasOwnPropertyLosesItsLink | app/api/assess/route.ts:188-191 | For the weak concept "hasOwnProperty", the resolver as written gives a record with no title, while the own-key one gives the search fallback. |
| Assess.CountCorrect | app/api/assess/route.ts:218 | The count of right answers is at most n. It equals n exactly when all answers are right, and 0 exactly when none is. |
| Assess.CountCorrectAppend | app/api/assess/route.ts:218 | Counting right answers distributes over concatenation. |
| Assess.Score | app/api/assess/route.ts:219 | With no answers the score is NaN (None). Otherwise score * n = 100 * correct, and the score lies in [0, 100]. |
| Assess.PassRule | app/api/assess/route.ts:219-222 | The assessment passes exactly when n > 0, 10 * correct >= 9 * n and mastery >= 0.7. |
| Assess.ScoreThreshold | app/api/assess/route.ts:219-222 | A percentage of n questions with c right reaches 90 exactly when 10 * c >= 9 * n. |
| Assess.Analyze | app/api/assess/route.ts:211-230 | The handler as written. The parameters are the tier's preset. The trace follows the step rule and the final mastery is its last element. The counts match the answers, and the score is Score(correct, n). The verdict is the pass rule. The weak concepts are always computed, by the plain-object aggregator. Remediation is [] on a pass and the resolver's output on a failure. |
| Assess.AsWrittenResolverAgrees | app/api/assess/route.ts:187-199 | On any list the plain-object aggregator returns, the plain-object resolver gives, record by record, the spread of the own-key resolver's record. |
| Assess.HandlerRemediationAsWritten | app/api/assess/route.ts:225-230 | On a failed assessment, the records the handler sends are exactly the spread of the model's remediation records. |
| Assess.AnalyzeCorrected | app/api/assess/route.ts:211-230 | The handler with the own-key aggregator keeps the parameters, trace, counts, score and verdict of the handler as written. Its weak concepts are the own-key aggregator's, with remediation only on a failure. |
| Assess.AnalyzeCorrectedOffPrototype | app/api/assess/route.ts:81-92 | When no answered tag is an Object.prototype name, the corrected handler's whole outcome equals the handler's as written. |
| Assess.Report | app/api/assess/route.ts:232-246 | The response echoes the verdict, counts, weak concepts, remediation and parameters. Mastery and every trace element are whole hundredths within 0.005 of the exact value, and stay in [0,1]. The score is within 0.5 of the exact score, in [0,100], and absent exactly when the score is NaN. |
| Rounding.Round | app/api/assess/route.ts:235 | `Math.round` gives the integer n with x - 0.5 < n <= x + 0.5: the nearest integer, with ties going up. |
| Rounding.RoundUnique | app/api/assess/route.ts:235 | No other integer satisfies that window, so it determines `Math.round`. |
| Rounding.RoundCents | app/api/assess/route.ts:234 | Rounding to hundredths gives a whole number of hundredths, moves a value by at most 0.005, and keeps a probability in [0,1]. |
| Rounding.RoundCentsUnique | app/api/assess/route.ts:234 | No other whole hundredth lies within that window, so the two facts determine the rounded value. |
| Rounding.RoundTrace | app/api/assess/route.ts:245 | Rounding the trace keeps its length and rounds each element to a whole hundredth within 0.005, keeping probabilities in [0,1]. |
| Scenarios.PerfectScoreCanFail | app/api/assess/route.ts:222 | One right answer at the advanced tier scores 100% but ends with mastery below 0.7, so the assessment fails. |
| Scenarios.HighMasteryCanFail | app/api/assess/route.ts:222 | Wrong, right, right at the foundational tier ends with mastery at least 0.7 but a score of 2/3, so the assessment fails. |

## Left out

- HTTP plumbing is not modelled: JSON parsing, the request and response objects, the 500 error path and the two-second artificial delay. These are I/O and timing.
- IEEE-754 doubles are not modelled. Every probability, ratio and score is an exact real, so floating-point rounding in the Bayes update and in `Math.round(x * 100) / 100` is not represented.
- `encodeURIComponent` is a parameter `encode: string -> string` of the resolver, so its percent-encoding rules are not modelled.
- Bkt.RunBkt: it requires pL0 and pT in [0,1] and pG and pS in (0,1). The source does not check its parameters and would produce NaN or Infinity for a zero denominator. Only the three presets ever reach the updater, and they meet the requirement (Params.PresetsAreValid).
- Object.prototype pollution is not modelled. For an inherited method name, the plain-object aggregator's increments write `correct` and `total` onto the inherited function object (such as `Object.prototype.toString`); only for "__proto__" do they write onto Object.prototype itself. The model drops these side effects. The model keeps only the effect on the returned list.
- Request fields of the wrong JSON type are not modelled. Examples are non-boolean answers, non-string tags, or a difficulty that is not a string. The model types them as the request interface declares.
- The client-side fallback verdict in the assessment view, the React components, and the static lesson catalogs are presentation and data, not part of the engine.

## Findings

| source | as written | input that shows it | evidently intended | confidence | as-written member | corrected member |
|---|---|---|---|---|---|---|
| app/api/assess/route.ts:81-92 | The tallies live in a plain object literal, so `conceptResults[concept]` finds an inherited `Object.prototype` member for tags such as "toString". That member is truthy, so no own tally is created and the tag never appears in `Object.entries`. | answers [false], tags ["toString"]: the result is [] | every answered tag with fewer than half right is reported, so ["toString"] | not executed | Concepts.WeakConceptsAsWritten, Concepts.ToStringTagIsLost | Concepts.WeakConcepts, Concepts.WeakConceptsCharacterized, Assess.AnalyzeCorrected |
| app/api/assess/route.ts:187-191 | `remediationMap[concept]` on a plain object finds inherited methods. For "hasOwnProperty" it finds a function whose `length` is 1, so the curated branch spreads `videos[0]`, which is undefined. | weak concepts ["hasOwnProperty"]: the record is `{ concept: "hasOwnProperty" }` with no title or url. The defect is latent in the handler as written: its aggregator never reports an inherited name, so the resolver never sees one (Assess.AsWrittenResolverAgrees) | an unlisted concept gets the search-link fallback | not executed | Remediation.GetRemediationVideosAsWritten, Remediation.HasOwnPropertyLosesItsLink | Remediation.GetRemediationVideos, Remediation.AsWrittenDiffersOnlyOnInheritedMethods |

`Assess.Analyze` models the handler as written: it uses the plain-object
aggregator. Its remediation records come from the own-key resolver, which on
that aggregator's output gives the same records as the plain-object one
(`Assess.HandlerRemediationAsWritten`). `Assess.AnalyzeCorrected` is the
handler with the own-key aggregator.
