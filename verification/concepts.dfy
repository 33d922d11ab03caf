/**
 * The Concept Aggregator: per-tag counts of right answers and attempts, and
 * the tags whose share of right answers is strictly below one half.
 */
module Concepts {
  import opened Seqs
  import opened JsKeys
  import opened RealFacts

  const DefaultTag := "General"

  /**
   * The tag of question i: a missing entry (the concept list is shorter than
   * the responses) and the empty string are both falsy and become "General".
   */
  function TagAt(concepts: seq<string>, i: nat): (tag: string)
    ensures tag != ""
    ensures tag == DefaultTag || (i < |concepts| && tag == concepts[i])
    ensures i < |concepts| && concepts[i] != "" ==> tag == concepts[i]
  {
    if i < |concepts| && concepts[i] != "" then concepts[i] else DefaultTag
  }

  datatype Tally = Tally(correct: nat, total: nat)

  /**
   * The record of tallies: its own keys in creation order and the tally
   * stored under each.
   */
  datatype ConceptRecord = ConceptRecord(keys: seq<string>, stats: map<string, Tally>)

  const EmptyRecord := ConceptRecord([], map[])

  function Bit(b: bool): nat {
    if b then 1 else 0
  }

  /**
   * One iteration of the counting loop. `record[tag]` is looked up; when it
   * is falsy a fresh tally becomes an own property, then both counters are
   * incremented on whatever the lookup found. A name in `inherited` is found
   * on the prototype (a truthy function or object), so no own property is
   * created and the increments land on that inherited value instead: on the
   * method's function object for a method name, and on Object.prototype
   * itself only for "__proto__".
   */
  function Count(rec: ConceptRecord, tag: string, correct: bool, inherited: set<string>): ConceptRecord {
    if tag in rec.stats then
      var t := rec.stats[tag];
      ConceptRecord(rec.keys, rec.stats[tag := Tally(t.correct + Bit(correct), t.total + 1)])
    else if tag in inherited then
      rec
    else
      ConceptRecord(rec.keys + [tag], rec.stats[tag := Tally(Bit(correct), 1)])
  }

  /** The record after the first k iterations of the loop over the responses. */
  function TallyUpTo(responses: seq<bool>, concepts: seq<string>, k: nat, inherited: set<string>): ConceptRecord
    requires k <= |responses|
  {
    if k == 0 then EmptyRecord
    else Count(TallyUpTo(responses, concepts, k - 1, inherited), TagAt(concepts, k - 1), responses[k - 1], inherited)
  }

  /**
   * The filter `correct / total < 0.5` on numbers. A zero total would give
   * 0 / 0, which is NaN, and NaN < 0.5 is false.
   */
  predicate IsWeak(t: Tally) {
    t.total > 0 && (t.correct as real) / (t.total as real) < 0.5
  }

  /** The ratio test is the strict integer test 2 * correct < total: exactly half is not weak. */
  lemma WeakIffBelowHalf(t: Tally)
    ensures IsWeak(t) <==> t.total > 0 && 2 * t.correct < t.total
  {
    if t.total > 0 {
      RatioBelowHalf(t.correct as real, t.total as real);
    }
  }

  lemma RatioBelowHalf(c: real, n: real)
    requires n > 0.0
    ensures c / n < 0.5 <==> 2.0 * c < n
  {
    var q := c / n;
    assert q * n == c;
    assert (0.5 - q) * n == 0.5 * n - c;
    PositiveFactor(0.5 - q, n);
  }

  predicate IsWeakKey(stats: map<string, Tally>, key: string) {
    key in stats && IsWeak(stats[key])
  }

  /**
   * identifyWeakConcepts with the names in `inherited` resolved on the
   * prototype: count, then list the entries in Object.entries order and keep
   * the weak ones.
   */
  function WeakConceptsWith(responses: seq<bool>, concepts: seq<string>, inherited: set<string>): seq<string> {
    var rec := TallyUpTo(responses, concepts, |responses|, inherited);
    Filter((key: string) => IsWeakKey(rec.stats, key), OwnKeysOrder(rec.keys))
  }

  /** The aggregator as the source writes it: the record is a plain object literal. */
  function WeakConceptsAsWritten(responses: seq<bool>, concepts: seq<string>): seq<string> {
    WeakConceptsWith(responses, concepts, ObjectPrototypeNames)
  }

  /** The aggregator with own-key lookups, so that every tag gets its own tally. */
  function WeakConcepts(responses: seq<bool>, concepts: seq<string>): seq<string> {
    WeakConceptsWith(responses, concepts, {})
  }

  // Reference definitions, stated directly over the first k questions.

  /** Some question among the first k carries the tag. */
  predicate Seen(concepts: seq<string>, k: nat, tag: string) {
    exists i :: 0 <= i < k && TagAt(concepts, i) == tag
  }

  /** How many of the first k questions carry the tag. */
  function TotalFor(concepts: seq<string>, k: nat, tag: string): nat {
    if k == 0 then 0
    else TotalFor(concepts, k - 1, tag) + Bit(TagAt(concepts, k - 1) == tag)
  }

  /** How many of the first k questions carry the tag and were answered right. */
  function CorrectFor(responses: seq<bool>, concepts: seq<string>, k: nat, tag: string): nat
    requires k <= |responses|
  {
    if k == 0 then 0
    else CorrectFor(responses, concepts, k - 1, tag) + Bit(TagAt(concepts, k - 1) == tag && responses[k - 1])
  }

  /** The position of the first question carrying the tag, or k when none of the first k does. */
  function FirstIndex(concepts: seq<string>, k: nat, tag: string): (i: nat)
    ensures i <= k
    ensures i < k <==> Seen(concepts, k, tag)
    ensures i < k ==> TagAt(concepts, i) == tag
    ensures forall j :: 0 <= j < i ==> TagAt(concepts, j) != tag
  {
    if k == 0 then 0
    else if Seen(concepts, k - 1, tag) then FirstIndex(concepts, k - 1, tag)
    else if TagAt(concepts, k - 1) == tag then k - 1
    else k
  }

  lemma {:induction false} TotalPositiveWhenSeen(concepts: seq<string>, k: nat, tag: string)
    ensures Seen(concepts, k, tag) <==> TotalFor(concepts, k, tag) > 0
  {
    if k > 0 {
      TotalPositiveWhenSeen(concepts, k - 1, tag);
      if TagAt(concepts, k - 1) != tag && Seen(concepts, k, tag) {
        var i :| 0 <= i < k && TagAt(concepts, i) == tag;
        assert i < k - 1;
      }
    }
  }

  lemma {:induction false} CorrectAtMostTotal(responses: seq<bool>, concepts: seq<string>, k: nat, tag: string)
    requires k <= |responses|
    ensures CorrectFor(responses, concepts, k, tag) <= TotalFor(concepts, k, tag)
  {
    if k > 0 {
      CorrectAtMostTotal(responses, concepts, k - 1, tag);
    }
  }

  /** What the record holds after k iterations, in terms of the reference definitions. */
  ghost predicate TallyInvariant(responses: seq<bool>, concepts: seq<string>, k: nat, inherited: set<string>, rec: ConceptRecord)
    requires k <= |responses|
  {
    && KeysAreOwn(rec)
    && OwnKeysAreSeen(concepts, k, inherited, rec)
    && TalliesCount(responses, concepts, k, rec)
    && KeysByFirstIndex(concepts, k, rec)
  }

  /** The key list lists each own key exactly once. */
  ghost predicate KeysAreOwn(rec: ConceptRecord) {
    && Distinct(rec.keys)
    && (forall tag :: tag in rec.stats <==> tag in rec.keys)
  }

  /** The own keys are the seen tags that are not resolved on the prototype. */
  ghost predicate OwnKeysAreSeen(concepts: seq<string>, k: nat, inherited: set<string>, rec: ConceptRecord) {
    forall tag :: tag in rec.stats <==> Seen(concepts, k, tag) && tag !in inherited
  }

  /** Each tally holds the reference counts. */
  ghost predicate TalliesCount(responses: seq<bool>, concepts: seq<string>, k: nat, rec: ConceptRecord)
    requires k <= |responses|
  {
    forall tag :: tag in rec.stats ==>
      rec.stats[tag] == Tally(CorrectFor(responses, concepts, k, tag), TotalFor(concepts, k, tag))
  }

  /** The keys were created in the order of their first question. */
  ghost predicate KeysByFirstIndex(concepts: seq<string>, k: nat, rec: ConceptRecord) {
    forall i, j :: 0 <= i < j < |rec.keys| ==>
      FirstIndex(concepts, k, rec.keys[i]) < FirstIndex(concepts, k, rec.keys[j])
  }

  /** The tags seen among the first k questions are those seen before plus the k-th tag. */
  lemma SeenStep(concepts: seq<string>, k: nat)
    requires k > 0
    ensures forall x :: Seen(concepts, k, x) <==> Seen(concepts, k - 1, x) || x == TagAt(concepts, k - 1)
  {
    forall x ensures Seen(concepts, k, x) <==> Seen(concepts, k - 1, x) || x == TagAt(concepts, k - 1) {
      if Seen(concepts, k, x) && x != TagAt(concepts, k - 1) {
        var i :| 0 <= i < k && TagAt(concepts, i) == x;
        assert i < k - 1;
      }
      if Seen(concepts, k - 1, x) {
        var i :| 0 <= i < k - 1 && TagAt(concepts, i) == x;
        assert 0 <= i < k;
      }
    }
  }

  lemma {:induction false} TallyUpToInvariant(responses: seq<bool>, concepts: seq<string>, k: nat, inherited: set<string>)
    requires k <= |responses|
    ensures TallyInvariant(responses, concepts, k, inherited, TallyUpTo(responses, concepts, k, inherited))
    decreases k
  {
    if k > 0 {
      var prev := TallyUpTo(responses, concepts, k - 1, inherited);
      TallyUpToInvariant(responses, concepts, k - 1, inherited);
      SeenStep(concepts, k);
      StepKeys(concepts, k, inherited, prev, responses[k - 1]);
      StepTallies(responses, concepts, k, inherited, prev);
      StepOrder(concepts, k, inherited, prev, responses[k - 1]);
    }
  }

  /** One iteration keeps the own keys distinct and equal to the seen, uninherited tags. */
  lemma StepKeys(concepts: seq<string>, k: nat, inherited: set<string>, prev: ConceptRecord, correct: bool)
    requires k > 0
    requires KeysAreOwn(prev) && OwnKeysAreSeen(concepts, k - 1, inherited, prev)
    requires forall x :: Seen(concepts, k, x) <==> Seen(concepts, k - 1, x) || x == TagAt(concepts, k - 1)
    ensures var rec := Count(prev, TagAt(concepts, k - 1), correct, inherited);
      KeysAreOwn(rec) && OwnKeysAreSeen(concepts, k, inherited, rec)
  {
    var tag := TagAt(concepts, k - 1);
    var rec := Count(prev, tag, correct, inherited);
    if tag in prev.stats {
      assert rec.keys == prev.keys && rec.stats.Keys == prev.stats.Keys;
      assert Seen(concepts, k - 1, tag);
    } else if tag !in inherited {
      assert rec.keys == prev.keys + [tag];
      assert tag !in prev.keys;
      forall i, j | 0 <= i < j < |rec.keys| ensures rec.keys[i] != rec.keys[j] {
        assert rec.keys[i] == prev.keys[i];
        if j < |prev.keys| {
          assert rec.keys[j] == prev.keys[j];
        }
      }
    }
  }

  /** One iteration adds the k-th answer to the tally of its tag and leaves the others as they were. */
  lemma StepTallies(responses: seq<bool>, concepts: seq<string>, k: nat, inherited: set<string>, prev: ConceptRecord)
    requires 0 < k <= |responses|
    requires TalliesCount(responses, concepts, k - 1, prev)
    requires OwnKeysAreSeen(concepts, k - 1, inherited, prev)
    ensures TalliesCount(responses, concepts, k, Count(prev, TagAt(concepts, k - 1), responses[k - 1], inherited))
  {
    var tag := TagAt(concepts, k - 1);
    var rec := Count(prev, tag, responses[k - 1], inherited);
    forall x | x in rec.stats
      ensures rec.stats[x] == Tally(CorrectFor(responses, concepts, k, x), TotalFor(concepts, k, x))
    {
      CountsStep(responses, concepts, k, x);
      if x == tag && tag !in prev.stats {
        TotalPositiveWhenSeen(concepts, k - 1, tag);
        CorrectAtMostTotal(responses, concepts, k - 1, tag);
      }
    }
  }

  /** The counts of the first k questions from those of the first k - 1. */
  lemma CountsStep(responses: seq<bool>, concepts: seq<string>, k: nat, x: string)
    requires 0 < k <= |responses|
    ensures TotalFor(concepts, k, x) == TotalFor(concepts, k - 1, x) + Bit(TagAt(concepts, k - 1) == x)
    ensures CorrectFor(responses, concepts, k, x)
      == CorrectFor(responses, concepts, k - 1, x) + Bit(TagAt(concepts, k - 1) == x && responses[k - 1])
  {
  }

  /** A tag seen before the k-th question keeps its first position. */
  lemma FirstIndexKept(concepts: seq<string>, k: nat, x: string)
    requires k > 0 && Seen(concepts, k - 1, x)
    ensures FirstIndex(concepts, k, x) == FirstIndex(concepts, k - 1, x) < k - 1
  {
  }

  /** One iteration keeps the own keys in the order of their first question. */
  lemma StepOrder(concepts: seq<string>, k: nat, inherited: set<string>, prev: ConceptRecord, correct: bool)
    requires k > 0
    requires KeysAreOwn(prev) && OwnKeysAreSeen(concepts, k - 1, inherited, prev)
    requires KeysByFirstIndex(concepts, k - 1, prev)
    ensures KeysByFirstIndex(concepts, k, Count(prev, TagAt(concepts, k - 1), correct, inherited))
  {
    var tag := TagAt(concepts, k - 1);
    forall i | 0 <= i < |prev.keys|
      ensures FirstIndex(concepts, k, prev.keys[i]) == FirstIndex(concepts, k - 1, prev.keys[i]) < k - 1
    {
      assert prev.keys[i] in prev.stats;
      FirstIndexKept(concepts, k, prev.keys[i]);
    }
    assert KeysByFirstIndex(concepts, k, prev);
    if tag !in prev.stats && tag !in inherited {
      assert FirstIndex(concepts, k, tag) == k - 1;
      AppendLatest(concepts, k, prev.keys, tag);
    }
  }

  /** Appending the tag of the k-th question after keys first seen earlier keeps the order. */
  lemma AppendLatest(concepts: seq<string>, k: nat, keys: seq<string>, tag: string)
    requires k > 0
    requires forall i, j :: 0 <= i < j < |keys| ==> FirstIndex(concepts, k, keys[i]) < FirstIndex(concepts, k, keys[j])
    requires forall i :: 0 <= i < |keys| ==> FirstIndex(concepts, k, keys[i]) < k - 1
    requires FirstIndex(concepts, k, tag) == k - 1
    ensures var r := keys + [tag];
      forall i, j :: 0 <= i < j < |r| ==> FirstIndex(concepts, k, r[i]) < FirstIndex(concepts, k, r[j])
  {
    var r := keys + [tag];
    forall i, j | 0 <= i < j < |r|
      ensures FirstIndex(concepts, k, r[i]) < FirstIndex(concepts, k, r[j])
    {
      assert r[i] == keys[i];
      if j < |keys| {
        assert r[j] == keys[j];
      }
    }
  }

  /**
   * The aggregator's rule, for any set of names resolved on the prototype:
   * a tag is listed exactly when some answered question carries it, it is
   * not such a name, and fewer than half of its questions were answered
   * right; no tag is listed twice; array-index tags come first in ascending
   * numeric order; and when no tag is an array index the tags appear in the
   * order of their first question.
   */
  lemma WeakConceptsWithCharacterized(responses: seq<bool>, concepts: seq<string>, inherited: set<string>)
    ensures var w := WeakConceptsWith(responses, concepts, inherited);
      var n := |responses|;
      && (forall tag :: tag in w <==>
            Seen(concepts, n, tag) && tag !in inherited
            && 2 * CorrectFor(responses, concepts, n, tag) < TotalFor(concepts, n, tag))
      && Distinct(w)
      && (forall i, j :: 0 <= i < j < |w| && IsArrayIndex(w[j]) ==>
            IsArrayIndex(w[i]) && IndexValue(w[i]) <= IndexValue(w[j]))
      && ((forall i :: 0 <= i < n ==> IsNamedKey(TagAt(concepts, i))) ==>
            forall i, j :: 0 <= i < j < |w| ==> FirstIndex(concepts, n, w[i]) < FirstIndex(concepts, n, w[j]))
  {
    WeakMembership(responses, concepts, inherited);
    WeakDistinct(responses, concepts, inherited);
    WeakIndexKeysFirst(responses, concepts, inherited);
    if forall i :: 0 <= i < |responses| ==> IsNamedKey(TagAt(concepts, i)) {
      WeakFirstSeenOrder(responses, concepts, inherited);
    }
  }

  lemma WeakMembership(responses: seq<bool>, concepts: seq<string>, inherited: set<string>)
    ensures var w := WeakConceptsWith(responses, concepts, inherited);
      var n := |responses|;
      forall tag :: tag in w <==>
        Seen(concepts, n, tag) && tag !in inherited
        && 2 * CorrectFor(responses, concepts, n, tag) < TotalFor(concepts, n, tag)
  {
    var n := |responses|;
    var rec := TallyUpTo(responses, concepts, n, inherited);
    TallyUpToInvariant(responses, concepts, n, inherited);
    var w := WeakConceptsWith(responses, concepts, inherited);
    forall tag ensures tag in w <==>
      Seen(concepts, n, tag) && tag !in inherited
      && 2 * CorrectFor(responses, concepts, n, tag) < TotalFor(concepts, n, tag)
    {
      TotalPositiveWhenSeen(concepts, n, tag);
      if tag in rec.stats {
        WeakIffBelowHalf(rec.stats[tag]);
      }
    }
  }

  lemma WeakDistinct(responses: seq<bool>, concepts: seq<string>, inherited: set<string>)
    ensures Distinct(WeakConceptsWith(responses, concepts, inherited))
  {
    var rec := TallyUpTo(responses, concepts, |responses|, inherited);
    TallyUpToInvariant(responses, concepts, |responses|, inherited);
    FilterDistinct((key: string) => IsWeakKey(rec.stats, key), OwnKeysOrder(rec.keys));
  }

  lemma WeakIndexKeysFirst(responses: seq<bool>, concepts: seq<string>, inherited: set<string>)
    ensures var w := WeakConceptsWith(responses, concepts, inherited);
      forall i, j :: 0 <= i < j < |w| && IsArrayIndex(w[j]) ==>
        IsArrayIndex(w[i]) && IndexValue(w[i]) <= IndexValue(w[j])
  {
    var rec := TallyUpTo(responses, concepts, |responses|, inherited);
    var indexFirst := (a: string, b: string) => IsArrayIndex(b) ==> IsArrayIndex(a) && IndexValue(a) <= IndexValue(b);
    FilterOrdered((key: string) => IsWeakKey(rec.stats, key), OwnKeysOrder(rec.keys), indexFirst);
  }

  lemma WeakFirstSeenOrder(responses: seq<bool>, concepts: seq<string>, inherited: set<string>)
    requires forall i :: 0 <= i < |responses| ==> IsNamedKey(TagAt(concepts, i))
    ensures var w := WeakConceptsWith(responses, concepts, inherited);
      forall i, j :: 0 <= i < j < |w| ==>
        FirstIndex(concepts, |responses|, w[i]) < FirstIndex(concepts, |responses|, w[j])
  {
    var n := |responses|;
    var rec := TallyUpTo(responses, concepts, n, inherited);
    TallyUpToInvariant(responses, concepts, n, inherited);
    forall key | key in rec.keys ensures IsNamedKey(key) {
      assert key in rec.stats;
      var i :| 0 <= i < n && TagAt(concepts, i) == key;
    }
    NamedKeysKeepCreationOrder(rec.keys);
    var firstBefore := (a: string, b: string) => FirstIndex(concepts, n, a) < FirstIndex(concepts, n, b);
    assert Ordered(rec.keys, firstBefore);
    FilterOrdered((key: string) => IsWeakKey(rec.stats, key), OwnKeysOrder(rec.keys), firstBefore);
  }

  /**
   * The aggregator with own-key lookups: a tag is weak exactly when some
   * answered question carries it and strictly fewer than half of its
   * questions were answered right (exactly half is not weak); each tag is
   * listed once; array-index tags come first in ascending numeric order; and
   * otherwise the tags appear in first-seen order.
   */
  lemma WeakConceptsCharacterized(responses: seq<bool>, concepts: seq<string>)
    ensures var w := WeakConcepts(responses, concepts);
      var n := |responses|;
      && (forall tag :: tag in w <==>
            Seen(concepts, n, tag) && 2 * CorrectFor(responses, concepts, n, tag) < TotalFor(concepts, n, tag))
      && Distinct(w)
      && (forall i, j :: 0 <= i < j < |w| && IsArrayIndex(w[j]) ==>
            IsArrayIndex(w[i]) && IndexValue(w[i]) <= IndexValue(w[j]))
      && ((forall i :: 0 <= i < n ==> IsNamedKey(TagAt(concepts, i))) ==>
            forall i, j :: 0 <= i < j < |w| ==> FirstIndex(concepts, n, w[i]) < FirstIndex(concepts, n, w[j]))
  {
    WeakConceptsWithCharacterized(responses, concepts, {});
  }

  /** The record after k iterations depends only on the first k responses and tags. */
  lemma {:induction false} TallyDependsOnAnsweredTags(
    responses: seq<bool>, concepts: seq<string>, concepts': seq<string>, k: nat, inherited: set<string>, inherited': set<string>)
    requires k <= |responses|
    requires forall i :: 0 <= i < k ==> TagAt(concepts, i) == TagAt(concepts', i)
    requires forall i :: 0 <= i < k ==> (TagAt(concepts, i) in inherited <==> TagAt(concepts, i) in inherited')
    ensures TallyUpTo(responses, concepts, k, inherited) == TallyUpTo(responses, concepts', k, inherited')
    decreases k
  {
    if k > 0 {
      TallyDependsOnAnsweredTags(responses, concepts, concepts', k - 1, inherited, inherited');
    }
  }

  /**
   * The loop is driven by the responses alone: concept entries past the last
   * response are never read, and an empty tag counts like a missing one.
   */
  lemma ExtraConceptsIgnored(responses: seq<bool>, concepts: seq<string>, concepts': seq<string>, inherited: set<string>)
    requires forall i :: 0 <= i < |responses| ==> TagAt(concepts, i) == TagAt(concepts', i)
    ensures WeakConceptsWith(responses, concepts, inherited) == WeakConceptsWith(responses, concepts', inherited)
  {
    TallyDependsOnAnsweredTags(responses, concepts, concepts', |responses|, inherited, inherited);
  }

  /** Untagged questions are all pooled under "General". */
  lemma UntaggedQuestionsArePooled(responses: seq<bool>, concepts: seq<string>)
    requires forall i :: 0 <= i < |concepts| ==> concepts[i] == ""
    ensures TotalFor(concepts, |responses|, DefaultTag) == |responses|
    ensures WeakConcepts(responses, concepts) == (if 2 * CorrectFor(responses, concepts, |responses|, DefaultTag) < |responses| then [DefaultTag] else [])
  {
    var n := |responses|;
    AllGeneral(concepts, n);
    var w := WeakConcepts(responses, concepts);
    WeakConceptsCharacterized(responses, concepts);
    forall tag | tag in w ensures tag == DefaultTag {
      var i :| 0 <= i < n && TagAt(concepts, i) == tag;
    }
    if n > 0 {
      assert Seen(concepts, n, DefaultTag) by {
        assert TagAt(concepts, 0) == DefaultTag;
      }
    }
    SingletonOrEmpty(w, DefaultTag);
  }

  lemma {:induction false} AllGeneral(concepts: seq<string>, k: nat)
    requires forall i :: 0 <= i < |concepts| ==> concepts[i] == ""
    ensures TotalFor(concepts, k, DefaultTag) == k
    ensures forall i :: 0 <= i < k ==> TagAt(concepts, i) == DefaultTag
  {
    if k > 0 {
      AllGeneral(concepts, k - 1);
    }
  }

  /** A concept answered wrong at every question that carries it counts no right answers. */
  lemma {:induction false} NoneRightCountsZero(responses: seq<bool>, concepts: seq<string>, k: nat, tag: string)
    requires k <= |responses|
    requires forall i :: 0 <= i < k && TagAt(concepts, i) == tag ==> !responses[i]
    ensures CorrectFor(responses, concepts, k, tag) == 0
  {
    if k > 0 {
      NoneRightCountsZero(responses, concepts, k - 1, tag);
    }
  }

  /** A concept answered right at every question that carries it counts all of them right. */
  lemma {:induction false} AllRightCountsAll(responses: seq<bool>, concepts: seq<string>, k: nat, tag: string)
    requires k <= |responses|
    requires forall i :: 0 <= i < k && TagAt(concepts, i) == tag ==> responses[i]
    ensures CorrectFor(responses, concepts, k, tag) == TotalFor(concepts, k, tag)
  {
    if k > 0 {
      AllRightCountsAll(responses, concepts, k - 1, tag);
    }
  }

  /** An answered concept whose every question was answered wrong is reported weak. */
  lemma AllWrongIsWeak(responses: seq<bool>, concepts: seq<string>, tag: string)
    requires Seen(concepts, |responses|, tag)
    requires forall i :: 0 <= i < |responses| && TagAt(concepts, i) == tag ==> !responses[i]
    ensures tag in WeakConcepts(responses, concepts)
  {
    WeakConceptsCharacterized(responses, concepts);
    NoneRightCountsZero(responses, concepts, |responses|, tag);
    TotalPositiveWhenSeen(concepts, |responses|, tag);
  }

  /**
   * The same for the plain-object aggregator, for every concept not named
   * like a member of Object.prototype (ToStringTagIsLost shows why the
   * exception is needed).
   */
  lemma AllWrongIsWeakAsWritten(responses: seq<bool>, concepts: seq<string>, tag: string)
    requires tag !in ObjectPrototypeNames
    requires Seen(concepts, |responses|, tag)
    requires forall i :: 0 <= i < |responses| && TagAt(concepts, i) == tag ==> !responses[i]
    ensures tag in WeakConceptsAsWritten(responses, concepts)
  {
    WeakConceptsWithCharacterized(responses, concepts, ObjectPrototypeNames);
    NoneRightCountsZero(responses, concepts, |responses|, tag);
    TotalPositiveWhenSeen(concepts, |responses|, tag);
  }

  /** A concept whose every question was answered right is never reported weak. */
  lemma AllRightIsNotWeak(responses: seq<bool>, concepts: seq<string>, tag: string)
    requires forall i :: 0 <= i < |responses| && TagAt(concepts, i) == tag ==> responses[i]
    ensures tag !in WeakConcepts(responses, concepts)
  {
    WeakConceptsCharacterized(responses, concepts);
    AllRightCountsAll(responses, concepts, |responses|, tag);
  }

  /** A repetition-free sequence whose only possible element is x is [x] or []. */
  lemma SingletonOrEmpty(w: seq<string>, x: string)
    requires Distinct(w)
    requires forall y :: y in w ==> y == x
    ensures w == (if x in w then [x] else [])
  {
    FirstTwo(w);
  }

  /**
   * The plain-object aggregator agrees with the own-key one whenever no
   * answered question is tagged with a name inherited from Object.prototype.
   */
  lemma AsWrittenAgreesOffPrototype(responses: seq<bool>, concepts: seq<string>)
    requires forall i :: 0 <= i < |responses| ==> TagAt(concepts, i) !in ObjectPrototypeNames
    ensures WeakConceptsAsWritten(responses, concepts) == WeakConcepts(responses, concepts)
  {
    TallyDependsOnAnsweredTags(responses, concepts, concepts, |responses|, ObjectPrototypeNames, {});
  }

  /** The plain-object aggregator never reports a name inherited from Object.prototype. */
  lemma AsWrittenDropsInheritedNames(responses: seq<bool>, concepts: seq<string>)
    ensures forall tag :: tag in ObjectPrototypeNames ==> tag !in WeakConceptsAsWritten(responses, concepts)
  {
    WeakConceptsWithCharacterized(responses, concepts, ObjectPrototypeNames);
  }

  /**
   * When every answered question carries a name inherited from
   * Object.prototype, the plain-object aggregator reports nothing, however
   * the questions were answered.
   */
  lemma AsWrittenEmptyOnInheritedTags(responses: seq<bool>, concepts: seq<string>)
    requires forall i :: 0 <= i < |responses| ==> TagAt(concepts, i) in ObjectPrototypeNames
    ensures WeakConceptsAsWritten(responses, concepts) == []
  {
    var n := |responses|;
    WeakConceptsWithCharacterized(responses, concepts, ObjectPrototypeNames);
    assert forall t :: Seen(concepts, n, t) ==> t in ObjectPrototypeNames by {
      forall t | Seen(concepts, n, t) ensures t in ObjectPrototypeNames {
        var i :| 0 <= i < n && TagAt(concepts, i) == t;
      }
    }
    FirstTwo(WeakConceptsAsWritten(responses, concepts));
  }

  /**
   * A single question tagged "toString" and answered wrong is weak, and the
   * own-key aggregator reports it, but the plain-object one reports nothing.
   */
  lemma ToStringTagIsLost()
    ensures WeakConceptsAsWritten([false], ["toString"]) == []
    ensures WeakConcepts([false], ["toString"]) == ["toString"]
  {
    var rs, cs := [false], ["toString"];
    assert TagAt(cs, 0) == "toString";
    AsWrittenEmptyOnInheritedTags(rs, cs);
    assert Seen(cs, 1, "toString");
    AllWrongIsWeak(rs, cs, "toString");
    OnlyTagIsWeak(rs, cs, "toString");
  }

  /** When every answered question carries the same tag, nothing else can be weak. */
  lemma OnlyTagIsWeak(responses: seq<bool>, concepts: seq<string>, tag: string)
    requires forall i :: 0 <= i < |responses| ==> TagAt(concepts, i) == tag
    ensures WeakConcepts(responses, concepts) == (if tag in WeakConcepts(responses, concepts) then [tag] else [])
  {
    var n := |responses|;
    WeakConceptsCharacterized(responses, concepts);
    assert forall t :: Seen(concepts, n, t) ==> t == tag by {
      forall t | Seen(concepts, n, t) ensures t == tag {
        var i :| 0 <= i < n && TagAt(concepts, i) == t;
      }
    }
    SingletonOrEmpty(WeakConcepts(responses, concepts), tag);
  }
}
