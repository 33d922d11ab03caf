/**
 * The Remediation Resolver: one resource per weak concept, from a static
 * table when the concept is listed there and a synthesized search link
 * otherwise.
 */
module Remediation {
  import opened Wrappers
  import opened JsKeys

  datatype Video = Video(title: string, url: string)

  /** One remediation record: the resource and the concept it remedies. */
  datatype Remedy = Remedy(title: string, url: string, concept: string)

  const NewtonUrl := "https://www.youtube.com/watch?v=kKKM8Y-u7ds"
  const LimitsUrl := "https://www.youtube.com/watch?v=riXcZT2ICjA"
  const MlIntroUrl := "https://www.youtube.com/watch?v=ukzFI9rgwfU"
  const MlOptimisationUrl := "https://www.youtube.com/watch?v=nk2CQITm_eo"

  /** A row of the curated table: a concept name and its videos. */
  datatype Entry = Entry(concept: string, videos: seq<Video>)

  /** The curated resources, in the order the table lists them; every row holds one video. */
  const RemediationTable: seq<Entry> := [
    Entry("First Law (Inertia)", [Video("Newton's First Law - Inertia Deep Dive", NewtonUrl)]),
    Entry("Second Law (F=ma)", [Video("F=ma Problem Solving Masterclass", NewtonUrl)]),
    Entry("Third Law (Action-Reaction)", [Video("Action-Reaction Pairs Explained", NewtonUrl)]),
    Entry("Friction and Normal Force", [Video("Friction Forces - Complete Guide", NewtonUrl)]),
    Entry("Standard Limits", [Video("Standard Limits You Must Know", LimitsUrl)]),
    Entry("Continuity Definition", [Video("Continuity - When Functions Break", LimitsUrl)]),
    Entry("Euler's Limit", [Video("The Number e and Euler's Limit", LimitsUrl)]),
    Entry("ML Fundamentals", [Video("Machine Learning Crash Course", MlIntroUrl)]),
    Entry("Supervised vs Unsupervised", [Video("Supervised vs Unsupervised Learning Explained", MlIntroUrl)]),
    Entry("Overfitting", [Video("Overfitting vs Underfitting - How to Fix", MlIntroUrl)]),
    Entry("Cost Function", [Video("Understanding Cost Functions in ML", MlOptimisationUrl)]),
    Entry("Bias-Variance Tradeoff", [Video("Bias-Variance Tradeoff Explained Simply", MlOptimisationUrl)]),
    Entry("Gradient Descent", [Video("Gradient Descent Step by Step", MlOptimisationUrl)])
  ]

  const SearchPrefix := "https://www.youtube.com/results?search_query="

  /** The table's own property for a concept, if it has one. */
  function Curated(table: seq<Entry>, concept: string): Option<seq<Video>>
    decreases |table|
  {
    if table == [] then None
    else if table[0].concept == concept then Some(table[0].videos)
    else Curated(table[1..], concept)
  }

  /** The lookup finds a row of the table exactly when some row names the concept, and returns that row's videos. */
  lemma {:induction false} CuratedFindsRow(table: seq<Entry>, concept: string)
    ensures Curated(table, concept).Some? <==> exists i :: 0 <= i < |table| && table[i].concept == concept
    ensures Curated(table, concept).Some? ==>
      exists i :: 0 <= i < |table| && table[i] == Entry(concept, Curated(table, concept).value)
    decreases |table|
  {
    if table != [] && table[0].concept != concept {
      CuratedFindsRow(table[1..], concept);
      assert forall i :: 0 <= i < |table[1..]| ==> table[1..][i] == table[i + 1];
      if exists i :: 0 <= i < |table| && table[i].concept == concept {
        var i :| 0 <= i < |table| && table[i].concept == concept;
        assert table[1..][i - 1].concept == concept;
      }
    }
  }

  /** Every listed concept has exactly one curated video. */
  lemma TableShape(concept: string)
    ensures Curated(RemediationTable, concept).Some? ==> |Curated(RemediationTable, concept).value| == 1
  {
    CuratedFindsRow(RemediationTable, concept);
    assert forall i :: 0 <= i < |RemediationTable| ==> |RemediationTable[i].videos| == 1;
  }

  /** The table is consulted only when it has a non-empty list for the concept. */
  predicate HasCurated(concept: string) {
    var videos := Curated(RemediationTable, concept);
    videos.Some? && |videos.value| > 0
  }

  /** The first curated video of a listed concept. */
  function FirstCurated(concept: string): Video
    requires HasCurated(concept)
  {
    Curated(RemediationTable, concept).value[0]
  }

  /**
   * The synthesized record for a concept the table does not list. `encode`
   * stands for encodeURIComponent.
   */
  function Fallback(concept: string, subjectId: string, topicTitle: string, encode: string -> string): Remedy {
    Remedy("Remediation: " + concept + " in " + topicTitle,
           SearchPrefix + encode(concept + " " + subjectId + " tutorial"),
           concept)
  }

  function RemedyFor(concept: string, subjectId: string, topicTitle: string, encode: string -> string): Remedy {
    if HasCurated(concept) then
      var v := FirstCurated(concept);
      Remedy(v.title, v.url, concept)
    else
      Fallback(concept, subjectId, topicTitle, encode)
  }

  function ConceptsOf(videos: seq<Remedy>): (r: seq<string>)
    ensures |r| == |videos|
    ensures forall i :: 0 <= i < |r| ==> r[i] == videos[i].concept
  {
    seq(|videos|, i requires 0 <= i < |videos| => videos[i].concept)
  }

  /**
   * getRemediationVideos with own-key table lookups: exactly one record per
   * weak concept, in the same order, naming that concept; a listed concept
   * gets the first curated video, any other a title naming the concept and
   * topic and a search link for concept, subject and "tutorial".
   */
  function GetRemediationVideos(weakConcepts: seq<string>, subjectId: string, topicTitle: string, encode: string -> string): (r: seq<Remedy>)
    ensures |r| == |weakConcepts|
    ensures ConceptsOf(r) == weakConcepts
    ensures forall i :: 0 <= i < |r| && HasCurated(weakConcepts[i]) ==>
      r[i].title == FirstCurated(weakConcepts[i]).title
      && r[i].url == FirstCurated(weakConcepts[i]).url
    ensures forall i :: 0 <= i < |r| && !HasCurated(weakConcepts[i]) ==>
      && r[i].title == "Remediation: " + weakConcepts[i] + " in " + topicTitle
      && SearchPrefix <= r[i].url
      && r[i].url[|SearchPrefix|..] == encode(weakConcepts[i] + " " + subjectId + " tutorial")
  {
    var r := seq(|weakConcepts|, i requires 0 <= i < |weakConcepts| => RemedyFor(weakConcepts[i], subjectId, topicTitle, encode));
    assert ConceptsOf(r) == weakConcepts;
    r
  }

  // The lookup as the source writes it, on a plain object literal.

  /**
   * What `remediationMap[concept]` yields: the table's own list, one of the
   * methods inherited from Object.prototype (a function, whose `length` is
   * its parameter count), Object.prototype itself (for "__proto__", which
   * has no `length`), or undefined.
   */
  datatype Lookup = OwnVideos(videos: seq<Video>) | InheritedMethod(length: nat) | InheritedObject | Absent

  function LookupAsWritten(concept: string): Lookup {
    var own := Curated(RemediationTable, concept);
    if own.Some? then OwnVideos(own.value)
    else if concept in InheritedMethodLength then InheritedMethod(InheritedMethodLength[concept])
    else if concept == "__proto__" then InheritedObject
    else Absent
  }

  /** A record as built by the source, whose title and url may be missing. */
  datatype SpreadRecord = SpreadRecord(title: Option<string>, url: Option<string>, concept: string)

  function Spread(r: Remedy): SpreadRecord {
    SpreadRecord(Some(r.title), Some(r.url), r.concept)
  }

  /**
   * `videos && videos.length > 0`, then `{ ...videos[0], concept }`. For an
   * inherited method with a positive length, `videos[0]` is undefined and
   * spreading it contributes nothing, so only `concept` is set.
   */
  function RemedyAsWritten(concept: string, subjectId: string, topicTitle: string, encode: string -> string): SpreadRecord {
    match LookupAsWritten(concept)
    case OwnVideos(videos) =>
      if |videos| > 0 then SpreadRecord(Some(videos[0].title), Some(videos[0].url), concept)
      else Spread(Fallback(concept, subjectId, topicTitle, encode))
    case InheritedMethod(length) =>
      if length > 0 then SpreadRecord(None, None, concept)
      else Spread(Fallback(concept, subjectId, topicTitle, encode))
    case _ => Spread(Fallback(concept, subjectId, topicTitle, encode))
  }

  function GetRemediationVideosAsWritten(weakConcepts: seq<string>, subjectId: string, topicTitle: string, encode: string -> string): seq<SpreadRecord> {
    seq(|weakConcepts|, i requires 0 <= i < |weakConcepts| => RemedyAsWritten(weakConcepts[i], subjectId, topicTitle, encode))
  }

  /**
   * The plain-object lookup agrees with the own-key one on every concept
   * except the inherited methods with a positive length, and for exactly
   * those it produces a record with neither title nor url.
   */
  lemma AsWrittenDiffersOnlyOnInheritedMethods(weakConcepts: seq<string>, subjectId: string, topicTitle: string, encode: string -> string)
    ensures var asWritten := GetRemediationVideosAsWritten(weakConcepts, subjectId, topicTitle, encode);
      var fixed := GetRemediationVideos(weakConcepts, subjectId, topicTitle, encode);
      && |asWritten| == |fixed|
      && forall i :: 0 <= i < |fixed| ==>
        if Curated(RemediationTable, weakConcepts[i]).None?
          && weakConcepts[i] in InheritedMethodLength && InheritedMethodLength[weakConcepts[i]] > 0
        then asWritten[i] == SpreadRecord(None, None, weakConcepts[i])
        else asWritten[i] == Spread(fixed[i])
  {
  }

  /** A weak concept named "hasOwnProperty" gets a record without a title or a link. */
  lemma HasOwnPropertyLosesItsLink(subjectId: string, topicTitle: string, encode: string -> string)
    ensures GetRemediationVideosAsWritten(["hasOwnProperty"], subjectId, topicTitle, encode)[0].title == None
    ensures GetRemediationVideos(["hasOwnProperty"], subjectId, topicTitle, encode)[0]
      == Fallback("hasOwnProperty", subjectId, topicTitle, encode)
  {
    HasOwnPropertyUncurated();
    assert InheritedMethodLength["hasOwnProperty"] == 1;
  }

  /** No row of the table is named "hasOwnProperty". */
  lemma HasOwnPropertyUncurated()
    ensures Curated(RemediationTable, "hasOwnProperty") == None
  {
    CuratedFindsRow(RemediationTable, "hasOwnProperty");
    assert forall i :: 0 <= i < |RemediationTable| ==> |RemediationTable[i].concept| != |"hasOwnProperty"|;
  }
}
