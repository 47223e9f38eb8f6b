/** Which topics and subtopics are expanded: two maps from keys to booleans. A subtopic's key is
    the topic name and the subtopic title joined by a hyphen. */
module Expansion {

  /** A key that is absent reads as `undefined`, which shows collapsed. (In JavaScript a key
      that every object inherits, such as "constructor", reads as a function instead; the map
      here holds only the keys that were stored.) */
  predicate IsExpanded(m: map<string, bool>, key: string) {
    key in m && m[key]
  }

  /** `{ ...prev, [key]: !prev[key] }`: exactly one key flips; an absent key becomes `true`. */
  function Toggle(m: map<string, bool>, key: string): (r: map<string, bool>)
    ensures r.Keys == m.Keys + {key}
    ensures r[key] == !IsExpanded(m, key)
    ensures key !in m ==> r[key]
    ensures forall k :: k in m && k != key ==> r[k] == m[k]
  {
    m[key := !IsExpanded(m, key)]
  }

  /** `toggleTopic` */
  function ToggleTopic(m: map<string, bool>, topicName: string): map<string, bool> {
    Toggle(m, topicName)
  }

  /** The key `${topicName}-${subtopicTitle}`. */
  function SubtopicKey(topicName: string, subtopicTitle: string): string {
    topicName + "-" + subtopicTitle
  }

  /** `toggleSubtopic` */
  function ToggleSubtopic(m: map<string, bool>, topicName: string, subtopicTitle: string): map<string, bool> {
    Toggle(m, SubtopicKey(topicName, subtopicTitle))
  }

  /** The expansion defaults used when nothing is stored. */
  const DefaultExpandedTopics: map<string, bool> := map["Basics" := true, "Arrays" := true]
  const DefaultExpandedSubtopics: map<string, bool> :=
    map["Basics-Time and Space Complexity" := true, "Arrays-Basic Array Problems" := true]

  /** Toggling twice shows every key as before; the map itself comes back when the key was present. */
  lemma ToggleTwice(m: map<string, bool>, key: string)
    ensures forall k :: IsExpanded(Toggle(Toggle(m, key), key), k) == IsExpanded(m, k)
    ensures key in m ==> Toggle(Toggle(m, key), key) == m
  {
    if key in m {
      assert Toggle(Toggle(m, key), key).Keys == m.Keys;
    }
  }

  /** Within one topic, different subtopic titles give different keys, so toggling a subtopic
      never changes a sibling. */
  lemma SubtopicKeyInjective(topicName: string, a: string, b: string)
    requires SubtopicKey(topicName, a) == SubtopicKey(topicName, b)
    ensures a == b
  {
    var n := |topicName| + 1;
    assert a == SubtopicKey(topicName, a)[n..];
    assert b == SubtopicKey(topicName, b)[n..];
  }

  /** Across topics the key is ambiguous: a hyphen in a topic name or a title lets two different
      subtopics share one key (and so one expansion flag and one progress record). */
  lemma SubtopicKeyCollides()
    ensures SubtopicKey("Two-Pointer", "Basics") == SubtopicKey("Two", "Pointer-Basics")
  {
  }

  /** Toggling a subtopic leaves every other subtopic of the same topic as it was. */
  lemma ToggleSubtopicLeavesSiblings(m: map<string, bool>, topicName: string, a: string, b: string)
    requires a != b
    ensures IsExpanded(ToggleSubtopic(m, topicName, a), SubtopicKey(topicName, b)) == IsExpanded(m, SubtopicKey(topicName, b))
  {
    if SubtopicKey(topicName, a) == SubtopicKey(topicName, b) {
      SubtopicKeyInjective(topicName, a, b);
    }
  }
}
