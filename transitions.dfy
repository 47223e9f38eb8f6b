/** The progress bookkeeping of `updateQuestionStatus`: first the loops that find the subtopic and
    topic holding the question and their progress before the change, then the records
    `{ from, to }` stored for them while the tree is rebuilt. */
module Transitions {
  import opened Wrappers
  import opened Catalog
  import opened Progress
  import opened Edits
  import opened Expansion

  /** A progress record: the percentage before and after a status change (the timestamp is left out). */
  datatype Transition = Transition(from: real, to: real)

  /** The locals `targetSubtopicKey`, `targetTopicName`, `previousSubtopicProgress` and
      `previousTopicProgress`, with `null` as `None`. */
  datatype Located = Located(
    subtopicKey: Option<string>,
    topicName: Option<string>,
    previousSubtopicProgress: real,
    previousTopicProgress: real)

  const NotLocated: Located := Located(None, None, 0.0, 0.0)

  /** Position of a subtopic: topic index and subtopic index. */
  datatype Owner = Owner(t: nat, s: nat)

  /** `questions.some(q => q.id === questionId)` */
  predicate HasId(qs: seq<Question>, id: string) {
    exists k :: 0 <= k < |qs| && qs[k].id == id
  }

  /** The last subtopic of the list holding the id. */
  function LastSubtopicWith(subs: seq<Subtopic>, id: string): (r: Option<nat>)
    ensures r.Some? ==> r.value < |subs| && HasId(subs[r.value].questions, id)
    ensures r.Some? ==> forall j :: r.value < j < |subs| ==> !HasId(subs[j].questions, id)
    ensures r.None? ==> forall j :: 0 <= j < |subs| ==> !HasId(subs[j].questions, id)
  {
    if subs == [] then None
    else if HasId(subs[|subs| - 1].questions, id) then Some(|subs| - 1)
    else LastSubtopicWith(subs[..|subs| - 1], id)
  }

  /** The last subtopic of the catalog, in traversal order, holding the id. */
  function LastOwner(data: seq<Topic>, id: string): (r: Option<Owner>)
    ensures r.Some? ==>
      r.value.t < |data| && r.value.s < |data[r.value.t].subtopics| && HasId(data[r.value.t].subtopics[r.value.s].questions, id)
    ensures r.Some? ==> forall s :: r.value.s < s < |data[r.value.t].subtopics| ==>
      !HasId(data[r.value.t].subtopics[s].questions, id)
    ensures r.Some? ==> forall t, s :: r.value.t < t < |data| && 0 <= s < |data[t].subtopics| ==>
      !HasId(data[t].subtopics[s].questions, id)
    ensures r.None? ==> forall t, s :: 0 <= t < |data| && 0 <= s < |data[t].subtopics| ==>
      !HasId(data[t].subtopics[s].questions, id)
  {
    if data == [] then None
    else match LastSubtopicWith(data[|data| - 1].subtopics, id)
      case Some(s) => Some(Owner(|data| - 1, s))
      case None => LastOwner(data[..|data| - 1], id)
  }

  /** What the search loops of `updateQuestionStatus` leave in their locals. */
  function Locate(data: seq<Topic>, id: string): Located {
    match LastOwner(data, id)
    case None => NotLocated
    case Some(o) =>
      var topic := data[o.t];
      var sub := topic.subtopics[o.s];
      Located(Some(SubtopicKey(topic.topic, sub.title)), Some(topic.topic),
              CalculateProgress(sub.questions), CalculateTopicProgress(topic))
  }

  /** The nested `forEach` loops at the start of `updateQuestionStatus`. */
  method FindOwner(data: seq<Topic>, id: string) returns (loc: Located)
    ensures loc == Locate(data, id)
  {
    loc := NotLocated;
    var i := 0;
    while i < |data|
      invariant 0 <= i <= |data|
      invariant loc == Locate(data[..i], id)
    {
      var topic := data[i];
      var foundInTopic := false;
      var j := 0;
      while j < |topic.subtopics|
        invariant 0 <= j <= |topic.subtopics|
        invariant foundInTopic == LastSubtopicWith(topic.subtopics[..j], id).Some?
        invariant !foundInTopic ==> loc == Locate(data[..i], id)
        invariant foundInTopic ==>
          var sub := topic.subtopics[LastSubtopicWith(topic.subtopics[..j], id).value];
          loc == Locate(data[..i], id).(subtopicKey := Some(SubtopicKey(topic.topic, sub.title)),
                                         topicName := Some(topic.topic),
                                         previousSubtopicProgress := CalculateProgress(sub.questions))
      {
        var subtopic := topic.subtopics[j];
        assert topic.subtopics[..j + 1][..j] == topic.subtopics[..j];
        if HasId(subtopic.questions, id) {
          loc := loc.(subtopicKey := Some(SubtopicKey(topic.topic, subtopic.title)),
                      topicName := Some(topic.topic),
                      previousSubtopicProgress := CalculateProgress(subtopic.questions));
          foundInTopic := true;
        }
        j := j + 1;
      }
      assert topic.subtopics[..j] == topic.subtopics;
      if foundInTopic {
        loc := loc.(previousTopicProgress := CalculateTopicProgress(topic));
      }
      assert data[..i + 1][..i] == data[..i];
      i := i + 1;
    }
    assert data[..i] == data;
  }

  // ----- the records stored while the tree is rebuilt -----

  /** The subtopic records written while one topic's subtopics are mapped: a subtopic whose key
      is the target key gets `{ from: previous, to: progress of the updated subtopic }`. */
  function RecordSubtopics(anims: map<string, Transition>, topicName: string, subs: seq<Subtopic>, loc: Located)
    : map<string, Transition>
  {
    if subs == [] then anims
    else
      var before := RecordSubtopics(anims, topicName, subs[..|subs| - 1], loc);
      var sub := subs[|subs| - 1];
      var key := SubtopicKey(topicName, sub.title);
      if loc.subtopicKey == Some(key) then before[key := Transition(loc.previousSubtopicProgress, CalculateProgress(sub.questions))]
      else before
  }

  /** One topic: its subtopics' records, then the topic's own record when its name is the target. */
  function RecordTopic(anims: map<string, Transition>, t: Topic, loc: Located): map<string, Transition> {
    var afterSubtopics := RecordSubtopics(anims, t.topic, t.subtopics, loc);
    if loc.topicName == Some(t.topic) then afterSubtopics[t.topic := Transition(loc.previousTopicProgress, CalculateTopicProgress(t))]
    else afterSubtopics
  }

  /** Every `setProgressAnimations` update of one `updateQuestionStatus` call, in call order,
      over the updated topics. */
  function RecordTransitions(anims: map<string, Transition>, updated: seq<Topic>, loc: Located): map<string, Transition> {
    if updated == [] then anims
    else RecordTopic(RecordTransitions(anims, updated[..|updated| - 1], loc), updated[|updated| - 1], loc)
  }

  /** `b` agrees with `a` on every key outside `keys`. */
  ghost predicate AgreesOutside(a: map<string, Transition>, b: map<string, Transition>, keys: set<string>) {
    forall k :: k !in keys ==> (k in a <==> k in b) && (k in a ==> a[k] == b[k])
  }

  /** The keys the target names. */
  function TargetKeys(loc: Located): set<string> {
    (if loc.subtopicKey.Some? then {loc.subtopicKey.value} else {})
    + (if loc.topicName.Some? then {loc.topicName.value} else {})
  }

  /** Only the target subtopic key and the target topic name are ever written. */
  lemma {:induction false} RecordTransitionsFrame(anims: map<string, Transition>, updated: seq<Topic>, loc: Located)
    ensures AgreesOutside(anims, RecordTransitions(anims, updated, loc), TargetKeys(loc))
  {
    if updated != [] {
      var before := RecordTransitions(anims, updated[..|updated| - 1], loc);
      var t := updated[|updated| - 1];
      RecordTransitionsFrame(anims, updated[..|updated| - 1], loc);
      RecordSubtopicsFrame(before, t.topic, t.subtopics, loc);
    }
  }

  lemma {:induction false} RecordSubtopicsFrame(anims: map<string, Transition>, topicName: string, subs: seq<Subtopic>, loc: Located)
    ensures AgreesOutside(anims, RecordSubtopics(anims, topicName, subs, loc), TargetKeys(loc))
  {
    if subs != [] {
      RecordSubtopicsFrame(anims, topicName, subs[..|subs| - 1], loc);
    }
  }

  /** Subtopics whose keys are not the target add nothing. */
  lemma {:induction false} RecordSubtopicsSkip(anims: map<string, Transition>, topicName: string, subs: seq<Subtopic>,
                                               lo: nat, hi: nat, loc: Located)
    requires lo <= hi <= |subs|
    requires forall j :: lo <= j < hi ==> loc.subtopicKey != Some(SubtopicKey(topicName, subs[j].title))
    ensures RecordSubtopics(anims, topicName, subs[..hi], loc) == RecordSubtopics(anims, topicName, subs[..lo], loc)
  {
    if lo < hi {
      assert subs[..hi][..hi - 1] == subs[..hi - 1];
      RecordSubtopicsSkip(anims, topicName, subs, lo, hi - 1, loc);
    }
  }

  /** A topic that is not the target and holds no target subtopic adds nothing. */
  predicate Untouched(t: Topic, loc: Located) {
    loc.topicName != Some(t.topic)
    && forall s :: 0 <= s < |t.subtopics| ==> loc.subtopicKey != Some(SubtopicKey(t.topic, t.subtopics[s].title))
  }

  lemma {:induction false} RecordTransitionsSkip(anims: map<string, Transition>, updated: seq<Topic>, lo: nat, hi: nat, loc: Located)
    requires lo <= hi <= |updated|
    requires forall j :: lo <= j < hi ==> Untouched(updated[j], loc)
    ensures RecordTransitions(anims, updated[..hi], loc) == RecordTransitions(anims, updated[..lo], loc)
  {
    if lo < hi {
      var t := updated[hi - 1];
      var before := RecordTransitions(anims, updated[..hi - 1], loc);
      assert updated[..hi][..hi - 1] == updated[..hi - 1];
      RecordSubtopicsSkip(before, t.topic, t.subtopics, 0, |t.subtopics|, loc);
      assert t.subtopics[..|t.subtopics|] == t.subtopics;
      RecordTransitionsSkip(anims, updated, lo, hi - 1, loc);
    }
  }

  /** Topic names are distinct, and the keys `${topic}-${title}` of all subtopics are distinct. */
  predicate UniqueKeys(data: seq<Topic>) {
    && (forall i, j :: 0 <= i < j < |data| ==> data[i].topic != data[j].topic)
    && (forall i, s, j, r ::
          (0 <= i < |data| && 0 <= s < |data[i].subtopics| && 0 <= j < |data| && 0 <= r < |data[j].subtopics| && (i != j || s != r)) ==>
          SubtopicKey(data[i].topic, data[i].subtopics[s].title) != SubtopicKey(data[j].topic, data[j].subtopics[r].title))
  }

  /** When no key is shared, `updateQuestionStatus` records for the subtopic holding the question
      `{ from: its progress before, to: its progress after }`, and the same for its topic; no other
      record changes. For an unknown id nothing is recorded. */
  lemma RecordedForOwner(anims: map<string, Transition>, data: seq<Topic>, id: string, checked: bool)
    requires UniqueKeys(data)
    ensures LastOwner(data, id).None? ==> RecordTransitions(anims, SetStatus(data, id, checked), Locate(data, id)) == anims
    ensures LastOwner(data, id).Some? ==>
      var o := LastOwner(data, id).value;
      var updated := SetStatus(data, id, checked);
      RecordTransitions(anims, updated, Locate(data, id)) ==
        anims[SubtopicKey(data[o.t].topic, data[o.t].subtopics[o.s].title) :=
                Transition(CalculateProgress(data[o.t].subtopics[o.s].questions),
                           CalculateProgress(updated[o.t].subtopics[o.s].questions))]
             [data[o.t].topic := Transition(CalculateTopicProgress(data[o.t]), CalculateTopicProgress(updated[o.t]))]
  {
    var updated := SetStatus(data, id, checked);
    var loc := Locate(data, id);
    if LastOwner(data, id).None? {
      assert updated[..|updated|] == updated;
      RecordTransitionsSkip(anims, updated, 0, |updated|, loc);
    } else {
      var o := LastOwner(data, id).value;
      OnlyOwnerTouched(data, updated, id, checked, o);
      RecordAtOwner(anims, updated, loc, o.t, o.s);
    }
  }

  /** Under unique keys, the updated tree holds the target keys at the owner only. */
  lemma OnlyOwnerTouched(data: seq<Topic>, updated: seq<Topic>, id: string, checked: bool, o: Owner)
    requires UniqueKeys(data) && updated == SetStatus(data, id, checked) && LastOwner(data, id) == Some(o)
    ensures o.t < |updated| && o.s < |updated[o.t].subtopics|
    ensures Locate(data, id).subtopicKey == Some(SubtopicKey(updated[o.t].topic, updated[o.t].subtopics[o.s].title))
    ensures Locate(data, id).topicName == Some(updated[o.t].topic)
    ensures forall j :: 0 <= j < |updated| && j != o.t ==> Untouched(updated[j], Locate(data, id))
    ensures forall r :: 0 <= r < |updated[o.t].subtopics| && r != o.s ==>
      Locate(data, id).subtopicKey != Some(SubtopicKey(updated[o.t].topic, updated[o.t].subtopics[r].title))
  {
    var loc := Locate(data, id);
    EditTreeSpec(data, WithId(id), MarkDone(checked));
    assert SameShape(data, updated);
    forall j | 0 <= j < |updated| && j != o.t
      ensures Untouched(updated[j], loc)
    {
      NamesDiffer(data, o.t, j);
      forall r | 0 <= r < |updated[j].subtopics|
        ensures loc.subtopicKey != Some(SubtopicKey(updated[j].topic, updated[j].subtopics[r].title))
      {
        KeysDiffer(data, o.t, o.s, j, r);
      }
    }
    forall r | 0 <= r < |updated[o.t].subtopics| && r != o.s
      ensures loc.subtopicKey != Some(SubtopicKey(updated[o.t].topic, updated[o.t].subtopics[r].title))
    {
      KeysDiffer(data, o.t, o.s, o.t, r);
    }
  }

  lemma NamesDiffer(data: seq<Topic>, i: nat, j: nat)
    requires UniqueKeys(data) && i < |data| && j < |data| && i != j
    ensures data[i].topic != data[j].topic
  {
    if i > j {
      assert data[j].topic != data[i].topic;
    }
  }

  lemma KeysDiffer(data: seq<Topic>, i: nat, s: nat, j: nat, r: nat)
    requires UniqueKeys(data) && i < |data| && s < |data[i].subtopics| && j < |data| && r < |data[j].subtopics|
    requires i != j || s != r
    ensures SubtopicKey(data[i].topic, data[i].subtopics[s].title) != SubtopicKey(data[j].topic, data[j].subtopics[r].title)
  {
  }

  /** One topic's subtopic records when exactly one of its subtopics has the target key. */
  lemma RecordSubtopicsAt(anims: map<string, Transition>, topicName: string, subs: seq<Subtopic>, s: nat, loc: Located)
    requires s < |subs| && loc.subtopicKey == Some(SubtopicKey(topicName, subs[s].title))
    requires forall r :: 0 <= r < |subs| && r != s ==> loc.subtopicKey != Some(SubtopicKey(topicName, subs[r].title))
    ensures RecordSubtopics(anims, topicName, subs, loc) ==
      anims[loc.subtopicKey.value := Transition(loc.previousSubtopicProgress, CalculateProgress(subs[s].questions))]
  {
    RecordSubtopicsSkip(anims, topicName, subs, 0, s, loc);
    assert subs[..0] == [];
    assert subs[..s + 1][..s] == subs[..s];
    assert subs[..s + 1][s] == subs[s];
    RecordSubtopicsSkip(anims, topicName, subs, s + 1, |subs|, loc);
    assert subs[..|subs|] == subs;
  }

  /** The records of one call when exactly one subtopic has the target key and exactly one topic the
      target name. */
  lemma RecordAtOwner(anims: map<string, Transition>, updated: seq<Topic>, loc: Located, t: nat, s: nat)
    requires t < |updated| && s < |updated[t].subtopics|
    requires loc.subtopicKey == Some(SubtopicKey(updated[t].topic, updated[t].subtopics[s].title))
    requires loc.topicName == Some(updated[t].topic)
    requires forall j :: 0 <= j < |updated| && j != t ==> Untouched(updated[j], loc)
    requires forall r :: 0 <= r < |updated[t].subtopics| && r != s ==>
      loc.subtopicKey != Some(SubtopicKey(updated[t].topic, updated[t].subtopics[r].title))
    ensures RecordTransitions(anims, updated, loc) ==
      anims[loc.subtopicKey.value := Transition(loc.previousSubtopicProgress, CalculateProgress(updated[t].subtopics[s].questions))]
           [updated[t].topic := Transition(loc.previousTopicProgress, CalculateTopicProgress(updated[t]))]
  {
    var topic := updated[t];
    RecordUpToOwner(anims, updated, loc, t);
    RecordSubtopicsAt(anims, topic.topic, topic.subtopics, s, loc);
    RecordTransitionsSkip(anims, updated, t + 1, |updated|, loc);
    assert updated[..|updated|] == updated;
  }

  /** Up to and including the target topic, only the target topic writes. */
  lemma RecordUpToOwner(anims: map<string, Transition>, updated: seq<Topic>, loc: Located, t: nat)
    requires t < |updated|
    requires forall j :: 0 <= j < t ==> Untouched(updated[j], loc)
    ensures RecordTransitions(anims, updated[..t + 1], loc) == RecordTopic(anims, updated[t], loc)
  {
    RecordTransitionsSkip(anims, updated, 0, t, loc);
    assert updated[..0] == [];
    assert updated[..t + 1][..t] == updated[..t];
    assert updated[..t + 1][t] == updated[t];
  }

  /** Checking a question never makes the `to` of its subtopic's record lower than the `from`;
      unchecking never makes it higher. */
  lemma RecordDirection(data: seq<Topic>, id: string, checked: bool)
    requires LastOwner(data, id).Some?
    ensures
      var o := LastOwner(data, id).value;
      var before := CalculateProgress(data[o.t].subtopics[o.s].questions);
      var after := CalculateProgress(SetStatus(data, id, checked)[o.t].subtopics[o.s].questions);
      if checked then before <= after else after <= before
  {
    var o := LastOwner(data, id).value;
    MarkDoneProgress(data[o.t].subtopics[o.s].questions, id, checked);
  }
}
