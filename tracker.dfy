/** The state of the dashboard component: the catalog, the expansion maps, the progress records and
    the note modal, with one method per handler that changes them. */
module Tracker {
  import opened Wrappers
  import opened Text
  import opened Catalog
  import opened Filters
  import opened Edits
  import opened Expansion
  import opened Transitions

  class DsaTracker {
    var data: seq<Topic>
    var expandedTopics: map<string, bool>
    var expandedSubtopics: map<string, bool>
    var progressAnimations: map<string, Transition>
    var noteModalVisible: bool
    var currentNote: string
    var currentQuestionId: Option<string>

    /** The note modal is only ever shown for a question. */
    predicate Valid()
      reads this
    {
      noteModalVisible ==> currentQuestionId.Some?
    }

    /** The initial state. `saved` is the parsed stored catalog and `storedTopics` and
        `storedSubtopics` the parsed stored expansion maps; `None` stands for a value that is
        absent (or, for the expansion maps, unparsable). */
    constructor (saved: Option<seq<Topic>>, storedTopics: Option<map<string, bool>>, storedSubtopics: Option<map<string, bool>>)
      ensures Valid()
      ensures data == LoadInitialData(saved)
      ensures expandedTopics == storedTopics.GetOr(DefaultExpandedTopics)
      ensures expandedSubtopics == storedSubtopics.GetOr(DefaultExpandedSubtopics)
      ensures progressAnimations == map[]
      ensures !noteModalVisible && currentNote == "" && currentQuestionId == None
    {
      data := LoadInitialData(saved);
      expandedTopics := storedTopics.GetOr(DefaultExpandedTopics);
      expandedSubtopics := storedSubtopics.GetOr(DefaultExpandedSubtopics);
      progressAnimations := map[];
      noteModalVisible := false;
      currentNote := "";
      currentQuestionId := None;
    }

    /** `toggleTopic` */
    method ToggleTopic(topicName: string)
      requires Valid()
      modifies this
      ensures Valid()
      ensures expandedTopics == Expansion.ToggleTopic(old(expandedTopics), topicName)
      ensures IsExpanded(expandedTopics, topicName) == !IsExpanded(old(expandedTopics), topicName)
      ensures data == old(data) && expandedSubtopics == old(expandedSubtopics)
      ensures progressAnimations == old(progressAnimations)
      ensures noteModalVisible == old(noteModalVisible) && currentNote == old(currentNote)
      ensures currentQuestionId == old(currentQuestionId)
    {
      expandedTopics := Expansion.ToggleTopic(expandedTopics, topicName);
    }

    /** `toggleSubtopic` */
    method ToggleSubtopic(topicName: string, subtopicTitle: string)
      requires Valid()
      modifies this
      ensures Valid()
      ensures expandedSubtopics == Expansion.ToggleSubtopic(old(expandedSubtopics), topicName, subtopicTitle)
      ensures IsExpanded(expandedSubtopics, SubtopicKey(topicName, subtopicTitle))
           == !IsExpanded(old(expandedSubtopics), SubtopicKey(topicName, subtopicTitle))
      ensures data == old(data) && expandedTopics == old(expandedTopics)
      ensures progressAnimations == old(progressAnimations)
      ensures noteModalVisible == old(noteModalVisible) && currentNote == old(currentNote)
      ensures currentQuestionId == old(currentQuestionId)
    {
      expandedSubtopics := Expansion.ToggleSubtopic(expandedSubtopics, topicName, subtopicTitle);
    }

    /** `updateQuestionStatus`: locate the question, rebuild the tree with its new status, and
        record the progress transitions of its subtopic and topic. */
    method UpdateQuestionStatus(questionId: string, isChecked: bool)
      requires Valid()
      modifies this
      ensures Valid()
      ensures data == SetStatus(old(data), questionId, isChecked)
      ensures progressAnimations == RecordTransitions(old(progressAnimations), data, Locate(old(data), questionId))
      ensures SameShape(old(data), data)
      ensures expandedTopics == old(expandedTopics) && expandedSubtopics == old(expandedSubtopics)
      ensures noteModalVisible == old(noteModalVisible) && currentNote == old(currentNote)
      ensures currentQuestionId == old(currentQuestionId)
    {
      var before := data;
      var loc := FindOwner(before, questionId);
      var newData := SetStatus(before, questionId, isChecked);
      var anims := RecordTransitions(progressAnimations, newData, loc);
      data, progressAnimations := newData, anims;
      SetStatusShape(before, questionId, isChecked);
    }

    /** `toggleStarred` */
    method ToggleStarred(questionId: string)
      requires Valid()
      modifies this
      ensures Valid()
      ensures data == Edits.ToggleStarred(old(data), questionId)
      ensures SameShape(old(data), data)
      ensures expandedTopics == old(expandedTopics) && expandedSubtopics == old(expandedSubtopics)
      ensures progressAnimations == old(progressAnimations)
      ensures noteModalVisible == old(noteModalVisible) && currentNote == old(currentNote)
      ensures currentQuestionId == old(currentQuestionId)
    {
      EditTreeShape(data, WithId(questionId), FlipStar);
      data := Edits.ToggleStarred(data, questionId);
    }

    /** `openNoteModal`: a missing or empty note opens an empty editor. */
    method OpenNoteModal(questionId: string, note: Option<string>)
      requires Valid()
      modifies this
      ensures Valid()
      ensures noteModalVisible && currentQuestionId == Some(questionId)
      ensures currentNote == note.GetOr("")
      ensures data == old(data) && expandedTopics == old(expandedTopics) && expandedSubtopics == old(expandedSubtopics)
      ensures progressAnimations == old(progressAnimations)
    {
      currentQuestionId := Some(questionId);
      currentNote := note.GetOr("");
      noteModalVisible := true;
    }

    /** The editor's `onChange`: the text being edited. */
    method EditNote(value: string)
      requires Valid()
      modifies this
      ensures Valid()
      ensures currentNote == value
      ensures data == old(data) && expandedTopics == old(expandedTopics) && expandedSubtopics == old(expandedSubtopics)
      ensures progressAnimations == old(progressAnimations)
      ensures noteModalVisible == old(noteModalVisible) && currentQuestionId == old(currentQuestionId)
    {
      currentNote := value;
    }

    /** Cancel, or dismissing the modal: the modal closes and nothing is written. */
    method CloseNoteModal()
      requires Valid()
      modifies this
      ensures Valid()
      ensures !noteModalVisible
      ensures data == old(data) && expandedTopics == old(expandedTopics) && expandedSubtopics == old(expandedSubtopics)
      ensures progressAnimations == old(progressAnimations)
      ensures currentNote == old(currentNote) && currentQuestionId == old(currentQuestionId)
    {
      noteModalVisible := false;
    }

    /** `saveNote`: the edited text goes to the question whose modal was opened; the modal closes.
        Saved from the open modal, the text always reaches a question id. */
    method SaveNote()
      requires Valid()
      modifies this
      ensures Valid()
      ensures data == Edits.SaveNote(old(data), old(currentQuestionId), old(currentNote))
      ensures old(noteModalVisible) ==> data == EditTree(old(data), WithId(old(currentQuestionId).value), WriteNote(old(currentNote)))
      ensures SameShape(old(data), data)
      ensures !noteModalVisible
      ensures expandedTopics == old(expandedTopics) && expandedSubtopics == old(expandedSubtopics)
      ensures progressAnimations == old(progressAnimations)
      ensures currentNote == old(currentNote) && currentQuestionId == old(currentQuestionId)
    {
      EditTreeShape(data, if currentQuestionId.Some? then WithId(currentQuestionId.value) else NoQuestion, WriteNote(currentNote));
      data := Edits.SaveNote(data, currentQuestionId, currentNote);
      noteModalVisible := false;
    }
  }

  /** After a note is saved for a question, the notes filter sees it exactly as the saved text:
      "with-notes" shows the question when the text has a non-whitespace character, and
      "without-notes" shows it otherwise. */
  lemma SavedNoteSeenByFilter(data: seq<Topic>, id: string, text: string, t: nat, s: nat, k: nat)
    requires t < |data| && s < |data[t].subtopics| && k < |data[t].subtopics[s].questions|
    requires At(data, t, s, k).id == id
    ensures
      var q := At(Edits.SaveNote(data, Some(id), text), t, s, k);
      && q.note == Some(text)
      && (NotesMatch(q, WithNotes) <==> exists i :: 0 <= i < |text| && !IsWhitespace(text[i]))
      && (NotesMatch(q, WithoutNotes) <==> forall i :: 0 <= i < |text| ==> IsWhitespace(text[i]))
  {
    EditTreeSpec(data, WithId(id), WriteNote(text));
    var q := At(Edits.SaveNote(data, Some(id), text), t, s, k);
    NotesFiltersPartition(q);
  }
}
