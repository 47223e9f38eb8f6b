/** The whole-tree rebuilds of the dashboard: every topic, subtopic and question list is mapped,
    and the questions a target selects get one field changed. `updateQuestionStatus`,
    `toggleStarred` and `saveNote` select by id; the seed normalisation selects every question. */
module Edits {
  import opened Wrappers
  import opened Catalog
  import opened Progress

  /** The one-field change applied to a selected question. */
  datatype Edit =
    | MarkDone(checked: bool)   // status := checked ? "Done" : "Not Started"
    | FlipStar                  // starred := !starred
    | WriteNote(text: string)   // note := text
    | DefaultStar               // starred := starred || false

  /** Which questions an edit applies to: those with an id (`question.id === questionId`),
      none (the comparison with a `null` id), or every question. */
  datatype Target = WithId(id: string) | NoQuestion | Every

  predicate Hits(q: Question, target: Target) {
    match target
    case WithId(id) => q.id == id
    case NoQuestion => false
    case Every => true
  }

  function ApplyEdit(q: Question, e: Edit): (r: Question)
    ensures r.id == q.id
  {
    match e
    case MarkDone(checked) => q.(status := if checked then Done else NotStarted)
    case FlipStar => q.(starred := Some(!q.IsStarred()))
    case WriteNote(text) => q.(note := Some(text))
    case DefaultStar => q.(starred := Some(q.IsStarred()))
  }

  /** `questions.map(question => selected ? { ...question, field: v } : question)` */
  function EditQuestions(qs: seq<Question>, target: Target, e: Edit): (r: seq<Question>)
    ensures |r| == |qs|
    ensures forall k :: 0 <= k < |qs| ==>
      r[k] == if Hits(qs[k], target) then ApplyEdit(qs[k], e) else qs[k]
  {
    if qs == [] then []
    else [if Hits(qs[0], target) then ApplyEdit(qs[0], e) else qs[0]] + EditQuestions(qs[1..], target, e)
  }

  function EditSubtopics(subs: seq<Subtopic>, target: Target, e: Edit): (r: seq<Subtopic>)
    ensures |r| == |subs|
    ensures forall s :: 0 <= s < |subs| ==>
      r[s].title == subs[s].title && r[s].questions == EditQuestions(subs[s].questions, target, e)
  {
    if subs == [] then []
    else [subs[0].(questions := EditQuestions(subs[0].questions, target, e))] + EditSubtopics(subs[1..], target, e)
  }

  function EditTopic(t: Topic, target: Target, e: Edit): Topic {
    t.(subtopics := EditSubtopics(t.subtopics, target, e))
  }

  /** `dsaData.map(topic => ({ ...topic, subtopics: topic.subtopics.map(...) }))` */
  function EditTree(data: seq<Topic>, target: Target, e: Edit): (r: seq<Topic>)
    ensures |r| == |data|
    ensures forall t :: 0 <= t < |data| ==> r[t] == EditTopic(data[t], target, e)
  {
    if data == [] then [] else [EditTopic(data[0], target, e)] + EditTree(data[1..], target, e)
  }

  /** The tree update of `updateQuestionStatus`. */
  function SetStatus(data: seq<Topic>, id: string, checked: bool): seq<Topic> {
    EditTree(data, WithId(id), MarkDone(checked))
  }

  /** A status change keeps the shape of the tree. */
  lemma SetStatusShape(data: seq<Topic>, id: string, checked: bool)
    ensures SameShape(data, SetStatus(data, id, checked))
  {
    EditTreeShape(data, WithId(id), MarkDone(checked));
  }

  /** `toggleStarred` */
  function ToggleStarred(data: seq<Topic>, id: string): seq<Topic> {
    EditTree(data, WithId(id), FlipStar)
  }

  /** `saveNote`: the note being edited is written to the question whose note modal is open;
      with no question open (`currentQuestionId` is `null`) nothing is selected. */
  function SaveNote(data: seq<Topic>, id: Option<string>, text: string): seq<Topic> {
    EditTree(data, if id.Some? then WithId(id.value) else NoQuestion, WriteNote(text))
  }

  /** The `map` of `loadInitialData` that gives every seed question a `starred` flag. */
  function Normalize(data: seq<Topic>): seq<Topic> {
    EditTree(data, Every, DefaultStar)
  }

  /** `loadInitialData`: the stored catalog when there is one (parsing is outside the model),
      otherwise the normalised seed, which is the seed itself with a `starred` flag on every
      question. */
  function LoadInitialData(saved: Option<seq<Topic>>): (r: seq<Topic>)
    ensures saved.None? ==> r == DefaultData() && StarredSet(r)
    ensures saved.Some? ==> r == saved.value
  {
    if saved.Some? then saved.value
    else
      SeedNormalized();
      NormalizeSpec(DefaultData());
      Normalize(DefaultData())
  }

  // ----- shape -----

  /** The ids of a question list, in order. */
  function Ids(qs: seq<Question>): seq<string> {
    seq(|qs|, k requires 0 <= k < |qs| => qs[k].id)
  }

  /** Same topics, subtopics, question counts and ids, in the same order. */
  predicate SameShape(a: seq<Topic>, b: seq<Topic>) {
    |a| == |b| && forall t :: 0 <= t < |a| ==> a[t].topic == b[t].topic && SameSubtopics(a[t].subtopics, b[t].subtopics)
  }

  predicate SameSubtopics(x: seq<Subtopic>, y: seq<Subtopic>) {
    |x| == |y| && forall s :: 0 <= s < |x| ==> x[s].title == y[s].title && Ids(x[s].questions) == Ids(y[s].questions)
  }

  /** The question at a position of the tree. */
  function At(data: seq<Topic>, t: nat, s: nat, k: nat): Question
    requires t < |data| && s < |data[t].subtopics| && k < |data[t].subtopics[s].questions|
  {
    data[t].subtopics[s].questions[k]
  }

  /** Every rebuild keeps the shape, changes exactly the selected questions, and changes them
      by the edit alone. */
  lemma EditTreeSpec(data: seq<Topic>, target: Target, e: Edit)
    ensures SameShape(data, EditTree(data, target, e))
    ensures forall t, s, k :: 0 <= t < |data| && 0 <= s < |data[t].subtopics| && 0 <= k < |data[t].subtopics[s].questions| ==>
      At(EditTree(data, target, e), t, s, k) ==
        if Hits(At(data, t, s, k), target) then ApplyEdit(At(data, t, s, k), e) else At(data, t, s, k)
  {
    EditTreeShape(data, target, e);
  }

  lemma EditKeepsIds(qs: seq<Question>, target: Target, e: Edit)
    ensures Ids(EditQuestions(qs, target, e)) == Ids(qs)
  {
    var r := EditQuestions(qs, target, e);
    assert forall k :: 0 <= k < |qs| ==> Ids(r)[k] == r[k].id == qs[k].id == Ids(qs)[k];
  }

  /** Every rebuild keeps the shape of the tree. */
  lemma EditTreeShape(data: seq<Topic>, target: Target, e: Edit)
    ensures SameShape(data, EditTree(data, target, e))
  {
    var r := EditTree(data, target, e);
    forall t | 0 <= t < |data|
      ensures data[t].topic == r[t].topic && SameSubtopics(data[t].subtopics, r[t].subtopics)
    {
      EditSubtopicsShape(data[t].subtopics, target, e);
    }
  }

  lemma EditSubtopicsShape(subs: seq<Subtopic>, target: Target, e: Edit)
    ensures SameSubtopics(subs, EditSubtopics(subs, target, e))
  {
    var r := EditSubtopics(subs, target, e);
    forall s | 0 <= s < |subs|
      ensures Ids(subs[s].questions) == Ids(r[s].questions)
    {
      EditKeepsIds(subs[s].questions, target, e);
    }
  }

  /** Two rebuilds with the same target are one rebuild, when the second edit after the first
      acts on every selected question as a third edit does. */
  lemma {:induction false} EditTreeCompose(data: seq<Topic>, target: Target, e1: Edit, e2: Edit, e3: Edit)
    requires forall q :: q in AllQuestions(data) && Hits(q, target) ==> ApplyEdit(ApplyEdit(q, e1), e2) == ApplyEdit(q, e3)
    ensures EditTree(EditTree(data, target, e1), target, e2) == EditTree(data, target, e3)
  {
    var r := EditTree(EditTree(data, target, e1), target, e2);
    var w := EditTree(data, target, e3);
    forall t | 0 <= t < |data|
      ensures r[t] == w[t]
    {
      var subs := data[t].subtopics;
      forall s | 0 <= s < |subs|
        ensures r[t].subtopics[s] == w[t].subtopics[s]
      {
        var qs := subs[s].questions;
        forall k | 0 <= k < |qs| && Hits(qs[k], target)
          ensures ApplyEdit(ApplyEdit(qs[k], e1), e2) == ApplyEdit(qs[k], e3)
        {
          InAllQuestions(data, t, s, k);
        }
        EditQuestionsCompose(qs, target, e1, e2, e3);
      }
      assert r[t].subtopics == w[t].subtopics;
    }
  }

  lemma EditQuestionsCompose(qs: seq<Question>, target: Target, e1: Edit, e2: Edit, e3: Edit)
    requires forall k :: 0 <= k < |qs| && Hits(qs[k], target) ==> ApplyEdit(ApplyEdit(qs[k], e1), e2) == ApplyEdit(qs[k], e3)
    ensures EditQuestions(EditQuestions(qs, target, e1), target, e2) == EditQuestions(qs, target, e3)
  {
    var r := EditQuestions(EditQuestions(qs, target, e1), target, e2);
    forall k | 0 <= k < |qs|
      ensures r[k] == EditQuestions(qs, target, e3)[k]
    {
      if Hits(qs[k], target) {
        assert Hits(ApplyEdit(qs[k], e1), target);
      }
    }
  }

  /** A rebuild whose edit leaves every selected question as it is gives back the same tree;
      in particular one whose target selects no question. */
  lemma {:induction false} EditTreeIdentity(data: seq<Topic>, target: Target, e: Edit)
    requires forall q :: q in AllQuestions(data) && Hits(q, target) ==> ApplyEdit(q, e) == q
    ensures EditTree(data, target, e) == data
  {
    var r := EditTree(data, target, e);
    forall t | 0 <= t < |data|
      ensures r[t] == data[t]
    {
      var subs := data[t].subtopics;
      var rs := EditSubtopics(subs, target, e);
      forall s | 0 <= s < |subs|
        ensures rs[s] == subs[s]
      {
        var qs := subs[s].questions;
        forall k | 0 <= k < |qs| && Hits(qs[k], target)
          ensures ApplyEdit(qs[k], e) == qs[k]
        {
          InAllQuestions(data, t, s, k);
        }
        assert EditQuestions(qs, target, e) == qs;
      }
      assert rs == subs;
    }
  }

  /** The flattened catalog after a rebuild is the flattened catalog with the same edit mapped over it. */
  lemma {:induction false} EditTreeFlattens(data: seq<Topic>, target: Target, e: Edit)
    ensures AllQuestions(EditTree(data, target, e)) == EditQuestions(AllQuestions(data), target, e)
  {
    if data != [] {
      EditTreeFlattens(data[1..], target, e);
      EditSubtopicsFlattens(data[0].subtopics, target, e);
      EditQuestionsAppend(TopicQuestions(data[0]), AllQuestions(data[1..]), target, e);
      assert EditTree(data, target, e)[1..] == EditTree(data[1..], target, e);
    }
  }

  lemma {:induction false} EditSubtopicsFlattens(subs: seq<Subtopic>, target: Target, e: Edit)
    ensures SubtopicsQuestions(EditSubtopics(subs, target, e)) == EditQuestions(SubtopicsQuestions(subs), target, e)
  {
    if subs != [] {
      EditSubtopicsFlattens(subs[1..], target, e);
      EditQuestionsAppend(subs[0].questions, SubtopicsQuestions(subs[1..]), target, e);
      assert EditSubtopics(subs, target, e)[1..] == EditSubtopics(subs[1..], target, e);
    }
  }

  lemma EditQuestionsAppend(a: seq<Question>, b: seq<Question>, target: Target, e: Edit)
    ensures EditQuestions(a + b, target, e) == EditQuestions(a, target, e) + EditQuestions(b, target, e)
  {
    var l, r := EditQuestions(a + b, target, e), EditQuestions(a, target, e) + EditQuestions(b, target, e);
    forall k | 0 <= k < |l|
      ensures l[k] == r[k]
    {
      if k >= |a| {
        assert (a + b)[k] == b[k - |a|];
      }
    }
  }

  // ----- updateQuestionStatus -----

  /** An id that occurs nowhere leaves the tree as it was. */
  lemma SetStatusUnknownId(data: seq<Topic>, id: string, checked: bool)
    requires forall q :: q in AllQuestions(data) ==> q.id != id
    ensures SetStatus(data, id, checked) == data
  {
    EditTreeIdentity(data, WithId(id), MarkDone(checked));
  }

  /** Checking a question never lowers the Done count of a question list, unchecking never raises it. */
  lemma {:induction false} MarkDoneCount(qs: seq<Question>, id: string, checked: bool)
    ensures checked ==> DoneCount(qs) <= DoneCount(EditQuestions(qs, WithId(id), MarkDone(checked)))
    ensures !checked ==> DoneCount(EditQuestions(qs, WithId(id), MarkDone(checked))) <= DoneCount(qs)
  {
    if qs != [] {
      MarkDoneCount(qs[1..], id, checked);
      assert EditQuestions(qs, WithId(id), MarkDone(checked))[1..] == EditQuestions(qs[1..], WithId(id), MarkDone(checked));
    }
  }

  /** The same for the progress percentage. */
  lemma MarkDoneProgress(qs: seq<Question>, id: string, checked: bool)
    ensures checked ==> CalculateProgress(qs) <= CalculateProgress(EditQuestions(qs, WithId(id), MarkDone(checked)))
    ensures !checked ==> CalculateProgress(EditQuestions(qs, WithId(id), MarkDone(checked))) <= CalculateProgress(qs)
  {
    var r := EditQuestions(qs, WithId(id), MarkDone(checked));
    MarkDoneCount(qs, id, checked);
    if checked {
      ProgressMonotone(qs, r);
    } else {
      ProgressMonotone(r, qs);
    }
  }

  /** Checking then unchecking a question (or the reverse) gives back the tree when the question
      had the status the second call sets; an "In Progress" status is not recovered. */
  lemma SetStatusRoundTrip(data: seq<Topic>, id: string, checked: bool)
    requires forall q :: q in AllQuestions(data) && q.id == id ==> q.status == (if checked then NotStarted else Done)
    ensures SetStatus(SetStatus(data, id, checked), id, !checked) == data
  {
    EditTreeCompose(data, WithId(id), MarkDone(checked), MarkDone(!checked), MarkDone(!checked));
    EditTreeIdentity(data, WithId(id), MarkDone(!checked));
  }

  // ----- toggleStarred -----

  /** Toggling twice leaves every question's `starred` flag as normalisation would set it, and
      gives back the tree itself when every question carries a flag (as every question does after loading). */
  lemma ToggleStarredTwice(data: seq<Topic>, id: string)
    ensures ToggleStarred(ToggleStarred(data, id), id) == EditTree(data, WithId(id), DefaultStar)
    ensures StarredSet(data) ==> ToggleStarred(ToggleStarred(data, id), id) == data
  {
    forall q | q in AllQuestions(data) && Hits(q, WithId(id))
      ensures ApplyEdit(ApplyEdit(q, FlipStar), FlipStar) == ApplyEdit(q, DefaultStar)
    {
      FlipStarTwice(q);
    }
    EditTreeCompose(data, WithId(id), FlipStar, FlipStar, DefaultStar);
    if StarredSet(data) {
      forall q | q in AllQuestions(data) && Hits(q, WithId(id))
        ensures ApplyEdit(q, DefaultStar) == q
      {
        StarredSetAll(data, q);
        DefaultStarKeepsFlag(q);
      }
      EditTreeIdentity(data, WithId(id), DefaultStar);
    }
  }

  /** Whatever the stored flag, toggling twice shows every question starred exactly when it was. */
  lemma ToggleStarredTwiceShowsSame(data: seq<Topic>, id: string)
    ensures forall t, s, k :: 0 <= t < |data| && 0 <= s < |data[t].subtopics| && 0 <= k < |data[t].subtopics[s].questions| ==>
      At(ToggleStarred(ToggleStarred(data, id), id), t, s, k).IsStarred() == At(data, t, s, k).IsStarred()
  {
    ToggleStarredTwice(data, id);
    EditTreeSpec(data, WithId(id), DefaultStar);
  }

  lemma FlipStarTwice(q: Question)
    ensures ApplyEdit(ApplyEdit(q, FlipStar), FlipStar) == ApplyEdit(q, DefaultStar)
  {
    if q.IsStarred() {
      assert !ApplyEdit(q, FlipStar).IsStarred();
    } else {
      assert ApplyEdit(q, FlipStar).IsStarred();
    }
  }

  /** Every question carries a `starred` flag. */
  predicate StarredSet(data: seq<Topic>) {
    forall q :: q in AllQuestions(data) ==> q.starred.Some?
  }

  lemma DefaultStarKeepsFlag(q: Question)
    requires q.starred.Some?
    ensures ApplyEdit(q, DefaultStar) == q
  {
    if q.starred.value {
      assert q.IsStarred();
    } else {
      assert !q.IsStarred();
    }
  }

  lemma StarredSetAll(data: seq<Topic>, q: Question)
    requires StarredSet(data) && q in AllQuestions(data)
    ensures q.starred.Some?
  {
  }

  // ----- saveNote -----

  /** Saving the same note twice is the same as saving it once, and a later save overrides an earlier one. */
  lemma SaveNoteLastWins(data: seq<Topic>, id: Option<string>, first: string, second: string)
    ensures SaveNote(SaveNote(data, id, first), id, second) == SaveNote(data, id, second)
  {
    var target := if id.Some? then WithId(id.value) else NoQuestion;
    EditTreeCompose(data, target, WriteNote(first), WriteNote(second), WriteNote(second));
  }

  // ----- seed normalisation -----

  /** Normalising gives every question a `starred` flag, keeps what the dashboard shows as
      starred, changes nothing else, and is idempotent. */
  lemma NormalizeSpec(data: seq<Topic>)
    ensures SameShape(data, Normalize(data))
    ensures StarredSet(Normalize(data))
    ensures forall t, s, k :: 0 <= t < |data| && 0 <= s < |data[t].subtopics| && 0 <= k < |data[t].subtopics[s].questions| ==>
      At(Normalize(data), t, s, k) == At(data, t, s, k).(starred := Some(At(data, t, s, k).IsStarred()))
    ensures Normalize(Normalize(data)) == Normalize(data)
  {
    EditTreeSpec(data, Every, DefaultStar);
    EditTreeFlattens(data, Every, DefaultStar);
    EditTreeCompose(data, Every, DefaultStar, DefaultStar, DefaultStar);
  }

  /** The seed's questions are its two subtopics' questions, in order. */
  lemma SeedFlattened()
    ensures var d := DefaultData();
      AllQuestions(d) == d[0].subtopics[0].questions + d[1].subtopics[0].questions
  {
    var d := DefaultData();
    assert d[1..][1..] == [];
    assert d[0].subtopics[1..] == [] && d[1].subtopics[1..] == [];
    assert TopicQuestions(d[0]) == d[0].subtopics[0].questions + [];
    assert TopicQuestions(d[1]) == d[1].subtopics[0].questions + [];
  }

  /** Every seed question already carries a `starred` flag, so normalising changes nothing. */
  lemma SeedNormalized()
    ensures Normalize(DefaultData()) == DefaultData()
  {
    var d := DefaultData();
    SeedFlattened();
    forall q | q in AllQuestions(d) && Hits(q, Every)
      ensures ApplyEdit(q, DefaultStar) == q
    {
      DefaultStarKeepsFlag(q);
    }
    EditTreeIdentity(d, Every, DefaultStar);
  }
}
