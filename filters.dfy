/** `applyFilters`: whether the dashboard shows a question under the current single-select filters. */
module Filters {
  import opened Wrappers
  import opened Text
  import opened Catalog

  /** Values of the starred select: "all" or "starred". */
  datatype StarredFilter = AllProblems | StarredOnly

  /** Values of the notes select: "all", "with-notes" or "without-notes". */
  datatype NotesFilter = AllNotes | WithNotes | WithoutNotes

  /** A single-select filter: "all", or one value of the category. */
  datatype Select<T> = All | Only(value: T)

  /** The five filter states of the dashboard. */
  datatype Criteria = Criteria(
    text: string,
    starred: StarredFilter,
    difficulty: Select<Difficulty>,
    notes: NotesFilter,
    level: Select<Level>)

  /** The initial filter state: empty text and every select on "all". */
  const NoFilters: Criteria := Criteria("", AllProblems, All, AllNotes, All)

  /** `question.note && question.note.trim().length > 0` */
  predicate HasNotes(q: Question) {
    q.note.Some? && !IsBlank(q.note.value)
  }

  /** Case-insensitive substring match of the name; an empty filter text matches everything. */
  predicate TextMatch(q: Question, text: string) {
    text == [] || Contains(Lower(q.name), Lower(text))
  }

  predicate StarMatch(q: Question, f: StarredFilter) {
    f == AllProblems || q.IsStarred()
  }

  predicate DifficultyMatch(q: Question, f: Select<Difficulty>) {
    f == All || q.difficulty == f.value
  }

  predicate NotesMatch(q: Question, f: NotesFilter) {
    f == AllNotes || (f == WithNotes && HasNotes(q)) || (f == WithoutNotes && !HasNotes(q))
  }

  /** An absent level never equals the selected level. */
  predicate LevelMatch(q: Question, f: Select<Level>) {
    f == All || q.level == Some(f.value)
  }

  /** `applyFilters`: the conjunction of the five category predicates. */
  predicate ApplyFilters(q: Question, c: Criteria) {
    TextMatch(q, c.text) && StarMatch(q, c.starred) && DifficultyMatch(q, c.difficulty)
    && NotesMatch(q, c.notes) && LevelMatch(q, c.level)
  }

  /** `questions.filter(applyFilters)`: the shown questions of a subtopic, in their order. */
  function FilterQuestions(qs: seq<Question>, c: Criteria): (r: seq<Question>)
    ensures |r| <= |qs|
    ensures forall k :: 0 <= k < |r| ==> r[k] in qs && ApplyFilters(r[k], c)
    ensures forall k :: 0 <= k < |qs| && ApplyFilters(qs[k], c) ==> qs[k] in r
  {
    if qs == [] then []
    else (if ApplyFilters(qs[0], c) then [qs[0]] else []) + FilterQuestions(qs[1..], c)
  }

  /** The filter keeps the input order and the multiplicity of each question: filtering a
      concatenation filters each part in turn. */
  lemma {:induction false} FilterQuestionsAppend(a: seq<Question>, b: seq<Question>, c: Criteria)
    ensures FilterQuestions(a + b, c) == FilterQuestions(a, c) + FilterQuestions(b, c)
  {
    if a == [] {
      assert a + b == b;
    } else {
      assert (a + b)[1..] == a[1..] + b;
      FilterQuestionsAppend(a[1..], b, c);
    }
  }

  /** A single question is shown exactly when it passes; with `FilterQuestionsAppend` this fixes
      the shown list of every subtopic. */
  lemma FilterQuestionsSingle(q: Question, c: Criteria)
    ensures FilterQuestions([q], c) == if ApplyFilters(q, c) then [q] else []
  {
    assert [q][1..] == [];
  }

  /** With empty text and every select on "all", every question is shown. */
  lemma {:induction false} NoFiltersShowAll(qs: seq<Question>)
    ensures FilterQuestions(qs, NoFilters) == qs
  {
    if qs != [] {
      NoFiltersShowAll(qs[1..]);
    }
  }

  /** The categories are independent: a question passes the combined filter exactly when it
      passes each category alone, with the other four left on "all". */
  lemma FiltersAreConjunction(q: Question, c: Criteria)
    ensures ApplyFilters(q, c) <==>
      && ApplyFilters(q, NoFilters.(text := c.text))
      && ApplyFilters(q, NoFilters.(starred := c.starred))
      && ApplyFilters(q, NoFilters.(difficulty := c.difficulty))
      && ApplyFilters(q, NoFilters.(notes := c.notes))
      && ApplyFilters(q, NoFilters.(level := c.level))
  {
  }

  /** A selected difficulty rejects every question of another difficulty. */
  lemma DifficultyRejects(q: Question, c: Criteria, d: Difficulty)
    requires c.difficulty == Only(d) && q.difficulty != d
    ensures !ApplyFilters(q, c)
  {
  }

  /** A selected level rejects every question of another level, and every question without one. */
  lemma LevelRejects(q: Question, c: Criteria, l: Level)
    requires c.level == Only(l) && q.level != Some(l)
    ensures !ApplyFilters(q, c)
  {
  }

  /** "with-notes" and "without-notes" split the questions: exactly one of them accepts each
      question, and "with-notes" accepts exactly the questions whose note has a non-whitespace
      character. */
  lemma NotesFiltersPartition(q: Question)
    ensures NotesMatch(q, WithNotes) != NotesMatch(q, WithoutNotes)
    ensures NotesMatch(q, WithNotes) <==>
      q.note.Some? && exists i :: 0 <= i < |q.note.value| && !IsWhitespace(q.note.value[i])
  {
    if q.note.Some? {
      BlankIffAllWhitespace(q.note.value);
    }
  }

  /** The emptiness test on the filter text is only a shortcut: the match is the case-insensitive
      substring test in every case. */
  lemma TextMatchIsSubstring(q: Question, text: string)
    ensures TextMatch(q, text) <==> Contains(Lower(q.name), Lower(text))
  {
    if text == [] {
      ContainsEmpty(Lower(q.name));
    }
  }
}
