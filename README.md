# DSA tracker data layer, in Dafny

This project models the data layer of a DSA (data structures and algorithms) problem tracker, a
React dashboard. Its catalog is a tree: topics hold subtopics, and subtopics hold questions. Each
question has a status ("Not Started", "In Progress", "Done"), an optional `starred` flag and an
optional note.

The model covers what the dashboard does with that tree:

- it filters questions by text, star, difficulty, notes and level;
- it computes the Done percentage of a subtopic and of a topic;
- it rebuilds the tree when a status, a star or a note changes, and records the progress of the
  affected subtopic and topic before and after a status change;
- it flips expansion flags kept in two maps.

Two components sit beside the dashboard: the statistics block (counts and a rounded completion
rate), and the "Add New Question" form (name check, record construction, reset).

Modules, one per concern:

- `Wrappers`: `Option`.
- `Text`: the JavaScript string operations used (`trim`, `toLowerCase`, `includes`, and a number
  rendered in a template literal).
- `Catalog`: the entities, the flattening of the tree, and the seed catalog.
- `Progress`: `calculateProgress` and `calculateTopicProgress`.
- `Filters`: `applyFilters`.
- `Edits`: the whole-tree rebuilds.
- `Expansion`: the expansion maps.
- `Transitions`: the search loops and progress records of `updateQuestionStatus`.
- `Tracker`: the dashboard's state as a class, one method per handler.
- `Statistics`: the statistics block.
- `AddQuestion`: the form as a class.

Values that JavaScript leaves `undefined` or `null` are `None`. A question's `starred` and `note`
fields are `Option`s, because the code tests them for truthiness and the seed normalisation exists
only because `starred` may be missing. Percentages are exact rationals (`real`), and the
completion rate rounds half up on them. The clock (`Date.now()`) is a parameter. The stored
catalog and the stored expansion maps are parameters too, already parsed.

The expansion map key of a subtopic joins the topic name and the subtopic title with a hyphen.
That key is ambiguous across topics (`Expansion.SubtopicKeyCollides`). So the lemma
`Transitions.RecordedForOwner`, which says exactly which progress records one status change
writes, holds only for catalogs whose topic names and composite keys are distinct
(`Transitions.UniqueKeys`). The records themselves are modelled for every catalog, collisions
included.

## Model

| member | source | states |
|---|---|---|
| Text.TrimStart | basic-vite/src/pages/dashboard/items-table.tsx:122 | the result is a suffix of the input; every removed character is whitespace; the result does not start with whitespace |
| Text.TrimEnd | basic-vite/src/pages/dashboard/items-table.tsx:122 | the result is a prefix of the input; every removed character is whitespace; the result does not end with whitespace |
| Text.BlankIffAllWhitespace | basic-vite/src/components/AddQuestionModal.tsx:40 | a string is empty after `trim()` exactly when every character of it is whitespace |
| Text.Lower | basic-vite/src/pages/dashboard/items-table.tsx:108 | `toLowerCase` keeps the length and lowers each character on its own |
| Text.ContainsEmpty | basic-vite/src/pages/dashboard/items-table.tsx:107-109 | every string includes the empty string |
| Text.NatToString | basic-vite/src/components/AddQuestionModal.tsx:47 | the decimal rendering is non-empty, made of digits, and one character long exactly for numbers below 10 |
| Text.NatToStringRoundTrip | basic-vite/src/components/AddQuestionModal.tsx:47 | read back as a decimal numeral, the rendering of `n` is `n`, and it has no leading zero unless `n` is 0 |
| Text.NatToStringInjective | basic-vite/src/components/AddQuestionModal.tsx:47 | different numbers render as different strings |
| Catalog.InSubtopicsQuestions | basic-vite/src/pages/dashboard/items-table.tsx:145 | every question of a subtopic appears in the topic's flattened list |
| Catalog.InAllQuestions | basic-vite/src/pages/dashboard/statistics-block.tsx:23-27 | every question of every subtopic appears in the catalog's flattened list |
| Catalog.FromSubtopicsQuestions | basic-vite/src/pages/dashboard/items-table.tsx:145 | every question of the flattened list comes from some subtopic |
| Progress.DoneCount | basic-vite/src/pages/dashboard/items-table.tsx:139 | the Done count is at most the length; it equals the length exactly when all are Done, and is 0 exactly when none is ("In Progress" is not Done) |
| Progress.DoneCountAppend | basic-vite/src/pages/dashboard/items-table.tsx:145-146 | the Done count of a concatenation is the sum of the Done counts |
| Progress.CalculateProgress | basic-vite/src/pages/dashboard/items-table.tsx:137-141 | 0 for the empty list; otherwise `progress × length = 100 × Done count`; always in [0,100]; 100 exactly when a non-empty list is all Done; 0 exactly when none is Done |
| Progress.RatioPercent | basic-vite/src/pages/dashboard/items-table.tsx:140 | `(part / whole) × 100` lies in [0,100], is 100 exactly when part = whole and 0 exactly when part = 0 |
| Progress.ProgressMonotone | basic-vite/src/pages/dashboard/items-table.tsx:137-141 | for lists of one length, more Done questions never give lower progress |
| Progress.CalculateTopicProgress | basic-vite/src/pages/dashboard/items-table.tsx:144-147 | a topic's progress lies in [0,100] |
| Progress.SubtopicsDoneCount | basic-vite/src/pages/dashboard/items-table.tsx:144-147 | the flattened topic holds the sum of the subtopic sizes, and its Done count is the sum of the subtopics' Done counts |
| Progress.TopicProgressFromSubtopics | basic-vite/src/pages/dashboard/items-table.tsx:144-147 | a topic's progress is the total Done count over the total size of its subtopics, and 0 for a topic with no questions |
| Progress.TopicProgressExtremes | basic-vite/src/pages/dashboard/items-table.tsx:144-147 | a topic is at 100 exactly when it has a question and every question of every subtopic is Done, and at 0 exactly when no question is Done |
| Filters.FilterQuestions | basic-vite/src/components/SubtopicSection.tsx:22 | the shown list is no longer than the subtopic's list, holds only questions that pass, and holds every question that passes |
| Filters.FilterQuestionsAppend | basic-vite/src/components/SubtopicSection.tsx:22 | filtering keeps the input order and multiplicity: the filter of a concatenation is the concatenation of the filters |
| Filters.FilterQuestionsSingle | basic-vite/src/components/SubtopicSection.tsx:22 | a single question is shown exactly when it passes (with the row above, this fixes every shown list) |
| Filters.NoFiltersShowAll | basic-vite/src/pages/dashboard/items-table.tsx:105-134 | empty text and every select on "all" show every question, in order |
| Filters.FiltersAreConjunction | basic-vite/src/pages/dashboard/items-table.tsx:133 | a question passes exactly when it passes each of the five categories set alone |
| Filters.DifficultyRejects | basic-vite/src/pages/dashboard/items-table.tsx:117-119 | a selected difficulty rejects every question of another difficulty |
| Filters.LevelRejects | basic-vite/src/pages/dashboard/items-table.tsx:129-131 | a selected level rejects every question of another level, and every question without a level |
| Filters.NotesFiltersPartition | basic-vite/src/pages/dashboard/items-table.tsx:122-126 | exactly one of "with-notes" and "without-notes" accepts each question; "with-notes" accepts exactly the notes with a non-whitespace character |
| Filters.TextMatchIsSubstring | basic-vite/src/pages/dashboard/items-table.tsx:107-109 | the text filter is the case-insensitive substring test, and the empty-text shortcut agrees with it |
| Edits.ApplyEdit | basic-vite/src/pages/dashboard/items-table.tsx:184-187 | a one-field change never changes the question's id |
| Edits.EditQuestions | basic-vite/src/pages/dashboard/items-table.tsx:184-188 | same length; each selected question gets the edit and every other question is kept |
| Edits.EditSubtopics | basic-vite/src/pages/dashboard/items-table.tsx:181-189 | same length; titles kept; each question list is edited |
| Edits.EditTree | basic-vite/src/pages/dashboard/items-table.tsx:178-189 | same length; each topic is edited |
| Edits.LoadInitialData | basic-vite/src/pages/dashboard/items-table.tsx:15-33 | the stored catalog when there is one; otherwise the seed catalog itself, with a `starred` flag on every question |
| Edits.EditTreeSpec | basic-vite/src/pages/dashboard/items-table.tsx:178-189 | every rebuild keeps topics, subtopic titles, question counts and ids in order; the selected questions get the edit and all other questions stay as they were |
| Edits.EditTreeCompose | basic-vite/src/pages/dashboard/items-table.tsx:178-189 | two rebuilds with one target equal one rebuild whenever the two edits compose to a third on the selected questions |
| Edits.EditQuestionsCompose | basic-vite/src/pages/dashboard/items-table.tsx:184-188 | the same composition law for one question list |
| Edits.EditTreeIdentity | basic-vite/src/pages/dashboard/items-table.tsx:178-189 | a rebuild whose edit changes no selected question gives back the tree itself |
| Edits.EditTreeFlattens | basic-vite/src/pages/dashboard/items-table.tsx:178-189 | flattening a rebuilt tree equals editing the flattened tree |
| Edits.EditSubtopicsFlattens | basic-vite/src/pages/dashboard/items-table.tsx:181-189 | the same for one topic's subtopics |
| Edits.EditQuestionsAppend | basic-vite/src/pages/dashboard/items-table.tsx:184-188 | editing distributes over concatenation |
| Edits.SetStatusUnknownId | basic-vite/src/pages/dashboard/items-table.tsx:178-189 | an id that occurs nowhere leaves the tree equal to the input |
| Edits.MarkDoneCount | basic-vite/src/pages/dashboard/items-table.tsx:184-187 | checking never lowers a list's Done count; unchecking never raises it |
| Edits.MarkDoneProgress | basic-vite/src/pages/dashboard/items-table.tsx:184-187 | checking never lowers a list's progress; unchecking never raises it |
| Edits.SetStatusRoundTrip | basic-vite/src/pages/dashboard/items-table.tsx:150-229 | checking then unchecking (or the reverse) gives back the tree when the question had the status the second call sets |
| Edits.ToggleStarredTwice | basic-vite/src/pages/dashboard/items-table.tsx:232-246 | toggling twice equals normalising the flag of the matching questions, and gives back the tree when every question has a flag |
| Edits.ToggleStarredTwiceShowsSame | basic-vite/src/pages/dashboard/items-table.tsx:232-246 | whatever the stored flags, toggling twice shows every question starred exactly when it was |
| Edits.FlipStarTwice | basic-vite/src/pages/dashboard/items-table.tsx:239 | flipping a question's star twice leaves it as the seed default would: present flags kept, a missing flag set to false |
| Edits.DefaultStarKeepsFlag | basic-vite/src/pages/dashboard/items-table.tsx:28 | the seed default keeps a `starred` flag that is present |
| Edits.SaveNoteLastWins | basic-vite/src/pages/dashboard/items-table.tsx:256-271 | saving a second note overwrites the first |
| Edits.NormalizeSpec | basic-vite/src/pages/dashboard/items-table.tsx:22-31 | normalising keeps the shape, gives every question a flag, keeps what is shown as starred, changes nothing else, and is idempotent |
| Expansion.Toggle | basic-vite/src/pages/dashboard/items-table.tsx:88-102 | exactly one key flips: it is added if missing (as true) and every other key is unchanged |
| Expansion.ToggleTwice | basic-vite/src/pages/dashboard/items-table.tsx:88-93 | toggling twice shows every key as before, and gives back the map when the key was present |
| Expansion.SubtopicKeyInjective | basic-vite/src/pages/dashboard/items-table.tsx:97 | within one topic, different titles give different keys |
| Expansion.SubtopicKeyCollides | basic-vite/src/pages/dashboard/items-table.tsx:97 | across topics, two different subtopics can share one key |
| Expansion.ToggleSubtopicLeavesSiblings | basic-vite/src/pages/dashboard/items-table.tsx:96-102 | toggling a subtopic never changes a sibling's flag |
| Transitions.LastSubtopicWith | basic-vite/src/pages/dashboard/items-table.tsx:161-170 | the index found holds the id and no later subtopic does; no index means no subtopic holds it |
| Transitions.LastOwner | basic-vite/src/pages/dashboard/items-table.tsx:158-175 | the position found is the last subtopic in traversal order holding the id; none means no subtopic holds it |
| Transitions.FindOwner | basic-vite/src/pages/dashboard/items-table.tsx:152-175 | the nested loops leave the key, topic name and previous progress of the last subtopic holding the id, or the initial values when there is none |
| Transitions.RecordTransitionsFrame | basic-vite/src/pages/dashboard/items-table.tsx:191-223 | only the target subtopic key and the target topic name are ever written |
| Transitions.RecordSubtopicsFrame | basic-vite/src/pages/dashboard/items-table.tsx:191-204 | the same for one topic's subtopics |
| Transitions.RecordSubtopicsSkip | basic-vite/src/pages/dashboard/items-table.tsx:191-204 | subtopics whose key is not the target write nothing |
| Transitions.RecordTransitionsSkip | basic-vite/src/pages/dashboard/items-table.tsx:178-226 | topics that neither are the target nor hold the target key write nothing |
| Transitions.RecordedForOwner | basic-vite/src/pages/dashboard/items-table.tsx:150-229 | with distinct keys, a status change records `{from: before, to: after}` for the owning subtopic and topic and nothing else; an unknown id records nothing |
| Transitions.OnlyOwnerTouched | basic-vite/src/pages/dashboard/items-table.tsx:178-226 | with distinct keys, the updated tree holds the target key and name only at the owner |
| Transitions.RecordSubtopicsAt | basic-vite/src/pages/dashboard/items-table.tsx:191-204 | with one matching subtopic, its topic's subtopics write exactly one record |
| Transitions.RecordAtOwner | basic-vite/src/pages/dashboard/items-table.tsx:178-226 | with one matching subtopic and topic, the call writes exactly their two records |
| Transitions.RecordUpToOwner | basic-vite/src/pages/dashboard/items-table.tsx:178-226 | when no earlier topic is touched, the records up to the target topic are that topic's records alone |
| Transitions.RecordDirection | basic-vite/src/pages/dashboard/items-table.tsx:191-203 | a recorded subtopic transition rises (or stays) on checking, and falls (or stays) on unchecking |
| Tracker.DsaTracker.constructor | basic-vite/src/pages/dashboard/items-table.tsx:45-75 | the loaded catalog, the stored or default expansion maps, no records, and a closed empty note modal |
| Tracker.DsaTracker.ToggleTopic | basic-vite/src/pages/dashboard/items-table.tsx:88-93 | the topic's flag flips; nothing else changes |
| Tracker.DsaTracker.ToggleSubtopic | basic-vite/src/pages/dashboard/items-table.tsx:96-102 | the subtopic's flag flips; nothing else changes |
| Tracker.DsaTracker.UpdateQuestionStatus | basic-vite/src/pages/dashboard/items-table.tsx:150-229 | the catalog becomes the status rebuild, with its shape kept; the records become those written for the located owner; nothing else changes |
| Tracker.DsaTracker.ToggleStarred | basic-vite/src/pages/dashboard/items-table.tsx:232-246 | the catalog becomes the star rebuild, with its shape kept; nothing else changes |
| Tracker.DsaTracker.OpenNoteModal | basic-vite/src/pages/dashboard/items-table.tsx:249-253 | the modal opens for the question, on its note or on "" |
| Tracker.DsaTracker.EditNote | basic-vite/src/pages/dashboard/items-table.tsx:340 | only the note being edited changes |
| Tracker.DsaTracker.CloseNoteModal | basic-vite/src/pages/dashboard/items-table.tsx:322-329 | the modal closes and nothing is written |
| Tracker.DsaTracker.SaveNote | basic-vite/src/pages/dashboard/items-table.tsx:256-271 | the edited note goes to the open question, the shape is kept, and the modal closes; saved from the open modal, the note always reaches a question id |
| Tracker.SavedNoteSeenByFilter | basic-vite/src/pages/dashboard/items-table.tsx:122-126 | after saving, the question's note is the saved text, and the notes filters judge it by that text |
| Statistics.StarredCount | basic-vite/src/pages/dashboard/statistics-block.tsx:32 | at most the length; 0 exactly when none is starred; the length exactly when all are |
| Statistics.RoundedPercent | basic-vite/src/pages/dashboard/statistics-block.tsx:36 | the nearest whole percentage, halves up (`2wr ≤ 200p + w < 2w(r+1)`); at most 100; 100 when all are done; 0 exactly when below one half percent |
| Statistics.QuotientFacts | basic-vite/src/pages/dashboard/statistics-block.tsx:36 | the integer quotient meets the rounding bounds above |
| Statistics.ComputeStats | basic-vite/src/pages/dashboard/statistics-block.tsx:23-45 | total counts every question; completed and starred counts are at most the total; the rate lies in [0,100], is 0 for no questions or none done, and 100 when all are done |
| Statistics.RateIsRoundedProgress | basic-vite/src/pages/dashboard/statistics-block.tsx:35-37 | the rate lies within one half of the exact progress of all questions |
| Statistics.RoundedPercentNear | basic-vite/src/pages/dashboard/statistics-block.tsx:36 | the rounded percentage lies within one half of the exact one |
| Statistics.RoundingBounds | basic-vite/src/pages/dashboard/statistics-block.tsx:36 | the rounding bounds place the exact percentage within one half |
| Statistics.StatusChangeStats | basic-vite/src/pages/dashboard/statistics-block.tsx:19-46 | a status change keeps total and starred; checking never lowers completed or rate, and unchecking never raises them |
| Statistics.RoundedPercentMonotone | basic-vite/src/pages/dashboard/statistics-block.tsx:36 | the rounded percentage is monotone in the part |
| Statistics.DoneCountKept | basic-vite/src/pages/dashboard/statistics-block.tsx:31 | an edit other than a status change keeps the Done count |
| Statistics.StarredCountKept | basic-vite/src/pages/dashboard/statistics-block.tsx:32 | an edit that does not flip a star keeps the starred count |
| Statistics.SaveNoteKeepsStats | basic-vite/src/pages/dashboard/statistics-block.tsx:19-46 | saving a note changes none of the four numbers |
| Statistics.ToggleStarredStats | basic-vite/src/pages/dashboard/statistics-block.tsx:19-46 | toggling a star keeps total, completed and rate |
| Statistics.SeedStats | basic-vite/src/pages/dashboard/defaultData.tsx:1-77 | with nothing stored, the block shows 1 of 4 completed, 1 starred, and 25 |
| Statistics.SeedCounts | basic-vite/src/pages/dashboard/defaultData.tsx:1-77 | the seed has four questions, one Done and one starred |
| Edits.SeedFlattened | basic-vite/src/pages/dashboard/defaultData.tsx:1-77 | the seed's questions are its two subtopics' questions, in order |
| Edits.SeedNormalized | basic-vite/src/pages/dashboard/items-table.tsx:22-31 | every seed question already has a `starred` flag, so normalising the seed changes nothing |
| Statistics.StarredCountAppend | basic-vite/src/pages/dashboard/statistics-block.tsx:32 | the starred count of a concatenation is the sum of the starred counts |
| Statistics.StatisticsBlock.constructor | basic-vite/src/pages/dashboard/statistics-block.tsx:11-16 | all four numbers start at zero |
| Statistics.StatisticsBlock.Refresh | basic-vite/src/pages/dashboard/statistics-block.tsx:19-46 | an empty catalog keeps the numbers; any other catalog replaces them with its statistics |
| AddQuestion.WithField | basic-vite/src/components/AddQuestionModal.tsx:26-31 | a name change sets the name only; any other change keeps the name |
| AddQuestion.CustomId | basic-vite/src/components/AddQuestionModal.tsx:47 | the id is "custom-" followed by digits only, and those digits read back as a decimal numeral give the clock reading |
| AddQuestion.NewQuestion | basic-vite/src/components/AddQuestionModal.tsx:46-58 | the record has the custom id, the untrimmed name, the chosen difficulty and level, the four links of the form, each in its own field, status "Not Started", `starred` false and note "" |
| AddQuestion.Submit | basic-vite/src/components/AddQuestionModal.tsx:38-60 | a record is produced exactly when the name has a non-whitespace character, and it is the new record |
| AddQuestion.CustomIdsDistinct | basic-vite/src/components/AddQuestionModal.tsx:47 | saves at different clock readings give different ids |
| AddQuestion.CustomIdNotSeed | basic-vite/src/components/AddQuestionModal.tsx:47 | a new id never equals an id of the seed catalog |
| AddQuestion.NewQuestionFilters | basic-vite/src/components/AddQuestionModal.tsx:55-57 | a new question is shown with no filters, hidden by "starred" and "with-notes", and shown by "without-notes" |
| AddQuestion.AddQuestionModal.constructor | basic-vite/src/components/AddQuestionModal.tsx:14-24 | the empty form (Medium, L1, empty links) and no error |
| AddQuestion.AddQuestionModal.HandleChange | basic-vite/src/components/AddQuestionModal.tsx:26-36 | one field changes; the name error clears only when the name changes |
| AddQuestion.AddQuestionModal.HandleSave | basic-vite/src/components/AddQuestionModal.tsx:38-72 | a blank name sets "Problem name is required", produces nothing and keeps the form; any other name produces the new record and resets the form; the error is only ever shown for a blank name |

## Left out

- Persistence: reading and writing `localStorage` and `JSON.parse`/`JSON.stringify` are I/O. The
  stored catalog and expansion maps enter as already-parsed `Option` parameters. A stored catalog
  that fails to parse throws in the source; that is not modelled.
- The `timestamp` of a progress record and the progress-bar animation (easing, frame timing) are
  cosmetic timing work and are left out. `Transitions.Transition` keeps `from` and `to`.
- Rendering components are left out. The filter value domains follow the filter selects.
- The selected programming language of the note editor and its handler are display state; they
  are not part of this model.
- The five filter setters are plain assignments; the model passes the filter state as a
  `Filters.Criteria` value instead of storing it in `Tracker.DsaTracker`.
- Floating point: progress and the completion rate use exact rationals. JavaScript's float
  division and `Math.round` can differ from exact half-up rounding at ties.
- Text.Lower: lowers ASCII letters only, because Unicode case mapping is not modelled.
- A `null` catalog passed to the statistics block is not modelled; an empty one is.
- Transitions.RecordedForOwner: states the exact records only for catalogs with distinct topic
  names and distinct composite subtopic keys, because a shared key makes several subtopics write
  to one record.
- Edits.ToggleStarredTwice: gives back the tree itself only when every question carries a
  `starred` flag, because toggling a missing flag twice stores `false`. What the dashboard shows
  is restored in every case (`Edits.ToggleStarredTwiceShowsSame`).
- Edits.SetStatusRoundTrip: does not recover an "In Progress" status, because the status handler
  only ever writes "Done" or "Not Started".
- Expansion.Toggle: reads a key the map does not hold as collapsed, so its first toggle stores
  `true`. In JavaScript, `prev[key]` on a plain object also finds keys every object inherits
  ("constructor", "toString", "valueOf", "hasOwnProperty", "__proto__"); these read truthy, so
  for such a key the source's first toggle stores `false`, and a topic with such a name shows
  expanded before any toggle. Prototype lookup is not modelled.
- Catalog.Question: `difficulty` is required, while the question table falls back to "Medium"
  for a question without one; and the seed's `needCode` and `revisionNeeded` fields, which the
  object spreads carry along unchanged, are not represented because no core operation reads or
  writes them.
- AddQuestion.FormData: the level is a `Level`, so it ranges over L1 to L4, while the form's
  level select offers only L1, L2 and L3. No operation depends on the narrower range.
- AddQuestion.WithField: states only how the name changes; the other six fields are plain
  updates of one field.
- Appending a custom question to a reserved topic, merging duplicate topics and multi-select
  filters do not occur in this code, so they are not modelled. The filters are single-select, as
  the code has them.
