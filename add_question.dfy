/** The "Add New Question" form: its fields, the name check, and the question record it hands to
    its `onSave` callback. */
module AddQuestion {
  import opened Wrappers
  import opened Text
  import opened Catalog
  import opened Filters

  /** A select option: `{ value, label }`, the label as `caption`. */
  datatype Choice<T> = Choice(value: T, caption: string)

  /** The form's state. */
  datatype FormData = FormData(
    name: string,
    difficulty: Choice<Difficulty>,
    level: Choice<Level>,
    questionLink: string,
    gfgLink: string,
    youtubeLink: string,
    problemLink: string)

  /** The initial and reset state of the form. */
  const EmptyForm: FormData := FormData("", Choice(Medium, "Medium"), Choice(L1, "L1"), "", "", "", "")

  /** The error shown under the name field. */
  const NameRequired: string := "Problem name is required"

  /** `handleChange(field, value)`: the field and its new value. */
  datatype FieldValue =
    | Name(text: string)
    | DifficultyField(difficulty: Choice<Difficulty>)
    | LevelField(level: Choice<Level>)
    | QuestionLink(url: string)
    | GfgLink(url: string)
    | YoutubeLink(url: string)
    | ProblemLink(url: string)

  /** `{ ...formData, [field]: value }`: exactly the named field changes. */
  function WithField(f: FormData, v: FieldValue): (r: FormData)
    ensures v.Name? ==> r == f.(name := v.text)
    ensures !v.Name? ==> r.name == f.name
  {
    match v
    case Name(text) => f.(name := text)
    case DifficultyField(c) => f.(difficulty := c)
    case LevelField(c) => f.(level := c)
    case QuestionLink(url) => f.(questionLink := url)
    case GfgLink(url) => f.(gfgLink := url)
    case YoutubeLink(url) => f.(youtubeLink := url)
    case ProblemLink(url) => f.(problemLink := url)
  }

  /** `custom-${Date.now()}` for a clock reading in milliseconds. */
  function CustomId(now: nat): (r: string)
    ensures |r| > 7 && r[..7] == "custom-"
    ensures forall i :: 7 <= i < |r| ==> '0' <= r[i] <= '9'
    ensures DecimalValue(r[7..]) == now
  {
    NatToStringRoundTrip(now);
    var r := "custom-" + NatToString(now);
    assert r[7..] == NatToString(now);
    r
  }

  /** The record built from the form: the form's fields, "Not Started", not starred, empty note. */
  function NewQuestion(f: FormData, now: nat): (r: Question)
    ensures r.id == CustomId(now) && r.name == f.name
    ensures r.difficulty == f.difficulty.value && r.level == Some(f.level.value)
    ensures r.problemLink == f.problemLink && r.questionLink == f.questionLink
    ensures r.gfgLink == f.gfgLink && r.youtubeLink == f.youtubeLink
    ensures r.status == NotStarted && r.starred == Some(false) && r.note == Some("")
  {
    Question(CustomId(now), f.name, f.difficulty.value, Some(f.level.value),
             f.problemLink, f.questionLink, f.gfgLink, f.youtubeLink, NotStarted, Some(false), Some(""))
  }

  /** What a save produces: nothing when the trimmed name is empty, else the new record. A record
      is produced exactly when the name has a non-whitespace character. */
  function Submit(f: FormData, now: nat): (r: Option<Question>)
    ensures r.Some? <==> exists i :: 0 <= i < |f.name| && !IsWhitespace(f.name[i])
    ensures r.Some? ==> r.value == NewQuestion(f, now)
  {
    BlankIffAllWhitespace(f.name);
    if IsBlank(f.name) then None else Some(NewQuestion(f, now))
  }

  /** Saves at different clock readings give different ids. */
  lemma CustomIdsDistinct(a: nat, b: nat)
    requires a != b
    ensures CustomId(a) != CustomId(b)
  {
    // The digits after the prefix spell the clock reading (`CustomId`'s contract).
  }

  /** A new id never equals an id of the seed catalog. */
  lemma CustomIdNotSeed(now: nat, q: Question)
    requires q in AllQuestions(DefaultData())
    ensures q.id != CustomId(now)
  {
    var all := AllQuestions(DefaultData());
    assert all[0].id == "BASICS_1" && all[1].id == "BASICS_2" && all[2].id == "ARR_1" && all[3].id == "ARR_2";
    assert |all| == 4;
    var id := CustomId(now);
    assert id[0] == "custom-"[0] == 'c';
    assert q.id[0] != 'c';
  }

  /** A new question is shown with no filters, hidden by "starred" and "with-notes", and shown by
      "without-notes". */
  lemma NewQuestionFilters(f: FormData, now: nat)
    ensures var q := NewQuestion(f, now);
      && ApplyFilters(q, NoFilters)
      && !ApplyFilters(q, NoFilters.(starred := StarredOnly))
      && !ApplyFilters(q, NoFilters.(notes := WithNotes))
      && ApplyFilters(q, NoFilters.(notes := WithoutNotes))
  {
    assert Trim("") == [];
  }

  /** The modal's state. */
  class AddQuestionModal {
    var formData: FormData
    var nameError: string

    /** The name error is shown only for a blank name. */
    predicate Valid()
      reads this
    {
      nameError == "" || (nameError == NameRequired && IsBlank(formData.name))
    }

    constructor ()
      ensures Valid()
      ensures formData == EmptyForm && nameError == ""
    {
      formData := EmptyForm;
      nameError := "";
      new;
      assert |nameError| == 0;
    }

    /** `handleChange`: one field changes; typing in the name clears the error. */
    method HandleChange(v: FieldValue)
      requires Valid()
      modifies this
      ensures Valid()
      ensures formData == WithField(old(formData), v)
      ensures v.Name? ==> nameError == ""
      ensures !v.Name? ==> nameError == old(nameError)
    {
      formData := WithField(formData, v);
      if v.Name? {
        nameError := "";
      }
    }

    /** `handleSave` at clock reading `now`: a blank name sets the error and keeps the form; any
        other name hands the new record to the caller and resets the form. */
    method HandleSave(now: nat) returns (saved: Option<Question>)
      requires Valid()
      modifies this
      ensures Valid()
      ensures saved == Submit(old(formData), now)
      ensures saved.None? ==> formData == old(formData) && nameError == NameRequired
      ensures saved.Some? ==> formData == EmptyForm && nameError == ""
    {
      if IsBlank(formData.name) {
        nameError := NameRequired;
        return None;
      }
      saved := Some(NewQuestion(formData, now));
      formData := EmptyForm;
    }
  }
}
