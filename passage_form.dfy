/** The passage editor's form logic (src/hooks/usePassageForm.ts): edit
    mode, the default values, the tag toggle, and the submit step that
    sanitises every text field before creating or updating the passage.
    `sanitize` is a parameter; `crypto.randomUUID()` is the `newId`
    argument. */
module PassageFormHook {
  import opened Wrappers
  import opened Lists
  import opened Schemas

  /** The values a new passage form starts from. */
  function DefaultValues(newId: string): Passage {
    Passage(newId, "", "", [], "Easy", [])
  }

  /** The defaults are not a valid passage: the title is empty and the text
      is shorter than ten characters. */
  lemma DefaultValuesRejected(isUuid: string -> bool, newId: string)
    ensures !ValidPassage(isUuid, DefaultValues(newId))
    ensures Issue([Key("title")], TooShort(1, "Title is required")) in PassageIssues(isUuid, DefaultValues(newId))
    ensures Issue([Key("text")], TooShort(10, "Text content must be at least 10 characters"))
      in PassageIssues(isUuid, DefaultValues(newId))
  {
    var p := DefaultValues(newId);
    var expected := UuidIssues(isUuid, p.id)
      + [Issue([Key("title")], TooShort(1, "Title is required"))]
      + [Issue([Key("text")], TooShort(10, "Text content must be at least 10 characters"))];
    assert PassageIssues(isUuid, p) == expected + [] + [];
  }

  /** The question the editor appends (src/components/passage/form/QuestionList.tsx):
      empty text, four empty options, answer 0. */
  function NewQuestion(newId: string): Question {
    Question(newId, "", ["", "", "", ""], 0.0)
  }

  /** A freshly added question is not valid until it is filled in. */
  lemma NewQuestionRejected(isUuid: string -> bool, newId: string)
    ensures !ValidQuestion(isUuid, NewQuestion(newId))
    ensures Issue([Key("question")], TooShort(1, "Question text is required")) in QuestionIssues(isUuid, NewQuestion(newId))
  {
    assert |NewQuestion(newId).options[0]| == 0;
  }

  function MapText(xs: seq<string>, sanitize: string -> string): (r: seq<string>)
    ensures |r| == |xs|
  {
    seq(|xs|, k requires 0 <= k < |xs| => sanitize(xs[k]))
  }

  function CleanQuestion(q: Question, sanitize: string -> string): Question {
    q.(question := sanitize(q.question), options := MapText(q.options, sanitize))
  }

  /** `cleanData`: the submitted passage with `sanitize` applied to the
      title, the text, every question's text and every option; nothing else
      changes, so ids, tags, difficulty, answer indices and all counts are
      kept. */
  function Clean(data: Passage, sanitize: string -> string): (r: Passage)
    ensures r.id == data.id && r.tags == data.tags && r.difficulty == data.difficulty
    ensures r.title == sanitize(data.title) && r.text == sanitize(data.text)
    ensures |r.questions| == |data.questions|
    ensures forall k :: 0 <= k < |r.questions| ==>
      && r.questions[k].id == data.questions[k].id
      && r.questions[k].correctIndex == data.questions[k].correctIndex
      && r.questions[k].question == sanitize(data.questions[k].question)
      && |r.questions[k].options| == |data.questions[k].options|
      && (forall j :: 0 <= j < |r.questions[k].options| ==>
            r.questions[k].options[j] == sanitize(data.questions[k].options[j]))
  {
    data.(title := sanitize(data.title), text := sanitize(data.text),
          questions := seq(|data.questions|, k requires 0 <= k < |data.questions| => CleanQuestion(data.questions[k], sanitize)))
  }

  /** A sanitiser that leaves its input alone leaves the passage alone. */
  lemma CleanIdentity(data: Passage, sanitize: string -> string)
    requires forall s :: sanitize(s) == s
    ensures Clean(data, sanitize) == data
  {
    var r := Clean(data, sanitize);
    forall k | 0 <= k < |data.questions| ensures r.questions[k] == data.questions[k] {
      assert r.questions[k].options == data.questions[k].options;
    }
    assert r.questions == data.questions;
  }

  /** With an idempotent sanitiser, cleaning twice is cleaning once: a
      passage saved, reloaded and saved again is stored the same. */
  lemma CleanIdempotent(data: Passage, sanitize: string -> string)
    requires forall s :: sanitize(sanitize(s)) == sanitize(s)
    ensures Clean(Clean(data, sanitize), sanitize) == Clean(data, sanitize)
  {
    var once := Clean(data, sanitize);
    var twice := Clean(once, sanitize);
    forall k | 0 <= k < |data.questions| ensures twice.questions[k] == once.questions[k] {
      assert twice.questions[k].options == once.questions[k].options;
    }
    assert twice.questions == once.questions;
  }

  /** Cleaning keeps a valid passage valid when the sanitiser never shortens
      a string. */
  lemma CleanKeepsValidity(isUuid: string -> bool, data: Passage, sanitize: string -> string)
    requires ValidPassage(isUuid, data)
    requires forall s :: |sanitize(s)| >= |s|
    ensures ValidPassage(isUuid, Clean(data, sanitize))
  {
    var r := Clean(data, sanitize);
    forall k | 0 <= k < |r.questions| ensures ValidQuestion(isUuid, r.questions[k]) {
      var q, c := data.questions[k], r.questions[k];
      assert ValidQuestion(isUuid, q);
      forall j | 0 <= j < |c.options| ensures |c.options[j]| >= 1 {
        assert |sanitize(q.options[j])| >= |q.options[j]|;
      }
    }
  }

  /** Submitting runs after validation, but the sanitiser may still empty a
      field: a valid passage can be cleaned into an invalid one. */
  lemma CleanCanInvalidate(isUuid: string -> bool, data: Passage)
    requires ValidPassage(isUuid, data)
    ensures !ValidPassage(isUuid, Clean(data, _ => ""))
  {
  }

  datatype Mutation = Create(passage: Passage) | Update(passage: Passage)

  class PassageForm {
    /** The route's passage id; none for a new passage. */
    const id: Option<string>
    var values: Passage
    /** The mutations issued, oldest first. */
    var mutations: seq<Mutation>
    var createPending: bool
    var updatePending: bool

    constructor (id: Option<string>, newId: string)
      ensures this.id == id && values == DefaultValues(newId)
      ensures mutations == [] && !createPending && !updatePending
    {
      this.id := id;
      values := DefaultValues(newId);
      mutations := [];
      createPending, updatePending := false, false;
    }

    /** `!!id`: edit mode needs a non-empty id. */
    predicate IsEditMode()
    {
      id.Some? && id.value != ""
    }

    /** `isSubmitting`. */
    predicate IsSubmitting()
      reads this
    {
      createPending || updatePending
    }

    /** The effect that resets the form to the fetched passage, in edit mode
        once the passage has arrived. */
    method LoadFetched(data: Option<Passage>)
      modifies this
      ensures values == if IsEditMode() && data.Some? then data.value else old(values)
      ensures mutations == old(mutations) && createPending == old(createPending) && updatePending == old(updatePending)
    {
      if IsEditMode() && data.Some? {
        values := data.value;
      }
    }

    /** `setValue('tags', …)`. */
    method SetTags(tags: seq<string>)
      modifies this
      ensures values == old(values).(tags := tags)
      ensures mutations == old(mutations) && createPending == old(createPending) && updatePending == old(updatePending)
    {
      values := values.(tags := tags);
    }

    /** `handleTagToggle`: only the tags change, by the list toggle. */
    method HandleTagToggle(tag: string)
      modifies this
      ensures values == old(values).(tags := Toggle(old(values.tags), tag))
      ensures tag in values.tags <==> tag !in old(values.tags)
      ensures NoDup(old(values.tags)) ==> NoDup(values.tags)
      ensures mutations == old(mutations) && createPending == old(createPending) && updatePending == old(updatePending)
    {
      if NoDup(values.tags) {
        ToggleKeepsNoDup(values.tags, tag);
      }
      SetTags(Toggle(values.tags, tag));
    }

    /** `onSubmit`: exactly one mutation with the cleaned passage, an update
        in edit mode and a create otherwise; the form is then submitting. */
    method OnSubmit(data: Passage, sanitize: string -> string)
      modifies this
      ensures mutations == old(mutations) + [if IsEditMode() then Update(Clean(data, sanitize)) else Create(Clean(data, sanitize))]
      ensures createPending == (old(createPending) || !IsEditMode())
      ensures updatePending == (old(updatePending) || IsEditMode())
      ensures IsSubmitting()
      ensures values == old(values)
    {
      var cleanData := Clean(data, sanitize);
      if IsEditMode() {
        mutations := mutations + [Update(cleanData)];
        updatePending := true;
      } else {
        mutations := mutations + [Create(cleanData)];
        createPending := true;
      }
    }

    /** `handleSubmit(onSubmit)` with the schema resolver: the form's own
        values reach `onSubmit` only when they pass the passage schema;
        otherwise nothing is issued and nothing changes. */
    method Submit(isUuid: string -> bool, sanitize: string -> string)
      modifies this
      ensures values == old(values)
      ensures ValidPassage(isUuid, old(values)) ==>
        && mutations == old(mutations) + [if IsEditMode() then Update(Clean(old(values), sanitize)) else Create(Clean(old(values), sanitize))]
        && IsSubmitting()
      ensures !ValidPassage(isUuid, old(values)) ==>
        mutations == old(mutations) && createPending == old(createPending) && updatePending == old(updatePending)
    {
      if ValidPassage(isUuid, values) {
        OnSubmit(values, sanitize);
      }
    }
  }

  /** A new form submitted untouched issues no mutation: its defaults fail
      the schema. */
  method SubmitDefaults(isUuid: string -> bool, sanitize: string -> string, newId: string)
    returns (issued: seq<Mutation>)
    ensures issued == []
  {
    var form := new PassageForm(None, newId);
    DefaultValuesRejected(isUuid, newId);
    form.Submit(isUuid, sanitize);
    issued := form.mutations;
  }
}
