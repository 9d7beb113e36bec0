/** The general-information part of the passage editor
    (src/components/passage/form/PassageGeneralInfo.tsx): the difficulty
    options and the tag buttons. */
module GeneralInfo {
  import opened Wrappers
  import opened Lists
  import opened Schemas
  import opened PassageFormHook

  datatype SelectOption = SelectOption(caption: string, value: string)

  /** The difficulty select's options, in order. */
  const DifficultyOptions: seq<SelectOption> :=
    [SelectOption("Easy", "Easy"), SelectOption("Medium", "Medium"), SelectOption("Hard", "Hard")]

  /** The options are the Difficulty enum, in its order, each labelled with
      its own value, so every choice passes the enum check. */
  lemma DifficultyOptionsMatchEnum()
    ensures |DifficultyOptions| == |Difficulties|
    ensures forall k :: 0 <= k < |Difficulties| ==>
      && DifficultyOptions[k].value == DifficultyName(Difficulties[k])
      && DifficultyOptions[k].caption == DifficultyOptions[k].value
      && ParseDifficulty(DifficultyOptions[k].value) == Some(Difficulties[k])
  {
  }

  /** `selectedTags?.includes(tag)`: a tag button is highlighted when the tag
      is selected; no selection highlights nothing. */
  predicate IsTagSelected(selected: Option<seq<string>>, tag: string) {
    selected.Some? && tag in selected.value
  }

  /** The new tag list of `handleTagToggle`, with an undefined selection
      read as the empty list. */
  function ToggledTags(selected: Option<seq<string>>, tag: string): (r: seq<string>)
    ensures selected.None? ==> r == [tag]
  {
    Toggle(selected.GetOr([]), tag)
  }

  /** A click flips the highlight of the clicked tag and of no other. */
  lemma ToggleFlipsSelection(selected: Option<seq<string>>, tag: string, other: string)
    ensures IsTagSelected(Some(ToggledTags(selected, tag)), tag) == !IsTagSelected(selected, tag)
    ensures other != tag ==> IsTagSelected(Some(ToggledTags(selected, tag)), other) == IsTagSelected(selected, other)
  {
    ToggleMembership(selected.GetOr([]), tag);
  }

  /** `handleTagToggle`: writes the toggled list into the form's tags. */
  method HandleTagToggle(form: PassageForm, tag: string)
    modifies form
    ensures form.values == old(form.values).(tags := ToggledTags(Some(old(form.values.tags)), tag))
    ensures form.mutations == old(form.mutations)
    ensures form.createPending == old(form.createPending) && form.updatePending == old(form.updatePending)
  {
    form.SetTags(ToggledTags(Some(form.values.tags), tag));
  }
}
