/** The tourist profile's preference tags: the initial selection, selecting and removing a
    tag, and the ids sent on update. */
module TouristProfile {
  import opened Base
  import Seqs

  datatype Tag = Tag(id: string, name: string)

  /** An option of the multi-select: `value` is the tag id, `labelText` its `label` (the tag name;
      `label` is a Dafny keyword). */
  datatype SelectOption = SelectOption(value: string, labelText: string, payload: Tag)

  function OptionOf(tag: Tag): SelectOption {
    SelectOption(tag.id, tag.name, tag)
  }

  /** The initial `selectedTags`: one option per preference, or none when the user has no
      preferences. */
  function InitialSelection(preferences: Option<seq<Tag>>): (r: seq<SelectOption>)
    ensures preferences.None? ==> r == []
    ensures preferences.Some? ==> (|r| == |preferences.value|
      && forall i :: 0 <= i < |r| ==> r[i].value == preferences.value[i].id && r[i].labelText == preferences.value[i].name)
  {
    match preferences
    case None => []
    case Some(tags) => seq(|tags|, i requires 0 <= i < |tags| => OptionOf(tags[i]))
  }

  /** `onSelect`: the tag is added at the end. */
  function OnSelect(selected: seq<SelectOption>, tag: SelectOption): (r: seq<SelectOption>)
    ensures |r| == |selected| + 1 && r[..|selected|] == selected && r[|selected|] == tag
  {
    selected + [tag]
  }

  function OtherValue(tag: SelectOption): SelectOption -> bool {
    (t: SelectOption) => t.value != tag.value
  }

  /** `onRemove`: every option with the tag's value goes, the others stay in order. */
  function OnRemove(selected: seq<SelectOption>, tag: SelectOption): (r: seq<SelectOption>)
    ensures Seqs.IsSubsequence(r, selected)
    ensures forall t :: t in r <==> t in selected && t.value != tag.value
    ensures forall t :: multiset(r)[t] == if t.value != tag.value then multiset(selected)[t] else 0
  {
    Seqs.Filter(selected, OtherValue(tag))
  }

  /** `handleUpdateTags`: the ids sent are the selected values, in order. */
  function TagIds(selected: seq<SelectOption>): (ids: seq<string>)
    ensures |ids| == |selected|
    ensures forall i :: 0 <= i < |ids| ==> ids[i] == selected[i].value
  {
    seq(|selected|, i requires 0 <= i < |selected| => selected[i].value)
  }

  /** Saving without changes sends back the ids of the preferences the user had. */
  lemma InitialIdsArePreferenceIds(preferences: seq<Tag>)
    ensures var ids := TagIds(InitialSelection(Some(preferences)));
      |ids| == |preferences| && forall i :: 0 <= i < |ids| ==> ids[i] == preferences[i].id
  {
  }

  /** Removing a tag leaves no id of it to send. */
  lemma RemovedIdIsNotSent(selected: seq<SelectOption>, tag: SelectOption)
    ensures tag.value !in TagIds(OnRemove(selected, tag))
  {
    var r := OnRemove(selected, tag);
    forall i | 0 <= i < |r|
      ensures TagIds(r)[i] != tag.value
    {
      assert r[i] in r;
    }
  }

  /** Selecting a tag not yet selected and removing it again gives back the selection. */
  lemma SelectThenRemoveRestores(selected: seq<SelectOption>, tag: SelectOption)
    requires forall i :: 0 <= i < |selected| ==> selected[i].value != tag.value
    ensures OnRemove(OnSelect(selected, tag), tag) == selected
  {
    var s := OnSelect(selected, tag);
    assert !OtherValue(tag)(tag);
    Seqs.FilterAll(selected, OtherValue(tag));
    Seqs.FilterAppend(selected, [tag], OtherValue(tag));
    assert Seqs.Filter([tag], OtherValue(tag)) == [];
  }
}
