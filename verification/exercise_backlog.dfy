/** The exercise backlog view: the add/edit form, its muscle-group toggles and submit guard,
    and the search over the listed exercises. */
module ExerciseBacklog {
  import opened Wrappers
  import opened Seqs
  import opened Json
  import opened Domain
  import opened Text
  import Storage
  import Collection
  import Exercises

  const MuscleGroupOptions: seq<string> := ["Brust", "Rücken", "Beine", "Schultern", "Arme", "Bauch", "Ganzkörper"]

  /** The form's fields. `equipment` is `""` while nothing is chosen. */
  datatype Form = Form(name: string, muscleGroups: seq<string>, equipment: string, notes: string)

  /** No muscle group is chosen twice. */
  ghost predicate Distinct(gs: seq<string>) {
    NoDupBy(gs, (g: string) => g)
  }

  /** `toggleMuscleGroup`: a chosen group is removed (every occurrence), an unchosen one is
      appended. */
  function ToggleMuscleGroup(gs: seq<string>, g: string): (r: seq<string>)
    ensures g !in gs ==> r == gs + [g]
    ensures g in gs ==> g !in r && IsSubsequence(r, gs)
    ensures g in gs ==> forall k :: 0 <= k < |gs| && gs[k] != g ==> gs[k] in r
    ensures g in gs ==> forall x :: multiset(r)[x] == if x == g then 0 else multiset(gs)[x]
    ensures Distinct(gs) ==> Distinct(r)
  {
    if g in gs then
      FilterMultiset(gs, (x: string) => x != g);
      FilterKeepsNoDupBy(gs, (x: string) => x != g, (x: string) => x);
      Filter(gs, (x: string) => x != g)
    else
      AppendKeepsDistinct(gs, g);
      gs + [g]
  }

  lemma AppendKeepsDistinct(gs: seq<string>, g: string)
    requires g !in gs
    ensures Distinct(gs) ==> Distinct(gs + [g])
  {
  }

  /** Toggling an unchosen group twice gives back the original list. */
  lemma ToggleTwiceRestores(gs: seq<string>, g: string)
    requires g !in gs
    ensures ToggleMuscleGroup(ToggleMuscleGroup(gs, g), g) == gs
  {
    var keep := (x: string) => x != g;
    FilterAppend(gs, [g], keep);
    FilterKeepsAll(gs, keep);
    assert Filter([g], keep) == [];
  }

  /** Toggling one of the offered groups keeps the choice within the offered groups. */
  lemma ToggleStaysWithinOptions(gs: seq<string>, g: string)
    requires forall k :: 0 <= k < |gs| ==> gs[k] in MuscleGroupOptions
    requires g in MuscleGroupOptions
    ensures forall x :: x in ToggleMuscleGroup(gs, g) ==> x in MuscleGroupOptions
  {
  }

  // ----- search -----

  /** The search predicate: the lower-cased name contains the lower-cased term, or one of the
      muscle groups does; an exercise without a muscle-group list matches on its name only. */
  predicate Matches(e: Exercise, term: string) {
    var t := ToLower(term);
    HasSubstring(ToLower(e.name), t)
    || (e.muscleGroups.Some? && exists k | 0 <= k < |e.muscleGroups.value| :: HasSubstring(ToLower(e.muscleGroups.value[k]), t))
  }

  /** `filteredExercises`: the matching exercises, in list order. */
  function FilteredExercises(exs: seq<Exercise>, term: string): (r: seq<Exercise>)
    ensures IsSubsequence(r, exs)
    ensures forall i :: 0 <= i < |r| ==> Matches(r[i], term) && r[i] in exs
    ensures forall i :: 0 <= i < |exs| && Matches(exs[i], term) ==> exs[i] in r
    ensures forall x :: multiset(r)[x] == if Matches(x, term) then multiset(exs)[x] else 0
  {
    var matching := (e: Exercise) => Matches(e, term);
    FilterMultiset(exs, matching);
    Filter(exs, matching)
  }

  /** With an empty search box every exercise is listed. */
  lemma EmptySearchListsAll(exs: seq<Exercise>)
    ensures FilteredExercises(exs, "") == exs
  {
    forall i | 0 <= i < |exs|
      ensures Matches(exs[i], "")
    {
      EmptyIsSubstring(ToLower(exs[i].name));
    }
    FilterKeepsAll(exs, (e: Exercise) => Matches(e, ""));
  }

  /** An exercise whose name contains the term as typed is found, whatever the case of either. */
  lemma NameContainingTermMatches(e: Exercise, term: string)
    requires HasSubstring(e.name, term)
    ensures Matches(e, term)
  {
    HasSubstringToLower(e.name, term);
  }

  /** A search term already in lower case is searched for unchanged. */
  lemma LowerCaseTermUnchanged(e: Exercise, term: string)
    ensures Matches(e, ToLower(term)) == Matches(e, term)
  {
    ToLowerIdempotent(term);
  }

  // ----- editing and submitting -----

  /** `handleEdit`: the form filled from an exercise, `[]` and `''` standing in for missing
      fields. */
  function EditForm(e: Exercise): (f: Form)
    ensures f.name == e.name
    ensures f.muscleGroups == e.muscleGroups.GetOr([])
    ensures f.equipment == e.equipment.GetOr("") && f.notes == e.notes.GetOr("")
  {
    Form(e.name, e.muscleGroups.GetOr([]), e.equipment.GetOr(""), e.notes.GetOr(""))
  }

  /** Opening an exercise for editing and saving the form unchanged stores the same exercise,
      except that a missing muscle-group list, equipment or note is now stored empty. */
  lemma EditFormRoundTrip(e: Exercise)
    ensures DecodeExercise(EncodeExercise(e) + FormRecord(EditForm(e))) ==
      Some(e.(muscleGroups := Some(e.muscleGroups.GetOr([])), equipment := Some(e.equipment.GetOr("")),
              notes := Some(e.notes.GetOr(""))))
  {
    SubmittedFormDecodes(EncodeExercise(e), EditForm(e), e.id);
  }

  /** The submit button is disabled while the name is empty or no muscle group is chosen. */
  predicate SubmitDisabled(f: Form) {
    f.name == "" || |f.muscleGroups| == 0
  }

  /** The record the form submits. */
  function FormRecord(f: Form): Record {
    map["name" := JStr(f.name), "muscleGroups" := JArr(MapSeq(f.muscleGroups, StrJson)),
        "equipment" := JStr(f.equipment), "notes" := JStr(f.notes)]
  }

  /** What a submission asks of the exercise store. */
  datatype Submission = AddRequest(data: Record) | EditRequest(id: string, updates: Record)

  /** `handleSubmit`: edit the exercise being edited, otherwise add a new one. */
  function Submit(editingId: Option<string>, f: Form): (r: Submission)
    ensures r.AddRequest? <==> editingId.None? || editingId == Some("")
    ensures r.EditRequest? ==> r.id == editingId.value
    ensures r.AddRequest? ==> r.data == FormRecord(f)
    ensures r.EditRequest? ==> r.updates == FormRecord(f)
  {
    if editingId.Some? && editingId.value != "" then EditRequest(editingId.value, FormRecord(f))
    else AddRequest(FormRecord(f))
  }

  /** A stored exercise record written (added or edited) from form `f` decodes to an exercise
      with all of the form's fields, and opening it for editing shows `f` again. An enabled
      submit button therefore stores a named exercise with at least one muscle group. */
  lemma SubmittedFormDecodes(stored: Record, f: Form, id: string)
    requires FieldIs(stored, "id", id)
    ensures DecodeExercise(stored + FormRecord(f)) ==
      Some(Exercise(id, f.name, Some(f.muscleGroups), Some(f.equipment), Some(f.notes)))
    ensures EditForm(DecodeExercise(stored + FormRecord(f)).value) == f
    ensures !SubmitDisabled(f) ==>
      var e := DecodeExercise(stored + FormRecord(f)).value;
      e.name != "" && e.muscleGroups.Some? && |e.muscleGroups.value| > 0
  {
    StringsRoundTrip(f.muscleGroups);
    var r := stored + FormRecord(f);
    assert r["muscleGroups"] == JArr(MapSeq(f.muscleGroups, StrJson));
  }

  /** Submitting while editing an exercise updates that exercise's stored record to the form's
      fields; every other record stays as it was. */
  lemma SubmitEditStores(h: Collection.Hook, store: Storage.Backend, id: string, f: Form)
    requires id != ""
    ensures Submit(Some(id), f).EditRequest?
    ensures var after := Exercises.UpdateExercise(h, store, id, Submit(Some(id), f).updates, false).hook.items;
      && |after| == |h.items|
      && (forall i :: 0 <= i < |h.items| && Collection.HasId(h.items[i], id) ==>
            DecodeExercise(after[i]) == Some(Exercise(id, f.name, Some(f.muscleGroups), Some(f.equipment), Some(f.notes))))
      && (forall i :: 0 <= i < |h.items| && !Collection.HasId(h.items[i], id) ==> after[i] == h.items[i])
  {
    forall i | 0 <= i < |h.items| && Collection.HasId(h.items[i], id)
      ensures DecodeExercise(h.items[i] + FormRecord(f)) ==
        Some(Exercise(id, f.name, Some(f.muscleGroups), Some(f.equipment), Some(f.notes)))
    {
      SubmittedFormDecodes(h.items[i], f, id);
    }
  }

  /** Submitting a new exercise appends a record that reads back as an exercise with the
      generated id and the form's fields. */
  lemma SubmitAddStores(h: Collection.Hook, store: Storage.Backend, f: Form, freshId: string)
    ensures Submit(None, f).AddRequest?
    ensures var after := Exercises.AddExercise(h, store, Submit(None, f).data, freshId, false).hook.items;
      && |after| == |h.items| + 1
      && after[..|h.items|] == h.items
      && DecodeExercise(after[|h.items|]) ==
           Some(Exercise(freshId, f.name, Some(f.muscleGroups), Some(f.equipment), Some(f.notes)))
  {
    var idOnly: Record := map["id" := JStr(freshId)];
    assert Collection.WithId(FormRecord(f), freshId) == idOnly + FormRecord(f);
    SubmittedFormDecodes(idOnly, f, freshId);
  }
}
