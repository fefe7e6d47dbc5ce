/** The planning form of the training plan: choosing exercises for a date, sizing their set
    lists, setting target reps, and submitting the new session. */
module TrainingPlan {
  import opened Wrappers
  import opened Seqs
  import opened Json
  import opened Domain
  import Text

  function ExerciseIdOf(e: SessionExercise): string {
    e.exerciseId
  }

  /** No exercise is selected twice. */
  ghost predicate UniqueIds(sel: seq<SessionExercise>) {
    NoDupBy(sel, ExerciseIdOf)
  }

  /** `selectedExercises.find(e => e.exerciseId === exerciseId)` found something. */
  predicate IsSelected(sel: seq<SessionExercise>, id: string) {
    FindFirst(sel, (e: SessionExercise) => e.exerciseId == id).Some?
  }

  /** `handleAddExercise`: an exercise already in the selection is not added again; a new one is
      appended with a single default set. */
  function AddExercise(sel: seq<SessionExercise>, id: string): (r: seq<SessionExercise>)
    ensures (exists k :: 0 <= k < |sel| && sel[k].exerciseId == id) ==> r == sel
    ensures (forall k :: 0 <= k < |sel| ==> sel[k].exerciseId != id) ==>
      r == sel + [SessionExercise(id, [DefaultSet])]
    ensures UniqueIds(sel) ==> UniqueIds(r)
  {
    if IsSelected(sel, id) then sel else sel + [SessionExercise(id, [DefaultSet])]
  }

  /** `handleRemoveExercise`: drop the entries with that id, keep the rest in order. */
  function RemoveExercise(sel: seq<SessionExercise>, id: string): (r: seq<SessionExercise>)
    ensures IsSubsequence(r, sel)
    ensures forall k :: 0 <= k < |r| ==> r[k].exerciseId != id
    ensures forall k :: 0 <= k < |sel| && sel[k].exerciseId != id ==> sel[k] in r
    ensures forall x :: multiset(r)[x] == if x.exerciseId == id then 0 else multiset(sel)[x]
    ensures UniqueIds(sel) ==> UniqueIds(r)
  {
    var keep := (e: SessionExercise) => e.exerciseId != id;
    FilterMultiset(sel, keep);
    FilterKeepsNoDupBy(sel, keep, ExerciseIdOf);
    Filter(sel, keep)
  }

  /** The first length JavaScript arrays cannot have: `Array.from` with a length of 2^32 or more
      throws a `RangeError`. */
  const ArrayLengthLimit: int := 0x1_0000_0000

  /** `Array.from({length: n}, (_, i) => sets[i] || defaultSet)`. A negative length gives an
      empty list; a length of 2^32 or more throws (absent). */
  function ResizeSets(sets: seq<WorkSet>, n: int): (r: Option<seq<WorkSet>>)
    ensures r.None? <==> n >= ArrayLengthLimit
    ensures r.Some? ==> |r.value| == if n > 0 then n else 0
    ensures r.Some? ==> forall m :: 0 <= m < |r.value| && m < |sets| ==> r.value[m] == sets[m]
    ensures r.Some? ==> forall m :: |sets| <= m < |r.value| ==> r.value[m] == DefaultSet
  {
    if n >= ArrayLengthLimit then None
    else Some(seq(if n > 0 then n else 0, (m: int) => if 0 <= m < |sets| then sets[m] else DefaultSet))
  }

  /** Resizing to the current length changes nothing; growing then shrinking back restores. */
  lemma ResizeSetsBack(sets: seq<WorkSet>, n: int)
    requires n >= |sets|
    ensures |sets| < ArrayLengthLimit ==> ResizeSets(sets, |sets|) == Some(sets)
    ensures ResizeSets(sets, n).Some? ==> ResizeSets(ResizeSets(sets, n).value, |sets|) == Some(sets)
  {
    if |sets| < ArrayLengthLimit {
      var r := ResizeSets(sets, |sets|).value;
      assert forall m :: 0 <= m < |r| ==> r[m] == sets[m];
      assert r == sets;
    }
    if ResizeSets(sets, n).Some? {
      var grown := ResizeSets(sets, n).value;
      var r := ResizeSets(grown, |sets|).value;
      assert forall m :: 0 <= m < |r| ==> r[m] == grown[m] == sets[m];
      assert r == sets;
    }
  }

  /** The set count typed into the form: `parseInt(value) || 1`, so an empty or zero entry
      means one set. */
  function SetCountInput(text: string): (r: int)
    ensures r != 0
    ensures r == 1 || Text.ParseInt(text) == Some(r)
  {
    Text.ParseIntOr(text, 1)
  }

  lemma SetCountInputDefaults(n: int)
    ensures SetCountInput("") == 1
    ensures SetCountInput("0") == 1
    ensures SetCountInput(Text.DecimalString(n)) == if n == 0 then 1 else n
  {
    Text.ParseIntDecimalString(n);
    Text.ParseIntDecimalString(0);
    assert Text.DecimalString(0) == "0";
    Text.ParseIntEmpty();
  }

  /** `handleUpdateSets`: the chosen exercise gets exactly `n` sets (none for `n < 0`), the ones it
      had first; every other exercise is untouched. For `n >= 2^32` the resize throws before the
      selection is replaced, so it stays as it was. */
  function UpdateSets(sel: seq<SessionExercise>, id: string, n: int): (r: seq<SessionExercise>)
    ensures |r| == |sel|
    ensures n >= ArrayLengthLimit ==> r == sel
    ensures forall k :: 0 <= k < |sel| && sel[k].exerciseId != id ==> r[k] == sel[k]
    ensures n < ArrayLengthLimit ==> forall k :: 0 <= k < |sel| && sel[k].exerciseId == id ==>
      r[k].exerciseId == id && ResizeSets(sel[k].sets, n) == Some(r[k].sets)
    ensures UniqueIds(sel) ==> UniqueIds(r)
  {
    if n >= ArrayLengthLimit then sel
    else
      var r := MapSeq(sel, (e: SessionExercise) => if e.exerciseId == id then e.(sets := ResizeSets(e.sets, n).value) else e);
      assert forall k :: 0 <= k < |r| ==> r[k].exerciseId == sel[k].exerciseId;
      r
  }

  /** Typing a set count of 2^32 leaves the selection as it was. */
  lemma HugeSetCountIgnored(sel: seq<SessionExercise>, id: string)
    ensures UpdateSets(sel, id, SetCountInput(Text.DecimalString(ArrayLengthLimit))) == sel
  {
    Text.ParseIntDecimalString(ArrayLengthLimit);
  }

  /** Every selected entry with that id has a set at `setIndex` (the form only edits rendered sets). */
  predicate SetIndexValid(sel: seq<SessionExercise>, id: string, setIndex: int) {
    forall k :: 0 <= k < |sel| && sel[k].exerciseId == id ==> 0 <= setIndex < |sel[k].sets|
  }

  /** `handleUpdateTargetReps`: one set's target reps become `parseInt(value) || 0`; nothing else
      changes. */
  function UpdateTargetReps(sel: seq<SessionExercise>, id: string, setIndex: int, text: string): (r: seq<SessionExercise>)
    requires SetIndexValid(sel, id, setIndex)
    ensures |r| == |sel|
    ensures forall k :: 0 <= k < |sel| && sel[k].exerciseId != id ==> r[k] == sel[k]
    ensures forall k :: 0 <= k < |sel| && sel[k].exerciseId == id ==>
      && r[k].exerciseId == id
      && |r[k].sets| == |sel[k].sets|
      && (forall m :: 0 <= m < |sel[k].sets| && m != setIndex ==> r[k].sets[m] == sel[k].sets[m])
      && r[k].sets[setIndex] == sel[k].sets[setIndex].(targetReps := Text.ParseIntOr(text, 0))
  {
    var reps := Text.ParseIntOr(text, 0);
    MapSeq(sel, (e: SessionExercise) =>
      if e.exerciseId == id && 0 <= setIndex < |e.sets| then e.(sets := e.sets[setIndex := e.sets[setIndex].(targetReps := reps)])
      else e)
  }

  /** Why a plan cannot be saved. */
  datatype PlanError = NoDateOrNoExercises

  /** The record `handleSaveSession` hands to `addSession`. */
  function PlannedRecord(date: string, sel: seq<SessionExercise>): Record {
    map["date" := JStr(date), "exercises" := JArr(MapSeq(sel, SessionExerciseJson)),
        "notes" := JStr(""), "status" := JStr("planned")]
  }

  /** `handleSaveSession`: refused without a (non-empty) date or without exercises; otherwise
      the planned session record with empty notes. */
  function SaveSession(date: Option<string>, sel: seq<SessionExercise>): (r: Result<Record, PlanError>)
    ensures r.Failure? <==> date.None? || date == Some("") || |sel| == 0
    ensures r.Success? ==> forall id: string ::
      DecodeSession(r.value["id" := JStr(id)]) == Some(Session(id, date.value, sel, Planned, ""))
  {
    if date.None? || date.value == "" || |sel| == 0 then Failure(NoDateOrNoExercises)
    else
      SessionExercisesRoundTrip(sel);
      Success(PlannedRecord(date.value, sel))
  }

  /** The Start button is rendered only for planned sessions. */
  predicate StartOffered(s: Session) {
    s.status == Planned
  }
}
