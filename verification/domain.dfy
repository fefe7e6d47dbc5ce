/** The typed view of the stored records: exercises in the backlog, and training sessions with
    their exercises and sets. Each type has an encoding as the JSON record the application writes
    and a decoding that reads such a record back (ignoring fields it does not know). */
module Domain {
  import opened Wrappers
  import opened Json
  import opened Seqs

  /** A session's lifecycle status and the string it is stored as. */
  datatype Status = Planned | InProgress | Completed {
    function Name(): string {
      match this
      case Planned => "planned"
      case InProgress => "in-progress"
      case Completed => "completed"
    }
  }

  function StatusNamed(name: string): (r: Option<Status>)
    ensures r.Some? ==> r.value.Name() == name
    ensures forall st: Status :: st.Name() == name ==> r == Some(st)
  {
    if name == "planned" then Some(Planned)
    else if name == "in-progress" then Some(InProgress)
    else if name == "completed" then Some(Completed)
    else None
  }

  /** One set of a session exercise. `equipment` is absent until the user types one. */
  datatype WorkSet = WorkSet(targetReps: int, actualReps: int, weight: int, equipment: Option<string>, completed: bool)

  /** The set the planning form creates: 10 target reps, nothing done yet. */
  const DefaultSet: WorkSet := WorkSet(10, 0, 0, None, false)

  /** A reference to a backlog exercise with the sets planned for it. */
  datatype SessionExercise = SessionExercise(exerciseId: string, sets: seq<WorkSet>)

  datatype Session = Session(id: string, date: string, exercises: seq<SessionExercise>, status: Status, notes: string)

  /** A backlog exercise. Records written by older forms may lack the optional fields. */
  datatype Exercise = Exercise(id: string, name: string, muscleGroups: Option<seq<string>>, equipment: Option<string>, notes: Option<string>)

  // ----- reading one field -----

  function NumField(r: Record, k: string): Option<int> {
    if k in r && r[k].JNum? then Some(r[k].n) else None
  }

  function StrField(r: Record, k: string): Option<string> {
    if k in r && r[k].JStr? then Some(r[k].s) else None
  }

  function BoolField(r: Record, k: string): Option<bool> {
    if k in r && r[k].JBool? then Some(r[k].b) else None
  }

  function ArrField(r: Record, k: string): Option<seq<Json>> {
    if k in r && r[k].JArr? then Some(r[k].items) else None
  }

  /** An optional string field: a missing field is `Some(None)`, a non-string one does not decode. */
  function OptStrField(r: Record, k: string): Option<Option<string>> {
    if k !in r then Some(None) else if r[k].JStr? then Some(Some(r[k].s)) else None
  }

  function StrJson(s: string): Json {
    JStr(s)
  }

  function JsonStr(j: Json): Option<string> {
    if j.JStr? then Some(j.s) else None
  }

  /** An optional list of strings. */
  function OptStrListField(r: Record, k: string): Option<Option<seq<string>>> {
    if k !in r then Some(None)
    else if r[k].JArr? then
      match Traverse(r[k].items, JsonStr)
      case None => None
      case Some(xs) => Some(Some(xs))
    else None
  }

  function WithOptStr(r: Record, k: string, v: Option<string>): Record {
    match v
    case None => r
    case Some(s) => r[k := JStr(s)]
  }

  // ----- sets -----

  function EncodeSet(w: WorkSet): Record {
    WithOptStr(map["targetReps" := JNum(w.targetReps), "actualReps" := JNum(w.actualReps),
                   "weight" := JNum(w.weight), "completed" := JBool(w.completed)],
               "equipment", w.equipment)
  }

  function DecodeSet(r: Record): Option<WorkSet> {
    var t :- NumField(r, "targetReps");
    var a :- NumField(r, "actualReps");
    var wt :- NumField(r, "weight");
    var eq :- OptStrField(r, "equipment");
    var c :- BoolField(r, "completed");
    Some(WorkSet(t, a, wt, eq, c))
  }

  function SetJson(w: WorkSet): Json {
    JObj(EncodeSet(w))
  }

  function SetFromJson(j: Json): Option<WorkSet> {
    if j.JObj? then DecodeSet(j.fields) else None
  }

  lemma SetRoundTrip(w: WorkSet)
    ensures SetFromJson(SetJson(w)) == Some(w)
  {
  }

  // ----- session exercises -----

  function EncodeSessionExercise(e: SessionExercise): Record {
    map["exerciseId" := JStr(e.exerciseId), "sets" := JArr(MapSeq(e.sets, SetJson))]
  }

  function DecodeSessionExercise(r: Record): Option<SessionExercise> {
    var id :- StrField(r, "exerciseId");
    var js :- ArrField(r, "sets");
    var sets :- Traverse(js, SetFromJson);
    Some(SessionExercise(id, sets))
  }

  function SessionExerciseJson(e: SessionExercise): Json {
    JObj(EncodeSessionExercise(e))
  }

  function SessionExerciseFromJson(j: Json): Option<SessionExercise> {
    if j.JObj? then DecodeSessionExercise(j.fields) else None
  }

  lemma SessionExerciseRoundTrip(e: SessionExercise)
    ensures SessionExerciseFromJson(SessionExerciseJson(e)) == Some(e)
  {
    forall w | w in e.sets
      ensures SetFromJson(SetJson(w)) == Some(w)
    {
      SetRoundTrip(w);
    }
    TraverseInvertsMap(e.sets, SetJson, SetFromJson);
  }

  /** The exercises of a session, encoded and decoded as an array. */
  lemma SessionExercisesRoundTrip(es: seq<SessionExercise>)
    ensures Traverse(MapSeq(es, SessionExerciseJson), SessionExerciseFromJson) == Some(es)
  {
    forall e | e in es
      ensures SessionExerciseFromJson(SessionExerciseJson(e)) == Some(e)
    {
      SessionExerciseRoundTrip(e);
    }
    TraverseInvertsMap(es, SessionExerciseJson, SessionExerciseFromJson);
  }

  // ----- sessions -----

  /** The record of a session, as `updateSession` receives it from the active-training view. */
  function EncodeSession(s: Session): Record {
    map["id" := JStr(s.id), "date" := JStr(s.date),
        "exercises" := JArr(MapSeq(s.exercises, SessionExerciseJson)),
        "status" := JStr(s.status.Name()), "notes" := JStr(s.notes)]
  }

  function DecodeSession(r: Record): Option<Session> {
    var id :- StrField(r, "id");
    var date :- StrField(r, "date");
    var js :- ArrField(r, "exercises");
    var exercises :- Traverse(js, SessionExerciseFromJson);
    var name :- StrField(r, "status");
    var status :- StatusNamed(name);
    var notes :- StrField(r, "notes");
    Some(Session(id, date, exercises, status, notes))
  }

  /** The five fields a session is read from. */
  const SessionFields: set<string> := {"id", "date", "exercises", "status", "notes"}

  /** Decoding reads only the five session fields: two records that agree on them decode alike. */
  lemma DecodeSessionReadsOnlyItsFields(r: Record, r': Record)
    requires forall k :: k in SessionFields ==> (k in r <==> k in r') && (k in r ==> r[k] == r'[k])
    ensures DecodeSession(r) == DecodeSession(r')
  {
    assert "id" in SessionFields && "date" in SessionFields && "exercises" in SessionFields;
    assert "status" in SessionFields && "notes" in SessionFields;
  }

  lemma SessionRoundTrip(s: Session)
    ensures DecodeSession(EncodeSession(s)) == Some(s)
  {
    SessionExercisesRoundTrip(s.exercises);
  }

  /** Overwriting only the status field of a record that reads as a session gives the same
      session with the new status. */
  lemma StatusChangeDecodes(r: Record, x: Session, st: Status)
    requires DecodeSession(r) == Some(x)
    ensures DecodeSession(r["status" := JStr(st.Name())]) == Some(x.(status := st))
  {
    var r' := r["status" := JStr(st.Name())];
    assert StrField(r', "id") == StrField(r, "id") && StrField(r', "date") == StrField(r, "date");
    assert ArrField(r', "exercises") == ArrField(r, "exercises") && StrField(r', "notes") == StrField(r, "notes");
    assert StatusNamed(st.Name()) == Some(st);
  }

  /** Merging a session's full record into any stored record (`{...stored, ...updated}`) yields a
      record that decodes to exactly that session. */
  lemma MergedSessionDecodes(stored: Record, s: Session)
    ensures DecodeSession(stored + EncodeSession(s)) == Some(s)
  {
    DecodeSessionReadsOnlyItsFields(stored + EncodeSession(s), EncodeSession(s));
    SessionRoundTrip(s);
  }

  // ----- backlog exercises -----

  function EncodeExercise(e: Exercise): Record {
    var base := map["id" := JStr(e.id), "name" := JStr(e.name)];
    var withGroups := match e.muscleGroups
      case None => base
      case Some(gs) => base["muscleGroups" := JArr(MapSeq(gs, StrJson))];
    WithOptStr(WithOptStr(withGroups, "equipment", e.equipment), "notes", e.notes)
  }

  function DecodeExercise(r: Record): Option<Exercise> {
    var id :- StrField(r, "id");
    var name :- StrField(r, "name");
    var groups :- OptStrListField(r, "muscleGroups");
    var equipment :- OptStrField(r, "equipment");
    var notes :- OptStrField(r, "notes");
    Some(Exercise(id, name, groups, equipment, notes))
  }

  lemma StringsRoundTrip(gs: seq<string>)
    ensures Traverse(MapSeq(gs, StrJson), JsonStr) == Some(gs)
  {
    TraverseInvertsMap(gs, StrJson, JsonStr);
  }

  lemma ExerciseRoundTrip(e: Exercise)
    ensures DecodeExercise(EncodeExercise(e)) == Some(e)
  {
    if e.muscleGroups.Some? {
      StringsRoundTrip(e.muscleGroups.value);
    }
  }
}
