/** The active-training view: per-set edits on a working copy of the in-progress session,
    the progress counts and the completion step. Sessions are values, so an edit builds a new
    session and the one passed in is never changed. */
module ActiveTraining {
  import opened Wrappers
  import opened Seqs
  import opened Domain
  import Text

  /** `exercises[i].sets[j]` exists. The view only offers edits on sets it renders. */
  predicate ValidSet(s: Session, i: int, j: int) {
    0 <= i < |s.exercises| && 0 <= j < |s.exercises[i].sets|
  }

  /** `r` is `s` with at most set `j` of exercise `i` changed. */
  ghost predicate SameExceptSet(s: Session, r: Session, i: int, j: int)
    requires ValidSet(s, i, j)
  {
    && r.id == s.id && r.date == s.date && r.status == s.status && r.notes == s.notes
    && |r.exercises| == |s.exercises|
    && (forall k :: 0 <= k < |s.exercises| && k != i ==> r.exercises[k] == s.exercises[k])
    && r.exercises[i].exerciseId == s.exercises[i].exerciseId
    && |r.exercises[i].sets| == |s.exercises[i].sets|
    && (forall m :: 0 <= m < |s.exercises[i].sets| && m != j ==> r.exercises[i].sets[m] == s.exercises[i].sets[m])
  }

  function WithSet(s: Session, i: int, j: int, w: WorkSet): (r: Session)
    requires ValidSet(s, i, j)
    ensures ValidSet(r, i, j) && SameExceptSet(s, r, i, j)
    ensures r.exercises[i].sets[j] == w
  {
    var e := s.exercises[i];
    s.(exercises := s.exercises[i := e.(sets := e.sets[j := w])])
  }

  /** `handleSetComplete`: the check box of one set. */
  function SetComplete(s: Session, i: int, j: int, completed: bool): (r: Session)
    requires ValidSet(s, i, j)
    ensures ValidSet(r, i, j) && SameExceptSet(s, r, i, j)
    ensures r.exercises[i].sets[j].completed == completed
    ensures var w, w' := s.exercises[i].sets[j], r.exercises[i].sets[j];
      w'.targetReps == w.targetReps && w'.actualReps == w.actualReps && w'.weight == w.weight
      && w'.equipment == w.equipment
  {
    WithSet(s, i, j, s.exercises[i].sets[j].(completed := completed))
  }

  /** The three inputs of a set row. */
  datatype SetField = ActualReps | Weight | Equipment

  /** `handleSetUpdate`: reps and weight are stored as `parseInt(value) || 0`, equipment as typed. */
  function SetUpdate(s: Session, i: int, j: int, field: SetField, value: string): (r: Session)
    requires ValidSet(s, i, j)
    ensures ValidSet(r, i, j) && SameExceptSet(s, r, i, j)
    ensures var w, w' := s.exercises[i].sets[j], r.exercises[i].sets[j];
      && w'.targetReps == w.targetReps && w'.completed == w.completed
      && w'.actualReps == (if field == ActualReps then Text.ParseIntOr(value, 0) else w.actualReps)
      && w'.weight == (if field == Weight then Text.ParseIntOr(value, 0) else w.weight)
      && w'.equipment == (if field == Equipment then Some(value) else w.equipment)
  {
    var w := s.exercises[i].sets[j];
    var w' := match field
      case ActualReps => w.(actualReps := Text.ParseIntOr(value, 0))
      case Weight => w.(weight := Text.ParseIntOr(value, 0))
      case Equipment => w.(equipment := Some(value));
    WithSet(s, i, j, w')
  }

  /** A number shown in a reps or weight input and submitted unchanged is stored unchanged. */
  lemma SetUpdateShownNumber(s: Session, i: int, j: int, field: SetField, n: int)
    requires ValidSet(s, i, j) && field != Equipment
    ensures SetUpdate(s, i, j, field, Text.DecimalString(n)) ==
      WithSet(s, i, j, if field == ActualReps then s.exercises[i].sets[j].(actualReps := n)
                       else s.exercises[i].sets[j].(weight := n))
  {
    Text.ParseIntDecimalString(n);
  }

  /** A weight typed with a fractional part (the input offers half-kilo steps) is stored with
      the fraction cut off: `n.5` kg is stored as `n`. */
  lemma WeightInputTruncated(s: Session, i: int, j: int, n: int, fraction: string)
    requires ValidSet(s, i, j)
    ensures SetUpdate(s, i, j, Weight, Text.DecimalString(n) + ("." + fraction)).exercises[i].sets[j].weight == n
  {
    Text.ParseIntDropsFraction(n, fraction);
  }

  /** An instance: 12.5 kg is stored as 12. */
  lemma HalfKiloDropped(s: Session, i: int, j: int)
    requires ValidSet(s, i, j)
    ensures SetUpdate(s, i, j, Weight, "12.5").exercises[i].sets[j].weight == 12
  {
    Text.ParseIntTwelveAndAHalf();
  }

  // ----- progress -----

  predicate IsDone(w: WorkSet) {
    w.completed
  }

  /** `ex.sets.filter(s => s.completed).length`. */
  function DoneIn(e: SessionExercise): nat {
    |Filter(e.sets, IsDone)|
  }

  /** Sum of the set counts. */
  function TotalSets(es: seq<SessionExercise>): nat {
    if |es| == 0 then 0 else |es[0].sets| + TotalSets(es[1..])
  }

  /** Sum of the completed-set counts. */
  function DoneSets(es: seq<SessionExercise>): nat {
    if |es| == 0 then 0 else DoneIn(es[0]) + DoneSets(es[1..])
  }

  datatype Progress = Progress(completed: nat, total: nat)

  /** `getProgress`. */
  function GetProgress(s: Session): (p: Progress)
    ensures p.completed <= p.total
  {
    DoneAtMostTotal(s.exercises);
    Progress(DoneSets(s.exercises), TotalSets(s.exercises))
  }

  lemma {:induction false} DoneAtMostTotal(es: seq<SessionExercise>)
    ensures DoneSets(es) <= TotalSets(es)
  {
    if |es| > 0 {
      DoneAtMostTotal(es[1..]);
    }
  }

  /** `every(ex => ex.sets.every(set => set.completed))`; true of a session without exercises. */
  predicate AllCompleted(s: Session) {
    forall k, m :: 0 <= k < |s.exercises| && 0 <= m < |s.exercises[k].sets| ==> s.exercises[k].sets[m].completed
  }

  lemma {:induction false} AllDoneIffCountsMeet(es: seq<SessionExercise>)
    ensures DoneSets(es) == TotalSets(es) <==>
      forall k, m :: 0 <= k < |es| && 0 <= m < |es[k].sets| ==> es[k].sets[m].completed
  {
    if |es| > 0 {
      AllDoneIffCountsMeet(es[1..]);
      DoneAtMostTotal(es[1..]);
      FilterKeepsAllIff(es[0].sets, IsDone);
      if forall k, m :: 0 <= k < |es| && 0 <= m < |es[k].sets| ==> es[k].sets[m].completed {
        assert forall m :: 0 <= m < |es[0].sets| ==> IsDone(es[0].sets[m]);
        forall k, m | 0 <= k < |es[1..]| && 0 <= m < |es[1..][k].sets|
          ensures es[1..][k].sets[m].completed
        {
          assert es[1..][k] == es[k + 1];
        }
      } else {
        var k, m :| 0 <= k < |es| && 0 <= m < |es[k].sets| && !es[k].sets[m].completed;
        if k == 0 {
          assert !IsDone(es[0].sets[m]);
        } else {
          assert es[1..][k - 1] == es[k];
        }
      }
    }
  }

  /** Every set is done exactly when the two counts meet. */
  lemma AllCompletedIffProgressFull(s: Session)
    ensures AllCompleted(s) <==> GetProgress(s).completed == GetProgress(s).total
  {
    AllDoneIffCountsMeet(s.exercises);
  }

  /** The bar width: `completed / total * 100`, and 0 without any set, so no division by zero. */
  function ProgressPercent(p: Progress): (r: real)
    requires p.completed <= p.total
    ensures 0.0 <= r <= 100.0
    ensures p.total == 0 ==> r == 0.0
    ensures r == 100.0 <==> p.total > 0 && p.completed == p.total
  {
    if p.total > 0 then
      var c, t := p.completed as real, p.total as real;
      RatioBounds(c, t);
      c / t * 100.0
    else 0.0
  }

  /** A share of a positive whole lies in [0, 1] and is 1 only for the whole itself. */
  lemma RatioBounds(c: real, t: real)
    requires 0.0 <= c <= t && t > 0.0
    ensures 0.0 <= c / t <= 1.0
    ensures c / t == 1.0 <==> c == t
  {
    var q := c / t;
    assert q * t == c;
  }

  lemma {:induction false} DoneSetsUpdate(es: seq<SessionExercise>, i: nat, e: SessionExercise)
    requires i < |es|
    ensures DoneSets(es[i := e]) == DoneSets(es) - DoneIn(es[i]) + DoneIn(e)
    ensures |es[i].sets| == |e.sets| ==> TotalSets(es[i := e]) == TotalSets(es)
  {
    if i > 0 {
      assert es[i := e][1..] == es[1..][i - 1 := e];
      DoneSetsUpdate(es[1..], i - 1, e);
    } else {
      assert es[i := e][1..] == es[1..];
    }
  }

  /** Ticking a set that was open adds one completed set; unticking a done one removes one;
      the total never changes. */
  lemma SetCompleteProgress(s: Session, i: int, j: int, completed: bool)
    requires ValidSet(s, i, j)
    ensures var p, p' := GetProgress(s), GetProgress(SetComplete(s, i, j, completed));
      && p'.total == p.total
      && p'.completed == p.completed - (if s.exercises[i].sets[j].completed then 1 else 0) + (if completed then 1 else 0)
  {
    var e := s.exercises[i];
    var w := e.sets[j].(completed := completed);
    FilterCountUpdate(e.sets, j, w, IsDone);
    DoneSetsUpdate(s.exercises, i, e.(sets := e.sets[j := w]));
  }

  // ----- completion -----

  /** `handleCompleteTraining`: with an open set the user is asked first (`confirmed`); on
      going ahead the working session becomes completed with the typed notes. Absent when the
      user declines. */
  function CompleteTraining(s: Session, notes: string, confirmed: bool): (r: Option<Session>)
    ensures r.Some? <==> AllCompleted(s) || confirmed
    ensures r.Some? ==> r.value.status == Completed && r.value.notes == notes
    ensures r.Some? ==> r.value.id == s.id && r.value.date == s.date && r.value.exercises == s.exercises
  {
    if !AllCompleted(s) && !confirmed then None
    else Some(s.(status := Completed, notes := notes))
  }
}
