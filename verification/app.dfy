/** The application shell's wiring between the views and the session store: starting a planned
    session, committing the active-training view's working session, and handing a saved plan to
    `addSession`. */
module App {
  import opened Wrappers
  import opened Json
  import opened Domain
  import Storage
  import Collection
  import Exercises
  import Sessions
  import TrainingPlan
  import ActiveTraining

  /** The update `handleStartSession` sends. */
  const StartUpdate: Record := map["status" := JStr("in-progress")]

  /** `handleStartSession`: mark the session in progress; other sessions and every other field
      stay as they were. */
  function StartSession(h: Collection.Hook, store: Storage.Backend, id: string, fault: bool): (s: Collection.Step<()>)
    ensures s.result.Failure? <==> fault
    ensures fault ==> s.hook.items == h.items && s.store == store
    ensures fault ==> s.hook.error == Some(Storage.StorageError.SaveFailed.Message()) && s.result.error == Storage.StorageError.SaveFailed
    ensures !fault ==> s.hook.error == None
    ensures !fault ==> |s.hook.items| == |h.items|
    ensures !fault ==> forall i :: 0 <= i < |h.items| && !Collection.HasId(h.items[i], id) ==> s.hook.items[i] == h.items[i]
    ensures !fault ==> forall i :: 0 <= i < |h.items| && Collection.HasId(h.items[i], id) ==>
      && Sessions.IsInProgress(s.hook.items[i])
      && s.hook.items[i].Keys == h.items[i].Keys + {"status"}
      && (forall k :: k in h.items[i] && k != "status" ==> s.hook.items[i][k] == h.items[i][k])
  {
    Sessions.UpdateSession(h, store, id, StartUpdate, fault)
  }

  /** A started session reads back as the same session, now in progress. */
  lemma StartedSessionDecodes(h: Collection.Hook, store: Storage.Backend, id: string, i: int, x: Session)
    requires 0 <= i < |h.items| && Collection.HasId(h.items[i], id)
    requires DecodeSession(h.items[i]) == Some(x)
    ensures DecodeSession(StartSession(h, store, id, false).hook.items[i]) == Some(x.(status := InProgress))
  {
    var r := StartSession(h, store, id, false).hook.items[i];
    var r' := h.items[i]["status" := JStr(InProgress.Name())];
    assert r["status"] == r'["status"];
    DecodeSessionReadsOnlyItsFields(r, r');
    StatusChangeDecodes(h.items[i], x, InProgress);
  }

  /** Once a stored session has been started, the shell has an active session to show. */
  lemma StartMakesActive(h: Collection.Hook, store: Storage.Backend, id: string, i: int)
    requires 0 <= i < |h.items| && Collection.HasId(h.items[i], id)
    ensures Sessions.ActiveSession(StartSession(h, store, id, false).hook.items).Some?
  {
    var items := StartSession(h, store, id, false).hook.items;
    assert Sessions.IsInProgress(items[i]);
  }

  /** The active-training view shows the first in-progress session. Starting the first record
      with an id, when no record before it is in progress, makes that record the one shown. */
  lemma StartedIsShown(h: Collection.Hook, store: Storage.Backend, id: string, i: int)
    requires 0 <= i < |h.items| && Collection.HasId(h.items[i], id)
    requires forall j :: 0 <= j < i ==> !Sessions.IsInProgress(h.items[j]) && !Collection.HasId(h.items[j], id)
    ensures var items := StartSession(h, store, id, false).hook.items;
      Sessions.ActiveSession(items) == Some(items[i])
  {
    var items := StartSession(h, store, id, false).hook.items;
    assert Sessions.IsInProgress(items[i]);
    var k :| 0 <= k < |items| && items[k] == Sessions.ActiveSession(items).value && Sessions.IsInProgress(items[k])
             && forall j :: 0 <= j < k ==> !Sessions.IsInProgress(items[j]);
  }

  /** The active-training view's `onUpdateSession(session.id, updated)`: the whole working
      session merged into its stored record. */
  function CommitSession(h: Collection.Hook, store: Storage.Backend, s: Session, fault: bool): (r: Collection.Step<()>)
    ensures r.result.Failure? <==> fault
    ensures fault ==> r.hook.items == h.items && r.store == store
    ensures fault ==> r.hook.error == Some(Storage.StorageError.SaveFailed.Message()) && r.result.error == Storage.StorageError.SaveFailed
    ensures !fault ==> r.hook.error == None
    ensures !fault ==> |r.hook.items| == |h.items|
    ensures !fault ==> forall i :: 0 <= i < |h.items| && !Collection.HasId(h.items[i], s.id) ==> r.hook.items[i] == h.items[i]
    ensures !fault ==> forall i :: 0 <= i < |h.items| && Collection.HasId(h.items[i], s.id) ==>
      DecodeSession(r.hook.items[i]) == Some(s)
  {
    var step := Sessions.UpdateSession(h, store, s.id, EncodeSession(s), fault);
    forall i | 0 <= i < |h.items|
      ensures DecodeSession(h.items[i] + EncodeSession(s)) == Some(s)
    {
      MergedSessionDecodes(h.items[i], s);
    }
    step
  }

  /** A record that reads as a session stores that session's status name. */
  lemma DecodedStatusStored(r: Record, y: Session)
    requires DecodeSession(r) == Some(y)
    ensures "status" in r && r["status"] == JStr(y.status.Name())
  {
    var name := StrField(r, "status").value;
    assert StatusNamed(name) == Some(y.status);
  }

  /** Completing and committing an in-progress session leaves its stored record reading as the
      completed session with the typed notes, which is neither offered for starting nor active. */
  lemma CompleteThenCommit(h: Collection.Hook, store: Storage.Backend, i: int, y: Session, notes: string, confirmed: bool)
    requires 0 <= i < |h.items| && Collection.HasId(h.items[i], y.id)
    ensures var done := ActiveTraining.CompleteTraining(y, notes, confirmed);
      done.Some? ==>
        var finished := CommitSession(h, store, done.value, false).hook.items;
        && DecodeSession(finished[i]) == Some(y.(status := Completed, notes := notes))
        && !TrainingPlan.StartOffered(done.value)
        && !Sessions.IsInProgress(finished[i])
  {
    var done := ActiveTraining.CompleteTraining(y, notes, confirmed);
    if done.Some? {
      var finished := CommitSession(h, store, done.value, false).hook.items;
      assert DecodeSession(finished[i]) == Some(done.value);
      DecodedStatusStored(finished[i], done.value);
    }
  }

  /** The session lifecycle the views drive. A session offered the Start button (planned) is
      started and then no longer offered. If the active-training view completes it and commits
      it, the stored record reads as the completed session with the typed notes, which is
      neither offered for starting nor active. */
  lemma PlannedToCompleted(h: Collection.Hook, store: Storage.Backend, id: string, i: int, x: Session, notes: string, confirmed: bool)
    requires 0 <= i < |h.items| && Collection.HasId(h.items[i], id)
    requires DecodeSession(h.items[i]) == Some(x) && TrainingPlan.StartOffered(x)
    ensures var started := StartSession(h, store, id, false).hook.items;
      && DecodeSession(started[i]) == Some(x.(status := InProgress))
      && !TrainingPlan.StartOffered(x.(status := InProgress))
    ensures var started := StartSession(h, store, id, false);
      var done := ActiveTraining.CompleteTraining(x.(status := InProgress), notes, confirmed);
      done.Some? ==>
        var finished := CommitSession(started.hook, started.store, done.value, false).hook.items;
        && DecodeSession(finished[i]) == Some(x.(status := Completed, notes := notes))
        && !TrainingPlan.StartOffered(done.value)
        && !Sessions.IsInProgress(finished[i])
  {
    StartedSessionDecodes(h, store, id, i, x);
    var started := StartSession(h, store, id, false);
    assert x.id == id;
    assert Collection.HasId(started.hook.items[i], id);
    CompleteThenCommit(started.hook, started.store, i, x.(status := InProgress), notes, confirmed);
  }

  /** A saved plan handed to `addSession` is stored as a record that reads back as the planned
      session: the generated id, the chosen date and exercises, status planned, empty notes. */
  lemma PlanThenAdd(h: Collection.Hook, store: Storage.Backend, date: Option<string>, sel: seq<SessionExercise>, freshId: string)
    requires TrainingPlan.SaveSession(date, sel).Success?
    ensures var s := Sessions.AddSession(h, store, TrainingPlan.SaveSession(date, sel).value, freshId, false);
      && |s.hook.items| == |h.items| + 1
      && DecodeSession(s.hook.items[|h.items|]) == Some(Session(freshId, date.value, sel, Planned, ""))
  {
    var rec := TrainingPlan.SaveSession(date, sel).value;
    assert rec["status" := JStr("planned")] == rec;
  }

  /** Changes to the exercise backlog never touch the stored sessions, and the other way round:
      the two collections live under different storage keys. */
  lemma CollectionsIndependent(eh: Collection.Hook, sh: Collection.Hook, store: Storage.Backend, data: Record, id: string, fault: bool)
    ensures Storage.Get(Exercises.AddExercise(eh, store, data, id, fault).store, Sessions.Key, false) == Storage.Get(store, Sessions.Key, false)
    ensures Storage.Get(Exercises.UpdateExercise(eh, store, id, data, fault).store, Sessions.Key, false) == Storage.Get(store, Sessions.Key, false)
    ensures Storage.Get(Exercises.DeleteExercise(eh, store, id, fault).store, Sessions.Key, false) == Storage.Get(store, Sessions.Key, false)
    ensures Storage.Get(Sessions.AddSession(sh, store, data, id, fault).store, Exercises.Key, false) == Storage.Get(store, Exercises.Key, false)
    ensures Storage.Get(Sessions.UpdateSession(sh, store, id, data, fault).store, Exercises.Key, false) == Storage.Get(store, Exercises.Key, false)
    ensures Storage.Get(Sessions.DeleteSession(sh, store, id, fault).store, Exercises.Key, false) == Storage.Get(store, Exercises.Key, false)
  {
    assert Exercises.Key != Sessions.Key;
  }
}
