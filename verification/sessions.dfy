/** `useTrainingSessions`: the training sessions, kept under the storage key `training-sessions`
    with the whole-collection discipline of the Collection module, plus two in-memory queries. */
module Sessions {
  import opened Wrappers
  import opened Json
  import opened Seqs
  import Storage
  import Collection

  const Key: string := "training-sessions"

  function LoadSessions(store: Storage.Backend, fault: bool): Collection.Hook
    requires Collection.Loadable(store, Key)
  {
    Collection.Load(store, Key, fault)
  }

  /** `addSession`: `{...session, id, status: 'planned'}` appended and saved. Whatever status the
      caller passed, the stored record is planned. */
  function AddSession(h: Collection.Hook, store: Storage.Backend, data: Record, freshId: string, fault: bool): (s: Collection.Step<Record>)
    ensures s.result.Failure? <==> fault
    ensures fault ==> s.hook.items == h.items && s.store == store
    ensures fault ==> s.hook.error == Some(Storage.StorageError.SaveFailed.Message()) && s.result.error == Storage.StorageError.SaveFailed
    ensures !fault ==> s.hook.error == None
    ensures !fault ==> s.hook.items == h.items + [s.result.value]
    ensures !fault ==>
      var n := s.result.value;
      && Collection.HasId(n, freshId)
      && FieldIs(n, "status", "planned")
      && n.Keys == data.Keys + {"id", "status"}
      && (forall k :: k in data && k != "id" && k != "status" ==> n[k] == data[k])
  {
    Collection.Add(h, store, Key, data["status" := JStr("planned")], freshId, fault)
  }

  function UpdateSession(h: Collection.Hook, store: Storage.Backend, id: string, updates: Record, fault: bool): Collection.Step<()> {
    Collection.Update(h, store, Key, id, updates, fault)
  }

  function DeleteSession(h: Collection.Hook, store: Storage.Backend, id: string, fault: bool): Collection.Step<()> {
    Collection.Delete(h, store, Key, id, fault)
  }

  predicate OnDate(r: Record, date: string) {
    FieldIs(r, "date", date)
  }

  predicate IsInProgress(r: Record) {
    FieldIs(r, "status", "in-progress")
  }

  /** `getSessionsByDate`: exactly the sessions on that date, in collection order. */
  function SessionsByDate(items: seq<Record>, date: string): (r: seq<Record>)
    ensures IsSubsequence(r, items)
    ensures forall i :: 0 <= i < |r| ==> OnDate(r[i], date)
    ensures forall i :: 0 <= i < |items| && OnDate(items[i], date) ==> items[i] in r
    ensures forall x :: multiset(r)[x] == if OnDate(x, date) then multiset(items)[x] else 0
  {
    var onDate := (x: Record) => OnDate(x, date);
    FilterMultiset(items, onDate);
    Filter(items, onDate)
  }

  /** `getActiveSession`: the first in-progress session, or none when no session is in progress.
      Nothing makes the in-progress session unique; the first one wins. */
  function ActiveSession(items: seq<Record>): (r: Option<Record>)
    ensures r.None? <==> forall i :: 0 <= i < |items| ==> !IsInProgress(items[i])
    ensures r.Some? ==>
      exists k :: 0 <= k < |items| && items[k] == r.value && IsInProgress(items[k])
                  && forall j :: 0 <= j < k ==> !IsInProgress(items[j])
  {
    FindFirst(items, IsInProgress)
  }

  /** A newly added session is never the active one: it is planned. */
  lemma AddedSessionNotActive(h: Collection.Hook, store: Storage.Backend, data: Record, freshId: string)
    ensures var s := AddSession(h, store, data, freshId, false);
      ActiveSession(s.hook.items) == ActiveSession(h.items)
  {
    var s := AddSession(h, store, data, freshId, false);
    var n := s.result.value;
    assert !IsInProgress(n);
    FirstAppend(h.items, n);
  }

  lemma {:induction false} FirstAppend(items: seq<Record>, n: Record)
    requires !IsInProgress(n)
    ensures FirstIndex(items + [n], IsInProgress) == FirstIndex(items, IsInProgress)
  {
    if |items| > 0 {
      assert (items + [n])[1..] == items[1..] + [n];
      FirstAppend(items[1..], n);
    }
  }
}
