/** The persistence discipline both data hooks share: the whole collection lives under one
    storage key as a JSON array of records; every change computes the new collection in memory,
    writes all of it, and only after a successful write replaces the hook's state. */
module Collection {
  import opened Wrappers
  import opened Json
  import opened Seqs
  import Storage

  /** What a hook exposes: the collection, the loading flag and the last error message. */
  datatype Hook = Hook(items: seq<Record>, loading: bool, error: Option<string>)

  /** The state before the initial load has finished. */
  const Initial: Hook := Hook([], true, None)

  /** A hook operation's outcome: the hook and the store afterwards, and what the call returned
      or threw. */
  datatype Step<T> = Step(hook: Hook, store: Storage.Backend, result: Result<T, Storage.StorageError>)

  /** `r.id === id`. */
  predicate HasId(r: Record, id: string) {
    FieldIs(r, "id", id)
  }

  function ToJson(items: seq<Record>): Json {
    JArr(MapSeq(items, (r: Record) => JObj(r)))
  }

  function AsRecord(j: Json): Option<Record> {
    if j.JObj? then Some(j.fields) else None
  }

  /** The collection read back: `data || []`, then the array's objects. Absent when a truthy
      stored value is not an array of objects. */
  function FromJson(data: Json): Option<seq<Record>> {
    if !Truthy(data) then Some([])
    else if data.JArr? then Traverse(data.items, AsRecord)
    else None
  }

  lemma FromJsonToJson(items: seq<Record>)
    ensures FromJson(ToJson(items)) == Some(items)
  {
    TraverseInvertsMap(items, (r: Record) => JObj(r), AsRecord);
  }

  /** The value under `key` is one the hook can adopt: nothing, a falsy value, or an array of
      records. Everything the hooks themselves write has this shape. */
  predicate Loadable(store: Storage.Backend, key: string) {
    var k := Storage.StorageKey(key);
    k !in store || FromJson(store[k]).Some?
  }

  /** The initial load: `storage.get(key)`, then `data || []` on success, or the error message
      on failure with the collection left empty; `loading` ends false either way. */
  function Load(store: Storage.Backend, key: string, fault: bool): (h: Hook)
    requires Loadable(store, key)
    ensures !h.loading
    ensures h.error.Some? <==> fault
    ensures fault ==> h.items == [] && h.error == Some(Storage.StorageError.LoadFailed.Message())
    ensures !fault && Storage.StorageKey(key) !in store ==> h.items == []
  {
    match Storage.Get(store, key, fault)
    case Failure(e) => Hook(Initial.items, false, Some(e.Message()))
    case Success(data) => Hook(FromJson(data).value, false, None)
  }

  /** `saveExercises` / `saveSessions`: write the whole new collection; adopt it only when the
      write succeeded, otherwise record the message and re-throw. */
  function Save(h: Hook, store: Storage.Backend, key: string, newItems: seq<Record>, fault: bool): (s: Step<()>)
    ensures s.result.Failure? <==> fault
    ensures s.hook.loading == h.loading
    ensures fault ==> s.hook.items == h.items && s.store == store
    ensures fault ==> s.result.error == Storage.StorageError.SaveFailed && s.hook.error == Some(Storage.StorageError.SaveFailed.Message())
    ensures !fault ==> s.hook.items == newItems && s.hook.error == None
    ensures !fault ==> Loadable(s.store, key) && Load(s.store, key, false).items == newItems
    ensures forall other :: other != key ==> Storage.Get(s.store, other, false) == Storage.Get(store, other, false)
  {
    var w := Storage.Set(store, key, ToJson(newItems), fault);
    Storage.SetKeepsOtherKeys(store, key, ToJson(newItems), fault);
    FromJsonToJson(newItems);
    match w.result
    case Failure(e) => Step(h.(error := Some(e.Message())), w.store, Failure(e))
    case Success(_) => Step(h.(items := newItems, error := None), w.store, Success(()))
  }

  /** `{...data, id}`: the caller's record with its `id` replaced by the generated one. */
  function WithId(data: Record, id: string): (r: Record)
    ensures HasId(r, id)
    ensures r.Keys == data.Keys + {"id"}
    ensures forall k :: k in data && k != "id" ==> r[k] == data[k]
  {
    data["id" := JStr(id)]
  }

  /** `add`: append the caller's record under a freshly generated id, save, return the record. */
  function Add(h: Hook, store: Storage.Backend, key: string, data: Record, freshId: string, fault: bool): (s: Step<Record>)
    ensures s.result.Failure? <==> fault
    ensures fault ==> s.hook.items == h.items && s.store == store
    ensures fault ==> s.hook.error == Some(Storage.StorageError.SaveFailed.Message()) && s.result.error == Storage.StorageError.SaveFailed
    ensures !fault ==> s.hook.error == None
    ensures !fault ==> |s.hook.items| == |h.items| + 1 && s.hook.items[..|h.items|] == h.items
    ensures !fault ==> s.hook.items[|h.items|] == s.result.value == WithId(data, freshId)
    ensures forall other :: other != key ==> Storage.Get(s.store, other, false) == Storage.Get(store, other, false)
  {
    var rec := WithId(data, freshId);
    var saved := Save(h, store, key, h.items + [rec], fault);
    Step(saved.hook, saved.store, if fault then Failure(saved.result.error) else Success(rec))
  }

  /** `{...r, ...updates}` applied to the records whose id matches, every other record as is. */
  function MergeById(items: seq<Record>, id: string, updates: Record): (r: seq<Record>)
    ensures |r| == |items|
    ensures forall i :: 0 <= i < |items| && !HasId(items[i], id) ==> r[i] == items[i]
    ensures forall i :: 0 <= i < |items| && HasId(items[i], id) ==>
      r[i].Keys == items[i].Keys + updates.Keys
      && (forall k :: k in updates ==> r[i][k] == updates[k])
      && (forall k :: k in items[i] && k !in updates ==> r[i][k] == items[i][k])
  {
    MapSeq(items, (x: Record) => if HasId(x, id) then x + updates else x)
  }

  /** An id no record carries leaves the collection as it is. */
  lemma MergeAbsentId(items: seq<Record>, id: string, updates: Record)
    requires forall i :: 0 <= i < |items| ==> !HasId(items[i], id)
    ensures MergeById(items, id, updates) == items
  {
  }

  /** `update(id, updates)`: merge, then save. */
  function Update(h: Hook, store: Storage.Backend, key: string, id: string, updates: Record, fault: bool): (s: Step<()>)
    ensures s.result.Failure? <==> fault
    ensures fault ==> s.hook.items == h.items && s.store == store
    ensures fault ==> s.hook.error == Some(Storage.StorageError.SaveFailed.Message()) && s.result.error == Storage.StorageError.SaveFailed
    ensures !fault ==> s.hook.error == None
    ensures !fault ==> s.hook.items == MergeById(h.items, id, updates)
    ensures forall other :: other != key ==> Storage.Get(s.store, other, false) == Storage.Get(store, other, false)
  {
    Save(h, store, key, MergeById(h.items, id, updates), fault)
  }

  /** `items.filter(r => r.id !== id)`. */
  function RemoveById(items: seq<Record>, id: string): (r: seq<Record>)
    ensures IsSubsequence(r, items)
    ensures forall i :: 0 <= i < |r| ==> !HasId(r[i], id) && r[i] in items
    ensures forall i :: 0 <= i < |items| && !HasId(items[i], id) ==> items[i] in r
    ensures forall x :: multiset(r)[x] == if HasId(x, id) then 0 else multiset(items)[x]
  {
    var keep := (x: Record) => !HasId(x, id);
    FilterMultiset(items, keep);
    Filter(items, keep)
  }

  /** Deleting an id no record carries leaves the collection as it is. */
  lemma RemoveAbsentId(items: seq<Record>, id: string)
    requires forall i :: 0 <= i < |items| ==> !HasId(items[i], id)
    ensures RemoveById(items, id) == items
  {
    FilterKeepsAll(items, (x: Record) => !HasId(x, id));
  }

  /** `delete(id)`: filter, then save. */
  function Delete(h: Hook, store: Storage.Backend, key: string, id: string, fault: bool): (s: Step<()>)
    ensures s.result.Failure? <==> fault
    ensures fault ==> s.hook.items == h.items && s.store == store
    ensures fault ==> s.hook.error == Some(Storage.StorageError.SaveFailed.Message()) && s.result.error == Storage.StorageError.SaveFailed
    ensures !fault ==> s.hook.error == None
    ensures !fault ==> s.hook.items == RemoveById(h.items, id)
    ensures forall other :: other != key ==> Storage.Get(s.store, other, false) == Storage.Get(store, other, false)
  {
    Save(h, store, key, RemoveById(h.items, id), fault)
  }

  /** Adding and then loading the collection afresh (a new hook instance) gives the records
      held before plus the new one. */
  lemma AddThenLoad(h: Hook, store: Storage.Backend, key: string, data: Record, freshId: string)
    ensures var s := Add(h, store, key, data, freshId, false);
      Loadable(s.store, key) && Load(s.store, key, false).items == h.items + [WithId(data, freshId)]
  {
  }
}
