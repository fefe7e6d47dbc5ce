/** `useExercises`: the exercise backlog, kept under the storage key `exercises` with the
    whole-collection discipline of the Collection module. */
module Exercises {
  import opened Json
  import Storage
  import Collection

  const Key: string := "exercises"

  function LoadExercises(store: Storage.Backend, fault: bool): Collection.Hook
    requires Collection.Loadable(store, Key)
  {
    Collection.Load(store, Key, fault)
  }

  function AddExercise(h: Collection.Hook, store: Storage.Backend, data: Record, freshId: string, fault: bool): Collection.Step<Record> {
    Collection.Add(h, store, Key, data, freshId, fault)
  }

  function UpdateExercise(h: Collection.Hook, store: Storage.Backend, id: string, updates: Record, fault: bool): Collection.Step<()> {
    Collection.Update(h, store, Key, id, updates, fault)
  }

  function DeleteExercise(h: Collection.Hook, store: Storage.Backend, id: string, fault: bool): Collection.Step<()> {
    Collection.Delete(h, store, Key, id, fault)
  }
}
