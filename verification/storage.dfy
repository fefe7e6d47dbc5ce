/** `StorageAPI`: asynchronous get/set/remove over the browser's local storage, every key
    namespaced by a fixed prefix, every failure re-thrown as one fixed error per operation. */
module Storage {
  import opened Wrappers
  import opened Json

  const Prefix: string := "training-tracker-"

  /** The local storage area, shared with unrelated data. Values are held already parsed:
      `JSON.stringify` on write followed by `JSON.parse` on read gives the value back. */
  type Backend = map<string, Json>

  /** The key under which a logical key is stored. */
  function StorageKey(key: string): (k: string)
    ensures |k| == |Prefix| + |key|
    ensures k[..|Prefix|] == Prefix && k[|Prefix|..] == key
  {
    Prefix + key
  }

  /** Prefixing is injective: two logical keys never share a storage slot. */
  lemma StorageKeyInjective(a: string, b: string)
    requires a != b
    ensures StorageKey(a) != StorageKey(b)
  {
    assert StorageKey(a)[|Prefix|..] == a;
  }

  /** The errors the store re-throws, one per operation, with the message it carries. */
  datatype StorageError = SaveFailed | LoadFailed | DeleteFailed {
    function Message(): string {
      match this
      case SaveFailed => "Fehler beim Speichern der Daten"
      case LoadFailed => "Fehler beim Laden der Daten"
      case DeleteFailed => "Fehler beim Löschen der Daten"
    }
  }

  /** The store after a write, and what the write resolved to. */
  datatype Written = Written(store: Backend, result: Result<bool, StorageError>)

  /** `set(key, value)`. `fault` stands for the underlying write throwing (quota exceeded,
      storage unavailable); the store is then untouched and the save error is thrown. */
  function Set(store: Backend, key: string, value: Json, fault: bool): (w: Written)
    ensures w.result.Failure? <==> fault
    ensures fault ==> w.store == store && w.result.error == SaveFailed
    ensures !fault ==> w.result == Success(true)
    ensures !fault ==> w.store.Keys == store.Keys + {StorageKey(key)}
    ensures forall k :: k in store && k != StorageKey(key) ==> k in w.store && w.store[k] == store[k]
  {
    if fault then Written(store, Failure(SaveFailed))
    else Written(store[StorageKey(key) := value], Success(true))
  }

  /** `get(key)`: the stored value, `null` for a key never written. `fault` stands for the
      underlying read or the parse throwing; the load error is thrown. */
  function Get(store: Backend, key: string, fault: bool): (r: Result<Json, StorageError>)
    ensures r.Failure? <==> fault
    ensures fault ==> r.error == LoadFailed
  {
    if fault then Failure(LoadFailed)
    else if StorageKey(key) in store then Success(store[StorageKey(key)])
    else Success(JNull)
  }

  /** `remove(key)`: the slot is deleted. `fault` stands for the underlying removal throwing;
      the store is then untouched and the delete error is thrown. */
  function Remove(store: Backend, key: string, fault: bool): (w: Written)
    ensures w.result.Failure? <==> fault
    ensures fault ==> w.store == store && w.result.error == DeleteFailed
    ensures !fault ==> w.result == Success(true)
    ensures !fault ==> w.store.Keys == store.Keys - {StorageKey(key)}
    ensures forall k :: k in w.store ==> k in store && w.store[k] == store[k]
  {
    if fault then Written(store, Failure(DeleteFailed))
    else Written(store - {StorageKey(key)}, Success(true))
  }

  /** A key nobody has written reads as `null`. */
  lemma GetUnwritten(store: Backend, key: string)
    requires StorageKey(key) !in store
    ensures Get(store, key, false) == Success(JNull)
  {
  }

  /** `set(k, v)` then `get(k)` gives `v`. */
  lemma SetThenGet(store: Backend, key: string, value: Json)
    ensures Get(Set(store, key, value, false).store, key, false) == Success(value)
  {
  }

  /** `remove(k)` then `get(k)` gives `null`. */
  lemma RemoveThenGet(store: Backend, key: string)
    ensures Get(Remove(store, key, false).store, key, false) == Success(JNull)
  {
  }

  /** Writing or removing one logical key leaves every other logical key reading as before. */
  lemma OtherKeysUnchanged(store: Backend, key: string, other: string, value: Json, fault: bool)
    requires other != key
    ensures Get(Set(store, key, value, fault).store, other, false) == Get(store, other, false)
    ensures Get(Remove(store, key, fault).store, other, false) == Get(store, other, false)
  {
    StorageKeyInjective(key, other);
  }

  /** The same, for every other key at once. */
  lemma SetKeepsOtherKeys(store: Backend, key: string, value: Json, fault: bool)
    ensures forall other :: other != key ==>
      Get(Set(store, key, value, fault).store, other, false) == Get(store, other, false)
  {
    forall other | other != key
      ensures Get(Set(store, key, value, fault).store, other, false) == Get(store, other, false)
    {
      OtherKeysUnchanged(store, key, other, value, fault);
    }
  }
}
