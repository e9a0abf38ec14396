/**
 * The popup's data hook (`useSalesforceData`): the state it starts from, the
 * storage events that replace that state wholesale, and `deleteRecord`,
 * which filters one kind's list by id and writes the new state back. The
 * hook's two `useState` cells become the fields of a class; what it writes to
 * `chrome.storage.local` is kept in a field as well.
 */
module SalesforceData {
  import opened Wrappers
  import opened JsValues
  import opened Seqs

  /** A property of the stored object: a kind's record list, or a scalar
   *  such as `lastSync`. */
  datatype Entry = Records(items: seq<Record>) | Scalar(v: Value)

  type State = map<string, Entry>

  /** The key the whole state is stored under. */
  const StorageKey: string := "salesforce_data"

  function RecordKinds(): seq<string> {
    ["leads", "contacts", "accounts", "opportunities", "tasks"]
  }

  /** The state before anything was read from storage. */
  function InitialState(): (r: State)
    ensures forall k :: k in r ==> (r[k].Records? <==> k in RecordKinds())
    ensures forall k :: k in r && r[k].Records? ==> r[k].items == []
  {
    map["leads" := Records([]), "contacts" := Records([]), "accounts" := Records([]),
        "opportunities" := Records([]), "tasks" := Records([]), "lastSync" := Scalar(Num(0))]
  }

  /** Five empty record lists and `lastSync` 0, nothing else. */
  lemma InitialStateShape()
    ensures forall k :: k in InitialState() <==> k in RecordKinds() || k == "lastSync"
    ensures forall k :: k in RecordKinds() ==> InitialState()[k] == Records([])
    ensures InitialState()["lastSync"] == Scalar(Num(0))
  {
  }

  /** The filter callback `record => record.id !== id`; `None` is `undefined`. */
  function KeepsRecord(id: Option<Value>): Record -> bool {
    record => Get(record, "id") != id
  }

  /** `{...data}` with `data[type]` filtered; `None` when `data[type]` is not
   *  an array, where the call to `filter` throws. */
  function DeleteFromState(data: State, kind: string, id: Option<Value>): (r: Option<State>)
    ensures r.None? <==> kind !in data || !data[kind].Records?
    ensures r.Some? ==> r.value.Keys == data.Keys
    ensures r.Some? ==> forall k :: k in data && k != kind ==> r.value[k] == data[k]
    ensures r.Some? ==> r.value[kind] == Records(FilterSeq(data[kind].items, KeepsRecord(id)))
  {
    if kind in data && data[kind].Records? then
      Some(data[kind := Records(FilterSeq(data[kind].items, KeepsRecord(id)))])
    else None
  }

  /** The kind's list afterwards holds exactly the records whose id differs,
   *  in their order and as often as before. */
  lemma DeleteKeepsExactlyTheOthers(data: State, kind: string, id: Option<Value>)
    requires kind in data && data[kind].Records?
    ensures var after := DeleteFromState(data, kind, id).value[kind].items;
      && (forall rec :: rec in after <==> rec in data[kind].items && Get(rec, "id") != id)
      && IsSubsequence(after, data[kind].items)
      && (forall rec :: Get(rec, "id") != id ==> multiset(after)[rec] == multiset(data[kind].items)[rec])
  {
    FilterSeqOrder(data[kind].items, KeepsRecord(id));
  }

  /** Deleting twice is deleting once. */
  lemma DeleteIdempotent(data: State, kind: string, id: Option<Value>)
    requires kind in data && data[kind].Records?
    ensures var once := DeleteFromState(data, kind, id).value;
      DeleteFromState(once, kind, id) == Some(once)
  {
    var once := DeleteFromState(data, kind, id).value;
    var kept := once[kind].items;
    assert forall rec :: rec in kept ==> KeepsRecord(id)(rec);
    FilterSeqAll(kept, KeepsRecord(id));
    assert once[kind := Records(kept)] == once;
  }

  /** Deleting an id no record has changes nothing. */
  lemma DeleteAbsentId(data: State, kind: string, id: Option<Value>)
    requires kind in data && data[kind].Records?
    requires forall rec :: rec in data[kind].items ==> Get(rec, "id") != id
    ensures DeleteFromState(data, kind, id) == Some(data)
  {
    assert forall rec :: rec in data[kind].items ==> KeepsRecord(id)(rec);
    FilterSeqAll(data[kind].items, KeepsRecord(id));
    assert data[kind := Records(data[kind].items)] == data;
  }

  /** Deleting with an undefined id removes every record without an id, and
   *  only those. */
  lemma DeleteUndefinedIdRemovesIdless(data: State, kind: string)
    requires kind in data && data[kind].Records?
    ensures var after := DeleteFromState(data, kind, None).value[kind].items;
      forall rec :: rec in after <==> rec in data[kind].items && "id" in rec
  {
  }

  /** `{...data}` of a state that may be `undefined` (`None`). */
  function Spread(data: Option<State>): State {
    if data.Some? then data.value else map[]
  }

  /** The hook's state: `data` (`None` once a storage change removed the key,
   *  where the listener stores `undefined`), `loading`, and the last state
   *  this hook wrote to storage. */
  class DataHook {
    var data: Option<State>
    var loading: bool
    var written: Option<State>

    constructor()
      ensures data == Some(InitialState()) && loading && written.None?
    {
      data := Some(InitialState());
      loading := true;
      written := None;
    }

    /** The callback of the initial `chrome.storage.local.get`, given the
     *  items read: a stored state replaces the current one; loading ends
     *  either way. */
    method OnInitialFetch(result: map<string, State>)
      modifies this
      ensures data == (if StorageKey in result then Some(result[StorageKey]) else old(data))
      ensures !loading && written == old(written)
    {
      if StorageKey in result {
        data := Some(result[StorageKey]);
      }
      loading := false;
    }

    /** The `chrome.storage.onChanged` listener, given the changed keys with
     *  their new values (`None` for a removed key): a change of the storage
     *  key in the local area replaces the whole state. */
    method OnStorageChanged(changes: map<string, Option<State>>, area: string)
      modifies this
      ensures data == (if area == "local" && StorageKey in changes then changes[StorageKey] else old(data))
      ensures loading == old(loading) && written == old(written)
    {
      if area == "local" && StorageKey in changes {
        data := changes[StorageKey];
      }
    }

    /** `deleteRecord(type, id)`: `ok` is false when the call throws, which
     *  leaves everything as it was. */
    method DeleteRecord(kind: string, id: Option<Value>) returns (ok: bool)
      modifies this
      ensures ok <==> DeleteFromState(Spread(old(data)), kind, id).Some?
      ensures ok ==> data == DeleteFromState(Spread(old(data)), kind, id) && written == data
      ensures !ok ==> data == old(data) && written == old(written)
      ensures loading == old(loading)
    {
      var newData := Spread(data);
      if !(kind in newData && newData[kind].Records?) {
        return false;
      }
      newData := newData[kind := Records(FilterSeq(newData[kind].items, KeepsRecord(id)))];
      data := Some(newData);
      written := Some(newData);
      return true;
    }
  }
}
