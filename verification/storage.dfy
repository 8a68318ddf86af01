/** Persistence of the lists (src/storage/storage-service.ts). The lists live
    in the editor's global state under one key, as an array of list records in
    the map's insertion order; loading rebuilds the map by setting each record
    under its own id, so a later record with the same id replaces an earlier
    one. The global state is a key/value store whose writes may be refused;
    a refused write is caught and leaves the store as it was. */
module Storage {
  import opened Wrappers
  import opened Types
  import opened JsMap

  /** `StorageService.LISTS_KEY`. */
  const ListsKey := "copytool.lists"

  /** The lists in memory: id to list, in insertion order. */
  type ListMap = OrderedMap<List>

  /** The editor's `globalState`: the stored arrays by key, and whether the
      host currently refuses writes. */
  class GlobalState {
    var data: map<string, seq<List>>
    var refusesWrites: bool

    constructor (data: map<string, seq<List>>, refusesWrites: bool)
      ensures this.data == data && this.refusesWrites == refusesWrites
    {
      this.data := data;
      this.refusesWrites := refusesWrites;
    }

    /** `get(key, default)`: the stored array, or `default` when the key is unset. */
    function Get(key: string, default: seq<List>): (r: seq<List>)
      reads this
      ensures key in data ==> r == data[key]
      ensures key !in data ==> r == default
    {
      if key in data then data[key] else default
    }

    /** `update(key, value)`: stores `value` unless the host refuses; `ok`
        tells which happened. */
    method Update(key: string, value: seq<List>) returns (ok: bool)
      modifies this
      ensures ok == !old(refusesWrites) && refusesWrites == old(refusesWrites)
      ensures data == if ok then old(data)[key := value] else old(data)
    {
      ok := !refusesWrites;
      if ok {
        data := data[key := value];
      }
    }
  }

  /** The map `loadLists` builds from a stored array: each record set under
      its id, in array order. */
  function LoadFrom(arr: seq<List>): (m: ListMap)
    ensures m.Valid()
    ensures forall k :: k in m.items ==> m.items[k].id == k
  {
    if arr == [] then Empty()
    else Set(LoadFrom(arr[..|arr| - 1]), arr[|arr| - 1].id, arr[|arr| - 1])
  }

  /** The map's keys are exactly the ids in the array. */
  lemma {:induction false} LoadKeys(arr: seq<List>)
    ensures forall k :: k in LoadFrom(arr).items <==> k in Ids(arr)
  {
    if arr != [] {
      LoadKeys(arr[..|arr| - 1]);
      IdsSnoc(arr);
    }
  }

  /** Of several records with the same id, the last one in the array is the
      one the map holds. */
  lemma {:induction false} LastRecordWins(arr: seq<List>, j: nat)
    requires j < |arr|
    requires forall i :: j < i < |arr| ==> arr[i].id != arr[j].id
    ensures Get(LoadFrom(arr), arr[j].id) == Some(arr[j])
  {
    if j < |arr| - 1 {
      var front := arr[..|arr| - 1];
      assert front[j] == arr[j];
      forall i | j < i < |front| ensures front[i].id != front[j].id {
        assert front[i] == arr[i];
      }
      LastRecordWins(front, j);
    }
  }

  /** The ids in the map's key order, as a sequence of records. */
  function Ids(arr: seq<List>): (r: seq<string>)
    ensures |r| == |arr| && forall i :: 0 <= i < |arr| ==> r[i] == arr[i].id
  {
    seq(|arr|, i requires 0 <= i < |arr| => arr[i].id)
  }

  /** Records with distinct ids load in array order: the key order is the
      order of the ids, and each id holds its record. */
  lemma {:induction false} LoadDistinct(arr: seq<List>)
    requires Distinct(Ids(arr))
    ensures LoadFrom(arr).keys == Ids(arr)
    ensures forall i :: 0 <= i < |arr| ==> LoadFrom(arr).items[arr[i].id] == arr[i]
  {
    if arr != [] {
      var n := |arr| - 1;
      var front := arr[..n];
      var last := arr[n];
      IdsSnoc(arr);
      DistinctFront(Ids(front), last.id);
      LoadDistinct(front);
      var prev := LoadFrom(front);
      assert last.id !in prev.keys;
      assert LoadFrom(arr) == Set(prev, last.id, last);
      forall i | 0 <= i < |arr| ensures LoadFrom(arr).items[arr[i].id] == arr[i] {
        if i < n {
          assert front[i] == arr[i];
          assert Ids(front)[i] == arr[i].id;
        }
      }
    }
  }

  lemma IdsSnoc(arr: seq<List>)
    requires arr != []
    ensures Ids(arr) == Ids(arr[..|arr| - 1]) + [arr[|arr| - 1].id]
  {
  }

  lemma DistinctFront(keys: seq<string>, k: string)
    requires Distinct(keys + [k])
    ensures Distinct(keys) && k !in keys
  {
    var all := keys + [k];
    forall i, j | 0 <= i < j < |keys| ensures keys[i] != keys[j] {
      assert all[i] == keys[i] && all[j] == keys[j];
    }
    forall i | 0 <= i < |keys| ensures keys[i] != k {
      assert all[i] == keys[i] && all[|keys|] == k;
    }
  }

  /** Saving a map whose every list sits under its own id and loading it back
      gives the same map: the same lists, in the same order. */
  lemma SaveLoadRoundTrip(m: ListMap)
    requires m.Valid()
    requires forall k :: k in m.items ==> m.items[k].id == k
    ensures LoadFrom(Values(m)) == m
  {
    var arr := Values(m);
    assert Ids(arr) == m.keys;
    LoadDistinct(arr);
    var r := LoadFrom(arr);
    assert r.items.Keys == m.items.Keys by {
      forall k | k in m.items ensures k in r.items {
        var i :| 0 <= i < |m.keys| && m.keys[i] == k;
        assert arr[i].id == k;
      }
    }
    forall k | k in m.items ensures r.items[k] == m.items[k] {
      var i :| 0 <= i < |m.keys| && m.keys[i] == k;
      assert arr[i].id == k;
    }
  }

  /** `StorageService`: save, load and clear against the global state. */
  class StorageService {
    const state: GlobalState

    constructor (state: GlobalState)
      ensures this.state == state
    {
      this.state := state;
    }

    /** `saveLists`: the lists' values in insertion order are written under
        the key; a refused write is caught and changes nothing. */
    method SaveLists(lists: ListMap)
      requires lists.Valid()
      modifies state
      ensures state.refusesWrites == old(state.refusesWrites)
      ensures state.data == if old(state.refusesWrites) then old(state.data)
                            else old(state.data)[ListsKey := Values(lists)]
    {
      var arr := Values(lists);
      var ok := state.Update(ListsKey, arr);
    }

    /** `loadLists`: the stored array (empty when the key is unset) is walked
        in order and each record set under its id. */
    method LoadLists() returns (m: ListMap)
      ensures m == LoadFrom(state.Get(ListsKey, []))
    {
      var arr := state.Get(ListsKey, []);
      m := Empty();
      for i := 0 to |arr|
        invariant m == LoadFrom(arr[..i])
      {
        assert arr[..i + 1][..i] == arr[..i];
        m := Set(m, arr[i].id, arr[i]);
      }
      assert arr[..|arr|] == arr;
    }

    /** `clearLists`: an empty array is written under the key (when the host
        accepts the write). */
    method ClearLists()
      modifies state
      ensures state.refusesWrites == old(state.refusesWrites)
      ensures state.data == if old(state.refusesWrites) then old(state.data)
                            else old(state.data)[ListsKey := []]
      ensures !old(state.refusesWrites) ==> LoadFrom(state.Get(ListsKey, [])) == Empty()
    {
      var ok := state.Update(ListsKey, []);
    }
  }
}
