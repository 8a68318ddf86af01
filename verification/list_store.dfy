/** The persisted list service (src/core/services/list-service.ts). It keeps
    the lists in an insertion-ordered map from id to list, loaded from
    storage when the service is built, and after every successful change
    writes the whole map back through the storage service. A list's id is the
    decimal text of the clock reading at creation; creating two lists in the
    same millisecond gives them the same id, and the second replaces the
    first. Copying a list hands its formatted entries to the clipboard
    service. */
module ListStore {
  import opened Wrappers
  import opened Types
  import opened JsMap
  import opened Strings
  import opened Formatter
  import opened Sink
  import opened Storage
  import opened ListOps

  class ListService {
    /** `lists`: id to list, in insertion order. */
    var lists: ListMap
    const storage: StorageService
    /** The clipboard service `copyListToClipboard` calls `setContent` on. */
    const clipboard: ClipboardSink
    /** The `copytool.format` setting the formatter reads. */
    const format: Option<string>

    /** The map is well formed and every list sits under its own id. */
    ghost predicate Valid()
      reads this
    {
      WellKeyed(lists)
    }

    /** The storage key holds exactly the map's lists, in order, unless the
        host refused the write. */
    twostate predicate Saved()
      reads this, storage, storage.state
    {
      && lists.Valid()
      && storage.state.refusesWrites == old(storage.state.refusesWrites)
      && storage.state.data == if old(storage.state.refusesWrites) then old(storage.state.data)
                               else old(storage.state.data)[ListsKey := Values(lists)]
    }

    /** The constructor: the map is what storage holds (the load is taken to
        have finished before any other call). */
    constructor (storage: StorageService, clipboard: ClipboardSink, format: Option<string>)
      ensures this.storage == storage && this.clipboard == clipboard && this.format == format
      ensures lists == LoadFrom(storage.state.Get(ListsKey, []))
      ensures Valid()
    {
      this.storage := storage;
      this.clipboard := clipboard;
      this.format := format;
      var loaded := storage.LoadLists();
      lists := loaded;
    }

    /** `getAllLists`: the lists in insertion order. */
    method GetAllLists() returns (r: seq<List>)
      requires Valid()
      ensures |r| == |lists.keys|
      ensures forall i :: 0 <= i < |r| ==> r[i].id == lists.keys[i] && r[i] == lists.items[lists.keys[i]]
    {
      r := Values(lists);
      ValuesIds(lists);
    }

    /** `getList`: the list under `id`, if any. */
    method GetList(id: string) returns (r: Option<List>)
      requires Valid()
      ensures r.Some? <==> id in lists.items
      ensures r.Some? ==> r.value == lists.items[id] && r.value.id == id
    {
      r := Get(lists, id);
    }

    /** `createList(name)`: the id is the decimal text of the first clock
        reading, the two stamps are the next two readings; the name is taken
        as given. A list already under that id is replaced. The map is saved. */
    method CreateList(name: string, idClock: nat, createdClock: int, updatedClock: int) returns (l: List)
      requires Valid()
      modifies this, storage.state
      ensures l == NewList(NatToString(idClock), name, createdClock, updatedClock)
      ensures lists == Set(old(lists), l.id, l)
      ensures Valid() && Saved()
    {
      l := NewList(NatToString(idClock), name, createdClock, updatedClock);
      PutKeepsWellKeyed(lists, l);
      lists := Set(lists, l.id, l);
      storage.SaveLists(lists);
    }

    /** `deleteList(id)`: true exactly when a list was under `id`; only then
        is the map changed and saved. */
    method DeleteList(id: string) returns (deleted: bool)
      requires Valid()
      modifies this, storage.state
      ensures deleted == (id in old(lists.items))
      ensures lists == Delete(old(lists), id) && id !in lists.items
      ensures !deleted ==> lists == old(lists) && storage.state.data == old(storage.state.data)
      ensures deleted ==> Saved()
      ensures Valid()
    {
      deleted := id in lists.items;
      DeleteKeepsWellKeyed(lists, id);
      if !deleted {
        DeleteAbsent(lists, id);
      }
      lists := Delete(lists, id);
      if deleted {
        storage.SaveLists(lists);
      }
    }

    /** `addEntryToList(id, entry)`: an unknown id changes nothing; otherwise
        the entry goes last in that list, the list is stamped with `now`,
        the other lists are left alone and the map is saved. */
    method AddEntryToList(id: string, e: Entry, now: int) returns (ok: bool)
      requires Valid()
      modifies this, storage.state
      ensures ok == (id in old(lists.items))
      ensures !ok ==> lists == old(lists) && storage.state.data == old(storage.state.data)
      ensures ok ==> lists == Set(old(lists), id, Appended(old(lists.items[id]), e, now)) && Saved()
      ensures Valid()
    {
      var found := Get(lists, id);
      if found.None? {
        return false;
      }
      var l := Appended(found.value, e, now);
      PutKeepsWellKeyed(lists, l);
      lists := Set(lists, id, l);
      storage.SaveLists(lists);
      ok := true;
    }

    /** `removeEntryFromList(id, index)`: an unknown id or an index outside
        the list's entries changes nothing; otherwise exactly the entry at
        `index` is removed, the list is stamped with `now` and the map saved. */
    method RemoveEntryFromList(id: string, index: int, now: int) returns (ok: bool)
      requires Valid()
      modifies this, storage.state
      ensures ok == (id in old(lists.items) && 0 <= index < |old(lists.items[id]).entries|)
      ensures !ok ==> lists == old(lists) && storage.state.data == old(storage.state.data)
      ensures ok ==> lists == Set(old(lists), id, Spliced(old(lists.items[id]), index, now)) && Saved()
      ensures Valid()
    {
      var found := Get(lists, id);
      if found.None? || index < 0 || index >= |found.value.entries| {
        return false;
      }
      var l := Spliced(found.value, index, now);
      PutKeepsWellKeyed(lists, l);
      lists := Set(lists, id, l);
      storage.SaveLists(lists);
      ok := true;
    }

    /** `copyListToClipboard(id)`: false, with the clipboard untouched, for an
        unknown or empty list; otherwise the clipboard service receives the
        list's entries formatted in order. */
    method CopyListToClipboard(id: string) returns (ok: bool)
      modifies clipboard
      ensures ok == (id in lists.items && lists.items[id].entries != [])
      ensures !ok ==> clipboard.calls == old(clipboard.calls)
      ensures ok ==> clipboard.calls == old(clipboard.calls) + [SetContent(FormatEntries(format, lists.items[id].entries))]
    {
      var found := Get(lists, id);
      if found.None? {
        return false;
      }
      if |found.value.entries| == 0 {
        return false;
      }
      clipboard.SetContentCall(FormatEntries(format, found.value.entries));
      ok := true;
    }
  }
}
