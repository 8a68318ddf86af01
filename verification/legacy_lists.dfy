/** The older list service (out/services/list-service.js). It reads and
    writes the global state itself, under the same key as the newer storage
    service, and names its two clock fields `created` and `lastModified`
    (here `createdAt` and `updatedAt`). Ids are uuids, given here as a
    parameter. Copying a list formats it inline: each entry as its path
    followed by a fenced block, a blank line between entries, written straight
    to the system clipboard. */
module LegacyLists {
  import opened Wrappers
  import opened Types
  import opened JsMap
  import opened Strings
  import opened Formatter
  import opened Sink
  import opened Storage
  import opened ListOps

  /** The inline formatting of `copyListContents`. */
  function LegacyText(es: seq<Entry>): (r: string)
    ensures es == [] ==> r == ""
    ensures |es| == 1 ==> r == FencedBlock(es[0].relativePath, es[0].content)
  {
    Join(seq(|es|, i requires 0 <= i < |es| => FencedBlock(es[i].relativePath, es[i].content)), Separator)
  }

  /** The inline formatting agrees with the formatter's built-in template
      whenever no path holds the `{content}` placeholder. */
  lemma LegacyTextIsDefaultFormat(es: seq<Entry>)
    requires forall i :: 0 <= i < |es| ==> Absent(es[i].relativePath, ContentToken)
    ensures LegacyText(es) == FormatEntries(None, es)
  {
    var blocks := seq(|es|, i requires 0 <= i < |es| => FencedBlock(es[i].relativePath, es[i].content));
    forall i | 0 <= i < |es| ensures Rendered(None, FilePathToken, es)[i] == blocks[i] {
      DefaultRendering(None, FilePathToken, es[i]);
    }
    assert Rendered(None, FilePathToken, es) == blocks;
  }

  class ListService {
    var lists: OrderedMap<List>
    /** How many times the view's change event has fired. */
    var refreshes: nat
    /** The extension's `globalState`. */
    const state: GlobalState
    const system: SystemClipboard

    ghost predicate Valid()
      reads this
    {
      WellKeyed(lists)
    }

    /** The stored lists are loaded when the service is built. */
    constructor (state: GlobalState, system: SystemClipboard)
      ensures this.state == state && this.system == system && refreshes == 0
      ensures lists == LoadFrom(state.Get(ListsKey, []))
      ensures Valid()
    {
      this.state := state;
      this.system := system;
      refreshes := 0;
      lists := Empty();
      new;
      LoadLists();
    }

    /** `loadLists`: the map is cleared (`m` starts empty), then each stored
        record is set under its id in array order, so a later duplicate id
        wins. */
    method LoadLists()
      modifies this
      ensures lists == LoadFrom(state.Get(ListsKey, []))
      ensures refreshes == old(refreshes)
      ensures Valid()
    {
      var saved := state.Get(ListsKey, []);
      var m := Empty();
      for i := 0 to |saved|
        invariant m == LoadFrom(saved[..i])
      {
        assert saved[..i + 1][..i] == saved[..i];
        m := Set(m, saved[i].id, saved[i]);
      }
      assert saved[..|saved|] == saved;
      lists := m;
    }

    /** The key holds exactly the map's lists, in order, and the view was
        refreshed; or the host refused, and neither happened. */
    twostate predicate Saved(ok: bool)
      reads this, state
    {
      && lists.Valid()
      && state.refusesWrites == old(state.refusesWrites)
      && ok == !old(state.refusesWrites)
      && state.data == (if ok then old(state.data)[ListsKey := Values(lists)] else old(state.data))
      && refreshes == old(refreshes) + (if ok then 1 else 0)
    }

    /** `saveLists`: the map's values are written under the key, then the
        view refreshes. A refused write rejects the promise before the
        refresh; `ok` is false exactly then, here and in the callers below. */
    method SaveLists() returns (ok: bool)
      requires lists.Valid()
      modifies this, state
      ensures lists == old(lists)
      ensures Saved(ok)
    {
      ok := state.Update(ListsKey, Values(lists));
      if ok {
        refreshes := refreshes + 1;
      }
    }

    /** `createList(name)`: a list with no entries under the fresh uuid, both
        stamps from the clock; then a save. */
    method CreateList(name: string, uuid: string, createdClock: int, modifiedClock: int) returns (saved: bool)
      requires Valid()
      modifies this, state
      ensures lists == Set(old(lists), uuid, NewList(uuid, name, createdClock, modifiedClock))
      ensures Saved(saved)
      ensures Valid()
    {
      var l := NewList(uuid, name, createdClock, modifiedClock);
      PutKeepsWellKeyed(lists, l);
      lists := Set(lists, uuid, l);
      saved := SaveLists();
    }

    /** `deleteList(id)`: an unknown id changes nothing and saves nothing;
        a known one is removed and the map saved. */
    method DeleteList(id: string) returns (saved: bool)
      requires Valid()
      modifies this, state
      ensures lists == Delete(old(lists), id)
      ensures id !in old(lists.items) ==> !saved && lists == old(lists) && unchanged(state) && refreshes == old(refreshes)
      ensures id in old(lists.items) ==> Saved(saved)
      ensures Valid()
    {
      DeleteKeepsWellKeyed(lists, id);
      if id !in lists.items {
        DeleteAbsent(lists, id);
        return false;
      }
      lists := Delete(lists, id);
      saved := SaveLists();
    }

    /** `addToList(id, entry)`: an unknown id changes nothing; otherwise the
        entry goes last, `lastModified` is the clock reading, and the map is
        saved. */
    method AddToList(id: string, e: Entry, now: int) returns (saved: bool)
      requires Valid()
      modifies this, state
      ensures id !in old(lists.items) ==> !saved && lists == old(lists) && unchanged(state) && refreshes == old(refreshes)
      ensures id in old(lists.items) ==>
                lists == Set(old(lists), id, Appended(old(lists.items[id]), e, now)) && Saved(saved)
      ensures Valid()
    {
      var found := Get(lists, id);
      if found.None? {
        return false;
      }
      var l := Appended(found.value, e, now);
      PutKeepsWellKeyed(lists, l);
      lists := Set(lists, id, l);
      saved := SaveLists();
    }

    /** `getLists`: the lists in insertion order. */
    method GetLists() returns (r: seq<List>)
      requires Valid()
      ensures |r| == |lists.keys|
      ensures forall i :: 0 <= i < |r| ==> r[i].id == lists.keys[i] && r[i] == lists.items[lists.keys[i]]
    {
      r := Values(lists);
      ValuesIds(lists);
    }

    /** `getList`: the list under `id`, if any. */
    method GetList(id: string) returns (r: Option<List>)
      requires Valid()
      ensures r.Some? <==> id in lists.items
      ensures r.Some? ==> r.value == lists.items[id] && r.value.id == id
    {
      r := Get(lists, id);
    }

    /** `copyListContents(id)`: an unknown id writes nothing; a known list,
        even an empty one, replaces the clipboard text with its entries
        formatted inline (the empty text for no entries). */
    method CopyListContents(id: string)
      modifies system
      ensures id !in lists.items ==> system.text == old(system.text)
      ensures id in lists.items ==> system.text == LegacyText(lists.items[id].entries)
    {
      var found := Get(lists, id);
      if found.Some? {
        system.WriteText(LegacyText(found.value.entries));
      }
    }
  }
}
