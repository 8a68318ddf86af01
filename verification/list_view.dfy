/** The list service behind the lists view (src/services/list-service.ts).
    It keeps the lists in memory only (nothing is saved) and, after each
    change, fires the view's change event. It also answers the view's
    questions: the top level is every list, most recently updated first; under
    a list are its entries in stored order, each with its index; an entry's
    parent is its list. */
module ListView {
  import opened Wrappers
  import opened Types
  import opened JsMap
  import opened Strings
  import opened Formatter
  import opened Sink
  import opened ListOps

  // ---------------------------------------------------------------------------
  // Ordering the top level: `lists.sort((a, b) => b.updatedAt - a.updatedAt)`.
  // `Array.prototype.sort` is stable, so lists with equal stamps keep their
  // insertion order.

  /** Every list is updated no later than the one before it. */
  predicate NewestFirst(ls: seq<List>) {
    forall i, j :: 0 <= i < j < |ls| ==> ls[i].updatedAt >= ls[j].updatedAt
  }

  /** A list no older than the head of a newest-first run can go in front. */
  lemma ConsNewestFirst(x: List, rest: seq<List>)
    requires NewestFirst(rest)
    requires rest != [] ==> x.updatedAt >= rest[0].updatedAt
    ensures NewestFirst([x] + rest)
  {
    var r := [x] + rest;
    forall i, j | 0 <= i < j < |r| ensures r[i].updatedAt >= r[j].updatedAt {
      if i == 0 {
        assert r[j] == rest[j - 1];
        assert rest[0].updatedAt >= rest[j - 1].updatedAt;
      } else {
        assert r[i] == rest[i - 1] && r[j] == rest[j - 1];
      }
    }
  }

  /** `l` goes before the first list updated no later than it. */
  function InsertByStamp(l: List, ls: seq<List>): (r: seq<List>)
    requires NewestFirst(ls)
    ensures NewestFirst(r)
    ensures multiset(r) == multiset(ls) + multiset{l}
    ensures r[0] == l || (ls != [] && r[0] == ls[0])
  {
    if ls == [] || ls[0].updatedAt <= l.updatedAt then
      ConsNewestFirst(l, ls);
      [l] + ls
    else
      var rest := InsertByStamp(l, ls[1..]);
      assert ls == [ls[0]] + ls[1..];
      assert ls[0].updatedAt >= rest[0].updatedAt by {
        if rest[0] != l {
          assert rest[0] == ls[1];
        }
      }
      ConsNewestFirst(ls[0], rest);
      [ls[0]] + rest
  }

  /** The lists ordered newest first, stably. */
  function SortByStamp(ls: seq<List>): (r: seq<List>)
    ensures NewestFirst(r)
    ensures multiset(r) == multiset(ls)
  {
    if ls == [] then []
    else
      assert ls == [ls[0]] + ls[1..];
      InsertByStamp(ls[0], SortByStamp(ls[1..]))
  }

  /** The lists stamped `t`, in their order. */
  function Stamped(ls: seq<List>, t: int): seq<List> {
    if ls == [] then []
    else (if ls[0].updatedAt == t then [ls[0]] else []) + Stamped(ls[1..], t)
  }

  /** The lists stamped `t` in `[x] + ls`. */
  lemma StampedCons(x: List, ls: seq<List>, t: int)
    ensures Stamped([x] + ls, t) == (if x.updatedAt == t then [x] else []) + Stamped(ls, t)
  {
    assert ([x] + ls)[0] == x && ([x] + ls)[1..] == ls;
  }

  lemma {:induction false} StampedInsert(l: List, ls: seq<List>, t: int)
    requires NewestFirst(ls)
    ensures Stamped(InsertByStamp(l, ls), t)
         == (if l.updatedAt == t then [l] else []) + Stamped(ls, t)
  {
    if ls == [] || ls[0].updatedAt <= l.updatedAt {
      StampedCons(l, ls, t);
    } else {
      var ins := InsertByStamp(l, ls[1..]);
      assert InsertByStamp(l, ls) == [ls[0]] + ins;
      StampedInsert(l, ls[1..], t);
      StampedCons(ls[0], ins, t);
      assert ls == [ls[0]] + ls[1..];
      StampedCons(ls[0], ls[1..], t);
      var rest := Stamped(ls[1..], t);
      if l.updatedAt == t {
        assert ls[0].updatedAt != t;
        assert Stamped(InsertByStamp(l, ls), t) == Stamped(ins, t) == [l] + rest;
        assert Stamped(ls, t) == rest;
      } else {
        assert Stamped(ins, t) == rest;
      }
    }
  }

  /** The sort is stable: the lists sharing a stamp come out in the order
      they went in. */
  lemma {:induction false} SortIsStable(ls: seq<List>, t: int)
    ensures Stamped(SortByStamp(ls), t) == Stamped(ls, t)
  {
    if ls != [] {
      SortIsStable(ls[1..], t);
      StampedInsert(ls[0], SortByStamp(ls[1..]), t);
    }
  }

  // ---------------------------------------------------------------------------
  // The view's items

  /** A node of the lists view: a list, or an entry of a list at an index. */
  datatype TreeItem =
    | ListItem(list: List)
    | EntryItem(list: List, entry: Entry, index: nat)

  /** The entries of `l` as items, each with its index. */
  function EntryItems(l: List): (r: seq<TreeItem>)
    ensures |r| == |l.entries|
    ensures forall i :: 0 <= i < |r| ==> r[i] == EntryItem(l, l.entries[i], i)
  {
    seq(|l.entries|, i requires 0 <= i < |l.entries| => EntryItem(l, l.entries[i], i))
  }

  /** The lists as items, in the given order. */
  function ListItems(ls: seq<List>): (r: seq<TreeItem>)
    ensures |r| == |ls|
    ensures forall i :: 0 <= i < |r| ==> r[i] == ListItem(ls[i])
  {
    seq(|ls|, i requires 0 <= i < |ls| => ListItem(ls[i]))
  }

  /** The list each item carries, in order. */
  function ListsOf(items: seq<TreeItem>): (r: seq<List>)
    ensures |r| == |items|
    ensures forall i :: 0 <= i < |r| ==> r[i] == items[i].list
  {
    seq(|items|, i requires 0 <= i < |items| => items[i].list)
  }

  /** `getParent`: an entry's parent is an item for the list it carries; a
      list has none. */
  function GetParent(item: TreeItem): (r: Option<TreeItem>)
    ensures r.Some? <==> item.EntryItem?
    ensures r.Some? ==> r.value == ListItem(item.list)
  {
    match item
    case ListItem(_) => None
    case EntryItem(l, _, _) => Some(ListItem(l))
  }

  class ListService {
    /** `lists`: id to list, in insertion order. */
    var lists: OrderedMap<List>
    /** How many times the view's change event has fired. */
    var refreshes: nat
    /** The clipboard service `copyListToClipboard` calls `setContent` on. */
    const clipboard: ClipboardSink
    /** The `copytool.format` setting the formatter reads. */
    const format: Option<string>

    ghost predicate Valid()
      reads this
    {
      WellKeyed(lists)
    }

    /** The service starts with no lists. */
    constructor (clipboard: ClipboardSink, format: Option<string>)
      ensures lists == Empty() && refreshes == 0 && Valid()
      ensures this.clipboard == clipboard && this.format == format
    {
      lists := Empty();
      refreshes := 0;
      this.clipboard := clipboard;
      this.format := format;
    }

    /** `getChildren`: with no item, every list newest first; under a list,
        the entries of the list now stored under its id (none if it is gone);
        under an entry, nothing. */
    function GetChildren(item: Option<TreeItem>): (r: seq<TreeItem>)
      reads this
      requires lists.Valid()
      ensures item.Some? && item.value.EntryItem? ==> r == []
      ensures item.Some? && item.value.list.id !in lists.items ==> r == []
      ensures item.None? ==> forall c :: c in r ==> c.ListItem?
      ensures item.Some? ==> forall c :: c in r ==> c.EntryItem? && c.list == lists.items[item.value.list.id]
    {
      match item
      case None => ListItems(SortByStamp(Values(lists)))
      case Some(ListItem(l)) =>
        if l.id in lists.items then EntryItems(lists.items[l.id]) else []
      case Some(EntryItem(_, _, _)) => []
    }

    /** `getAllLists`: the lists in insertion order. */
    method GetAllLists() returns (r: seq<List>)
      requires Valid()
      ensures |r| == |lists.keys|
      ensures forall i :: 0 <= i < |r| ==> r[i].id == lists.keys[i] && r[i] == lists.items[lists.keys[i]]
    {
      r := Values(lists);
      ValuesIds(lists);
    }

    /** `getList`: the list under `id`, if any. */
    method GetList(id: string) returns (r: Option<List>)
      requires Valid()
      ensures r.Some? <==> id in lists.items
      ensures r.Some? ==> r.value == lists.items[id] && r.value.id == id
    {
      r := Get(lists, id);
    }

    /** `createList(name)`: as in the persisted service, with the view
        refreshed instead of a save. */
    method CreateList(name: string, idClock: nat, createdClock: int, updatedClock: int) returns (l: List)
      requires Valid()
      modifies this
      ensures l == NewList(NatToString(idClock), name, createdClock, updatedClock)
      ensures lists == Set(old(lists), l.id, l)
      ensures refreshes == old(refreshes) + 1
      ensures Valid()
    {
      l := NewList(NatToString(idClock), name, createdClock, updatedClock);
      PutKeepsWellKeyed(lists, l);
      lists := Set(lists, l.id, l);
      refreshes := refreshes + 1;
    }

    /** `deleteList(id)`: true exactly when a list was under `id`; only then
        does the view refresh. */
    method DeleteList(id: string) returns (deleted: bool)
      requires Valid()
      modifies this
      ensures deleted == (id in old(lists.items))
      ensures lists == Delete(old(lists), id) && id !in lists.items
      ensures !deleted ==> lists == old(lists)
      ensures refreshes == old(refreshes) + (if deleted then 1 else 0)
      ensures Valid()
    {
      deleted := id in lists.items;
      DeleteKeepsWellKeyed(lists, id);
      if !deleted {
        DeleteAbsent(lists, id);
      }
      lists := Delete(lists, id);
      if deleted {
        refreshes := refreshes + 1;
      }
    }

    /** `addEntryToList(id, entry)`: an unknown id changes nothing; otherwise
        the entry goes last in that list and the list is stamped with `now`. */
    method AddEntryToList(id: string, e: Entry, now: int) returns (ok: bool)
      requires Valid()
      modifies this
      ensures ok == (id in old(lists.items))
      ensures !ok ==> lists == old(lists) && refreshes == old(refreshes)
      ensures ok ==> lists == Set(old(lists), id, Appended(old(lists.items[id]), e, now))
      ensures ok ==> refreshes == old(refreshes) + 1
      ensures Valid()
    {
      var found := Get(lists, id);
      if found.None? {
        return false;
      }
      var l := Appended(found.value, e, now);
      PutKeepsWellKeyed(lists, l);
      lists := Set(lists, id, l);
      refreshes := refreshes + 1;
      ok := true;
    }

    /** `removeEntryFromList(id, index)`: an unknown id or an index outside
        the entries changes nothing; otherwise exactly that entry goes. */
    method RemoveEntryFromList(id: string, index: int, now: int) returns (ok: bool)
      requires Valid()
      modifies this
      ensures ok == (id in old(lists.items) && 0 <= index < |old(lists.items[id]).entries|)
      ensures !ok ==> lists == old(lists) && refreshes == old(refreshes)
      ensures ok ==> lists == Set(old(lists), id, Spliced(old(lists.items[id]), index, now))
      ensures ok ==> refreshes == old(refreshes) + 1
      ensures Valid()
    {
      var found := Get(lists, id);
      if found.None? || index < 0 || index >= |found.value.entries| {
        return false;
      }
      var l := Spliced(found.value, index, now);
      PutKeepsWellKeyed(lists, l);
      lists := Set(lists, id, l);
      refreshes := refreshes + 1;
      ok := true;
    }

    /** `copyListToClipboard(id)`: false, with the clipboard untouched, for an
        unknown or empty list; otherwise the clipboard service receives the
        list's entries formatted in order. */
    method CopyListToClipboard(id: string) returns (ok: bool)
      modifies clipboard
      ensures ok == (id in lists.items && lists.items[id].entries != [])
      ensures !ok ==> clipboard.calls == old(clipboard.calls)
      ensures ok ==> clipboard.calls == old(clipboard.calls) + [SetContent(FormatEntries(format, lists.items[id].entries))]
    {
      var found := Get(lists, id);
      if found.None? {
        return false;
      }
      if |found.value.entries| == 0 {
        return false;
      }
      clipboard.SetContentCall(FormatEntries(format, found.value.entries));
      ok := true;
    }
  }

  /** The top level holds every list exactly once, newest first, and lists
      with the same stamp in insertion order. */
  lemma RootChildren(s: ListService, t: int)
    requires s.lists.Valid()
    ensures var c := s.GetChildren(None);
      && |c| == |s.lists.keys|
      && (forall x :: x in c ==> x.ListItem? && GetParent(x).None?)
      && (forall i, j :: 0 <= i < j < |c| ==> c[i].list.updatedAt >= c[j].list.updatedAt)
      && multiset(ListsOf(c)) == multiset(Values(s.lists))
      && Stamped(ListsOf(c), t) == Stamped(Values(s.lists), t)
  {
    var sorted := SortByStamp(Values(s.lists));
    var c := s.GetChildren(None);
    SortIsStable(Values(s.lists), t);
    assert |sorted| == |Values(s.lists)| by {
      assert |multiset(sorted)| == |multiset(Values(s.lists))|;
    }
    assert ListsOf(c) == sorted;
  }

  /** Under a stored list are its entries, in order, each at its index, and
      each one's parent is that list. */
  lemma ListChildren(s: ListService, l: List)
    requires s.lists.Valid() && l.id in s.lists.items
    ensures |s.GetChildren(Some(ListItem(l)))| == |s.lists.items[l.id].entries|
    ensures forall i :: 0 <= i < |s.lists.items[l.id].entries| ==>
              s.GetChildren(Some(ListItem(l)))[i]
                == EntryItem(s.lists.items[l.id], s.lists.items[l.id].entries[i], i)
    ensures forall c :: c in s.GetChildren(Some(ListItem(l))) ==>
              GetParent(c) == Some(ListItem(s.lists.items[l.id]))
  {
  }
}
