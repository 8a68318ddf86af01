/** What the list services do to one list and to the map of lists, as values.
    All three list services create a list with no entries, append an entry
    at the end (no duplicate check, no size limit) and stamp the list with
    the clock; two of them also remove the entry at an index. The services
    update the list object held in their map in place; here the map is given
    the updated list under the same id. */
module ListOps {
  import opened Types
  import opened JsMap

  /** A fresh list: the given id and name, no entries, both stamps given. */
  function NewList(id: string, name: string, createdAt: int, updatedAt: int): (l: List)
    ensures l.id == id && l.name == name && l.entries == []
    ensures l.createdAt == createdAt && l.updatedAt == updatedAt
  {
    List(id, name, [], createdAt, updatedAt)
  }

  /** `list.entries.push(entry); list.updatedAt = now`: the entry goes last,
      earlier entries keep their places, and it is counted once more even
      when an equal entry is already held. */
  function Appended(l: List, e: Entry, now: int): (r: List)
    ensures r.id == l.id && r.name == l.name && r.createdAt == l.createdAt && r.updatedAt == now
    ensures |r.entries| == |l.entries| + 1 && r.entries[|l.entries|] == e
    ensures r.entries[..|l.entries|] == l.entries
    ensures multiset(r.entries)[e] == multiset(l.entries)[e] + 1
  {
    assert (l.entries + [e])[..|l.entries|] == l.entries;
    l.(entries := l.entries + [e], updatedAt := now)
  }

  /** `list.entries.splice(index, 1); list.updatedAt = now`: the entry at
      `index` is gone; those before it keep their indices, those after it
      move down by one. */
  function Spliced(l: List, index: nat, now: int): (r: List)
    requires index < |l.entries|
    ensures r.id == l.id && r.name == l.name && r.createdAt == l.createdAt && r.updatedAt == now
    ensures |r.entries| == |l.entries| - 1
    ensures forall k :: 0 <= k < index ==> r.entries[k] == l.entries[k]
    ensures forall k :: index <= k < |r.entries| ==> r.entries[k] == l.entries[k + 1]
    ensures multiset(r.entries) + multiset{l.entries[index]} == multiset(l.entries)
  {
    var es := l.entries;
    assert es == es[..index] + [es[index]] + es[index + 1..];
    l.(entries := es[..index] + es[index + 1..], updatedAt := now)
  }

  /** Removing the entry just appended gives back the entries held before. */
  lemma RemoveAppended(l: List, e: Entry, t1: int, t2: int)
    ensures Spliced(Appended(l, e, t1), |l.entries|, t2).entries == l.entries
  {
  }

  /** Every list sits under its own id. */
  ghost predicate WellKeyed(m: OrderedMap<List>) {
    m.Valid() && forall k :: k in m.items ==> m.items[k].id == k
  }

  /** Putting a list under its own id keeps the map well keyed. */
  lemma {:induction false} PutKeepsWellKeyed(m: OrderedMap<List>, l: List)
    requires WellKeyed(m)
    ensures WellKeyed(Set(m, l.id, l))
  {
    var r := Set(m, l.id, l);
    forall k | k in r.items ensures r.items[k].id == k {
      if k != l.id {
        assert r.items[k] == m.items[k];
      }
    }
  }

  /** Deleting a list keeps the map well keyed. */
  lemma DeleteKeepsWellKeyed(m: OrderedMap<List>, id: string)
    requires WellKeyed(m)
    ensures WellKeyed(Delete(m, id))
  {
  }

  /** Deleting a key that is not present changes nothing. */
  lemma {:induction false} DeleteAbsent(m: OrderedMap<List>, id: string)
    requires m.Valid() && id !in m.items
    ensures Delete(m, id) == m
  {
    assert id !in m.keys;
    assert m.items - {id} == m.items;
  }

  /** The lists in insertion order, read by their ids, are the key order. */
  lemma ValuesIds(m: OrderedMap<List>)
    requires WellKeyed(m)
    ensures forall i :: 0 <= i < |m.keys| ==> Values(m)[i].id == m.keys[i]
  {
    forall i | 0 <= i < |m.keys| ensures Values(m)[i].id == m.keys[i] {
      assert m.keys[i] in m.items;
    }
  }
}
