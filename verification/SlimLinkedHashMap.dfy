/** The linked hash map without the bucketed one: the list holds the values, and the position
    map alone finds them. It means the same as the linked hash map. */
module SlimLinkedHashMap {
  import opened Options
  import opened LinkedHashMap

  class SlimLinkedHashMap<K(==), V> {
    var list: List<V>
    var position: map<K, nat>
    ghost var keys: seq<K>
    ghost var values: map<K, V>

    ghost function View(): Model<K, V>
      reads this
    { Model(keys, values) }

    ghost predicate Valid()
      reads this
    {
      && (forall i | 0 <= i < |list.nodes| :: list.nodes[i] < list.next)
      && Agrees(View(), list.nodes, list.slots, position)
    }

    constructor ()
      ensures Valid() && View() == Model([], map[])
    {
      list, position, keys, values := List([], map[], 0), map[], [], map[];
    }

    /** A present key keeps its value and its place; a new one goes to the end. */
    method AddItem(key: K, value: V) returns (added: Option<V>)
      requires Valid()
      modifies this
      ensures Valid() && View() == Step(old(View()), Add(key, value))
      ensures key in old(View()).values ==> View() == old(View())
      ensures key !in old(View()).values ==>
                View().keys == old(View()).keys + [key] && View().values == old(View()).values[key := value]
      ensures added == if key in old(View()).values then None else Some(value)
    {
      if key in position {
        return None;
      }
      AddedAgrees(View(), list, position, key, value);
      hide Agrees;
      position := position[key := list.next];
      list := list.Insert(value);
      keys, values := keys + [key], values[key := value];
      return Some(value);
    }

    method FindItemUnsafe(key: K) returns (found: Option<V>)
      requires Valid()
      ensures found == if key in View().values then Some(View().values[key]) else None
    {
      if key in position {
        KnownKey(View(), list.nodes, list.slots, position, key);
        found := Some(list.slots[position[key]]);
      } else {
        found := None;
      }
    }

    method ExtractItem(key: K) returns (item: Option<V>)
      requires Valid()
      modifies this
      ensures Valid() && View() == Step(old(View()), Erase(key))
      ensures item == if key in old(View()).values then Some(old(View()).values[key]) else None
    {
      hide Removed;
      item := FindItemUnsafe(key);
      KnownKey(View(), list.nodes, list.slots, position, key);
      if item.None? {
        RemovedAbsent(keys, key);
        assert values == values - {key};
        return;
      }
      ErasedAgrees(View(), list.nodes, list.slots, position, key);
      hide Agrees;
      list := list.Erase(position[key]);
      position := position - {key};
      keys, values := Removed(keys, key), values - {key};
    }

    method EraseItem(key: K) returns (erased: bool)
      requires Valid()
      modifies this
      ensures Valid() && View() == Step(old(View()), Erase(key))
      ensures erased <==> key in old(View()).values
    {
      var item := ExtractItem(key);
      erased := item.Some?;
    }

    /** Two present keys exchange their places; every key keeps its value. */
    method SwapElement(a: K, b: K)
      requires Valid() && a in View().values && b in View().values
      modifies this
      ensures Valid() && View() == Step(old(View()), Swap(a, b))
    {
      SwappedAgrees(View(), list, position, a, b);
      SwapStep(View(), a, b);
      hide Agrees, Exchanged, Removed, Step, List.SwapValues, Crossed;
      list := list.SwapValues(position[a], position[b]);
      position := Crossed(position, a, b);
      keys := Exchanged(keys, a, b);
    }

    method ClearUnsafe()
      requires Valid()
      modifies this
      ensures Valid() && View() == Step(old(View()), Clear)
    {
      position, list, keys, values := map[], List([], map[], list.next), [], map[];
    }
  }
}
