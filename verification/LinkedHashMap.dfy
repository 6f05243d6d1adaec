/** The linked hash map: a list of values in insertion order, a map from keys to positions
    in the list, and the bucketed hash map that owns the values. */
module LinkedHashMap {
  import opened Options
  import opened HashBuckets

  // ---------------------------------------------------------------- what the map means

  /** The keys in list order, and their values. */
  datatype Model<K, V> = Model(keys: seq<K>, values: map<K, V>)

  datatype Call<K, V> = Add(key: K, value: V) | Erase(key: K) | Swap(a: K, b: K) | Clear

  function Removed<K(==)>(keys: seq<K>, key: K): (r: seq<K>)
    ensures forall k | k in r :: k in keys && k != key
    ensures forall k | k in keys && k != key :: k in r
  {
    if keys == [] then []
    else if keys[|keys| - 1] == key then Removed(keys[..|keys| - 1], key)
    else Removed(keys[..|keys| - 1], key) + [keys[|keys| - 1]]
  }

  function Other<K(==)>(key: K, a: K, b: K): K { if key == a then b else if key == b then a else key }

  function Exchanged<K(==)>(keys: seq<K>, a: K, b: K): seq<K> {
    seq(|keys|, i requires 0 <= i < |keys| => Other(keys[i], a, b))
  }

  function Step<K(==), V>(m: Model<K, V>, c: Call<K, V>): Model<K, V> {
    match c
    case Add(k, v) => if k in m.values then m else Model(m.keys + [k], m.values[k := v])
    case Erase(k) => Model(Removed(m.keys, k), m.values - {k})
    case Swap(a, b) => if a in m.values && b in m.values then Model(Exchanged(m.keys, a, b), m.values) else m
    case Clear => Model([], map[])
  }

  ghost predicate EntryAgrees<K, V>(m: Model<K, V>, key: K, node: nat, slots: map<nat, V>, position: map<K, nat>) {
    && key in position && position[key] == node
    && key in m.values && node in slots && slots[node] == m.values[key]
  }

  /** The list position of every key, and the value in the list, agree with the values. */
  ghost predicate Agrees<K, V>(m: Model<K, V>, list: seq<nat>, slots: map<nat, V>, position: map<K, nat>) {
    && |list| == |m.keys|
    && position.Keys == m.values.Keys
    && (forall i, j | 0 <= i < j < |list| :: list[i] != list[j])
    && (forall i | 0 <= i < |list| :: EntryAgrees(m, m.keys[i], list[i], slots, position))
    && (forall k | k in position :: k in m.keys)
  }

  /** The list, a node-based container: the nodes in order, the value in each, and the name of
      the next new node. Nodes keep their names while others come and go. */
  datatype List<V> = List(nodes: seq<nat>, slots: map<nat, V>, next: nat) {
    function Insert(v: V): List<V> { List(nodes + [next], slots[next := v], next + 1) }
    function Erase(n: nat): List<V> { List(Removed(nodes, n), slots - {n}, next) }
    function SwapValues(x: nat, y: nat): List<V>
      requires x in slots && y in slots
    { this.(slots := slots[x := slots[y]][y := slots[x]]) }
  }

  class LinkedHashMap<K(==), V> {
    var list: List<V>
    var position: map<K, nat>
    const items: ConcurrentHashMap<K, V>
    ghost var keys: seq<K>

    ghost function View(): Model<K, V>
      reads this, items
    { Model(keys, items.entries) }

    ghost predicate Valid()
      reads this, items, items.heads, items.Nodes()
    {
      && items.Valid()
      && (forall i | 0 <= i < |list.nodes| :: list.nodes[i] < list.next)
      && Agrees(View(), list.nodes, list.slots, position)
    }

    constructor (size: nat, hasher: K -> nat)
      requires size > 0
      ensures Valid() && View() == Model([], map[]) && fresh(items) && fresh(items.heads) && items.Nodes() == {}
    {
      items := new ConcurrentHashMap(size, hasher);
      list, position, keys := List([], map[], 0), map[], [];
    }

    /** A present key keeps its value and its place; a new one goes to the end. */
    method AddItem(key: K, value: V) returns (added: Option<V>)
      requires Valid()
      modifies this, items, items.heads
      ensures Valid() && View() == Step(old(View()), Add(key, value))
      ensures key in old(View()).values ==> View() == old(View())
      ensures key !in old(View()).values ==>
                View().keys == old(View()).keys + [key] && View().values == old(View()).values[key := value]
      ensures added == if key in old(View()).values then None else Some(value)
      ensures forall n | n in items.Nodes() :: n in old(items.Nodes()) || fresh(n)
    {
      if key in position {
        return None;
      }
      AddedAgrees(View(), list, position, key, value);
      hide Agrees;
      position := position[key := list.next];
      list := list.Insert(value);
      keys := keys + [key];
      items.EmplaceUnsafe(key, value);
      return Some(value);
    }

    method FindItem(key: K) returns (found: Option<V>)
      requires Valid()
      ensures found == if key in View().values then Some(View().values[key]) else None
    {
      found := items.Find(key);
    }

    /** The value through the list gives the same answer as the buckets. */
    method FindItemUnsafe(key: K) returns (found: Option<V>)
      requires Valid()
      ensures found == if key in View().values then Some(View().values[key]) else None
    {
      if key in position {
        assert key in keys;
        found := Some(list.slots[position[key]]);
      } else {
        found := None;
      }
    }

    method EraseItem(key: K) returns (erased: bool)
      requires Valid()
      modifies this, items`spines, items`entries, items.heads, items.Nodes()
      ensures Valid() && View() == Step(old(View()), Erase(key))
      ensures erased <==> key in old(View()).values
      ensures items.Nodes() <= old(items.Nodes())
    {
      hide Removed, items.Valid, items.Nodes;
      if key !in position {
        RemovedAbsent(keys, key);
        assert items.entries == items.entries - {key};
        return false;
      }
      var at := position[key];
      ErasedAgrees(View(), list.nodes, list.slots, position, key);
      position := position - {key};
      items.EraseUnsafe(key);
      list := list.Erase(at);
      keys := Removed(keys, key);
      return true;
    }

    method ExtractItem(key: K) returns (item: Option<V>)
      requires Valid()
      modifies this, items`spines, items`entries, items.heads, items.Nodes()
      ensures Valid() && View() == Step(old(View()), Erase(key))
      ensures item == if key in old(View()).values then Some(old(View()).values[key]) else None
      ensures items.Nodes() <= old(items.Nodes())
    {
      hide Removed, items.Valid, items.Nodes;
      KnownKey(View(), list.nodes, list.slots, position, key);
      item := items.ExtractUnsafe(key);
      if item.Some? {
        ErasedAgrees(old(View()), list.nodes, list.slots, position, key);
        hide Agrees;
        list := list.Erase(position[key]);
        position := position - {key};
        keys := Removed(keys, key);
      } else {
        RemovedAbsent(keys, key);
      }
    }

    /** Two present keys exchange their places; every key keeps its value. */
    method SwapElement(a: K, b: K)
      requires Valid() && a in View().values && b in View().values
      modifies this
      ensures Valid() && View() == Step(old(View()), Swap(a, b))
    {
      SwappedAgrees(View(), list, position, a, b);
      SwapStep(View(), a, b);
      hide Agrees, Exchanged, Removed, Step, List.SwapValues, Crossed, items.Valid, items.Nodes;
      list := list.SwapValues(position[a], position[b]);
      position := Crossed(position, a, b);
      keys := Exchanged(keys, a, b);
    }

    method ClearUnsafe()
      requires Valid()
      modifies this, items`spines, items`entries, items.heads
      ensures Valid() && View() == Step(old(View()), Clear) && items.Nodes() == {}
    {
      items.ClearUnsafe();
      position, list, keys := map[], List([], map[], list.next), [];
    }
  }

  lemma {:induction false} RemovedAbsent<K>(keys: seq<K>, key: K)
    requires key !in keys
    ensures Removed(keys, key) == keys
  {
    if keys != [] {
      assert forall k | k in keys[..|keys| - 1] :: k in keys;
      RemovedAbsent(keys[..|keys| - 1], key);
    }
  }

  /** Without repetition, removing the entry at i closes the gap. */
  lemma {:induction false} RemovedAt<K>(keys: seq<K>, i: nat)
    requires i < |keys| && forall a, b | 0 <= a < b < |keys| :: keys[a] != keys[b]
    ensures Removed(keys, keys[i]) == keys[..i] + keys[i + 1..]
  {
    var n := |keys| - 1;
    if i < n {
      RemovedAt(keys[..n], i);
      assert keys[..n][..i] + keys[..n][i + 1..] + [keys[n]] == keys[..i] + keys[i + 1..];
    } else {
      RemovedAbsent(keys[..n], keys[n]);
    }
  }

  /** Keys and list nodes stand one to one. */
  lemma KeysDistinct<K, V>(m: Model<K, V>, list: seq<nat>, slots: map<nat, V>, position: map<K, nat>)
    requires Agrees(m, list, slots, position)
    ensures forall i, j | 0 <= i < j < |m.keys| :: m.keys[i] != m.keys[j]
  {
    forall i, j | 0 <= i < j < |m.keys| ensures m.keys[i] != m.keys[j] {
      assert EntryAgrees(m, m.keys[i], list[i], slots, position) && EntryAgrees(m, m.keys[j], list[j], slots, position);
    }
  }

  lemma IndexOf<K, V>(m: Model<K, V>, list: seq<nat>, slots: map<nat, V>, position: map<K, nat>, key: K)
      returns (i: nat)
    requires Agrees(m, list, slots, position) && key in position
    ensures i < |list| && m.keys[i] == key && list[i] == position[key]
    ensures EntryAgrees(m, key, list[i], slots, position)
  {
    assert key in m.keys;
    i :| 0 <= i < |m.keys| && m.keys[i] == key;
    assert EntryAgrees(m, m.keys[i], list[i], slots, position);
  }

  lemma KnownKey<K, V>(m: Model<K, V>, list: seq<nat>, slots: map<nat, V>, position: map<K, nat>, key: K)
    requires Agrees(m, list, slots, position)
    ensures (key in position <==> key in m.values) && (key in position <==> key in m.keys)
    ensures key in position ==> position[key] in slots && slots[position[key]] == m.values[key]
  {
    if key in m.keys {
      var i :| 0 <= i < |m.keys| && m.keys[i] == key;
      assert EntryAgrees(m, m.keys[i], list[i], slots, position);
    }
  }

  lemma AddedAgrees<K, V>(m: Model<K, V>, list: List<V>, position: map<K, nat>, key: K, value: V)
    requires Agrees(m, list.nodes, list.slots, position) && key !in position
    requires forall i | 0 <= i < |list.nodes| :: list.nodes[i] < list.next
    ensures var out := list.Insert(value);
            && Agrees(Model(m.keys + [key], m.values[key := value]), out.nodes, out.slots, position[key := list.next])
            && forall i | 0 <= i < |out.nodes| :: out.nodes[i] < out.next
  {
    var m', out, position' := Model(m.keys + [key], m.values[key := value]), list.Insert(value),
        position[key := list.next];
    assert forall i | 0 <= i < |list.nodes| :: m'.keys[i] == m.keys[i] && out.nodes[i] == list.nodes[i];
    assert m'.keys[|m.keys|] == key && out.nodes[|list.nodes|] == list.next;
    forall i | 0 <= i < |list.nodes| ensures EntryAgrees(m', m.keys[i], list.nodes[i], out.slots, position') {
      assert EntryAgrees(m, m.keys[i], list.nodes[i], list.slots, position);
    }
    assert EntryAgrees(m', key, list.next, out.slots, position');
    assert position'.Keys == m'.values.Keys;
    hide EntryAgrees;
  }

  function Dropped<T>(s: seq<T>, i: nat): seq<T>
    requires i < |s|
  { s[..i] + s[i + 1..] }

  lemma DroppedAt<T>(s: seq<T>, i: nat)
    requires i < |s|
    ensures |Dropped(s, i)| == |s| - 1
    ensures forall j | 0 <= j < i :: Dropped(s, i)[j] == s[j]
    ensures forall j | i <= j < |s| - 1 :: Dropped(s, i)[j] == s[j + 1]
  {}

  lemma DroppedDistinct<T>(s: seq<T>, i: nat)
    requires i < |s| && forall a, b | 0 <= a < b < |s| :: s[a] != s[b]
    ensures forall a, b | 0 <= a < b < |s| - 1 :: Dropped(s, i)[a] != Dropped(s, i)[b]
    ensures forall a | 0 <= a < |s| - 1 :: Dropped(s, i)[a] != s[i]
  {}

  lemma DroppedEntry<K, V>(m: Model<K, V>, key: K, node: nat, slots: map<nat, V>, position: map<K, nat>, keys: seq<K>,
      gone: K, n: nat)
    requires EntryAgrees(m, key, node, slots, position) && key != gone && node != n
    ensures EntryAgrees(Model(keys, m.values - {gone}), key, node, slots - {n}, position - {gone})
  {}

  lemma DroppedKeys<K, V>(m: Model<K, V>, list: seq<nat>, slots: map<nat, V>, position: map<K, nat>, i: nat)
    requires Agrees(m, list, slots, position) && i < |list|
    ensures forall k | k in position - {m.keys[i]} :: k in Dropped(m.keys, i)
    ensures (position - {m.keys[i]}).Keys == (m.values - {m.keys[i]}).Keys
  {
    DroppedAt(m.keys, i);
    hide Dropped, EntryAgrees;
    forall k | k in position - {m.keys[i]} ensures k in Dropped(m.keys, i) {
      var j := IndexOf(m, list, slots, position, k);
      assert Dropped(m.keys, i)[if j < i then j else j - 1] == k;
    }
  }

  lemma DroppedAgrees<K, V>(m: Model<K, V>, list: seq<nat>, slots: map<nat, V>, position: map<K, nat>, i: nat)
    requires Agrees(m, list, slots, position) && i < |list|
    ensures Agrees(Model(Dropped(m.keys, i), m.values - {m.keys[i]}), Dropped(list, i),
                   slots - {list[i]}, position - {m.keys[i]})
  {
    KeysDistinct(m, list, slots, position);
    DroppedAt(list, i);
    DroppedAt(m.keys, i);
    DroppedDistinct(list, i);
    DroppedDistinct(m.keys, i);
    DroppedKeys(m, list, slots, position, i);
    hide Dropped, EntryAgrees;
    var key := m.keys[i];
    var m', list' := Model(Dropped(m.keys, i), m.values - {key}), Dropped(list, i);
    forall j | 0 <= j < |list'|
      ensures EntryAgrees(m', m'.keys[j], list'[j], slots - {list[i]}, position - {key})
    {
      var j' := if j < i then j else j + 1;
      assert EntryAgrees(m, m.keys[j'], list[j'], slots, position);
      DroppedEntry(m, m.keys[j'], list[j'], slots, position, m'.keys, key, list[i]);
    }
  }

  lemma ErasedAgrees<K, V>(m: Model<K, V>, list: seq<nat>, slots: map<nat, V>, position: map<K, nat>, key: K)
    requires Agrees(m, list, slots, position) && key in position
    ensures Agrees(Model(Removed(m.keys, key), m.values - {key}), Removed(list, position[key]),
                   slots - {position[key]}, position - {key})
    ensures forall n | n in Removed(list, position[key]) :: n in list
  {
    KeysDistinct(m, list, slots, position);
    var i := IndexOf(m, list, slots, position, key);
    RemovedAt(m.keys, i);
    RemovedAt(list, i);
    DroppedAgrees(m, list, slots, position, i);
    hide Agrees, Removed;
  }

  lemma SwapStep<K, V>(m: Model<K, V>, a: K, b: K)
    requires a in m.values && b in m.values
    ensures Step(m, Swap(a, b)) == Model(Exchanged(m.keys, a, b), m.values)
  {}

  function Crossed<K>(position: map<K, nat>, a: K, b: K): map<K, nat>
    requires a in position && b in position
  { position[a := position[b]][b := position[a]] }

  lemma CrossedKeys<K>(position: map<K, nat>, a: K, b: K)
    requires a in position && b in position
    ensures Crossed(position, a, b).Keys == position.Keys
  {}

  /** The node that held one key's value now holds the other's. */
  lemma SwappedEntry<K, V>(m: Model<K, V>, key: K, node: nat, list: List<V>, position: map<K, nat>, a: K, b: K,
      keys: seq<K>)
    requires EntryAgrees(m, key, node, list.slots, position)
    requires a in position && EntryAgrees(m, a, position[a], list.slots, position)
    requires b in position && EntryAgrees(m, b, position[b], list.slots, position)
    requires (node == position[a] ==> key == a) && (node == position[b] ==> key == b)
    ensures EntryAgrees(Model(keys, m.values), Other(key, a, b), node,
                        list.SwapValues(position[a], position[b]).slots, Crossed(position, a, b))
  {}

  lemma SwappedAgrees<K, V>(m: Model<K, V>, list: List<V>, position: map<K, nat>, a: K, b: K)
    requires Agrees(m, list.nodes, list.slots, position) && a in m.values && b in m.values
    ensures a in position && b in position && position[a] in list.slots && position[b] in list.slots
    ensures var out := list.SwapValues(position[a], position[b]);
            && out.nodes == list.nodes && out.next == list.next
            && Agrees(Model(Exchanged(m.keys, a, b), m.values), out.nodes, out.slots, Crossed(position, a, b))
  {
    var nodes, slots := list.nodes, list.slots;
    KeysDistinct(m, nodes, slots, position);
    var ia := IndexOf(m, nodes, slots, position, a);
    var ib := IndexOf(m, nodes, slots, position, b);
    assert position[a] in slots && position[b] in slots;
    CrossedKeys(position, a, b);
    hide EntryAgrees, Crossed;
    var out, position' := list.SwapValues(position[a], position[b]), Crossed(position, a, b);
    var m' := Model(Exchanged(m.keys, a, b), m.values);
    forall j | 0 <= j < |nodes| ensures EntryAgrees(m', m'.keys[j], nodes[j], out.slots, position') {
      assert EntryAgrees(m, m.keys[j], nodes[j], slots, position);
      SwappedEntry(m, m.keys[j], nodes[j], list, position, a, b, m'.keys);
    }
    forall k | k in position' ensures k in m'.keys {
      var j := IndexOf(m, nodes, slots, position, Other(k, a, b));
      assert m'.keys[j] == k;
    }
  }

  // ---------------------------------------------------------------- over any calls

  function Run<K(==), V>(calls: seq<Call<K, V>>): Model<K, V> {
    if calls == [] then Model([], map[]) else Step(Run(calls[..|calls| - 1]), calls[|calls| - 1])
  }

  /** The call that put a present key into the list. */
  function AddedBy<K(==), V>(calls: seq<Call<K, V>>, key: K): nat
    requires key in Run(calls).values
  {
    var n := |calls| - 1;
    if key in Run(calls[..n]).values then AddedBy(calls[..n], key) else n
  }

  ghost predicate Distinct<K>(keys: seq<K>) {
    forall i, j | 0 <= i < j < |keys| :: keys[i] != keys[j]
  }

  ghost predicate SameKeys<K, V>(m: Model<K, V>) {
    && Distinct(m.keys)
    && (forall i | 0 <= i < |m.keys| :: m.keys[i] in m.values)
    && (forall k | k in m.values :: k in m.keys)
  }

  /** The keys in the list are the keys of the values, each once. */
  lemma {:induction false} RunAgrees<K, V>(calls: seq<Call<K, V>>)
    ensures SameKeys(Run(calls))
  {
    if calls != [] {
      var n := |calls| - 1;
      RunAgrees(calls[..n]);
      StepAgrees(Run(calls[..n]), calls[n]);
    }
  }

  lemma StepAgrees<K, V>(m: Model<K, V>, c: Call<K, V>)
    requires SameKeys(m)
    ensures SameKeys(Step(m, c))
  {
    hide Removed, Exchanged;
    match c
    case Add(key, _) =>
      assert key !in m.values ==> forall i | 0 <= i < |m.keys| :: m.keys[i] != key;
    case Erase(key) =>
      RemovedDistinct(m.keys, key);
      var r := Removed(m.keys, key);
      forall i | 0 <= i < |r| ensures r[i] in m.values && r[i] != key { assert r[i] in r; }
    case Swap(a, b) =>
      if a in m.values && b in m.values { ExchangedKeys(m.keys, a, b); }
    case Clear =>
  }

  lemma RemovedDistinct<K>(keys: seq<K>, key: K)
    requires Distinct(keys)
    ensures Distinct(Removed(keys, key))
  {
    hide Removed;
    if key in keys {
      var i :| 0 <= i < |keys| && keys[i] == key;
      RemovedAt(keys, i);
    } else {
      RemovedAbsent(keys, key);
    }
  }

  lemma ExchangedKeys<K>(keys: seq<K>, a: K, b: K)
    requires Distinct(keys) && a in keys && b in keys
    ensures |Exchanged(keys, a, b)| == |keys| && Distinct(Exchanged(keys, a, b))
    ensures forall i | 0 <= i < |keys| :: keys[i] == a ==> Exchanged(keys, a, b)[i] == b
    ensures forall i | 0 <= i < |keys| :: keys[i] == b ==> Exchanged(keys, a, b)[i] == a
    ensures forall i | 0 <= i < |keys| && keys[i] != a && keys[i] != b :: Exchanged(keys, a, b)[i] == keys[i]
    ensures forall i | 0 <= i < |keys| :: Exchanged(keys, a, b)[i] in keys
    ensures forall k | k in keys :: k in Exchanged(keys, a, b)
    ensures Exchanged(Exchanged(keys, a, b), a, b) == keys
  {
    var i :| 0 <= i < |keys| && keys[i] == a;
    var j :| 0 <= j < |keys| && keys[j] == b;
    var out := Exchanged(keys, a, b);
    assert out[i] == b && out[j] == a;
    forall k | k in keys ensures k in out {
      var l :| 0 <= l < |keys| && keys[l] == k;
      assert out[if k == a then j else if k == b then i else l] == k;
    }
  }

  /** Without swaps the list is in insertion order: of two keys, the one in front was added
      by the earlier call. */
  lemma {:induction false} InsertionOrder<K, V>(calls: seq<Call<K, V>>, i: nat, j: nat)
    requires forall c | c in calls :: !c.Swap?
    requires i < j < |Run(calls).keys|
    ensures var m := Run(calls);
            m.keys[i] in m.values && m.keys[j] in m.values &&
            AddedBy(calls, m.keys[i]) < AddedBy(calls, m.keys[j])
  {
    var n := |calls| - 1;
    var before, m := Run(calls[..n]), Run(calls);
    RunAgrees(calls[..n]);
    RunAgrees(calls);
    hide Removed, Exchanged;
    assert m.keys[i] in m.keys && m.keys[j] in m.keys;
    assert m.keys[i] in m.values && m.keys[j] in m.values;
    assert forall c | c in calls[..n] :: c in calls;
    assert calls[n] in calls;
    assert m == Step(before, calls[n]);
    hide Run;
    match calls[n]
    case Add(key, _) =>
      if m.keys[j] in before.values {
        InsertionOrder(calls[..n], i, j);
      } else {
        AddedBefore(calls[..n], m.keys[i]);
      }
    case Erase(key) =>
      var i', j' := RemovedOrder(before.keys, key, i, j);
      InsertionOrder(calls[..n], i', j');
    case Clear =>
  }

  lemma {:induction false} AddedBefore<K, V>(calls: seq<Call<K, V>>, key: K)
    requires key in Run(calls).values
    ensures AddedBy(calls, key) < |calls|
  {
    var n := |calls| - 1;
    if key in Run(calls[..n]).values { AddedBefore(calls[..n], key); }
  }

  lemma RemovedOrder<K>(keys: seq<K>, key: K, i: nat, j: nat) returns (i': nat, j': nat)
    requires Distinct(keys) && i < j < |Removed(keys, key)|
    ensures i' < j' < |keys| && keys[i'] == Removed(keys, key)[i] && keys[j'] == Removed(keys, key)[j]
  {
    if key in keys {
      var at :| 0 <= at < |keys| && keys[at] == key;
      RemovedAt(keys, at);
      i', j' := if i < at then i else i + 1, if j < at then j else j + 1;
    } else {
      RemovedAbsent(keys, key);
      i', j' := i, j;
    }
  }
}
