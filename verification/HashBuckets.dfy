/** The bucketed hash map on its single-threaded paths: singly linked nodes, new ones put
    in front, erased ones unlinked in place. */
module HashBuckets {
  import opened Options

  class Node<K, V> {
    const key: K
    const value: V
    var next: Node?<K, V>

    constructor (key: K, value: V, next: Node?<K, V>)
      ensures this.key == key && this.value == value && this.next == next
    {
      this.key, this.value, this.next := key, value, next;
    }
  }

  function At<K, V>(spine: seq<Node<K, V>>, i: nat): Node?<K, V> {
    if i < |spine| then spine[i] else null
  }

  /** The chain of links from `first` is `spine`. */
  ghost predicate Chain<K, V>(first: Node?<K, V>, spine: seq<Node<K, V>>)
    reads spine
  {
    first == At(spine, 0) && forall i | 0 <= i < |spine| :: spine[i].next == At(spine, i + 1)
  }

  ghost predicate KeysApart<K, V>(spine: seq<Node<K, V>>) {
    forall i, j | 0 <= i < j < |spine| :: spine[i].key != spine[j].key
  }

  ghost predicate HasKey<K, V>(spine: seq<Node<K, V>>, key: K) {
    exists i | 0 <= i < |spine| :: spine[i].key == key
  }

  /** A bucket holds just the entries of its keys. */
  ghost predicate Holds<K, V>(spine: seq<Node<K, V>>, entries: map<K, V>, home: K -> bool) {
    && KeysApart(spine)
    && (forall i | 0 <= i < |spine| ::
          home(spine[i].key) && spine[i].key in entries && entries[spine[i].key] == spine[i].value)
    && (forall k | k in entries && home(k) :: HasKey(spine, k))
  }

  lemma HoldsPushed<K, V>(spine: seq<Node<K, V>>, entries: map<K, V>, home: K -> bool, n: Node<K, V>)
    requires Holds(spine, entries, home) && home(n.key) && n.key !in entries
    ensures Holds([n] + spine, entries[n.key := n.value], home)
  {
    var out := [n] + spine;
    forall k | k in entries[n.key := n.value] && home(k) ensures HasKey(out, k) {
      if k == n.key {
        assert out[0].key == k;
      } else {
        var i :| 0 <= i < |spine| && spine[i].key == k;
        assert out[i + 1].key == k;
      }
    }
  }

  lemma HoldsUnlinked<K, V>(spine: seq<Node<K, V>>, entries: map<K, V>, home: K -> bool, i: nat)
    requires Holds(spine, entries, home) && i < |spine|
    ensures Holds(spine[..i] + spine[i + 1..], entries - {spine[i].key}, home)
  {
    var out := spine[..i] + spine[i + 1..];
    forall k | k in entries - {spine[i].key} && home(k) ensures HasKey(out, k) {
      var j :| 0 <= j < |spine| && spine[j].key == k;
      assert out[if j < i then j else j - 1].key == k;
    }
  }

  lemma HoldsOther<K, V>(spine: seq<Node<K, V>>, entries: map<K, V>, entries': map<K, V>, home: K -> bool, key: K)
    requires Holds(spine, entries, home) && !home(key)
    requires entries' == entries - {key} || (key in entries' && entries' == entries[key := entries'[key]])
    ensures Holds(spine, entries', home)
  {}

  lemma ChainPushed<K, V>(spine: seq<Node<K, V>>, node: Node<K, V>)
    requires Chain(node.next, spine)
    ensures Chain(node, [node] + spine)
  {}

  /** Where a key's node stands in its bucket decides whether it has an entry. */
  lemma HoldsFound<K, V>(spine: seq<Node<K, V>>, entries: map<K, V>, home: K -> bool, key: K, at: nat)
    requires Holds(spine, entries, home) && home(key) && at <= |spine|
    requires at < |spine| ==> spine[at].key == key
    requires forall j | 0 <= j < at :: spine[j].key != key
    ensures at < |spine| <==> key in entries
    ensures at < |spine| ==> spine[at].value == entries[key]
  {
    assert key in entries ==> HasKey(spine, key);
  }

  /** The walk along a bucket to the node of a key. */
  method Walk<K(==), V>(first: Node?<K, V>, key: K, ghost spine: seq<Node<K, V>>)
    returns (prev: Node?<K, V>, cur: Node?<K, V>, ghost at: nat)
    requires Chain(first, spine)
    ensures at <= |spine| && cur == At(spine, at)
    ensures (prev == null <==> at == 0) && (at > 0 ==> prev == spine[at - 1])
    ensures (cur == null <==> at == |spine|) && (cur != null ==> cur.key == key)
    ensures forall j | 0 <= j < at :: spine[j].key != key
  {
    prev, cur, at := null, first, 0;
    while cur != null && cur.key != key
      invariant at <= |spine| && cur == At(spine, at)
      invariant (prev == null <==> at == 0) && (at > 0 ==> prev == spine[at - 1])
      invariant forall j | 0 <= j < at :: spine[j].key != key
      decreases |spine| - at
    {
      prev := cur;
      cur := cur.next;
      at := at + 1;
    }
  }

  class ConcurrentHashMap<K(==), V> {
    const hasher: K -> nat
    const heads: array<Node?<K, V>>
    ghost var spines: seq<seq<Node<K, V>>>
    ghost var entries: map<K, V>

    ghost function Home(i: int): K -> bool
      requires heads.Length > 0
    { (k: K) => hasher(k) % heads.Length == i }

    ghost function Nodes(): set<Node<K, V>>
      reads this
    { NodesOf(spines) }

    ghost predicate Valid()
      reads this, heads, Nodes()
    {
      && heads.Length > 0 && |spines| == heads.Length
      && (forall i | 0 <= i < |spines| :: Chain(heads[i], spines[i]))
      && (forall i | 0 <= i < |spines| :: Holds(spines[i], entries, Home(i)))
    }

    constructor (size: nat, hasher: K -> nat)
      requires size > 0
      ensures Valid() && entries == map[] && fresh(heads) && Nodes() == {}
      ensures this.hasher == hasher
    {
      heads := new Node?<K, V>[size](_ => null);
      this.hasher := hasher;
      spines := seq(size, _ => []);
      entries := map[];
    }

    /** The node of a key, and its position in the bucket. */
    method Locate(key: K) returns (prev: Node?<K, V>, cur: Node?<K, V>, ghost at: nat)
      requires Valid()
      ensures var spine := spines[hasher(key) % heads.Length];
              && at <= |spine| && cur == At(spine, at)
              && (prev == null <==> at == 0) && (at > 0 ==> prev == spine[at - 1])
              && (cur == null <==> key !in entries)
              && (cur != null ==> cur.key == key && cur.value == entries[key])
    {
      hide Holds;
      var index := hasher(key) % heads.Length;
      prev, cur, at := Walk(heads[index], key, spines[index]);
      HoldsFound(spines[index], entries, Home(index), key, at);
    }

    method Find(key: K) returns (found: Option<V>)
      requires Valid()
      ensures found == if key in entries then Some(entries[key]) else None
    {
      var _, cur, _ := Locate(key);
      found := if cur != null then Some(cur.value) else None;
    }

    /** A new entry goes in front of its bucket; an old one is left alone. */
    method EmplaceUnsafe(key: K, value: V)
      requires Valid()
      modifies this, heads
      ensures Valid()
      ensures entries == if key in old(entries) then old(entries) else old(entries)[key := value]
      ensures forall n | n in Nodes() :: n in old(Nodes()) || fresh(n)
    {
      var found := Find(key);
      if found.None? {
        var index := hasher(key) % heads.Length;
        var node := new Node(key, value, heads[index]);
        EntriesWith(node, index);
        NodesWith(index, node);
        hide Holds, NodesOf, Chain;
        PutFront(node, index);
      }
    }

    /** The node becomes the bucket's first. */
    method PutFront(node: Node<K, V>, index: nat)
      requires |spines| == heads.Length && forall i | 0 <= i < |spines| :: Chain(heads[i], spines[i])
      requires index < |spines| && node.next == heads[index]
      modifies this`spines, this`entries, heads
      ensures entries == old(entries)[node.key := node.value]
      ensures spines == old(spines)[index := [node] + old(spines)[index]]
      ensures forall i | 0 <= i < |spines| :: Chain(heads[i], spines[i])
    {
      ChainPushed(spines[index], node);
      heads[index] := node;
      spines := spines[index := [node] + spines[index]];
      entries := entries[node.key := node.value];
    }

    /** A node has one bucket: the one its key hashes to. */
    lemma HasOneBucket(i: nat, j: nat, a: nat)
      requires Valid() && i < |spines| && j < |spines| && i != j && a < |spines[i]|
      ensures spines[i][a] !in spines[j]
    {
      assert Holds(spines[i], entries, Home(i)) && Holds(spines[j], entries, Home(j));
    }

    /** The predecessor of a node, or the bucket, gets the node's link. */
    method Unlink(index: nat, prev: Node?<K, V>, cur: Node<K, V>, ghost at: nat, ghost spine: seq<Node<K, V>>)
      requires index < heads.Length && Chain(heads[index], spine) && at < |spine| && cur == spine[at]
      requires forall i, j | 0 <= i < j < |spine| :: spine[i] != spine[j]
      requires prev == if at == 0 then null else spine[at - 1]
      modifies heads, if prev == null then {} else {prev}
      ensures Chain(heads[index], spine[..at] + spine[at + 1..])
      ensures forall i | 0 <= i < heads.Length && i != index :: heads[i] == old(heads[i])
    {
      if prev != null {
        prev.next := cur.next;
      } else {
        heads[index] := cur.next;
      }
      ghost var out := spine[..at] + spine[at + 1..];
      assert forall j | 0 <= j < |out| :: out[j] == spine[if j < at then j else j + 1];
    }

    lemma SpineIsApart(index: nat)
      requires Valid() && index < |spines|
      ensures forall i, j | 0 <= i < j < |spines[index]| :: spines[index][i] != spines[index][j]
    {
      assert Holds(spines[index], entries, Home(index));
    }

    lemma IsNode(i: nat, j: nat)
      requires i < |spines| && j < |spines[i]|
      ensures spines[i][j] in Nodes()
    {}

    lemma EntriesWith(node: Node<K, V>, index: nat)
      requires Valid() && index == hasher(node.key) % heads.Length && node.key !in entries
      ensures var out := spines[index := [node] + spines[index]];
              forall i | 0 <= i < |out| :: Holds(out[i], entries[node.key := node.value], Home(i))
    {
      hide Holds;
      var out, entries' := spines[index := [node] + spines[index]], entries[node.key := node.value];
      forall i | 0 <= i < |out| ensures Holds(out[i], entries', Home(i)) {
        assert Holds(spines[i], entries, Home(i));
        if i == index {
          HoldsPushed(spines[index], entries, Home(index), node);
        } else {
          HoldsOther(spines[i], entries, entries', Home(i), node.key);
        }
      }
    }

    lemma EntriesWithout(at: nat, index: nat, key: K)
      requires Valid() && index == hasher(key) % heads.Length && at < |spines[index]| && spines[index][at].key == key
      ensures var out := spines[index := spines[index][..at] + spines[index][at + 1..]];
              forall i | 0 <= i < |out| :: Holds(out[i], entries - {key}, Home(i))
    {
      var out := spines[index := spines[index][..at] + spines[index][at + 1..]];
      forall i | 0 <= i < |out| ensures Holds(out[i], entries - {key}, Home(i)) {
        assert Holds(spines[i], entries, Home(i));
        if i == index {
          HoldsUnlinked(spines[index], entries, Home(index), at);
        } else {
          HoldsOther(spines[i], entries, entries - {key}, Home(i), key);
        }
      }
    }

    /** The entry is removed, and returned. */
    method ExtractUnsafe(key: K) returns (found: Option<V>)
      requires Valid()
      modifies this`spines, this`entries, heads, Nodes()
      ensures Valid()
      ensures found == if key in old(entries) then Some(old(entries)[key]) else None
      ensures entries == old(entries) - {key}
      ensures Nodes() <= old(Nodes())
    {
      hide Holds, Chain, NodesOf;
      var prev, cur, at := Locate(key);
      if cur == null {
        assert entries == entries - {key};
        return None;
      }
      var index := hasher(key) % heads.Length;
      EntriesWithout(at, index, key);
      ghost var spine := spines[index];
      SpineIsApart(index);
      assert Chain(heads[index], spine);
      if prev != null {
        IsNode(index, at - 1);
        forall i | 0 <= i < |spines| && i != index ensures prev !in spines[i] { HasOneBucket(index, i, at - 1); }
      }
      Unlink(index, prev, cur, at, spine);
      forall i | 0 <= i < |spines| && i != index ensures Chain(heads[i], spines[i]) {
        assert old(Chain(heads[i], spines[i]));
      }
      found := Some(cur.value);
      NodesWithout(index, at);
      spines := spines[index := spines[index][..at] + spines[index][at + 1..]];
      entries := entries - {key};
    }

    ghost function NodesOf(spines: seq<seq<Node<K, V>>>): set<Node<K, V>> {
      set i, j | 0 <= i < |spines| && 0 <= j < |spines[i]| :: spines[i][j]
    }

    lemma NodesWith(index: nat, node: Node<K, V>)
      requires index < |spines|
      ensures NodesOf(spines[index := [node] + spines[index]]) <= NodesOf(spines) + {node}
    {
      var out := spines[index := [node] + spines[index]];
      forall i, j | 0 <= i < |out| && 0 <= j < |out[i]| ensures out[i][j] in NodesOf(spines) + {node} {
        if i != index {
          assert out[i][j] == spines[i][j];
        } else if j > 0 {
          assert out[i][j] == spines[i][j - 1];
        }
      }
    }

    lemma NodesWithout(index: nat, at: nat)
      requires index < |spines| && at < |spines[index]|
      ensures NodesOf(spines[index := spines[index][..at] + spines[index][at + 1..]]) <= NodesOf(spines)
    {}

    method EraseUnsafe(key: K)
      requires Valid()
      modifies this`spines, this`entries, heads, Nodes()
      ensures Valid() && entries == old(entries) - {key} && Nodes() <= old(Nodes())
    {
      var _ := ExtractUnsafe(key);
    }

    /** A bucket drops its nodes from the front. */
    method Reset(i: nat, ghost spine: seq<Node<K, V>>)
      requires i < heads.Length && Chain(heads[i], spine)
      modifies heads
      ensures heads[..] == old(heads[..])[i := null]
    {
      ghost var rest := spine;
      while heads[i] != null
        invariant Chain(heads[i], rest)
        invariant heads[..] == old(heads[..])[i := heads[i]]
        decreases |rest|
      {
        heads[i] := heads[i].next;
        rest := rest[1..];
      }
    }

    method ClearUnsafe()
      requires Valid()
      modifies this`spines, this`entries, heads
      ensures Valid() && entries == map[] && Nodes() == {}
    {
      hide Holds;
      for i := 0 to heads.Length
        invariant forall j | 0 <= j < i :: heads[j] == null
        invariant spines == old(spines) && |spines| == heads.Length
        invariant forall j | i <= j < heads.Length :: Chain(heads[j], spines[j])
      {
        Reset(i, spines[i]);
      }
      spines := seq(heads.Length, _ => []);
      entries := map[];
      forall i | 0 <= i < |spines| ensures Holds(spines[i], entries, Home(i)) { HoldsNothing<K, V>(Home(i)); }
    }
  }

  lemma HoldsNothing<K, V>(home: K -> bool)
    ensures Holds<K, V>([], map[], home)
  {}
}
