/** The block ring and block index of one explicit producer of the vendored queue:
    single enqueues and dequeues in sequence, with block reuse and index doubling.

    Indices are unbounded; block index entries and comparisons hold their 64-bit words.
    Blocks live in an arena and point at each other by number. */
module BlockRing {
  import opened Options
  import opened MachineWords

  const BLOCK_SIZE := 32
  const INITIAL_INDEX_SIZE := 32
  const NULL := -1
  /** A block takes more than 64 bytes of a 64-bit address space. */
  const MAX_BLOCKS := 0x400_0000_0000_0000

  /** `slots` is the element memory: None where no element is constructed. */
  datatype Block<T> = Block(next: int, slots: seq<Option<T>>, emptyFlags: seq<bool>)

  datatype Entry = Entry(base: nat, block: int)

  // ---------------------------------------------------------------- what the structure means

  /** Base of the block that holds index tail - 1. */
  function TailBase(tail: nat): int {
    if tail == 0 then -BLOCK_SIZE else tail - 1 - (tail - 1) % BLOCK_SIZE
  }

  /** Base of the block at position j, counted from the oldest, of a ring of n blocks
      whose newest holds index tail - 1. */
  function Base(tail: nat, n: int, j: int): int {
    TailBase(tail) - BLOCK_SIZE * (n - 1 - j)
  }

  /** Blocks `ring`, oldest first, form a circle through their next pointers. */
  ghost predicate Circle<T>(ring: seq<int>, blocks: seq<Block<T>>, tailBlock: int) {
    && (ring == [] ==> tailBlock == NULL)
    && (forall j | 0 <= j < |ring| :: 0 <= ring[j] < |blocks|)
    && (forall j | 0 <= j < |ring| - 1 :: blocks[ring[j]].next == ring[j + 1])
    && (ring != [] ==> tailBlock == ring[|ring| - 1] && blocks[tailBlock].next == ring[0])
    && (forall i, j | 0 <= i < j < |ring| :: ring[i] != ring[j])
    && |ring| <= |blocks| < MAX_BLOCKS
  }

  /** Block b with the given base holds the live elements of its range, and its flags
      tell which elements of its range have been dequeued. */
  ghost predicate BlockOk<T>(b: Block<T>, base: int, head: nat, log: seq<T>) {
    && base >= 0
    && |b.slots| == BLOCK_SIZE && |b.emptyFlags| == BLOCK_SIZE
    && (forall f | 0 <= f < BLOCK_SIZE :: b.emptyFlags[f] <==> base + BLOCK_SIZE - 1 - f < head)
    && (forall i | 0 <= i < BLOCK_SIZE :: head <= base + i < |log| ==> b.slots[i] == Some(log[base + i]))
  }

  ghost predicate BlocksOk<T>(ring: seq<int>, blocks: seq<Block<T>>, tail: nat, head: nat, log: seq<T>)
    requires forall j | 0 <= j < |ring| :: 0 <= ring[j] < |blocks|
  {
    forall j | 0 <= j < |ring| :: BlockOk(blocks[ring[j]], Base(tail, |ring|, j), head, log)
  }

  /** Slot of the block index for position j of a ring of n blocks. */
  function EntrySlot(prFront: nat, n: int, j: int, size: int): nat
    requires size > 0
  {
    (prFront + j - n) % size
  }

  ghost predicate IndexOk(entries: seq<Entry>, prFront: nat, front: int, ring: seq<int>, tail: nat) {
    && |ring| <= |entries|
    && (entries != [] ==> prFront < |entries|)
    && (ring != [] ==> front == (prFront - 1) % |entries|)
    && (forall j | 0 <= j < |ring| ::
          entries[EntrySlot(prFront, |ring|, j, |entries|)] == Entry(Word(Base(tail, |ring|, j)), ring[j]))
  }

  // ---------------------------------------------------------------- moving on to the next block

  /** The ring after its oldest `drop` blocks are given up and block b becomes newest. */
  function Advanced(ring: seq<int>, drop: nat, b: int): (r: seq<int>)
    requires drop <= |ring|
    ensures |r| == |ring| - drop + 1
  {
    ring[drop..] + [b]
  }

  lemma AdvancedBase(ring: seq<int>, drop: nat, b: int, tail: nat, j: nat)
    requires drop <= |ring| && tail % BLOCK_SIZE == 0 && j < |Advanced(ring, drop, b)|
    ensures Base(tail + 1, |Advanced(ring, drop, b)|, j) ==
            if j == |ring| - drop then tail as int else Base(tail, |ring|, drop + j)
  {
  }

  /** Where the positions of the advanced ring are looked up. */
  lemma AdvancedSlot(prFront: nat, n: nat, drop: nat, j: nat, size: int)
    requires prFront < size && drop <= n && n - drop < size && j <= n - drop
    ensures EntrySlot((prFront + 1) % size, n - drop + 1, j, size) ==
            if j == n - drop then prFront else EntrySlot(prFront, n, drop + j, size)
    ensures j < n - drop ==> EntrySlot(prFront, n, drop + j, size) != prFront
  {
    ModOffset(prFront + 1, j - (n - drop + 1), size);
    DivUnique(prFront, 0, prFront, size);
    if j < n - drop {
      ModApart(prFront + drop + j - n, prFront, size);
    }
  }

  lemma LastFront(prFront: nat, size: int)
    requires prFront < size
    ensures ((prFront + 1) % size - 1) % size == prFront
  {
    ModOffset(prFront + 1, -1, size);
    DivUnique(prFront, 0, prFront, size);
  }

  /** Publishing the new newest block in the slot at the front keeps every other entry
      of the ring where it is looked up. */
  lemma PublishedIndex(entries: seq<Entry>, prFront: nat, front: int, ring: seq<int>, drop: nat, b: int, tail: nat)
    requires IndexOk(entries, prFront, front, ring, tail) && tail % BLOCK_SIZE == 0
    requires drop <= |ring| && |ring| - drop < |entries|
    ensures IndexOk(entries[prFront := Entry(Word(tail), b)], (prFront + 1) % |entries|, prFront,
                    Advanced(ring, drop, b), tail + 1)
  {
    var ring', size := Advanced(ring, drop, b), |entries|;
    var entries', prFront' := entries[prFront := Entry(Word(tail), b)], (prFront + 1) % size;
    LastFront(prFront, size);
    forall j | 0 <= j < |ring'|
      ensures entries'[EntrySlot(prFront', |ring'|, j, size)] == Entry(Word(Base(tail + 1, |ring'|, j)), ring'[j])
    {
      AdvancedBase(ring, drop, b, tail, j);
      AdvancedSlot(prFront, |ring|, drop, j, size);
      if j < |ring| - drop {
        assert ring'[j] == ring[drop + j];
      }
    }
  }

  /** A new newest block whose flags are all down leaves every element in place. */
  lemma AdvancedBlocks<T>(ring: seq<int>, blocks: seq<Block<T>>, drop: nat, b: int, blocks': seq<Block<T>>,
                          tail: nat, head: nat, log: seq<T>)
    requires forall j | 0 <= j < |ring| :: 0 <= ring[j] < |blocks|
    requires BlocksOk(ring, blocks, tail, head, log)
    requires drop <= |ring| && tail % BLOCK_SIZE == 0 && head <= tail == |log|
    requires |blocks| <= |blocks'| && 0 <= b < |blocks'|
    requires forall j | drop <= j < |ring| :: blocks'[ring[j]].(next := 0) == blocks[ring[j]].(next := 0)
    requires |blocks'[b].slots| == BLOCK_SIZE
    requires blocks'[b].emptyFlags == seq(BLOCK_SIZE, _ => false)
    ensures BlocksOk(Advanced(ring, drop, b), blocks', tail + 1, head, log)
  {
    var ring' := Advanced(ring, drop, b);
    forall j | 0 <= j < |ring'|
      ensures BlockOk(blocks'[ring'[j]], Base(tail + 1, |ring'|, j), head, log)
    {
      AdvancedBase(ring, drop, b, tail, j);
      if j < |ring| - drop {
        assert BlockOk(blocks[ring[drop + j]], Base(tail, |ring|, drop + j), head, log);
      }
    }
  }

  /** Constructing the element of index |log| in the newest block. */
  lemma ConstructedBlocks<T>(ring: seq<int>, blocks: seq<Block<T>>, head: nat, log: seq<T>, x: T)
    requires forall j | 0 <= j < |ring| :: 0 <= ring[j] < |blocks|
    requires forall i, j | 0 <= i < j < |ring| :: ring[i] != ring[j]
    requires ring != [] && head <= |log| && BlocksOk(ring, blocks, |log| + 1, head, log)
    ensures var t := ring[|ring| - 1];
            |blocks[t].slots| == BLOCK_SIZE &&
            var b := blocks[t].(slots := blocks[t].slots[|log| % BLOCK_SIZE := Some(x)]);
            BlocksOk(ring, blocks[t := b], |log| + 1, head, log + [x])
  {
    var n, t := |ring|, ring[|ring| - 1];
    assert BlockOk(blocks[t], Base(|log| + 1, n, n - 1), head, log);
    var b := blocks[t].(slots := blocks[t].slots[|log| % BLOCK_SIZE := Some(x)]);
    forall j | 0 <= j < n
      ensures BlockOk(blocks[t := b][ring[j]], Base(|log| + 1, n, j), head, log + [x])
    {
      assert BlockOk(blocks[ring[j]], Base(|log| + 1, n, j), head, log);
    }
  }

  /** Destroying the element of index head and raising its flag. */
  lemma DestroyedBlocks<T>(ring: seq<int>, blocks: seq<Block<T>>, tail: nat, head: nat, log: seq<T>, k: int)
    requires forall j | 0 <= j < |ring| :: 0 <= ring[j] < |blocks|
    requires forall i, j | 0 <= i < j < |ring| :: ring[i] != ring[j]
    requires BlocksOk(ring, blocks, tail, head, log)
    requires 0 <= k < |ring| && Base(tail, |ring|, k) <= head < Base(tail, |ring|, k) + BLOCK_SIZE
    ensures var t := ring[k];
            |blocks[t].slots| == BLOCK_SIZE && |blocks[t].emptyFlags| == BLOCK_SIZE &&
            var b := blocks[t].(slots := blocks[t].slots[head % BLOCK_SIZE := None],
                                emptyFlags := blocks[t].emptyFlags[BLOCK_SIZE - 1 - head % BLOCK_SIZE := true]);
            BlocksOk(ring, blocks[t := b], tail, head + 1, log)
  {
    var n, t := |ring|, ring[k];
    assert BlockOk(blocks[t], Base(tail, n, k), head, log);
    assert head % BLOCK_SIZE == head - Base(tail, n, k);
    var b := blocks[t].(slots := blocks[t].slots[head % BLOCK_SIZE := None],
                        emptyFlags := blocks[t].emptyFlags[BLOCK_SIZE - 1 - head % BLOCK_SIZE := true]);
    forall j | 0 <= j < n
      ensures BlockOk(blocks[t := b][ring[j]], Base(tail, n, j), head + 1, log)
    {
      assert BlockOk(blocks[ring[j]], Base(tail, n, j), head, log);
      if j < k {
        assert Base(tail, n, j) + BLOCK_SIZE <= Base(tail, n, k);
      } else if j > k {
        assert Base(tail, n, k) + BLOCK_SIZE <= Base(tail, n, j);
      }
    }
  }

  lemma RotatedCircle<T>(ring: seq<int>, blocks: seq<Block<T>>, tailBlock: int)
    requires Circle(ring, blocks, tailBlock) && ring != []
    ensures Circle(Advanced(ring, 1, ring[0]), blocks, ring[0])
  {
  }

  /** The blocks after block nb, not yet in the circle, is linked in after the tail. */
  function Linked<T>(blocks: seq<Block<T>>, tailBlock: int, nb: int): (r: seq<Block<T>>)
    requires 0 <= nb < |blocks| && NULL <= tailBlock < |blocks|
  {
    if tailBlock == NULL then
      blocks[nb := blocks[nb].(next := nb)]
    else
      var first := blocks[tailBlock].next;
      blocks[nb := blocks[nb].(next := first)][tailBlock := blocks[tailBlock].(next := nb)]
  }

  lemma GrownCircle<T>(ring: seq<int>, blocks: seq<Block<T>>, tailBlock: int, nb: Block<T>)
    requires Circle(ring, blocks, tailBlock) && |blocks| + 1 < MAX_BLOCKS
    ensures Circle(Advanced(ring, 0, |blocks|), Linked(blocks + [nb], tailBlock, |blocks|), |blocks|)
  {
  }

  /** Inside a block the next index belongs to the newest block already. */
  lemma SameBlock<T>(entries: seq<Entry>, prFront: nat, front: int, ring: seq<int>, blocks: seq<Block<T>>,
                     tail: nat, head: nat, log: seq<T>)
    requires tail % BLOCK_SIZE != 0
    requires forall j | 0 <= j < |ring| :: 0 <= ring[j] < |blocks|
    requires BlocksOk(ring, blocks, tail, head, log) && IndexOk(entries, prFront, front, ring, tail)
    ensures BlocksOk(ring, blocks, tail + 1, head, log) && IndexOk(entries, prFront, front, ring, tail + 1)
    ensures Base(tail + 1, |ring|, 0) == Base(tail, |ring|, 0)
  {
    assert TailBase(tail + 1) == TailBase(tail);
    assert forall j | 0 <= j < |ring| :: Base(tail + 1, |ring|, j) == Base(tail, |ring|, j);
  }

  // ---------------------------------------------------------------- looking an index up

  lemma WordRemainder(x: int)
    ensures Word(x) % BLOCK_SIZE == x % BLOCK_SIZE
    ensures Word(x) - Word(x) % BLOCK_SIZE == Word(x - x % BLOCK_SIZE)
  {
    var q := x / M;
    assert x == Word(x) + (q * (M / BLOCK_SIZE)) * BLOCK_SIZE;
    ModMultiple(Word(x), q * (M / BLOCK_SIZE), BLOCK_SIZE);
    var r := x % BLOCK_SIZE;
    assert x - r == Word(x) - r + q * M;
    DivUnique(x - r, q, Word(x) - r, M);
  }

  /** Number of blocks from the newest entry to the block of index i, as `dequeue`
      computes it from words. */
  function BlockOffset(i: nat, headBase: nat): int {
    var blockBase := Word(i) - Word(i) % BLOCK_SIZE;
    Signed(Word(blockBase - headBase)) / BLOCK_SIZE
  }

  lemma BlockOffsetExact(tail: nat, n: int, k: int, i: nat)
    requires 0 <= k < n < MAX_BLOCKS
    requires Base(tail, n, k) <= i < Base(tail, n, k) + BLOCK_SIZE
    ensures BlockOffset(i, Word(Base(tail, n, n - 1))) == k - (n - 1)
  {
    var base, last := Base(tail, n, k), Base(tail, n, n - 1);
    WordRemainder(i);
    assert i - i % BLOCK_SIZE == base;
    WordOfDifference(base, last);
    assert base - last == BLOCK_SIZE * (k - (n - 1));
    SignedWord(base - last);
  }

  /** The lookup of `dequeue` lands on the block whose range the index lies in. */
  lemma LookupFinds(entries: seq<Entry>, prFront: nat, front: int, ring: seq<int>, tail: nat, i: nat, k: int)
    requires IndexOk(entries, prFront, front, ring, tail) && |ring| < MAX_BLOCKS
    requires 0 <= k < |ring| && Base(tail, |ring|, k) <= i < Base(tail, |ring|, k) + BLOCK_SIZE
    ensures 0 <= front < |entries|
    ensures entries[(front + BlockOffset(i, entries[front].base)) % |entries|].block == ring[k]
  {
    var n, size := |ring|, |entries|;
    assert front == EntrySlot(prFront, n, n - 1, size);
    assert entries[front] == Entry(Word(Base(tail, n, n - 1)), ring[n - 1]);
    BlockOffsetExact(tail, n, k, i);
    ModOffset(prFront - 1, k - (n - 1), size);
    assert (front + (k - (n - 1))) % size == EntrySlot(prFront, n, k, size);
  }

  // ---------------------------------------------------------------- doubling the index

  /** The copying loop of `new_block_index`: oldest entry first. */
  method CopyEntries(entries: seq<Entry>, prFront: nat, used: nat, newSize: nat) returns (copy: seq<Entry>, j: nat)
    requires used <= |entries| <= newSize && (entries != [] ==> prFront < |entries|)
    ensures j == used && |copy| == newSize
    ensures forall k | 0 <= k < used :: copy[k] == entries[EntrySlot(prFront, used, k, |entries|)]
  {
    var size := |entries|;
    copy, j := seq(newSize, _ => Entry(0, NULL)), 0;
    if used != 0 {
      var i := (prFront - used) % size;
      while true
        invariant 0 <= j < used && i == EntrySlot(prFront, used, j, size) && |copy| == newSize
        invariant forall k | 0 <= k < j :: copy[k] == entries[EntrySlot(prFront, used, k, size)]
        decreases used - j
      {
        NextSlot(prFront, used, j, size);
        copy := copy[j := entries[i]];
        j, i := j + 1, (i + 1) % size;
        if i == prFront { break; }
      }
    }
  }

  lemma NextSlot(prFront: nat, used: nat, j: nat, size: int)
    requires prFront < size && j < used <= size
    ensures (EntrySlot(prFront, used, j, size) + 1) % size == EntrySlot(prFront, used, j + 1, size)
    ensures EntrySlot(prFront, used, j + 1, size) == prFront <==> j + 1 == used
  {
    ModOffset(prFront + j - used, 1, size);
    DivUnique(prFront, 0, prFront, size);
    if j + 1 < used { ModApart(prFront + j + 1 - used, prFront, size); }
  }

  lemma CopiedIndex(entries: seq<Entry>, prFront: nat, front: int, ring: seq<int>, tail: nat, copy: seq<Entry>)
    requires IndexOk(entries, prFront, front, ring, tail) && |ring| < |copy|
    requires forall k | 0 <= k < |ring| :: copy[k] == entries[EntrySlot(prFront, |ring|, k, |entries|)]
    ensures IndexOk(copy, |ring|, |ring| - 1, ring, tail)
  {
    forall j | 0 <= j < |ring|
      ensures copy[EntrySlot(|ring|, |ring|, j, |copy|)] == Entry(Word(Base(tail, |ring|, j)), ring[j])
    {
      DivUnique(j, 0, j, |copy|);
    }
    if ring != [] { DivUnique(|ring| - 1, 0, |ring| - 1, |copy|); }
  }

  // ---------------------------------------------------------------- the producer

  /** The live elements fit in the window of the wrapped comparison. */
  lemma SpanBound(tail: nat, n: nat, head: nat)
    requires n < MAX_BLOCKS && Base(tail, n, 0) <= head <= tail
    ensures tail - head <= BLOCK_SIZE * n < M / 2
  {
  }

  /** Position of the block of a live index. */
  ghost function Position(tail: nat, n: nat, i: nat): (k: int)
    requires Base(tail, n, 0) <= i < tail
    ensures 0 <= k < n && Base(tail, n, k) <= i < Base(tail, n, k) + BLOCK_SIZE
  {
    (i - Base(tail, n, 0)) / BLOCK_SIZE
  }

  lemma LiveElement<T>(ring: seq<int>, blocks: seq<Block<T>>, tail: nat, head: nat, log: seq<T>, k: int)
    requires forall j | 0 <= j < |ring| :: 0 <= ring[j] < |blocks|
    requires BlocksOk(ring, blocks, tail, head, log) && head < tail == |log|
    requires 0 <= k < |ring| && Base(tail, |ring|, k) <= head < Base(tail, |ring|, k) + BLOCK_SIZE
    ensures |blocks[ring[k]].slots| == BLOCK_SIZE && |blocks[ring[k]].emptyFlags| == BLOCK_SIZE
    ensures blocks[ring[k]].slots[head % BLOCK_SIZE] == Some(log[head])
  {
    assert BlockOk(blocks[ring[k]], Base(tail, |ring|, k), head, log);
  }

  /** All flags of the oldest block are up exactly when the head has left it. */
  lemma OldestBlock<T>(ring: seq<int>, blocks: seq<Block<T>>, tail: nat, head: nat, log: seq<T>)
    requires forall j | 0 <= j < |ring| :: 0 <= ring[j] < |blocks|
    requires BlocksOk(ring, blocks, tail, head, log) && ring != []
    ensures |blocks[ring[0]].slots| == BLOCK_SIZE && |blocks[ring[0]].emptyFlags| == BLOCK_SIZE
    ensures (forall f | 0 <= f < BLOCK_SIZE :: blocks[ring[0]].emptyFlags[f]) <==>
            Base(tail, |ring|, 0) + BLOCK_SIZE <= head
  {
    var b := blocks[ring[0]];
    assert BlockOk(b, Base(tail, |ring|, 0), head, log);
    assert b.emptyFlags[0] <==> Base(tail, |ring|, 0) + BLOCK_SIZE <= head;
  }

  /** At the end of a block the oldest block is dequeued when all elements fit into the others. */
  lemma WholeTail(tail: nat, n: nat)
    requires tail % BLOCK_SIZE == 0
    ensures Base(tail, n, 0) + BLOCK_SIZE == tail - 32 * (n - 1)
  {}

  lemma IndexFacts(entries: seq<Entry>, prFront: nat, front: int, ring: seq<int>, tail: nat)
    requires IndexOk(entries, prFront, front, ring, tail)
    ensures |ring| <= |entries|
    ensures entries != [] ==> prFront < |entries|
    ensures ring != [] ==> 0 <= front < |entries|
  {
  }

  /** The circle is made of next pointers only. */
  lemma CircleKept<T>(ring: seq<int>, blocks: seq<Block<T>>, tailBlock: int, t: int, b: Block<T>)
    requires Circle(ring, blocks, tailBlock) && 0 <= t < |blocks| && b.next == blocks[t].next
    ensures Circle(ring, blocks[t := b], tailBlock)
  {
  }

  lemma AdvancedSpan(ring: seq<int>, drop: nat, b: int, tail: nat, head: nat)
    requires drop <= |ring| && tail % BLOCK_SIZE == 0 && head <= tail
    requires 0 <= Base(tail, |ring|, 0) && Base(tail, |ring|, 0) + drop * BLOCK_SIZE <= head
    ensures 0 <= Base(tail + 1, |Advanced(ring, drop, b)|, 0) <= head
  {
    AdvancedBase(ring, drop, b, tail, 0);
  }

  /** With fewer than MAX_BLOCKS blocks there is always leeway for one more. */
  lemma Leeway(tail: nat, n: nat, head: nat)
    requires n + 1 < MAX_BLOCKS && Base(tail, n, 0) <= head <= tail
    ensures CircularLess(Word(head), Word(tail + BLOCK_SIZE))
  {
    CircularLessExact(head, tail + BLOCK_SIZE);
  }

  lemma CircleFacts<T>(ring: seq<int>, blocks: seq<Block<T>>, tailBlock: int)
    requires Circle(ring, blocks, tailBlock)
    ensures |ring| <= |blocks| < MAX_BLOCKS
    ensures forall j | 0 <= j < |ring| :: 0 <= ring[j] < |blocks|
    ensures forall i, j | 0 <= i < j < |ring| :: ring[i] != ring[j]
    ensures ring == [] <==> tailBlock == NULL
    ensures ring != [] ==> tailBlock == ring[|ring| - 1] && blocks[tailBlock].next == ring[0]
  {
  }


  class ExplicitProducer<T> {
    var tailIndex: nat
    var headIndex: nat
    var optimistic: nat
    var overcommit: nat
    var tailBlock: int
    var blocks: seq<Block<T>>
    /** The block index; empty as long as its first allocation has failed. */
    var entries: seq<Entry>
    var front: int
    var prSlotsUsed: nat
    var prSize: nat
    var prFront: nat

    /** Every element ever enqueued, by index. */
    ghost var log: seq<T>
    /** Block numbers from the oldest to the newest. */
    ghost var ring: seq<int>

    /** What the queue holds. */
    ghost function Contents(): seq<T>
      reads this
      requires headIndex <= |log|
    {
      log[headIndex..]
    }

    /** All but the tail index is as it should be once `tail` elements are enqueued. */
    ghost predicate Agrees(tail: nat)
      reads this
    {
      && headIndex <= tailIndex == |log|
      && optimistic == overcommit + headIndex
      && Circle(ring, blocks, tailBlock)
      && BlocksOk(ring, blocks, tail, headIndex, log)
      && IndexOk(entries, prFront, front, ring, tail)
      && prSlotsUsed == |ring| && prSize > 0 && (entries == [] || |entries| == prSize)
      && (tail == 0 <==> ring == [])
      && 0 <= Base(tail, |ring|, 0) <= headIndex
    }

    ghost predicate Valid()
      reads this
    {
      Agrees(tailIndex)
    }

    /** `indexAllocated`: the first allocation of the block index succeeds. */
    constructor (indexAllocated: bool)
      ensures Valid() && Contents() == []
    {
      tailIndex, headIndex, optimistic, overcommit := 0, 0, 0, 0;
      tailBlock, blocks := NULL, [];
      prSlotsUsed, prFront, front := 0, 0, NULL;
      log, ring := [], [];
      if indexAllocated {
        prSize, entries := INITIAL_INDEX_SIZE, seq(INITIAL_INDEX_SIZE, _ => Entry(0, NULL));
      } else {
        prSize, entries := INITIAL_INDEX_SIZE / 2, [];
      }
    }

    /** `Block::is_empty`: the flags tell whether every element has been dequeued. */
    method IsEmpty(b: int) returns (empty: bool)
      requires 0 <= b < |blocks| && |blocks[b].emptyFlags| == BLOCK_SIZE
      ensures empty <==> forall f | 0 <= f < BLOCK_SIZE :: blocks[b].emptyFlags[f]
    {
      for i := 0 to BLOCK_SIZE
        invariant forall f | 0 <= f < i :: blocks[b].emptyFlags[f]
      {
        if !blocks[b].emptyFlags[i] { return false; }
      }
      return true;
    }

    /** `Block::reset_empty`. */
    method ResetEmpty(b: int)
      requires 0 <= b < |blocks| && |blocks[b].emptyFlags| == BLOCK_SIZE
      modifies this`blocks
      ensures blocks == old(blocks)[b := old(blocks)[b].(emptyFlags := seq(BLOCK_SIZE, _ => false))]
    {
      for i := 0 to BLOCK_SIZE
        invariant |blocks| == |old(blocks)| && |blocks[b].emptyFlags| == BLOCK_SIZE
        invariant blocks == old(blocks)[b := old(blocks)[b].(emptyFlags := blocks[b].emptyFlags)]
        invariant forall f | 0 <= f < i :: !blocks[b].emptyFlags[f]
      {
        blocks := blocks[b := blocks[b].(emptyFlags := blocks[b].emptyFlags[i := false])];
      }
      assert blocks[b].emptyFlags == seq(BLOCK_SIZE, _ => false);
    }

    /** `new_block_index`: an index of double size, the old entries copied in oldest first. */
    method NewBlockIndex(canAlloc: bool) returns (ok: bool)
      requires Valid() && |entries| == |ring|
      modifies this`prSize, this`entries, this`front, this`prFront
      ensures Valid()
      ensures ok == canAlloc
      ensures if ok then |entries| > |ring| else entries == old(entries)
    {
      hide Circle, BlocksOk, IndexOk;
      if !canAlloc { return false; }
      IndexFacts(entries, prFront, front, ring, tailIndex);
      var copy, j := CopyEntries(entries, prFront, prSlotsUsed, 2 * prSize);
      CopiedIndex(entries, prFront, front, ring, tailIndex, copy);
      front, prFront, entries, prSize := prSlotsUsed - 1, j, copy, 2 * prSize;
      return true;
    }

    /** Takes the block ahead of the tail, all of whose elements have been dequeued. */
    method ReuseBlock()
      requires Valid() && ring != [] && tailIndex % BLOCK_SIZE == 0
      requires Base(tailIndex, |ring|, 0) + BLOCK_SIZE <= headIndex
      modifies this`tailBlock, this`blocks, this`ring
      ensures tailBlock == old(ring[0]) && ring == Advanced(old(ring), 1, tailBlock) && |blocks| == old(|blocks|)
      ensures Circle(ring, blocks, tailBlock) && BlocksOk(ring, blocks, tailIndex + 1, headIndex, log)
    {
      hide Circle, BlocksOk, IndexOk;
      CircleFacts(ring, blocks, tailBlock);
      OldestBlock(ring, blocks, tailIndex, headIndex, log);
      RotatedCircle(ring, blocks, tailBlock);
      ghost var before := blocks;
      tailBlock := blocks[tailBlock].next;
      ResetEmpty(tailBlock);
      AdvancedBlocks(ring, before, 1, tailBlock, blocks, tailIndex, headIndex, log);
      ring := Advanced(ring, 1, tailBlock);
      CircleKept(ring, before, tailBlock, tailBlock, blocks[tailBlock]);
    }

    /** Links a fresh block in after the tail. */
    method InsertBlock(rawFlags: seq<bool>)
      requires Valid() && tailIndex % BLOCK_SIZE == 0 && |rawFlags| == BLOCK_SIZE
      requires |blocks| + 1 < MAX_BLOCKS
      modifies this`tailBlock, this`blocks, this`ring, this`prSlotsUsed
      ensures tailBlock == |old(blocks)| && ring == Advanced(old(ring), 0, tailBlock) && prSlotsUsed == |ring|
      ensures Circle(ring, blocks, tailBlock) && BlocksOk(ring, blocks, tailIndex + 1, headIndex, log)
      ensures |blocks| == old(|blocks|) + 1
    {
      hide Circle, BlocksOk, IndexOk;
      CircleFacts(ring, blocks, tailBlock);
      ghost var before := blocks;
      blocks := blocks + [Block(NULL, seq(BLOCK_SIZE, _ => None), rawFlags)];
      var nb := |blocks| - 1;
      ResetEmpty(nb);
      GrownCircle(ring, before, tailBlock, blocks[nb]);
      assert blocks == before + [blocks[nb]];
      blocks := Linked(blocks, tailBlock, nb);
      tailBlock := nb;
      prSlotsUsed := prSlotsUsed + 1;
      AdvancedBlocks(ring, before, 0, nb, blocks, tailIndex, headIndex, log);
      ring := Advanced(ring, 0, nb);
    }

    /** What linking the block at `drop` given-up positions leaves to be published. */
    ghost predicate Unpublished(entries0: seq<Entry>, prFront0: nat, front0: int, ring0: seq<int>, drop: nat)
      reads this
    {
      && headIndex <= tailIndex == |log|
      && optimistic == overcommit + headIndex
      && tailIndex % BLOCK_SIZE == 0
      && Circle(ring, blocks, tailBlock)
      && BlocksOk(ring, blocks, tailIndex + 1, headIndex, log)
      && prSlotsUsed == |ring| && prSize > 0 && |entries| == prSize
      && entries == entries0 && prFront == prFront0 && front == front0
      && drop <= |ring0| && |ring0| - drop < |entries|
      && IndexOk(entries, prFront, front, ring0, tailIndex)
      && ring == Advanced(ring0, drop, tailBlock)
      && 0 <= Base(tailIndex + 1, |ring|, 0) <= headIndex
    }

    /** Adds the newest block to the index. */
    method PublishBlock(ghost ring0: seq<int>, ghost drop: nat)
      requires Unpublished(entries, prFront, front, ring0, drop)
      modifies this`entries, this`front, this`prFront
      ensures Agrees(tailIndex + 1)
    {
      hide Circle, BlocksOk, IndexOk, Base;
      IndexFacts(entries, prFront, front, ring0, tailIndex);
      PublishedIndex(entries, prFront, front, ring0, drop, tailBlock, tailIndex);
      entries := entries[prFront := Entry(Word(tailIndex), tailBlock)];
      front, prFront := prFront, (prFront + 1) % prSize;
    }

    /** Links a new block in, with room for it in the index, if there is leeway. */
    method GrowRing(allocIndex: bool, allocBlock: bool, rawFlags: seq<bool>) returns (ok: bool, ghost ring0: seq<int>)
      requires Valid() && tailIndex % BLOCK_SIZE == 0 && |rawFlags| == BLOCK_SIZE
      modifies this`tailBlock, this`blocks, this`ring, this`prSlotsUsed, this`prSize, this`entries, this`front,
          this`prFront
      ensures if ok then Unpublished(entries, prFront, front, ring0, 0) else Valid()
      ensures !ok ==> !allocBlock || !allocIndex || |blocks| + 1 >= MAX_BLOCKS
      ensures ok ==> |ring| == old(|ring|) + 1 && |blocks| == old(|blocks|) + 1
    {
      hide Circle, BlocksOk, IndexOk;
      CircleFacts(ring, blocks, tailBlock);
      ring0 := ring;
      if |ring| + 1 < MAX_BLOCKS { Leeway(tailIndex, |ring|, headIndex); }
      if !CircularLess(Word(headIndex), Word(tailIndex + BLOCK_SIZE)) { return false, ring0; }
      if entries == [] || prSlotsUsed == prSize {
        IndexFacts(entries, prFront, front, ring, tailIndex);
        var grown := NewBlockIndex(allocIndex);
        if !grown { return false, ring0; }
      }
      if !allocBlock || |blocks| + 1 >= MAX_BLOCKS { return false, ring0; }
      IndexFacts(entries, prFront, front, ring, tailIndex);
      AdvancedSpan(ring, 0, |blocks|, tailIndex, headIndex);
      InsertBlock(rawFlags);
      return true, ring0;
    }

    /** The part of `enqueue` at the end of a block: reuse the block ahead if all of it
        has been dequeued, or else insert a new one, and publish it in the index. */
    method StartBlock(allocIndex: bool, allocBlock: bool, rawFlags: seq<bool>) returns (ok: bool)
      requires Valid() && tailIndex % BLOCK_SIZE == 0 && |rawFlags| == BLOCK_SIZE
      modifies this
      ensures tailIndex == old(tailIndex) && headIndex == old(headIndex) && log == old(log)
      ensures if ok then Agrees(tailIndex + 1) else Valid()
      ensures !ok ==> !allocBlock || !allocIndex || |blocks| + 1 >= MAX_BLOCKS
      ensures old(ring) != [] && tailIndex - headIndex <= 32 * (old(|ring|) - 1) ==>
                ok && |ring| == old(|ring|) && |blocks| == old(|blocks|)
      ensures ok && (old(ring) == [] || tailIndex - headIndex > 32 * (old(|ring|) - 1)) ==>
                |ring| == old(|ring|) + 1 && |blocks| == old(|blocks|) + 1
    {
      hide Circle, BlocksOk, IndexOk;
      CircleFacts(ring, blocks, tailBlock);
      WholeTail(tailIndex, |ring|);
      var reuse := false;
      ghost var ring0, drop := ring, 0;
      if tailBlock != NULL {
        OldestBlock(ring, blocks, tailIndex, headIndex, log);
        reuse := IsEmpty(blocks[tailBlock].next);
      }
      if reuse {
        IndexFacts(entries, prFront, front, ring, tailIndex);
        AdvancedSpan(ring, 1, ring[0], tailIndex, headIndex);
        drop := 1;
        ReuseBlock();
        ok := true;
      } else {
        ok, ring0 := GrowRing(allocIndex, allocBlock, rawFlags);
      }
      if ok { PublishBlock(ring0, drop); }
    }

    /** `enqueue`. The element goes to the end of the queue, or nothing changes. */
    method Enqueue(x: T, allocIndex: bool, allocBlock: bool, rawFlags: seq<bool>) returns (ok: bool)
      requires Valid() && |rawFlags| == BLOCK_SIZE
      modifies this
      ensures Valid()
      ensures Contents() == if ok then old(Contents()) + [x] else old(Contents())
      ensures allocIndex && allocBlock && |blocks| + 1 < MAX_BLOCKS ==> ok
      ensures old(tailIndex) % 32 != 0 ||
              (old(ring) != [] && old(tailIndex - headIndex) <= 32 * (old(|ring|) - 1)) ==>
                ok && |ring| == old(|ring|) && |blocks| == old(|blocks|)
    {
      hide Circle, BlocksOk, IndexOk;
      if tailIndex % BLOCK_SIZE == 0 {
        ok := StartBlock(allocIndex, allocBlock, rawFlags);
        if !ok { return; }
      } else {
        CircleFacts(ring, blocks, tailBlock);
        SameBlock(entries, prFront, front, ring, blocks, tailIndex, headIndex, log);
      }
      Construct(x);
      return true;
    }

    /** The element is built in the newest block, and the tail advances. */
    method Construct(x: T)
      requires Agrees(tailIndex + 1)
      modifies this`blocks, this`tailIndex, this`log
      ensures Valid() && log == old(log) + [x] && tailIndex == old(tailIndex) + 1 && |blocks| == old(|blocks|)
    {
      hide Circle, BlocksOk, IndexOk;
      CircleFacts(ring, blocks, tailBlock);
      ConstructedBlocks(ring, blocks, headIndex, log, x);
      CircleKept(ring, blocks, tailBlock, tailBlock,
                 blocks[tailBlock].(slots := blocks[tailBlock].slots[tailIndex % BLOCK_SIZE := Some(x)]));
      blocks := blocks[tailBlock := blocks[tailBlock].(slots := blocks[tailBlock].slots[tailIndex % BLOCK_SIZE :=
          Some(x)])];
      tailIndex, log := tailIndex + 1, log + [x];
    }

    /** `dequeue`, without other consumers. The element it finds through the block index
        is the one enqueued first. */
    method Dequeue() returns (r: Option<T>)
      requires Valid()
      modifies this
      ensures Valid()
      ensures r == if old(Contents()) == [] then None else Some(old(Contents())[0])
      ensures Contents() == if old(Contents()) == [] then [] else old(Contents())[1..]
    {
      hide Circle, BlocksOk, IndexOk;
      CircleFacts(ring, blocks, tailBlock);
      IndexFacts(entries, prFront, front, ring, tailIndex);
      SpanBound(tailIndex, |ring|, headIndex);
      var tail, over := tailIndex, overcommit;
      CircularLessExact(headIndex, tailIndex);
      if !CircularLess(Word(optimistic - over), Word(tail)) { return None; }
      var ticket := optimistic;
      optimistic := optimistic + 1;
      if !CircularLess(Word(ticket - over), Word(tailIndex)) {
        // only another consumer could have taken the element in between
        assert false;
      }
      var index := headIndex;
      headIndex := headIndex + 1;
      r := TakeElement(index);
    }

    /** The end of `dequeue`: find the block of the claimed index, move the element out. */
    method TakeElement(index: nat) returns (r: Option<T>)
      requires index < tailIndex && headIndex == index + 1
      requires tailIndex == |log| && optimistic == overcommit + headIndex && ring != []
      requires Circle(ring, blocks, tailBlock) && BlocksOk(ring, blocks, tailIndex, index, log)
      requires IndexOk(entries, prFront, front, ring, tailIndex)
      requires prSlotsUsed == |ring| && prSize > 0 && (entries == [] || |entries| == prSize)
      requires 0 <= Base(tailIndex, |ring|, 0) <= index
      modifies this`blocks
      ensures Valid() && r == Some(log[index])
    {
      hide Circle, BlocksOk, IndexOk;
      CircleFacts(ring, blocks, tailBlock);
      ghost var k := Position(tailIndex, |ring|, index);
      LookupFinds(entries, prFront, front, ring, tailIndex, index, k);
      var headBase := entries[front].base;
      var block := entries[(front + BlockOffset(index, headBase)) % |entries|].block;
      LiveElement(ring, blocks, tailIndex, index, log, k);
      DestroyedBlocks(ring, blocks, tailIndex, index, log, k);
      r := blocks[block].slots[index % BLOCK_SIZE];
      var b := blocks[block].(
        slots := blocks[block].slots[index % BLOCK_SIZE := None],
        emptyFlags := blocks[block].emptyFlags[BLOCK_SIZE - 1 - index % BLOCK_SIZE := true]);
      CircleKept(ring, blocks, tailBlock, block, b);
      blocks := blocks[block := b];
    }
  }
}
