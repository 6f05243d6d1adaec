/** Send buffers cut from shared chunks. Every thread bumps a pointer through a chunk of its
    own; buffers keep their chunk alive, and the deleter of the shared pointer puts a chunk
    nobody keeps back into the pool, from where it is handed out and used again. These are the
    classes, each method one uninterrupted call. */
module SendSlices {

  const CHUNK_SIZE := 0x2000

  type Byte = b | 0 <= b < 256

  class SendBufferChunk {
    var open: bool
    var usedSize: nat
    const bytes: array<Byte>

    constructor ()
      ensures !open && usedSize == 0 && bytes.Length == CHUNK_SIZE && fresh(bytes)
    {
      open, usedSize, bytes := false, 0, new Byte[CHUNK_SIZE];
    }

    function FreeSize(): int
      reads this
    { CHUNK_SIZE - usedSize }

    method Close(writeSize: nat)
      requires open
      modifies this
      ensures !open && usedSize == old(usedSize) + writeSize
    {
      open := false;
      usedSize := usedSize + writeSize;
    }

    method Reset()
      modifies this
      ensures !open && usedSize == 0
    {
      open := false;
      usedSize := 0;
    }

    /** Cuts a slice at the bump pointer. */
    method Open(size: nat) returns (b: SendBuffer)
      requires !open && size <= CHUNK_SIZE
      modifies this`open
      ensures open
      ensures fresh(b) && b.owner == this && b.offset == usedSize && b.allocSize == size
      ensures b.writeSize == 0 && !b.closed && b.content == []
    {
      open := true;
      b := new SendBuffer(this, usedSize, size);
    }
  }

  /** The slice at `offset` of the owner's bytes; `content` is what it held when closed. */
  class SendBuffer {
    const owner: SendBufferChunk
    const offset: nat
    const allocSize: nat
    var writeSize: nat
    ghost var closed: bool
    ghost var content: seq<Byte>

    constructor (owner: SendBufferChunk, offset: nat, allocSize: nat)
      ensures this.owner == owner && this.offset == offset && this.allocSize == allocSize
      ensures writeSize == 0 && !closed && content == []
    {
      this.owner, this.offset, this.allocSize, writeSize := owner, offset, allocSize, 0;
      closed, content := false, [];
    }

    method Close(writeSize: nat)
      requires owner.open && writeSize <= allocSize && offset + writeSize <= owner.bytes.Length
      modifies this, owner
      ensures closed && this.writeSize == writeSize && content == owner.bytes[offset..offset + writeSize]
      ensures !owner.open && owner.usedSize == old(owner.usedSize) + writeSize
    {
      this.writeSize := writeSize;
      owner.Close(writeSize);
      closed, content := true, owner.bytes[offset..offset + writeSize];
    }
  }

  /** Who, besides live buffers, holds the shared pointer to a chunk: the pool, the deleter on
      its way to the pool, a thread as its thread-local chunk, or a thread that has just
      popped it. The pointer is moved from one to the next. */
  datatype Holder = Pooled | Returning | Current(t: nat) | Hand(t: nat) | Nobody

  /** The fields of a chunk, and of a buffer, as values. */
  datatype Slot = Slot(open: bool, used: nat, bytes: seq<Byte>)
  datatype Fill = Fill(writeSize: nat, closed: bool, content: seq<Byte>)

  function SlotOf(c: SendBufferChunk): Slot
    reads c, c.bytes
  { Slot(c.open, c.usedSize, c.bytes[..]) }

  ghost function FillOf(b: SendBuffer): Fill
    reads b
  { Fill(b.writeSize, b.closed, b.content) }

  /** A closed buffer's bytes are below the bump pointer and what they were at its closing; an
      open one starts at the bump pointer. */
  predicate Fits(s: Slot, b: SendBuffer, f: Fill) {
    && f.writeSize <= b.allocSize && b.offset + b.allocSize <= |s.bytes|
    && (f.closed ==> b.offset + f.writeSize <= s.used && s.bytes[b.offset..b.offset + f.writeSize] == f.content)
    && (!f.closed ==> s.open && b.offset == s.used)
  }

  /** Two live buffers never share written bytes, and at most one of them is open. */
  predicate Disjoint(b: SendBuffer, f: Fill, d: SendBuffer, g: Fill) {
    && (b.offset + f.writeSize <= d.offset || d.offset + g.writeSize <= b.offset)
    && (f.closed || g.closed)
  }

  /** A chunk with the buffers that live on it. */
  ghost predicate SlotOk(c: SendBufferChunk, s: Slot, buffers: set<SendBuffer>, fills: map<SendBuffer, Fill>) {
    && |s.bytes| == CHUNK_SIZE && s.used <= CHUNK_SIZE
    && (forall b | b in buffers :: b.owner == c && b in fills && Fits(s, b, fills[b]))
    && (forall b, d | b in buffers && d in buffers && b != d :: Disjoint(b, fills[b], d, fills[d]))
  }

  ghost function FillsOf(buffers: set<SendBuffer>): map<SendBuffer, Fill>
    reads buffers
  { map b | b in buffers :: FillOf(b) }

  ghost predicate ChunkOk(c: SendBufferChunk, buffers: set<SendBuffer>)
    reads c, c.bytes, buffers
  { SlotOk(c, SlotOf(c), buffers, FillsOf(buffers)) }

  // ---------------------------------------------------------------- what one step makes of a chunk

  function OpenedSlot(s: Slot): Slot { s.(open := true) }

  /** Opening cuts a slice at the bump pointer. */
  lemma OpeningOk(c: SendBufferChunk, s: Slot, buffers: set<SendBuffer>, fills: map<SendBuffer, Fill>, b: SendBuffer)
    requires SlotOk(c, s, buffers, fills) && !s.open && b !in buffers
    requires b.owner == c && b.offset == s.used && s.used + b.allocSize <= CHUNK_SIZE
    ensures SlotOk(c, OpenedSlot(s), buffers + {b}, fills[b := Fill(0, false, [])])
  {
    assert forall d | d in buffers :: Fits(s, d, fills[d]) && fills[d].closed;
  }

  function WrittenSlot(s: Slot, i: nat, v: Byte): Slot
    requires i < |s.bytes|
  { s.(bytes := s.bytes[i := v]) }

  /** A byte written to an open buffer is not one of any other live buffer. */
  lemma WritingOk(c: SendBufferChunk, s: Slot, buffers: set<SendBuffer>, fills: map<SendBuffer, Fill>, b: SendBuffer,
      i: nat, v: Byte)
    requires SlotOk(c, s, buffers, fills) && b in buffers && !fills[b].closed && i < b.allocSize
    ensures b.offset + i < CHUNK_SIZE && SlotOk(c, WrittenSlot(s, b.offset + i, v), buffers, fills)
  {
    assert Fits(s, b, fills[b]);
    var s' := WrittenSlot(s, b.offset + i, v);
    forall d | d in buffers ensures Fits(s', d, fills[d]) {
      assert Fits(s, d, fills[d]);
      if fills[d].closed {
        assert s'.bytes[d.offset..d.offset + fills[d].writeSize] == s.bytes[d.offset..d.offset + fills[d].writeSize];
      }
    }
  }

  function ClosedSlot(s: Slot, n: nat): Slot { s.(open := false, used := s.used + n) }

  function ClosedFill(s: Slot, b: SendBuffer, n: nat): Fill
    requires b.offset + n <= |s.bytes|
  { Fill(n, true, s.bytes[b.offset..b.offset + n]) }

  /** Closing b fixes its bytes, and leaves every other buffer of the chunk as it was. */
  lemma ClosingFits(s: Slot, b: SendBuffer, f: Fill, d: SendBuffer, g: Fill, n: nat)
    requires Fits(s, b, f) && !f.closed && n <= b.allocSize && Fits(s, d, g)
    requires d == b || Disjoint(b, f, d, g)
    ensures Fits(ClosedSlot(s, n), d, if d == b then ClosedFill(s, b, n) else g)
    ensures d != b ==> Disjoint(b, ClosedFill(s, b, n), d, g) && Disjoint(d, g, b, ClosedFill(s, b, n))
  {}

  /** Closing fixes a buffer's bytes and leaves every other one as it was. */
  lemma ClosingOk(c: SendBufferChunk, s: Slot, buffers: set<SendBuffer>, fills: map<SendBuffer, Fill>, b: SendBuffer,
      n: nat)
    requires SlotOk(c, s, buffers, fills) && b in buffers && !fills[b].closed && n <= b.allocSize
    ensures s.open && b.offset + n <= |s.bytes|
    ensures SlotOk(c, ClosedSlot(s, n), buffers, fills[b := ClosedFill(s, b, n)])
  {
    assert Fits(s, b, fills[b]);
    var f := ClosedFill(s, b, n);
    assert s.used + n <= CHUNK_SIZE;
    hide Fits, Disjoint;
    forall d | d in buffers
      ensures Fits(ClosedSlot(s, n), d, if d == b then f else fills[d])
      ensures d != b ==> Disjoint(b, f, d, fills[d]) && Disjoint(d, fills[d], b, f)
    {
      assert Fits(s, d, fills[d]) && (d != b ==> Disjoint(b, fills[b], d, fills[d]));
      ClosingFits(s, b, fills[b], d, fills[d], n);
    }
  }

  lemma DroppingOk(c: SendBufferChunk, s: Slot, buffers: set<SendBuffer>, fills: map<SendBuffer, Fill>, b: SendBuffer)
    requires SlotOk(c, s, buffers, fills)
    ensures SlotOk(c, s, buffers - {b}, fills)
  {}

  /** Only the chunk's own buffers matter. */
  lemma OtherFills(c: SendBufferChunk, s: Slot, buffers: set<SendBuffer>, fills: map<SendBuffer, Fill>,
      fills': map<SendBuffer, Fill>)
    requires SlotOk(c, s, buffers, fills)
    requires forall b | b in buffers && b in fills :: b in fills' && fills'[b] == fills[b]
    ensures SlotOk(c, s, buffers, fills')
  {}

  // ---------------------------------------------------------------- one chunk

  method OpenSlice(c: SendBufferChunk, size: nat, ghost buffers: set<SendBuffer>) returns (b: SendBuffer)
    requires ChunkOk(c, buffers) && !c.open && size <= c.FreeSize()
    modifies c`open
    ensures fresh(b) && b.owner == c && !b.closed && b.allocSize == size && b.offset == c.usedSize
    ensures SlotOf(c) == OpenedSlot(old(SlotOf(c))) && ChunkOk(c, buffers + {b})
  {
    ghost var s, fills := SlotOf(c), FillsOf(buffers);
    b := c.Open(size);
    OpeningOk(c, s, buffers, fills, b);
    hide SlotOk;
    OtherFills(c, SlotOf(c), buffers + {b}, fills[b := Fill(0, false, [])], FillsOf(buffers + {b}));
  }

  /** The owner of a buffer writes while it is open. */
  method WriteByte(b: SendBuffer, i: nat, v: Byte, ghost buffers: set<SendBuffer>)
    requires ChunkOk(b.owner, buffers) && b in buffers && !b.closed && i < b.allocSize
    modifies b.owner.bytes
    ensures b.offset + i < b.owner.bytes.Length && ChunkOk(b.owner, buffers)
    ensures SlotOf(b.owner) == WrittenSlot(old(SlotOf(b.owner)), b.offset + i, v)
  {
    ghost var s, fills := SlotOf(b.owner), FillsOf(buffers);
    WritingOk(b.owner, s, buffers, fills, b, i, v);
    hide SlotOk;
    b.owner.bytes[b.offset + i] := v;
    OtherFills(b.owner, SlotOf(b.owner), buffers, fills, FillsOf(buffers));
  }

  lemma CloseChunk(c: SendBufferChunk, s: Slot, buffers: set<SendBuffer>, fills: map<SendBuffer, Fill>, b: SendBuffer,
      n: nat)
    requires b.offset + n <= |s.bytes| && SlotOk(c, ClosedSlot(s, n), buffers, fills[b := ClosedFill(s, b, n)])
    requires SlotOf(c) == ClosedSlot(s, n) && FillOf(b) == ClosedFill(s, b, n)
    requires forall d | d in buffers && d in fills && d != b :: FillOf(d) == fills[d]
    ensures ChunkOk(c, buffers)
  {
    hide SlotOk;
    OtherFills(c, SlotOf(c), buffers, fills[b := ClosedFill(s, b, n)], FillsOf(buffers));
  }

  method CloseSlice(b: SendBuffer, writeSize: nat, ghost buffers: set<SendBuffer>)
    requires ChunkOk(b.owner, buffers) && b in buffers && !b.closed && writeSize <= b.allocSize
    modifies b, b.owner
    ensures ChunkOk(b.owner, buffers)
    ensures old(b.owner.open) && b.offset + writeSize <= b.owner.bytes.Length
    ensures SlotOf(b.owner) == ClosedSlot(old(SlotOf(b.owner)), writeSize)
    ensures FillOf(b) == ClosedFill(old(SlotOf(b.owner)), b, writeSize)
  {
    ghost var s, fills := SlotOf(b.owner), FillsOf(buffers);
    hide SlotOk, Fits, Disjoint;
    assert forall d | d in buffers :: d in fills && fills[d] == FillOf(d);
    ClosingOk(b.owner, s, buffers, fills, b, writeSize);
    hide ChunkOk;
    b.Close(writeSize);
    CloseChunk(b.owner, s, buffers, fills, b, writeSize);
  }

  // ---------------------------------------------------------------- chunks and threads

  /** Where the chunks are. */
  datatype Ledger = Ledger(
    pool: seq<SendBufferChunk>,
    current: map<nat, SendBufferChunk>,               // the thread-local chunks
    hand: map<nat, SendBufferChunk>,                  // popped, not yet assigned
    holder: map<SendBufferChunk, Holder>,
    buffers: map<SendBufferChunk, set<SendBuffer>>)   // the live buffers
  {
    /** Pooled chunks have no live buffer, and a chunk held by nobody has one. */
    ghost predicate PlaceOk(c: SendBufferChunk)
      requires c in holder && c in buffers
    {
      && (c in pool <==> holder[c].Pooled?)
      && (holder[c].Pooled? || holder[c].Returning? ==> buffers[c] == {})
      && (holder[c].Nobody? ==> buffers[c] != {})
      && (holder[c].Current? ==> holder[c].t in current && current[holder[c].t] == c)
      && (holder[c].Hand? ==> holder[c].t in hand && hand[holder[c].t] == c)
      && (forall b | b in buffers[c] :: b.owner == c)
    }

    ghost predicate PoolOk() {
      && (forall i, j | 0 <= i < j < |pool| :: pool[i] != pool[j])
      && (forall i | 0 <= i < |pool| :: pool[i] in holder)
    }

    ghost predicate ThreadOk(t: nat) {
      && (t in current ==> current[t] in holder && holder[current[t]] == Current(t))
      && (t in hand ==> hand[t] in holder && holder[hand[t]] == Hand(t))
    }

    ghost predicate Ok() {
      && holder.Keys == buffers.Keys && PoolOk()
      && (forall t: nat :: ThreadOk(t))
      && (forall c | c in holder :: PlaceOk(c))
    }

    function Popped(t: nat, c: SendBufferChunk): Ledger {
      this.(pool := if pool == [] then [] else pool[..|pool| - 1], hand := hand[t := c],
            holder := holder[c := Hand(t)], buffers := buffers[c := {}])
    }

    /** The thread-local pointer and the popped one change places. */
    function Swapped(t: nat): Ledger
      requires t in hand
    {
      if t in current then
        this.(current := current[t := hand[t]], hand := hand[t := current[t]],
              holder := holder[hand[t] := Current(t)][current[t] := Hand(t)])
      else
        this.(current := current[t := hand[t]], hand := hand - {t}, holder := holder[hand[t] := Current(t)])
    }

    /** What the popped pointer then holds is let go; if no buffer keeps it, the deleter is called. */
    function HandDropped(t: nat): Ledger
      requires t in hand && hand[t] in buffers
    {
      var c := hand[t];
      this.(hand := hand - {t}, holder := holder[c := if buffers[c] == {} then Returning else Nobody])
    }

    function Opened(b: SendBuffer): Ledger
      requires b.owner in buffers
    {
      this.(buffers := buffers[b.owner := buffers[b.owner] + {b}])
    }

    function Dropped(b: SendBuffer): Ledger
      requires b.owner in buffers && b.owner in holder
    {
      var c := b.owner;
      this.(buffers := buffers[c := buffers[c] - {b}],
            holder := if buffers[c] == {b} && holder[c].Nobody? then holder[c := Returning] else holder)
    }

    function Returned(c: SendBufferChunk): Ledger {
      this.(pool := pool + [c], holder := holder[c := Pooled])
    }
  }

  lemma PlaceKnown(l: Ledger, c: SendBufferChunk)
    requires l.Ok() && c in l.holder
    ensures c in l.buffers && l.PlaceOk(c)
  {}

  lemma HandKnown(l: Ledger, t: nat)
    requires l.Ok() && t in l.hand
    ensures l.hand[t] in l.holder && l.hand[t] in l.buffers && l.holder[l.hand[t]] == Hand(t)
  {
    assert l.ThreadOk(t);
  }

  lemma CurrentKnown(l: Ledger, t: nat)
    requires l.Ok() && t in l.current
    ensures l.current[t] in l.holder && l.current[t] in l.buffers && l.holder[l.current[t]] == Current(t)
  {
    assert l.ThreadOk(t);
  }

  /** What thread t's step may rely on about thread u and chunk c. */
  lemma Known(l: Ledger, t: nat, u: nat, c: SendBufferChunk)
    requires l.Ok()
    ensures l.ThreadOk(t) && l.ThreadOk(u) && l.holder.Keys == l.buffers.Keys
    ensures c in l.holder ==> l.PlaceOk(c)
    ensures t in l.hand ==> l.PlaceOk(l.hand[t])
    ensures t in l.current ==> l.PlaceOk(l.current[t])
  {
    assert l.ThreadOk(t) && l.ThreadOk(u);
  }

  lemma OkIf(l: Ledger)
    requires l.holder.Keys == l.buffers.Keys && l.PoolOk()
    requires forall t: nat :: l.ThreadOk(t)
    requires forall c | c in l.holder :: l.PlaceOk(c)
    ensures l.Ok()
  {}

  lemma PoolIsOk(l: Ledger)
    requires l.Ok()
    ensures l.PoolOk() && l.holder.Keys == l.buffers.Keys
  {}

  lemma PoppedPool(l: Ledger, t: nat, c: SendBufferChunk)
    requires l.PoolOk() && (l.pool != [] ==> c == l.pool[|l.pool| - 1])
    ensures l.Popped(t, c).PoolOk()
    ensures forall d | d != c :: d in l.Popped(t, c).pool <==> d in l.pool
    ensures c !in l.Popped(t, c).pool
  {
    var p := l.Popped(t, c).pool;
    assert l.pool != [] ==> l.pool == p + [c];
  }

  lemma PoppedOk(l: Ledger, t: nat, c: SendBufferChunk)
    requires l.Ok() && t !in l.hand
    requires if l.pool == [] then c !in l.holder else c == l.pool[|l.pool| - 1]
    ensures l.Popped(t, c).Ok()
  {
    var l' := l.Popped(t, c);
    hide Ledger.Ok, Ledger.PoolOk;
    PoolIsOk(l);
    PoppedPool(l, t, c);
    Known(l, t, t, c);
    forall d | d in l'.holder ensures l'.PlaceOk(d) { Known(l, t, t, d); }
    forall u: nat ensures l'.ThreadOk(u) { Known(l, t, u, c); }
    hide Ledger.PlaceOk, Ledger.ThreadOk, Ledger.PoolOk;
    OkIf(l');
  }

  /** Thread t has just popped a chunk. */
  ghost predicate HandIsFresh(l: Ledger, t: nat) {
    t in l.hand && l.hand[t] in l.buffers && l.buffers[l.hand[t]] == {}
  }

  /** Thread t's current chunk is one nothing lives on. */
  ghost predicate FreshCurrent(l: Ledger, t: nat) {
    t in l.current && l.current[t] in l.buffers && l.buffers[l.current[t]] == {}
  }

  lemma HandDiffers(l: Ledger, t: nat)
    requires l.Ok() && t in l.hand && t in l.current
    ensures l.hand[t] != l.current[t]
  {
    HandKnown(l, t);
    CurrentKnown(l, t);
    hide Ledger.Ok;
  }

  lemma SwappedOk(l: Ledger, t: nat)
    requires l.Ok() && HandIsFresh(l, t)
    ensures l.Swapped(t).Ok()
  {
    var l' := l.Swapped(t);
    assert l.PoolOk();
    hide Ledger.Ok;
    Known(l, t, t, l.hand[t]);
    assert l'.holder.Keys == l.holder.Keys;
    forall d | d in l'.holder ensures l'.PlaceOk(d) { Known(l, t, t, d); }
    forall u: nat ensures l'.ThreadOk(u) { Known(l, t, u, l.hand[t]); }
    hide Ledger.PlaceOk, Ledger.ThreadOk;
    OkIf(l');
  }

  lemma HandDroppedOk(l: Ledger, t: nat)
    requires l.Ok() && t in l.hand && l.hand[t] in l.buffers
    ensures l.HandDropped(t).Ok()
  {
    var l' := l.HandDropped(t);
    assert l.PoolOk();
    hide Ledger.Ok;
    Known(l, t, t, l.hand[t]);
    assert l'.holder.Keys == l.holder.Keys;
    forall d | d in l'.holder ensures l'.PlaceOk(d) { Known(l, t, t, d); }
    forall u: nat ensures l'.ThreadOk(u) { Known(l, t, u, l.hand[t]); }
    hide Ledger.PlaceOk, Ledger.ThreadOk;
    OkIf(l');
  }

  lemma OpenedOk(l: Ledger, b: SendBuffer, t: nat)
    requires l.Ok() && t in l.current && l.current[t] == b.owner
    ensures b.owner in l.buffers && l.Opened(b).Ok()
  {
    Known(l, t, t, b.owner);
    var l' := l.Opened(b);
    assert l.PoolOk();
    hide Ledger.Ok;
    assert l'.buffers.Keys == l.buffers.Keys;
    forall d | d in l'.holder ensures l'.PlaceOk(d) { Known(l, t, t, d); }
    forall u: nat ensures l'.ThreadOk(u) { Known(l, t, u, b.owner); }
    hide Ledger.PlaceOk, Ledger.ThreadOk;
    OkIf(l');
  }

  lemma DroppedPlace(l: Ledger, b: SendBuffer, d: SendBufferChunk)
    requires l.Ok() && b.owner in l.buffers && b in l.buffers[b.owner] && b.owner in l.holder && d in l.holder
    ensures d in l.buffers && l.Dropped(b).PlaceOk(d)
  {
    hide Ledger.Ok;
    Known(l, 0, 0, d);
  }

  lemma DroppedOk(l: Ledger, b: SendBuffer)
    requires l.Ok() && b.owner in l.buffers && b in l.buffers[b.owner]
    ensures b.owner in l.holder && l.Dropped(b).Ok()
  {
    Known(l, 0, 0, b.owner);
    assert b.owner in l.holder;
    var l' := l.Dropped(b);
    assert l.PoolOk();
    hide Ledger.Ok;
    assert l'.buffers.Keys == l.buffers.Keys && l'.holder.Keys == l.holder.Keys;
    forall d | d in l'.holder ensures l'.PlaceOk(d) { DroppedPlace(l, b, d); }
    forall u: nat ensures l'.ThreadOk(u) { Known(l, u, u, b.owner); }
    hide Ledger.PlaceOk, Ledger.ThreadOk;
    OkIf(l');
  }

  lemma ReturnedOk(l: Ledger, c: SendBufferChunk)
    requires l.Ok() && c in l.holder && l.holder[c].Returning?
    ensures l.Returned(c).Ok()
  {
    var l' := l.Returned(c);
    Known(l, 0, 0, c);
    assert l.PoolOk() && l'.PoolOk();
    hide Ledger.Ok;
    assert l'.holder.Keys == l.holder.Keys;
    forall d | d in l'.holder ensures l'.PlaceOk(d) { Known(l, 0, 0, d); }
    forall u: nat ensures l'.ThreadOk(u) { Known(l, u, u, c); }
    hide Ledger.PlaceOk, Ledger.ThreadOk;
    OkIf(l');
  }

  /** A chunk is in exactly one state: in the pool or on its way there with no live buffer,
      the current chunk of one thread, in one thread's hand, or kept by live buffers alone. */
  lemma OnePlace(l: Ledger, c: SendBufferChunk)
    requires l.Ok() && c in l.holder
    ensures c in l.buffers
    ensures c in l.pool ==> l.buffers[c] == {} && c !in l.current.Values && c !in l.hand.Values
    ensures forall t | t in l.current && l.current[t] == c :: c !in l.hand.Values
    ensures forall t, u | t in l.current && l.current[t] == c && u in l.current && l.current[u] == c :: t == u
    ensures c !in l.pool && c !in l.current.Values && c !in l.hand.Values && !l.holder[c].Returning? ==>
              l.buffers[c] != {}
  {
    hide Ledger.Ok;
    Known(l, 0, 0, c);
    forall t | t in l.current ensures l.current[t] in l.holder &&
        l.holder[l.current[t]] == Current(t) { CurrentKnown(l, t); }
    forall t | t in l.hand ensures l.hand[t] in l.holder && l.holder[l.hand[t]] == Hand(t) { HandKnown(l, t); }
  }

  lemma PoolKnown(l: Ledger, i: nat)
    requires l.Ok() && i < |l.pool|
    ensures l.pool[i] in l.holder && l.pool[i] in l.buffers && l.buffers[l.pool[i]] == {}
    ensures l.holder[l.pool[i]].Pooled?
  {
    assert l.PlaceOk(l.pool[i]);
  }

  lemma NewChunkOk(c: SendBufferChunk)
    requires c.bytes.Length == CHUNK_SIZE && c.usedSize == 0
    ensures ChunkOk(c, {})
  {}

  lemma DroppedChunkOk(c: SendBufferChunk, buffers: set<SendBuffer>, b: SendBuffer)
    requires ChunkOk(c, buffers)
    ensures ChunkOk(c, buffers - {b})
  {
    DroppingOk(c, SlotOf(c), buffers, FillsOf(buffers), b);
    OtherFills(c, SlotOf(c), buffers - {b}, FillsOf(buffers), FillsOf(buffers - {b}));
    hide SlotOk;
  }

  ghost predicate AllPooled(l: Ledger) {
    && (forall i, j | 0 <= i < j < |l.pool| :: l.pool[i] != l.pool[j])
    && l.current == map[] && l.hand == map[]
    && l.holder.Keys == l.buffers.Keys
    && (forall c | c in l.holder :: c in l.pool && l.holder[c].Pooled? && l.buffers[c] == {})
    && (forall c | c in l.pool :: c in l.holder)
  }

  lemma OneMorePooled(l: Ledger, c: SendBufferChunk)
    requires AllPooled(l) && c !in l.holder
    ensures AllPooled(l.(pool := l.pool + [c], holder := l.holder[c := Pooled], buffers := l.buffers[c := {}]))
    ensures c !in l.buffers
  {}

  lemma AllPooledOk(l: Ledger)
    requires AllPooled(l)
    ensures l.Ok()
  {
    forall t: nat ensures l.ThreadOk(t) {}
  }

  lemma SameKeys(l: Ledger)
    requires l.Ok()
    ensures l.holder.Keys == l.buffers.Keys
  {}

  class SendBufferMgr {
    var pool: seq<SendBufferChunk>
    var current: map<nat, SendBufferChunk>
    var hand: map<nat, SendBufferChunk>
    var holder: map<SendBufferChunk, Holder>
    var buffers: map<SendBufferChunk, set<SendBuffer>>

    ghost function Books(): Ledger
      reads this
    { Ledger(pool, current, hand, holder, buffers) }

    ghost predicate ChunksOk()
      reads *
    {
      && (forall c | c in buffers :: ChunkOk(c, buffers[c]))
      && (forall c, d | c in buffers && d in buffers && c != d :: c.bytes != d.bytes)
    }

    ghost predicate Valid()
      reads *
    { Books().Ok() && ChunksOk() }

    ghost predicate Live(b: SendBuffer)
      reads this
    { b.owner in buffers && b in buffers[b.owner] }

    /** No two live buffers overlap, whatever their chunks, and a closed one still holds what
        was written. */
    lemma LiveBuffersApart(b: SendBuffer, d: SendBuffer)
      requires Valid() && Live(b) && Live(d) && b != d
      ensures b.owner.bytes == d.owner.bytes ==> Disjoint(b, FillOf(b), d, FillOf(d))
      ensures b.closed ==>
                b.offset + b.writeSize <= CHUNK_SIZE &&
                b.owner.bytes[b.offset..b.offset + b.writeSize] == b.content
    {
      var fills := FillsOf(buffers[b.owner]);
      assert ChunkOk(b.owner, buffers[b.owner]);
      assert Fits(SlotOf(b.owner), b, fills[b]);
    }

    /** The pool starts with four chunks. */
    constructor ()
      ensures Valid() && |pool| == 4 && AllPooled(Books())
    {
      hide Ledger.Ok, ChunkOk;
      pool, current, hand := [], map[], map[];
      holder, buffers := map[], map[];
      new;
      assert AllPooled(Books()) && ChunksOk();
      hide AllPooled, ChunksOk;
      for i := 0 to 4
        invariant |pool| == i && AllPooled(Books()) && ChunksOk()
      {
        PoolNew();
      }
      AllPooledOk(Books());
    }

    method PoolNew()
      requires AllPooled(Books()) && ChunksOk()
      modifies this
      ensures AllPooled(Books()) && ChunksOk() && |pool| == old(|pool|) + 1
    {
      hide AllPooled, ChunkOk;
      var c := new SendBufferChunk();
      NewChunkOk(c);
      OneMorePooled(Books(), c);
      pool := pool + [c];
      holder := holder[c := Pooled];
      buffers := buffers[c := {}];
    }

    /** `Pop`: the last chunk of the pool, or a new one. */
    method Pop(t: nat) returns (c: SendBufferChunk)
      requires Valid() && t !in hand
      modifies this
      ensures Valid()
      ensures if old(pool) == [] then fresh(c) && !c.open else c == old(pool)[|old(pool)| - 1]
      ensures Books() == old(Books()).Popped(t, c)
      ensures fresh(c) || (c in old(buffers) && old(buffers)[c] == {} && c in old(holder) && old(holder)[c].Pooled?)
    {
      hide Ledger.Ok, ChunkOk;
      SameKeys(Books());
      if pool != [] {
        c := pool[|pool| - 1];
        PoolKnown(Books(), |pool| - 1);
        PoppedOk(Books(), t, c);
        pool := pool[..|pool| - 1];
      } else {
        c := new SendBufferChunk();
        NewChunkOk(c);
        PoppedOk(Books(), t, c);
      }
      Receive(t, c);
    }

    method Receive(t: nat, c: SendBufferChunk)
      modifies this`hand, this`holder, this`buffers
      ensures hand == old(hand)[t := c] && holder == old(holder)[c := Hand(t)] && buffers == old(buffers)[c := {}]
    {
      hand := hand[t := c];
      holder := holder[c := Hand(t)];
      buffers := buffers[c := {}];
    }

    /** First half of the assignment to the thread-local pointer: the two change places. */
    method SwapCurrent(t: nat)
      requires Valid() && HandIsFresh(Books(), t)
      modifies this
      ensures Valid() && Books() == old(Books()).Swapped(t)
    {
      hide Ledger.Ok, ChunkOk;
      SwappedOk(Books(), t);
      var c := hand[t];
      holder := holder[c := Current(t)];
      if t in current {
        hand := hand[t := current[t]];
        holder := holder[current[t] := Hand(t)];
      } else {
        hand := hand - {t};
      }
      current := current[t := c];
    }

    /** Second half: the old chunk is let go; the last holder calls the deleter. */
    method DropHand(t: nat)
      requires Valid() && t in hand
      modifies this
      ensures old(hand)[t] in old(buffers)
      ensures Valid() && Books() == old(Books()).HandDropped(t)
    {
      hide Ledger.Ok, ChunkOk;
      HandKnown(Books(), t);
      HandDroppedOk(Books(), t);
      var c := hand[t];
      holder := holder[c := if buffers[c] == {} then Returning else Nobody];
      hand := hand - {t};
    }

    /** `PushGlobal`, called by the deleter. */
    method PushGlobal(c: SendBufferChunk)
      requires Valid() && c in holder && holder[c].Returning?
      modifies this
      ensures Valid() && Books() == old(Books()).Returned(c)
    {
      hide Ledger.Ok, ChunkOk;
      ReturnedOk(Books(), c);
      pool := pool + [c];
      holder := holder[c := Pooled];
    }

    /** `Reset` of the current chunk, on which nothing lives. */
    method ResetCurrent(t: nat)
      requires Valid() && t in current && current[t] in buffers && buffers[current[t]] == {}
      modifies current[t]
      ensures Valid() && !current[t].open && current[t].usedSize == 0
    {
      hide Ledger.Ok;
      current[t].Reset();
    }

    method OpenCurrent(t: nat, size: nat) returns (b: SendBuffer)
      requires Valid() && t in current && !current[t].open && size <= current[t].FreeSize()
      modifies this, current[t]
      ensures Valid() && fresh(b) && Live(b) && !b.closed && b.allocSize == size
      ensures b.owner == old(current[t]) && b.offset == b.owner.usedSize == old(current[t].usedSize)
      ensures b.owner in old(buffers) && Books() == old(Books()).Opened(b)
    {
      hide Ledger.Ok, ChunkOk;
      CurrentKnown(Books(), t);
      var c := current[t];
      b := OpenSlice(c, size, buffers[c]);
      OpenedOk(Books(), b, t);
      buffers := buffers[c := buffers[c] + {b}];
    }

    /** The writer of an open buffer fills it in; no closed buffer changes. */
    method WriteBuffer(b: SendBuffer, i: nat, v: Byte)
      requires Valid() && Live(b) && !b.closed && i < b.allocSize
      modifies b.owner.bytes
      ensures Valid() && b.offset + i < b.owner.bytes.Length
      ensures SlotOf(b.owner) == WrittenSlot(old(SlotOf(b.owner)), b.offset + i, v)
    {
      hide Ledger.Ok, ChunkOk;
      WriteByte(b, i, v, buffers[b.owner]);
    }

    /** The writer of an open buffer closes it. */
    method CloseBuffer(b: SendBuffer, writeSize: nat)
      requires Valid() && Live(b) && !b.closed && writeSize <= b.allocSize
      modifies b, b.owner
      ensures Valid() && b.offset + writeSize <= b.owner.bytes.Length
      ensures SlotOf(b.owner) == ClosedSlot(old(SlotOf(b.owner)), writeSize)
      ensures FillOf(b) == ClosedFill(old(SlotOf(b.owner)), b, writeSize)
    {
      hide Ledger.Ok, Fits, Disjoint;
      CloseSlice(b, writeSize, buffers[b.owner]);
    }

    /** The last shared pointer to a buffer goes; the chunk loses a holder. */
    method DropBuffer(b: SendBuffer)
      requires Valid() && Live(b)
      modifies this
      ensures b.owner in old(buffers) && b.owner in old(holder)
      ensures Valid() && Books() == old(Books()).Dropped(b) && !Live(b)
    {
      hide Ledger.Ok, ChunkOk;
      DroppedOk(Books(), b);
      var c := b.owner;
      DroppedChunkOk(c, buffers[c], b);
      if buffers[c] == {b} && holder[c].Nobody? {
        holder := holder[c := Returning];
      }
      buffers := buffers[c := buffers[c] - {b}];
    }

    // -------------------------------------------------------------- whole calls

    /** Every buffer that lived goes on living, and new chunks are new. */
    twostate predicate KeepsLive()
      reads this
    {
      && (forall c | c in old(buffers) :: c in buffers && buffers[c] == old(buffers)[c])
      && (forall c | c in buffers :: c in old(buffers) || fresh(c))
    }

    /** Thread t is between two calls, and the chunk the source asserts not to be open is not:
        its own, or, before its first call, the ones in the pool. */
    ghost predicate Ready(t: nat)
      reads *
    {
      t !in hand && if t in current then !current[t].open else forall c | c in pool :: !c.open
    }

    /** What is free on the thread's chunk, -1 if it has none. */
    ghost function Room(t: nat): int
      reads *
    { if t in current then current[t].FreeSize() else -1 }

    ghost function Chunk(t: nat): SendBufferChunk?
      reads this
    { if t in current then current[t] else null }

    /** The thread's first chunk: taken from the pool as it is, not reset. */
    method FirstChunk(t: nat)
      requires Valid() && Ready(t) && t !in current
      modifies this
      ensures Valid() && Ready(t) && t in current && KeepsLive()
    {
      hide Ledger.Ok, ChunkOk;
      assert pool != [] ==> pool[|pool| - 1] in pool;
      var c := Pop(t);
      SwapCurrent(t);
    }

    /** The first steps of replacing a chunk: pop, and exchange with the old one. */
    method TakeNext(t: nat) returns (before: SendBufferChunk)
      requires Valid() && t !in hand && t in current
      modifies this
      ensures Valid() && KeepsLive() && before == old(current[t])
      ensures t in hand && hand[t] == before && t in current && FreshCurrent(Books(), t)
      ensures fresh(current[t]) || current[t] in old(buffers)
    {
      hide Ledger.Ok, ChunkOk;
      before := current[t];
      CurrentKnown(Books(), t);
      var c := Pop(t);
      SwapCurrent(t);
    }

    /** The next ones: let the old chunk go, and push it back if nothing keeps it. */
    method LetOld(t: nat, before: SendBufferChunk)
      requires Valid() && t in hand && hand[t] == before && t in current && FreshCurrent(Books(), t)
      modifies this
      ensures Valid() && t !in hand && current == old(current) && buffers == old(buffers)
    {
      hide Ledger.Ok, ChunkOk;
      HandKnown(Books(), t);
      DropHand(t);
      if holder[before].Returning? {
        PushGlobal(before);
      }
    }

    /** A full chunk is replaced: pop, assign, let the old one go, reset. */
    method NextChunk(t: nat)
      requires Valid() && Ready(t) && t in current
      modifies this, buffers.Keys
      ensures Valid() && Ready(t) && t in current && KeepsLive()
      ensures current[t].usedSize == 0 && current[t] != old(Chunk(t))
    {
      hide Ledger.Ok, ChunksOk;
      CurrentKnown(Books(), t);
      var before := TakeNext(t);
      HandDiffers(Books(), t);
      LetOld(t, before);
      ResetCurrent(t);
    }

    /** `Open`: a buffer of the wanted size on the thread's chunk, or on a new one if the
        chunk is too full. No buffer that lived is touched. */
    method Open(t: nat, size: nat) returns (b: SendBuffer)
      requires Valid() && Ready(t) && size <= CHUNK_SIZE
      modifies this, buffers.Keys
      ensures Valid() && Live(b) && fresh(b) && !b.closed && b.allocSize == size
      ensures t in current && b.owner == current[t] && t !in hand
      ensures size <= old(Room(t)) ==> b.owner == old(Chunk(t)) && b.offset == CHUNK_SIZE - old(Room(t))
      ensures 0 <= old(Room(t)) < size ==> b.owner != old(Chunk(t)) && b.offset == 0
      ensures forall c | c in old(buffers) :: c in buffers && old(buffers)[c] <= buffers[c]
    {
      hide Ledger.Ok, ChunksOk;
      if t !in current {
        FirstChunk(t);
      }
      if size > current[t].FreeSize() {
        NextChunk(t);
      }
      CurrentKnown(Books(), t);
      b := OpenCurrent(t, size);
    }
  }
}