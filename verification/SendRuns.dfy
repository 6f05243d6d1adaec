/** Send buffers under several threads. `Open` and `Close` are taken apart into single accesses
    of what threads share: the pool behind its lock, the shared pointers, and one by one the
    fields of a chunk and of a buffer. Between them other threads open, write, close and drop
    buffers, and pop and push chunks. Who may close whose buffers is a rule of the callers. */
module SendRuns {
  import opened Options
  import opened SendSlices

  const WORD := 0x1_0000_0000

  /** Where a thread stands in `Open` of some size, in `Close`, or in the deleter of a chunk. */
  datatype Pc =
    | Idle
    | FirstPop(size: nat)      // its thread-local chunk is about to be initialised
    | FirstHand(size: nat)
    | Checking(size: nat)      // the manager's assertion that the chunk is not open
    | Measuring(size: nat)     // the test for room
    | NextPop(size: nat)
    | NextHand(size: nat)
    | Letting(size: nat)       // the old chunk is about to be let go
    | Pushing(chunk: SendBufferChunk, then_: Option<nat>)
    | Lowering(size: nat)      // `Reset`, its first store
    | Resetting(size: nat)     // and its second
    | Asserting(size: nat)     // the chunk's own assertions
    | Raising(size: nat)       // the chunk is about to be open
    | Cutting(size: nat)
    | Sizing(b: SendBuffer, n: nat)
    | Confirming(b: SendBuffer, n: nat)   // the assertion that the chunk is open
    | Shutting(b: SendBuffer, n: nat)     // the chunk is about to be open no more
    | Loading(b: SendBuffer, n: nat)      // the used size is about to be loaded, to add to it
    | Adding(b: SendBuffer, n: nat, seen: nat)
  {
    predicate Closes() { Sizing? || Confirming? || Shutting? || Loading? || Adding? }
    predicate HasHand() { FirstHand? || NextHand? || Letting? }
    predicate HasChunk() {
      Checking? || Measuring? || NextPop? || NextHand? || Letting? || Lowering? || Resetting? || Asserting? ||
          Raising? || Cutting?
    }
  }

  /** `slots` and `fills` are the fields of the chunks and of the buffers, but for `m_bOpen`,
      which is in `flags`. Read by no operation: the field `open` of a slot, true from the cut of
      a buffer to the end of its `Close`, and in `openers` who opened a buffer. */
  datatype World = World(
    books: Ledger, slots: map<SendBufferChunk, Slot>, flags: map<SendBufferChunk, bool>,
    fills: map<SendBuffer, Fill>, openers: map<SendBuffer, nat>, pcs: seq<Pc>)

  datatype Action =
    | CallOpen(t: nat, size: nat)
    | Pop(t: nat, c: SendBufferChunk, bytes: seq<Byte>)
    | Swap(t: nat)
    | Let(t: nat)
    | Push(t: nat)
    | Cut(t: nat, b: SendBuffer)
    | CallClose(t: nat, b: SendBuffer, n: nat)
    | Access(t: nat)           // of one field of a chunk or of a buffer
    | Write(b: SendBuffer, i: nat, v: Byte)
    | Drop(t: nat, b: SendBuffer)

  ghost predicate Live(w: World, b: SendBuffer) {
    b.owner in w.books.buffers && b in w.books.buffers[b.owner] && b in w.fills && b.owner in w.slots
  }

  /** The chunk a pop returns: the last of the pool, or a new one with any bytes. */
  ghost predicate Poppable(w: World, c: SendBufferChunk, bytes: seq<Byte>) {
    if w.books.pool == [] then c !in w.slots && c !in w.books.holder && |bytes| == CHUNK_SIZE
    else c == w.books.pool[|w.books.pool| - 1] && c in w.slots
  }

  ghost predicate HasFields(w: World, c: SendBufferChunk) { c in w.slots && c in w.flags }

  ghost predicate HasCurrent(w: World, t: nat) { t in w.books.current && HasFields(w, w.books.current[t]) }

  /** An access is made, unless it finds an assertion of the source failing. */
  ghost predicate CanAccess(w: World, t: nat, pc: Pc) {
    match pc
    case Checking(_) => HasCurrent(w, t) && !w.flags[w.books.current[t]]
    case Asserting(size) => HasCurrent(w, t) && !w.flags[w.books.current[t]] && size <= CHUNK_SIZE
    case Sizing(b, _) => b in w.fills
    case Confirming(b, _) => HasFields(w, b.owner) && w.flags[b.owner]
    case Shutting(b, _) => HasFields(w, b.owner)
    case Loading(b, _) => HasFields(w, b.owner)
    case Adding(b, _, _) =>
      HasFields(w, b.owner) && b in w.fills && b.offset + w.fills[b].writeSize <= |w.slots[b.owner].bytes|
    case _ => (pc.Measuring? || pc.Lowering? || pc.Resetting? || pc.Raising?) && HasCurrent(w, t)
  }

  ghost predicate Enabled(w: World, a: Action) {
    match a
    case CallOpen(t, size) => t < |w.pcs| && w.pcs[t].Idle?
    case Pop(t, c, bytes) => t < |w.pcs| && (w.pcs[t].FirstPop? || w.pcs[t].NextPop?) && Poppable(w, c, bytes)
    case Swap(t) => t < |w.pcs| && (w.pcs[t].FirstHand? || w.pcs[t].NextHand?) && t in w.books.hand
    case Let(t) => t < |w.pcs| && w.pcs[t].Letting? && t in w.books.hand && w.books.hand[t] in w.books.buffers
    case Push(t) => t < |w.pcs| && w.pcs[t].Pushing?
    case Cut(t, b) =>
      && t < |w.pcs| && w.pcs[t].Cutting? && HasCurrent(w, t)
      && b !in w.fills && b.owner == w.books.current[t] && b.owner in w.books.buffers
      && b.offset == w.slots[b.owner].used && b.allocSize == w.pcs[t].size
    case CallClose(t, b, n) => t < |w.pcs| && w.pcs[t].Idle? && Live(w, b) && n <= b.allocSize
    case Access(t) => t < |w.pcs| && CanAccess(w, t, w.pcs[t])
    case Write(b, i, _) =>
      Live(w, b) && !w.fills[b].closed && i < b.allocSize && b.offset + i < |w.slots[b.owner].bytes|
    case Drop(t, b) =>
      && t < |w.pcs| && w.pcs[t].Idle? && Live(w, b) && b.owner in w.books.holder
      && forall u | 0 <= u < |w.pcs| && w.pcs[u].Closes() :: w.pcs[u].b != b
  }

  ghost function BooksAfter(w: World, a: Action): Ledger
    requires Enabled(w, a)
  {
    match a
    case Pop(t, c, _) => w.books.Popped(t, c)
    case Swap(t) => w.books.Swapped(t)
    case Let(t) => w.books.HandDropped(t)
    case Push(t) => w.books.Returned(w.pcs[t].chunk)
    case Cut(_, b) => w.books.Opened(b)
    case Drop(_, b) => w.books.Dropped(b)
    case _ => w.books
  }

  ghost function SlotsAccessed(w: World, t: nat, pc: Pc): map<SendBufferChunk, Slot>
    requires CanAccess(w, t, pc)
  {
    match pc
    case Lowering(_) => w.slots[w.books.current[t] := w.slots[w.books.current[t]].(open := false)]
    case Resetting(_) => w.slots[w.books.current[t] := w.slots[w.books.current[t]].(used := 0)]
    case Adding(b, n, seen) => w.slots[b.owner := w.slots[b.owner].(open := false, used := (seen + n) % WORD)]
    case _ => w.slots
  }

  ghost function SlotsAfter(w: World, a: Action): map<SendBufferChunk, Slot>
    requires Enabled(w, a)
  {
    match a
    case Pop(_, c, bytes) => if c in w.slots then w.slots else w.slots[c := Slot(false, 0, bytes)]
    case Cut(_, b) => w.slots[b.owner := OpenedSlot(w.slots[b.owner])]
    case Write(b, i, v) => w.slots[b.owner := WrittenSlot(w.slots[b.owner], b.offset + i, v)]
    case Access(t) => SlotsAccessed(w, t, w.pcs[t])
    case _ => w.slots
  }

  ghost function FlagsAfter(w: World, a: Action): map<SendBufferChunk, bool>
    requires Enabled(w, a)
  {
    match a
    case Pop(_, c, _) => if c in w.flags then w.flags else w.flags[c := false]
    case Access(t) =>
      (match w.pcs[t]
       case Lowering(_) => w.flags[w.books.current[t] := false]
       case Raising(_) => w.flags[w.books.current[t] := true]
       case Shutting(b, _) => w.flags[b.owner := false]
       case _ => w.flags)
    case _ => w.flags
  }

  ghost function FillsAfter(w: World, a: Action): map<SendBuffer, Fill>
    requires Enabled(w, a)
  {
    match a
    case Cut(_, b) => w.fills[b := Fill(0, false, [])]
    case Access(t) =>
      (match w.pcs[t]
       case Sizing(b, n) => w.fills[b := w.fills[b].(writeSize := n)]
       case Adding(b, _, _) => w.fills[b := ClosedFill(w.slots[b.owner], b, w.fills[b].writeSize)]
       case _ => w.fills)
    case _ => w.fills
  }

  ghost function OpenersAfter(w: World, a: Action): map<SendBuffer, nat> {
    if a.Cut? then w.openers[a.b := a.t] else w.openers
  }

  /** `FreeSize`, on 32-bit numbers. */
  function Free(used: nat): nat { (CHUNK_SIZE - used) % WORD }

  ghost function PcAccessed(w: World, t: nat, pc: Pc): Pc
    requires CanAccess(w, t, pc)
  {
    match pc
    case Checking(size) => Measuring(size)
    case Measuring(size) => if size > Free(w.slots[w.books.current[t]].used) then NextPop(size) else Asserting(size)
    case Lowering(size) => Resetting(size)
    case Resetting(size) => Asserting(size)
    case Asserting(size) => Raising(size)
    case Raising(size) => Cutting(size)
    case Sizing(b, n) => Confirming(b, n)
    case Confirming(b, n) => Shutting(b, n)
    case Shutting(b, n) => Loading(b, n)
    case Loading(b, n) => Adding(b, n, w.slots[b.owner].used)
    case _ => Idle
  }

  ghost function PcAfter(w: World, a: Action): Pc
    requires Enabled(w, a) && !a.Write?
  {
    var l, pc := w.books, w.pcs[a.t];
    match a
    case CallOpen(t, size) => if t in l.current then Checking(size) else FirstPop(size)
    case Pop(_, _, _) => if pc.FirstPop? then FirstHand(pc.size) else NextHand(pc.size)
    case Swap(_) => if pc.FirstHand? then Checking(pc.size) else Letting(pc.size)
    case Let(t) => if l.buffers[l.hand[t]] == {} then Pushing(l.hand[t], Some(pc.size)) else Lowering(pc.size)
    case Push(_) => if pc.then_.Some? then Lowering(pc.then_.value) else Idle
    case Cut(_, _) => Idle
    case CallClose(_, b, n) => Sizing(b, n)
    case Access(t) => PcAccessed(w, t, pc)
    case Drop(_, b) =>
      if l.buffers[b.owner] == {b} && l.holder[b.owner].Nobody? then Pushing(b.owner, None) else Idle
  }

  ghost function Apply(w: World, a: Action): World
    requires Enabled(w, a)
  {
    World(BooksAfter(w, a), SlotsAfter(w, a), FlagsAfter(w, a), FillsAfter(w, a), OpenersAfter(w, a),
          if a.Write? then w.pcs else w.pcs[a.t := PcAfter(w, a)])
  }

  /** The manager after its constructor: chunks in the pool, nothing live, no thread inside. */
  ghost predicate Init(w: World) {
    && AllPooled(w.books) && w.fills == map[] && w.openers == map[]
    && w.slots.Keys == w.books.holder.Keys == w.flags.Keys
    && (forall c | c in w.slots ::
          w.slots[c].used == 0 && !w.slots[c].open && !w.flags[c] && |w.slots[c].bytes| == CHUNK_SIZE)
    && (forall t | 0 <= t < |w.pcs| :: w.pcs[t].Idle?)
  }

  /** What the callers keep to: whether thread t's buffers may be closed by thread u, and
      whether a buffer is closed only once. */
  datatype Rule = Rule(may: (nat, nat) -> bool, once: bool)

  ghost predicate Allowed(rule: Rule, w: World, a: Action) {
    a.CallClose? ==>
      a.b in w.openers && rule.may(w.openers[a.b], a.t) && (rule.once ==> a.b in w.fills && !w.fills[a.b].closed)
  }

  ghost predicate Leads(rule: Rule, w: World, acts: seq<Action>, w': World)
    decreases |acts|
  {
    if acts == [] then w == w'
    else Enabled(w, acts[0]) && Allowed(rule, w, acts[0]) && Leads(rule, Apply(w, acts[0]), acts[1..], w')
  }

  // ---------------------------------------------------------------- where the chunks are

  /** What a thread relies on where it stands, whoever closes what. */
  ghost predicate PcOk(w: World, t: nat, pc: Pc) {
    var l := w.books;
    && (pc.HasHand() <==> t in l.hand)
    && (pc.FirstPop? || pc.FirstHand? ==> t !in l.current)
    && (pc.HasChunk() ==> t in l.current)
    && (pc.FirstHand? || pc.NextHand? ==> HandIsFresh(l, t))
    && (pc.Letting? || pc.Lowering? || pc.Resetting? ==> FreshCurrent(l, t))
    && (pc.Pushing? ==> pc.chunk in l.holder && l.holder[pc.chunk].Returning?)
    && (pc.Pushing? && pc.then_.Some? ==> FreshCurrent(l, t))
    && (pc.Closes() ==> Live(w, pc.b))
  }

  /** A chunk on its way to the pool is pushed by exactly one thread. */
  ghost predicate PushOk(w: World, c: SendBufferChunk) {
    c in w.books.holder && w.books.holder[c].Returning? ==>
      exists t | 0 <= t < |w.pcs| :: w.pcs[t].Pushing? && w.pcs[t].chunk == c
  }

  ghost predicate PushersDiffer(pcs: seq<Pc>) {
    forall t, u | 0 <= t < u < |pcs| && pcs[t].Pushing? && pcs[u].Pushing? :: pcs[t].chunk != pcs[u].chunk
  }

  ghost predicate PlaceKeys(w: World) {
    && w.slots.Keys == w.flags.Keys == w.books.holder.Keys == w.books.buffers.Keys
    && (forall t | t in w.books.hand :: t < |w.pcs|)
  }

  /** Whoever closes what: every chunk is in one place, and the threads know where. */
  ghost predicate Inv(w: World) {
    && w.books.Ok() && PlaceKeys(w) && PushersDiffer(w.pcs)
    && (forall t | 0 <= t < |w.pcs| :: PcOk(w, t, w.pcs[t]))
    && (forall c | c in w.books.holder :: PushOk(w, c))
  }

  lemma InitInv(w: World)
    requires Init(w)
    ensures Inv(w)
  {
    AllPooledOk(w.books);
    hide Ledger.Ok;
  }

  lemma PcKnown(w: World, t: nat)
    requires Inv(w) && t < |w.pcs|
    ensures PcOk(w, t, w.pcs[t]) && w.books.Ok() && PlaceKeys(w)
  {}

  lemma PoppingKnown(w: World, t: nat, c: SendBufferChunk, bytes: seq<Byte>)
    requires Inv(w) && t < |w.pcs| && (w.pcs[t].FirstPop? || w.pcs[t].NextPop?) && Poppable(w, c, bytes)
    ensures t !in w.books.hand &&
            if w.books.pool == [] then c !in w.books.holder else c == w.books.pool[|w.books.pool| - 1]
  {
    PcKnown(w, t);
  }

  lemma SwappingKnown(w: World, t: nat)
    requires Inv(w) && t < |w.pcs| && (w.pcs[t].FirstHand? || w.pcs[t].NextHand?)
    ensures HandIsFresh(w.books, t)
  {
    PcKnown(w, t);
  }

  lemma BooksNext(w: World, a: Action)
    requires Inv(w) && Enabled(w, a)
    ensures Apply(w, a).books.Ok()
  {
    hide Ledger.Ok, PcOk, SlotsAfter, FlagsAfter, FillsAfter, PcAfter, Poppable;
    hide Ledger.Popped, Ledger.Swapped, Ledger.HandDropped, Ledger.Opened, Ledger.Dropped, Ledger.Returned;
    match a
    case Pop(t, c, bytes) => PoppingKnown(w, t, c, bytes); PoppedOk(w.books, t, c);
    case Swap(t) => SwappingKnown(w, t); SwappedOk(w.books, t);
    case Let(t) => HandDroppedOk(w.books, t);
    case Push(t) => PusherKnown(w, t); ReturnedOk(w.books, w.pcs[t].chunk);
    case Cut(t, b) => OpenedOk(w.books, b, t);
    case Drop(_, b) => DroppedOk(w.books, b);
    case _ =>
  }

  /** Only a pop brings in a chunk. */
  lemma HoldersNext(w: World, a: Action)
    requires Inv(w) && Enabled(w, a)
    ensures BooksAfter(w, a).holder.Keys == w.books.holder.Keys + if a.Pop? then {a.c} else {}
  {
    hide Ledger.Ok, Inv, PcOk, SlotsAfter, FlagsAfter, FillsAfter, PcAfter, Poppable;
    match a
    case Swap(t) =>
      InvKeys(w);
      HandKnown(w.books, t);
      if t in w.books.current { CurrentKnown(w.books, t); }
    case Let(t) => InvKeys(w); HandKnown(w.books, t);
    case Push(t) => PusherKnown(w, t);
    case _ =>
  }

  lemma SlotKeysNext(w: World, a: Action)
    requires Enabled(w, a)
    ensures SlotsAfter(w, a).Keys == w.slots.Keys + if a.Pop? then {a.c} else {}
    ensures FlagsAfter(w, a).Keys == w.flags.Keys + if a.Pop? then {a.c} else {}
  {
    hide BooksAfter, FillsAfter, PcAfter, Poppable;
  }

  lemma KeysNext(w: World, a: Action)
    requires Inv(w) && Enabled(w, a)
    ensures PlaceKeys(Apply(w, a))
  {
    hide Ledger.Ok, Inv, PcOk, Enabled, BooksAfter, SlotsAfter, FlagsAfter, FillsAfter, PcAfter;
    InvKeys(w);
    BooksNext(w, a);
    SamePcs(w, a);
    SameKeys(Apply(w, a).books);
    HandsNext(w, a);
    HoldersNext(w, a);
    SlotKeysNext(w, a);
  }

  lemma PusherKnown(w: World, t: nat)
    requires Inv(w) && t < |w.pcs| && w.pcs[t].Pushing?
    ensures w.pcs[t].chunk in w.books.holder && w.books.holder[w.pcs[t].chunk].Returning?
  {
    PcKnown(w, t);
  }

  lemma InvKeys(w: World)
    requires Inv(w)
    ensures PlaceKeys(w) && w.books.Ok()
  {}

  /** Only threads have popped chunks. */
  lemma HandsNext(w: World, a: Action)
    requires Inv(w) && Enabled(w, a)
    ensures forall t | t in BooksAfter(w, a).hand :: t < |w.pcs|
  {
    InvKeys(w);
    hide Ledger.Ok, Inv, PcOk, SlotsAfter, FlagsAfter, FillsAfter, PcAfter, Poppable;
  }

  lemma PooledIsEmpty(w: World, t: nat, c: SendBufferChunk, bytes: seq<Byte>)
    requires Inv(w) && Poppable(w, c, bytes) && c in w.slots
    ensures c in w.books.buffers && c in w.books.holder && w.books.buffers[c] == {} && w.books.holder[c].Pooled?
  {
    InvKeys(w);
    PoolKnown(w.books, |w.books.pool| - 1);
  }

  // ---------------------------------------------------------------- what other threads leave alone

  predicate ByThread(a: Action, u: nat) { !a.Write? && a.t == u }

  /** Thread u's chunks are the same, and nothing has come to live on them that did not. */
  ghost predicate SameFor(l: Ledger, l': Ledger, u: nat) {
    && (u in l'.hand <==> u in l.hand) && (u in l.hand ==> l'.hand[u] == l.hand[u])
    && (u in l'.current <==> u in l.current) && (u in l.current ==> l'.current[u] == l.current[u])
    && (HandIsFresh(l, u) ==> HandIsFresh(l', u))
    && (FreshCurrent(l, u) ==> FreshCurrent(l', u))
  }

  lemma OpenedSame(l: Ledger, b: SendBuffer, t: nat, u: nat)
    requires l.Ok() && t in l.current && l.current[t] == b.owner && b.owner in l.buffers && t != u
    ensures SameFor(l, l.Opened(b), u)
  {
    hide Ledger.Ok;
    CurrentKnown(l, t);
    if u in l.hand { HandKnown(l, u); }
    if u in l.current { CurrentKnown(l, u); }
  }

  lemma PoppedSame(l: Ledger, c: SendBufferChunk, t: nat, u: nat)
    requires t != u
    ensures SameFor(l, l.Popped(t, c), u)
  {}

  lemma SwappedSame(l: Ledger, t: nat, u: nat)
    requires t != u && t in l.hand
    ensures SameFor(l, l.Swapped(t), u)
  {}

  lemma HandDroppedSame(l: Ledger, t: nat, u: nat)
    requires t != u && t in l.hand && l.hand[t] in l.buffers
    ensures SameFor(l, l.HandDropped(t), u)
  {}

  lemma DroppedSame(l: Ledger, b: SendBuffer, u: nat)
    requires b.owner in l.buffers && b.owner in l.holder
    ensures SameFor(l, l.Dropped(b), u)
  {}

  lemma ReturnedSame(l: Ledger, c: SendBufferChunk, u: nat)
    ensures SameFor(l, l.Returned(c), u)
  {}

  lemma NothingSame(l: Ledger, u: nat)
    ensures SameFor(l, l, u)
  {}

  /** Nothing another thread does changes a thread's chunks, or puts a buffer on a chunk it
      has just popped or just made its own. */
  lemma OthersKeepBooks(w: World, a: Action, u: nat)
    requires Inv(w) && Enabled(w, a) && !ByThread(a, u)
    ensures SameFor(w.books, BooksAfter(w, a), u)
  {
    InvKeys(w);
    hide Inv, Ledger.Ok, PcOk, PlaceKeys, PushOk;
    hide Ledger.Popped, Ledger.Swapped, Ledger.HandDropped, Ledger.Opened, Ledger.Dropped, Ledger.Returned;
    hide SameFor, Poppable;
    NothingSame(w.books, u);
    match a
    case Pop(t, c, _) => PoppedSame(w.books, c, t, u);
    case Swap(t) => SwappedSame(w.books, t, u);
    case Let(t) => HandDroppedSame(w.books, t, u);
    case Push(t) => ReturnedSame(w.books, w.pcs[t].chunk, u);
    case Cut(t, b) => OpenedSame(w.books, b, t, u);
    case Drop(_, b) => DroppedSame(w.books, b, u);
    case _ =>
  }

  /** A cut of thread t is not on thread u's chunk; a reset neither. */
  lemma ChunksDiffer(l: Ledger, t: nat, u: nat)
    requires l.Ok() && t in l.current && u in l.current && t != u
    ensures l.current[t] != l.current[u]
  {
    CurrentKnown(l, t);
    CurrentKnown(l, u);
  }

  /** A live buffer stays live until it is dropped. */
  lemma LiveStays(w: World, a: Action, b: SendBuffer)
    requires Inv(w) && Enabled(w, a) && Live(w, b) && !(a.Drop? && a.b == b)
    ensures b.owner in BooksAfter(w, a).buffers && b in BooksAfter(w, a).buffers[b.owner]
    ensures b in FillsAfter(w, a) && b.owner in SlotsAfter(w, a)
  {
    hide Inv, Ledger.Ok, PcOk, PcAfter;
    LiveInBooks(w, a, b);
    hide BooksAfter;
    SlotKeysNext(w, a);
    hide SlotsAfter;
  }

  lemma LiveInBooks(w: World, a: Action, b: SendBuffer)
    requires Inv(w) && Enabled(w, a) && Live(w, b) && !(a.Drop? && a.b == b)
    ensures b.owner in BooksAfter(w, a).buffers && b in BooksAfter(w, a).buffers[b.owner]
  {
    hide Inv, Ledger.Ok, PcOk, PcAfter, SlotsAfter, FlagsAfter, FillsAfter;
    if a.Pop? && a.c in w.slots { PooledIsEmpty(w, a.t, a.c, a.bytes); }
  }

  /** A chunk on its way to the pool stays so until it is pushed. */
  ghost predicate StillReturning(l': Ledger, c: SendBufferChunk) {
    c in l'.holder && l'.holder[c].Returning?
  }

  lemma OthersPush(w: World, a: Action, u: nat)
    requires Inv(w) && Enabled(w, a) && !ByThread(a, u) && u < |w.pcs| && w.pcs[u].Pushing?
    ensures StillReturning(BooksAfter(w, a), w.pcs[u].chunk)
  {
    hide Inv, Ledger.Ok, PcOk, PlaceKeys, PushOk, Poppable, StillReturning;
    hide Ledger.Popped, Ledger.Swapped, Ledger.HandDropped, Ledger.Opened, Ledger.Dropped, Ledger.Returned;
    var l, c := w.books, w.pcs[u].chunk;
    PusherIsAlone(w, a, u);
    if a.Pop? || a.Swap? || a.Let? {
      OthersPushOn(w, a, c);
    } else if a.Push? {
      ReturnedReturning(l, w.pcs[a.t].chunk, c);
    } else if a.Cut? {
      OpenedReturning(l, a.b, c);
    } else if a.Drop? {
      DroppedReturning(l, a.b, c);
    }
  }

  lemma OthersPushOn(w: World, a: Action, c: SendBufferChunk)
    requires Inv(w) && Enabled(w, a) && StillReturning(w.books, c) && (a.Pop? || a.Swap? || a.Let?)
    ensures StillReturning(BooksAfter(w, a), c)
  {
    hide Inv, Ledger.Ok, PcOk, PlaceKeys, PushOk, Poppable, StillReturning;
    hide Ledger.Popped, Ledger.Swapped, Ledger.HandDropped;
    InvKeys(w);
    if a.Pop? {
      PoppedDiffers(w, a.t, a.c, a.bytes, c);
      PoppedReturning(w.books, a.c, a.t, c);
    } else if a.Swap? {
      SwappedReturning(w.books, a.t, c);
    } else {
      HandDroppedReturning(w.books, a.t, c);
    }
  }

  lemma PoppedDiffers(w: World, t: nat, d: SendBufferChunk, bytes: seq<Byte>, c: SendBufferChunk)
    requires Inv(w) && Poppable(w, d, bytes) && StillReturning(w.books, c)
    ensures d != c
  {
    if d in w.slots { PooledIsEmpty(w, t, d, bytes); }
    InvKeys(w);
    hide Inv, Ledger.Ok;
  }

  lemma PoppedReturning(l: Ledger, d: SendBufferChunk, t: nat, c: SendBufferChunk)
    requires StillReturning(l, c) && d != c
    ensures StillReturning(l.Popped(t, d), c)
  {}

  lemma SwappedReturning(l: Ledger, t: nat, c: SendBufferChunk)
    requires l.Ok() && StillReturning(l, c) && t in l.hand
    ensures StillReturning(l.Swapped(t), c)
  {
    hide Ledger.Ok;
    HandKnown(l, t);
    if t in l.current { CurrentKnown(l, t); }
  }

  lemma HandDroppedReturning(l: Ledger, t: nat, c: SendBufferChunk)
    requires l.Ok() && StillReturning(l, c) && t in l.hand && l.hand[t] in l.buffers
    ensures StillReturning(l.HandDropped(t), c)
  {
    hide Ledger.Ok;
    HandKnown(l, t);
  }

  lemma ReturnedReturning(l: Ledger, d: SendBufferChunk, c: SendBufferChunk)
    requires StillReturning(l, c) && d != c
    ensures StillReturning(l.Returned(d), c)
  {}

  lemma OpenedReturning(l: Ledger, b: SendBuffer, c: SendBufferChunk)
    requires StillReturning(l, c) && b.owner in l.buffers
    ensures StillReturning(l.Opened(b), c)
  {}

  lemma DroppedReturning(l: Ledger, b: SendBuffer, c: SendBufferChunk)
    requires StillReturning(l, c) && b.owner in l.buffers && b.owner in l.holder
    ensures StillReturning(l.Dropped(b), c)
  {}

  lemma PusherIsAlone(w: World, a: Action, u: nat)
    requires Inv(w) && Enabled(w, a) && !ByThread(a, u) && u < |w.pcs| && w.pcs[u].Pushing?
    ensures StillReturning(w.books, w.pcs[u].chunk)
    ensures a.Push? ==> w.pcs[a.t].chunk != w.pcs[u].chunk
    ensures a.Pop? && a.c !in w.slots ==> a.c != w.pcs[u].chunk
  {
    hide Ledger.Ok;
    PcKnown(w, u);
  }

  lemma OthersCloseOn(w: World, a: Action, u: nat)
    requires Inv(w) && Enabled(w, a) && !ByThread(a, u) && u < |w.pcs| && w.pcs[u].Closes()
    ensures Live(Apply(w, a), w.pcs[u].b)
  {
    hide Inv, Ledger.Ok, BooksAfter, SlotsAfter, FlagsAfter, FillsAfter, PcAfter;
    ClosingKnown(w, u);
    LiveStays(w, a, w.pcs[u].b);
  }

  lemma ClosingKnown(w: World, u: nat)
    requires Inv(w) && u < |w.pcs| && w.pcs[u].Closes()
    ensures Live(w, w.pcs[u].b)
  {
    PcKnown(w, u);
  }

  lemma OtherPc(w: World, a: Action, u: nat)
    requires Inv(w) && Enabled(w, a) && !ByThread(a, u) && u < |w.pcs|
    ensures PcOk(Apply(w, a), u, w.pcs[u]) && Apply(w, a).pcs[u] == w.pcs[u]
  {
    hide Inv, Ledger.Ok, SlotsAfter, FlagsAfter, BooksAfter, FillsAfter, PcAfter, Enabled, Live;
    PcKnown(w, u);
    OthersKeepBooks(w, a, u);
    if w.pcs[u].Closes() { OthersCloseOn(w, a, u); }
    if w.pcs[u].Pushing? { OthersPush(w, a, u); }
  }

  lemma OwnPopped(w: World, a: Action, u: nat)
    requires Inv(w) && Enabled(w, a) && a.Pop? && a.t == u
    ensures PcOk(Apply(w, a), u, PcAfter(w, a))
  {
    hide Inv, Ledger.Ok, FillsAfter, FlagsAfter, SlotsAfter, Poppable;
    PcKnown(w, u);
  }

  lemma OwnSwapped(w: World, a: Action, u: nat)
    requires Inv(w) && Enabled(w, a) && a.Swap? && a.t == u
    ensures PcOk(Apply(w, a), u, PcAfter(w, a))
  {
    hide Inv, Ledger.Ok, FillsAfter, FlagsAfter, SlotsAfter;
    PcKnown(w, u);
  }

  lemma OwnLet(w: World, a: Action, u: nat)
    requires Inv(w) && Enabled(w, a) && a.Let? && a.t == u
    ensures PcOk(Apply(w, a), u, PcAfter(w, a))
  {
    hide Inv, Ledger.Ok, FillsAfter, FlagsAfter, SlotsAfter;
    PcKnown(w, u);
  }

  lemma OwnAccess(w: World, a: Action, u: nat)
    requires Inv(w) && Enabled(w, a) && a.Access? && a.t == u < |w.pcs|
    ensures PcOk(Apply(w, a), u, PcAfter(w, a))
  {
    hide Inv, Ledger.Ok, SlotsAfter, FlagsAfter, FillsAfter, Live, PcOk, PcAfter, BooksAfter, Enabled;
    if w.pcs[u].Closes() {
      OwnCloseOn(w, a, u);
      OwnClosing(w, a, u);
    } else {
      OwnOpening(w, a, u);
    }
  }

  /** Where an access in `Close` leads to. */
  lemma OwnClosing(w: World, a: Action, u: nat)
    requires Inv(w) && Enabled(w, a) && a.Access? && a.t == u && w.pcs[u].Closes()
    requires Live(Apply(w, a), w.pcs[u].b)
    ensures PcOk(Apply(w, a), u, PcAfter(w, a))
  {
    hide Inv, Ledger.Ok, SlotsAfter, FlagsAfter, FillsAfter, Live;
    PcKnown(w, u);
  }

  lemma OwnOpening(w: World, a: Action, u: nat)
    requires Inv(w) && Enabled(w, a) && a.Access? && a.t == u && !w.pcs[u].Closes()
    ensures PcOk(Apply(w, a), u, PcAfter(w, a))
  {
    hide Inv, Ledger.Ok, SlotsAfter, FlagsAfter, FillsAfter, Live;
    PcKnown(w, u);
  }

  lemma OwnCloseOn(w: World, a: Action, u: nat)
    requires Inv(w) && Enabled(w, a) && a.Access? && a.t == u && w.pcs[u].Closes()
    ensures Live(Apply(w, a), w.pcs[u].b)
  {
    hide Inv, Ledger.Ok, BooksAfter, SlotsAfter, FlagsAfter, FillsAfter, PcAfter;
    ClosingKnown(w, u);
    LiveStays(w, a, w.pcs[u].b);
  }

  lemma OwnEnd(w: World, a: Action, u: nat)
    requires Inv(w) && Enabled(w, a) && (a.Push? || a.Cut? || a.Drop? || a.CallOpen?) && a.t == u
    ensures PcOk(Apply(w, a), u, PcAfter(w, a))
  {
    hide Inv, Ledger.Ok, FillsAfter, FlagsAfter, SlotsAfter;
    PcKnown(w, u);
  }

  lemma OwnCallClose(w: World, a: Action, u: nat)
    requires Inv(w) && Enabled(w, a) && a.CallClose? && a.t == u
    ensures PcOk(Apply(w, a), u, PcAfter(w, a))
  {
    hide Inv, Ledger.Ok;
    PcKnown(w, u);
  }

  lemma PcNext(w: World, a: Action, u: nat)
    requires Inv(w) && Enabled(w, a) && u < |w.pcs|
    ensures PcOk(Apply(w, a), u, Apply(w, a).pcs[u])
  {
    hide Inv, Ledger.Ok, PcOk, BooksAfter, SlotsAfter, FlagsAfter, FillsAfter, PcAfter;
    if !ByThread(a, u) {
      OtherPc(w, a, u);
    } else if a.Pop? {
      OwnPopped(w, a, u);
    } else if a.Swap? {
      OwnSwapped(w, a, u);
    } else if a.Let? {
      OwnLet(w, a, u);
    } else if a.Access? {
      OwnAccess(w, a, u);
    } else if a.CallClose? {
      OwnCallClose(w, a, u);
    } else {
      OwnEnd(w, a, u);
    }
  }

  // ---------------------------------------------------------------- pushing back

  lemma PushKnown(w: World, c: SendBufferChunk)
    requires Inv(w) && StillReturning(w.books, c)
    ensures exists t | 0 <= t < |w.pcs| :: w.pcs[t].Pushing? && w.pcs[t].chunk == c
  {
    assert PushOk(w, c);
  }

  lemma SwappedReturningBack(l: Ledger, t: nat, c: SendBufferChunk)
    requires t in l.hand && StillReturning(l.Swapped(t), c)
    ensures StillReturning(l, c)
  {}

  lemma HandDroppedReturningBack(l: Ledger, t: nat, c: SendBufferChunk)
    requires t in l.hand && l.hand[t] in l.buffers && StillReturning(l.HandDropped(t), c) && !StillReturning(l, c)
    ensures l.buffers[l.hand[t]] == {} && c == l.hand[t]
  {}

  lemma DroppedReturningBack(l: Ledger, b: SendBuffer, c: SendBufferChunk)
    requires b.owner in l.buffers && b.owner in l.holder && StillReturning(l.Dropped(b), c) && !StillReturning(l, c)
    ensures l.buffers[b.owner] == {b} && l.holder[b.owner].Nobody? && c == b.owner
  {}

  /** A chunk starts on its way to the pool only when its last holder lets it go. */
  lemma NewlyReturning(w: World, a: Action, c: SendBufferChunk)
    requires Inv(w) && Enabled(w, a) && StillReturning(BooksAfter(w, a), c) && !StillReturning(w.books, c)
    ensures (a.Let? || a.Drop?) && PcAfter(w, a).Pushing? && PcAfter(w, a).chunk == c
  {
    hide Inv, Ledger.Ok, PcOk, SlotsAfter, FlagsAfter, FillsAfter, Poppable;
    if a.Swap? {
      hide Ledger.Swapped;
      SwappedReturningBack(w.books, a.t, c);
    } else if a.Let? {
      hide Ledger.HandDropped;
      HandDroppedReturningBack(w.books, a.t, c);
    } else if a.Drop? {
      hide Ledger.Dropped;
      DroppedReturningBack(w.books, a.b, c);
    }
  }

  lemma PushStays(w: World, a: Action, c: SendBufferChunk)
    requires Inv(w) && Enabled(w, a) && StillReturning(BooksAfter(w, a), c) && StillReturning(w.books, c)
    ensures PushOk(Apply(w, a), c)
  {
    hide Inv, Ledger.Ok, PcOk, BooksAfter, SlotsAfter, FlagsAfter, FillsAfter, PcAfter;
    PushKnown(w, c);
    var t :| 0 <= t < |w.pcs| && w.pcs[t].Pushing? && w.pcs[t].chunk == c;
    if ByThread(a, t) { PushedIsPooled(w, a, t); }
    assert Apply(w, a).pcs[t] == w.pcs[t];
  }

  lemma PushNext(w: World, a: Action, c: SendBufferChunk)
    requires Inv(w) && Enabled(w, a)
    ensures PushOk(Apply(w, a), c)
  {
    hide Inv, Ledger.Ok, PcOk, BooksAfter, SlotsAfter, FlagsAfter, FillsAfter, PcAfter;
    if StillReturning(BooksAfter(w, a), c) {
      if StillReturning(w.books, c) {
        PushStays(w, a, c);
      } else {
        NewlyReturning(w, a, c);
        hide Enabled;
        assert Apply(w, a).pcs[a.t] == PcAfter(w, a);
      }
    }
  }

  lemma PushedIsPooled(w: World, a: Action, t: nat)
    requires Inv(w) && Enabled(w, a) && t < |w.pcs| && w.pcs[t].Pushing? && ByThread(a, t)
    ensures !StillReturning(BooksAfter(w, a), w.pcs[t].chunk)
  {
    hide Inv, Ledger.Ok, PcOk;
  }

  lemma OnePusherMore(pcs: seq<Pc>, t: nat, pc: Pc)
    requires PushersDiffer(pcs) && t < |pcs|
    requires pc.Pushing? ==> forall u | 0 <= u < |pcs| && u != t && pcs[u].Pushing? :: pcs[u].chunk != pc.chunk
    ensures PushersDiffer(pcs[t := pc])
  {}

  lemma PushersNext(w: World, a: Action)
    requires Inv(w) && Enabled(w, a)
    ensures PushersDiffer(Apply(w, a).pcs)
  {
    PushersKnown(w);
    hide Inv, Ledger.Ok, PcOk, BooksAfter, SlotsAfter, FlagsAfter, FillsAfter, PcAfter, PushersDiffer;
    if !a.Write? {
      var pc := PcAfter(w, a);
      if pc.Pushing? { PusherIsNew(w, a); }
      forall u | pc.Pushing? && 0 <= u < |w.pcs| && u != a.t && w.pcs[u].Pushing? ensures w.pcs[u].chunk != pc.chunk {
        PusherIsAlone(w, a, u);
      }
      OnePusherMore(w.pcs, a.t, pc);
    }
  }

  lemma PushersKnown(w: World)
    requires Inv(w)
    ensures PushersDiffer(w.pcs)
  {}

  lemma PusherIsNew(w: World, a: Action)
    requires Inv(w) && Enabled(w, a) && !a.Write? && PcAfter(w, a).Pushing?
    ensures !StillReturning(w.books, PcAfter(w, a).chunk)
  {
    hide Inv, Ledger.Ok, PcOk, BooksAfter, SlotsAfter, FlagsAfter, FillsAfter, Poppable;
    InvKeys(w);
    if a.Let? { HandKnown(w.books, a.t); }
  }

  // ---------------------------------------------------------------- over whole runs

  lemma NextInv(w: World, a: Action)
    requires Inv(w) && Enabled(w, a)
    ensures Inv(Apply(w, a))
  {
    var w' := Apply(w, a);
    BooksNext(w, a);
    KeysNext(w, a);
    PushersNext(w, a);
    SamePcs(w, a);
    forall t | 0 <= t < |w'.pcs| ensures PcOk(w', t, w'.pcs[t]) { PcNext(w, a, t); }
    forall c | c in w'.books.holder ensures PushOk(w', c) { PushNext(w, a, c); }
    hide Apply, Ledger.Ok, PcOk, PushOk, PushersDiffer, PlaceKeys;
  }

  lemma SamePcs(w: World, a: Action)
    requires Enabled(w, a)
    ensures |Apply(w, a).pcs| == |w.pcs|
  {}

  lemma {:induction false} RunInv(rule: Rule, w: World, acts: seq<Action>, w': World)
    requires Inv(w) && Leads(rule, w, acts, w')
    ensures Inv(w') && |w'.pcs| == |w.pcs|
    decreases |acts|
  {
    hide Inv, Apply, Enabled, Allowed;
    if acts != [] {
      NextInv(w, acts[0]);
      SamePcs(w, acts[0]);
      RunInv(rule, Apply(w, acts[0]), acts[1..], w');
    }
  }

  /** On every run each chunk is in exactly one state, and is on its way to the pool exactly
      while one thread is about to push it. */
  lemma OneState(rule: Rule, w: World, acts: seq<Action>, w': World, c: SendBufferChunk)
    requires Init(w) && Leads(rule, w, acts, w') && c in w'.slots
    ensures c in w'.books.buffers && c in w'.books.holder
    ensures c in w'.books.pool ==>
              w'.books.buffers[c] == {} && c !in w'.books.current.Values && c !in w'.books.hand.Values
    ensures forall t, u | t in w'.books.current && w'.books.current[t] == c && u in w'.books.current &&
            w'.books.current[u] == c ::
              t == u
    ensures w'.books.holder[c].Returning? <==>
              exists t | 0 <= t < |w'.pcs| :: w'.pcs[t].Pushing? && w'.pcs[t].chunk == c
    ensures w'.books.holder[c].Nobody? ==> w'.books.buffers[c] != {}
  {
    InitInv(w);
    RunInv(rule, w, acts, w');
    InvKeys(w');
    OnePlace(w'.books, c);
    PlaceKnown(w'.books, c);
    if w'.books.holder[c].Returning? { PushKnown(w', c); }
    if t :| 0 <= t < |w'.pcs| && w'.pcs[t].Pushing? && w'.pcs[t].chunk == c { PcKnown(w', t); }
    hide Inv, Leads, Init, Ledger.Ok;
  }

  /** On every run both stores of `Reset` meet a chunk without live buffers. */
  lemma ResetIsSafe(rule: Rule, w: World, acts: seq<Action>, w': World, t: nat)
    requires Init(w) && Leads(rule, w, acts, w') && t < |w'.pcs| && (w'.pcs[t].Lowering? || w'.pcs[t].Resetting?)
    ensures FreshCurrent(w'.books, t)
  {
    InitInv(w);
    RunInv(rule, w, acts, w');
    ResetIsFresh(w', t);
  }

  lemma ResetIsFresh(w: World, t: nat)
    requires Inv(w) && t < |w.pcs| && (w.pcs[t].Lowering? || w.pcs[t].Resetting?)
    ensures FreshCurrent(w.books, t)
  {
    PcKnown(w, t);
  }

  /** The guards of the model only say where a thread stands: but for the assertions of the
      source, and for a slice that would end beyond the chunk, every thread inside `Open`,
      `Close` or the deleter can go on, given memory. */
  lemma NothingBlocks(rule: Rule, w: World, acts: seq<Action>, w': World, t: nat)
    requires Init(w) && Leads(rule, w, acts, w') && t < |w'.pcs|
    ensures match w'.pcs[t]
            case Idle => forall size: nat :: Enabled(w', CallOpen(t, size))
            case FirstPop(_) => forall c, bytes | Poppable(w', c, bytes) :: Enabled(w', Pop(t, c, bytes))
            case NextPop(_) => forall c, bytes | Poppable(w', c, bytes) :: Enabled(w', Pop(t, c, bytes))
            case FirstHand(_) => Enabled(w', Swap(t))
            case NextHand(_) => Enabled(w', Swap(t))
            case Letting(_) => Enabled(w', Let(t))
            case Pushing(_, _) => Enabled(w', Push(t))
            case Cutting(size) => HasCurrent(w', t) && forall b: SendBuffer |
                b !in w'.fills && b.owner == w'.books.current[t] &&
                b.offset == w'.slots[b.owner].used && b.allocSize == size :: Enabled(w', Cut(t, b))
            case Checking(_) => HasCurrent(w', t) && (!w'.flags[w'.books.current[t]] ==> Enabled(w', Access(t)))
            case Asserting(size) =>
              HasCurrent(w', t) && (!w'.flags[w'.books.current[t]] && size <= CHUNK_SIZE ==> Enabled(w', Access(t)))
            case Confirming(b, _) => HasFields(w', b.owner) && (w'.flags[b.owner] ==> Enabled(w', Access(t)))
            case Adding(b, _, _) => HasFields(w', b.owner) && b in w'.fills &&
                (b.offset + w'.fills[b].writeSize <= |w'.slots[b.owner].bytes| ==> Enabled(w', Access(t)))
            case _ => Enabled(w', Access(t))
  {
    hide Inv, Leads, Init;
    InitInv(w);
    RunInv(rule, w, acts, w');
    if w'.pcs[t].Closes() { CloseCanGoOn(w', t); } else { OpenCanGoOn(w', t); }
  }

  lemma CloseCanGoOn(w: World, t: nat)
    requires Inv(w) && t < |w.pcs| && w.pcs[t].Closes()
    ensures Live(w, w.pcs[t].b) && HasFields(w, w.pcs[t].b.owner)
    ensures match w.pcs[t]
            case Confirming(b, _) => w.flags[b.owner] ==> Enabled(w, Access(t))
            case Adding(b, _, _) =>
                b.offset + w.fills[b].writeSize <= |w.slots[b.owner].bytes| ==> Enabled(w, Access(t))
            case _ => Enabled(w, Access(t))
  {
    hide Inv, Ledger.Ok, PcOk;
    ClosingKnown(w, t);
    InvKeys(w);
  }

  lemma OpenCanGoOn(w: World, t: nat)
    requires Inv(w) && t < |w.pcs| && !w.pcs[t].Closes()
    ensures w.pcs[t].HasChunk() ==> HasCurrent(w, t) && w.books.current[t] in w.books.buffers
    ensures w.pcs[t].HasHand() ==> t in w.books.hand && w.books.hand[t] in w.books.buffers
  {
    hide Inv, Ledger.Ok;
    PcKnown(w, t);
    if t in w.books.hand { HandKnown(w.books, t); }
    if t in w.books.current { CurrentKnown(w.books, t); }
  }
}
