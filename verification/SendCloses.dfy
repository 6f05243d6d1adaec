/** Send buffers when every buffer is closed by the thread that opened it, and once: what then
    holds on every run, and the runs that break it when the callers keep to anything less. */
module SendCloses {
  import opened Options
  import opened SendSlices
  import opened SendRuns

  /** Every thread closes only its own buffers, and each once. */
  predicate Own(rule: Rule, threads: nat) {
    forall t: nat, u: nat | t < threads && u < threads && rule.may(t, u) :: t == u && rule.once
  }

  ghost predicate OwnClose(w: World, a: Action) {
    a.CallClose? ==> a.b in w.openers && w.openers[a.b] == a.t && a.b in w.fills && !w.fills[a.b].closed
  }

  // ---------------------------------------------------------------- invariant

  /** From the passed assertion of `Open` to the cut the thread's chunk is not open. */
  predicate Quiet(pc: Pc) {
    pc.Measuring? || pc.NextPop? || pc.NextHand? || pc.Resetting? || pc.Asserting? || pc.Raising? || pc.Cutting?
  }

  /** Where `m_bOpen` is not what `open` says: raised before the cut, lowered before the used
      size has been added to. */
  predicate Between(pc: Pc) { pc.Cutting? || pc.Loading? || pc.Adding? }

  /** What a thread relies on of the fields of its chunk. */
  predicate FieldsOk(pc: Pc, s: Slot, flag: bool) {
    && (Quiet(pc) ==> !s.open)
    && (pc.Asserting? ==> s.used == 0 || s.used + pc.size <= CHUNK_SIZE)
    && (pc.Raising? || pc.Cutting? ==> s.used + pc.size <= CHUNK_SIZE)
    && (pc.Cutting? ==> flag)
    && (pc.Loading? || pc.Adding? ==> !flag)
    && (pc.Adding? ==> pc.seen == s.used)
  }

  /** What a thread in `Close` relies on: the buffer is its own, and on its own chunk. */
  ghost predicate CloseOk(w: World, t: nat, pc: Pc) {
    pc.Closes() ==>
      && pc.b in w.openers && w.openers[pc.b] == t && pc.b in w.fills && !w.fills[pc.b].closed
      && t in w.books.current && w.books.current[t] == pc.b.owner && pc.n <= pc.b.allocSize
      && (!pc.Sizing? ==> w.fills[pc.b].writeSize == pc.n)
  }

  ghost predicate ThreadOk(w: World, t: nat, pc: Pc) {
    && CloseOk(w, t, pc)
    && (t in w.books.current && HasFields(w, w.books.current[t]) ==>
          FieldsOk(pc, w.slots[w.books.current[t]], w.flags[w.books.current[t]]))
  }

  ghost predicate FlagOk(w: World, c: SendBufferChunk)
    requires HasFields(w, c) && c in w.books.holder
  {
    var h := w.books.holder[c];
    w.flags[c] == w.slots[c].open || (h.Current? && h.t < |w.pcs| && Between(w.pcs[h.t]))
  }

  /** A buffer not yet closed is on the current chunk of the thread that opened it. */
  ghost predicate OpenerOk(w: World, b: SendBuffer) {
    b in w.fills && !w.fills[b].closed ==>
      b in w.openers && w.openers[b] < |w.pcs| && w.openers[b] in w.books.current &&
          w.books.current[w.openers[b]] == b.owner
  }

  ghost predicate SlotIn(w: World, c: SendBufferChunk) {
    c in w.slots && c in w.books.buffers ==> SlotOk(c, w.slots[c], w.books.buffers[c], w.fills)
  }

  ghost predicate ThreadIn(w: World, t: nat) { t < |w.pcs| ==> ThreadOk(w, t, w.pcs[t]) }

  ghost predicate Tight(w: World) {
    && Inv(w)
    && (forall c | c in w.slots :: SlotIn(w, c))
    && (forall t | 0 <= t < |w.pcs| :: ThreadIn(w, t))
    && (forall c | HasFields(w, c) && c in w.books.holder :: FlagOk(w, c))
    && (forall c | c in w.books.buffers :: forall b | b in w.books.buffers[c] :: OpenerOk(w, b))
    && (forall b | b in w.openers :: w.openers[b] < |w.pcs|)
  }

  lemma InitTight(w: World)
    requires Init(w)
    ensures Tight(w)
  {
    InitInv(w);
    hide Inv, Ledger.Ok;
    forall c | c in w.slots ensures SlotIn(w, c) {}
  }

  lemma TightInv(w: World)
    requires Tight(w)
    ensures Inv(w) && w.books.Ok() && PlaceKeys(w)
  {
    InvKeys(w);
  }

  lemma SlotKnown(w: World, c: SendBufferChunk)
    requires Tight(w) && c in w.slots
    ensures c in w.books.buffers && c in w.books.holder && c in w.flags
    ensures SlotOk(c, w.slots[c], w.books.buffers[c], w.fills)
  {
    TightInv(w);
    assert SlotIn(w, c);
  }

  lemma ThreadKnown(w: World, t: nat)
    requires Tight(w) && t < |w.pcs|
    ensures ThreadOk(w, t, w.pcs[t]) && PcOk(w, t, w.pcs[t])
  {
    assert ThreadIn(w, t);
    PcKnown(w, t);
  }

  /** What a thread knows of its chunk. */
  lemma FieldsKnown(w: World, t: nat)
    requires Tight(w) && t < |w.pcs| && t in w.books.current
    ensures HasCurrent(w, t)
    ensures FieldsOk(w.pcs[t], w.slots[w.books.current[t]], w.flags[w.books.current[t]])
    ensures w.slots[w.books.current[t]].used <= CHUNK_SIZE
    ensures !Between(w.pcs[t]) ==> w.flags[w.books.current[t]] == w.slots[w.books.current[t]].open
  {
    TightInv(w);
    CurrentKnown(w.books, t);
    ThreadKnown(w, t);
    var c := w.books.current[t];
    SlotKnown(w, c);
    assert FlagOk(w, c);
    hide Inv, Ledger.Ok, PcOk;
  }

  lemma CloseKnown(w: World, t: nat)
    requires Tight(w) && t < |w.pcs| && w.pcs[t].Closes()
    ensures CloseOk(w, t, w.pcs[t]) && HasCurrent(w, t) && Live(w, w.pcs[t].b)
    ensures var s, b := w.slots[w.books.current[t]], w.pcs[t].b;
            s.open && b.offset == s.used && b.offset + b.allocSize <= CHUNK_SIZE == |s.bytes|
  {
    ThreadKnown(w, t);
    FieldsKnown(w, t);
    SlotKnown(w, w.books.current[t]);
    assert Fits(w.slots[w.books.current[t]], w.pcs[t].b, w.fills[w.pcs[t].b]);
    hide Tight, FieldsOk;
  }

  lemma OpenerKnown(w: World, b: SendBuffer)
    requires Tight(w) && Live(w, b)
    ensures OpenerOk(w, b)
    ensures !w.fills[b].closed ==> w.slots[b.owner].open
  {
    SlotKnown(w, b.owner);
    assert Fits(w.slots[b.owner], b, w.fills[b]);
  }

  lemma OwnersKnown(w: World, c: SendBufferChunk)
    requires Tight(w) && c in w.slots
    ensures c in w.books.buffers && forall b | b in w.books.buffers[c] :: b.owner == c && b in w.fills && Live(w, b)
  {
    SlotKnown(w, c);
  }

  // ---------------------------------------------------------------- what other threads leave alone

  /** Whoever does not act as thread u leaves the fields of u's chunk alone, but for its bytes. */
  ghost predicate SameFields(w: World, w': World, c: SendBufferChunk) {
    && HasFields(w, c) && HasFields(w', c)
    && w'.slots[c].open == w.slots[c].open && w'.slots[c].used == w.slots[c].used && w'.flags[c] == w.flags[c]
  }

  /** An access touches the fields of one chunk. */
  lemma AccessKeeps(w: World, t: nat, c: SendBufferChunk)
    requires Enabled(w, Access(t)) && HasFields(w, c)
    requires w.pcs[t].Closes() ==> w.pcs[t].b.owner != c
    requires !w.pcs[t].Closes() ==> t in w.books.current && w.books.current[t] != c
    ensures SameFields(w, Apply(w, Access(t)), c)
  {
    hide BooksAfter, FillsAfter, PcAfter;
  }

  lemma AccessHasCurrent(w: World, t: nat)
    requires Enabled(w, Access(t)) && !w.pcs[t].Closes()
    ensures t in w.books.current
  {}

  /** Other steps touch the fields of the chunk cut from, of the one popped if it is new, and
      bytes. */
  lemma OthersKeep(w: World, a: Action, c: SendBufferChunk)
    requires Enabled(w, a) && !a.Access? && HasFields(w, c)
    requires a.Cut? ==> a.t in w.books.current && w.books.current[a.t] != c
    ensures SameFields(w, Apply(w, a), c)
  {
    hide BooksAfter, FillsAfter, PcAfter, Poppable;
  }

  lemma CutHasCurrent(w: World, t: nat, b: SendBuffer)
    requires Enabled(w, Cut(t, b))
    ensures t in w.books.current
  {}

  /** A step of thread t touches, of the fields, those of its current chunk. */
  lemma StepKeepsFields(w: World, a: Action, c: SendBufferChunk)
    requires Tight(w) && Enabled(w, a) && c in w.slots
    requires a.Write? || a.t !in w.books.current || w.books.current[a.t] != c
    ensures SameFields(w, Apply(w, a), c)
  {
    hide Tight, Enabled, Apply, CloseOk, SlotOk;
    SlotKnown(w, c);
    if a.Access? {
      AccessRuns(w, a);
      if w.pcs[a.t].Closes() { CloseIsOnCurrent(w, a.t); } else { AccessHasCurrent(w, a.t); }
      AccessKeeps(w, a.t, c);
    } else {
      if a.Cut? { CutHasCurrent(w, a.t, a.b); }
      OthersKeep(w, a, c);
    }
  }

  lemma AccessRuns(w: World, a: Action)
    requires Enabled(w, a) && !a.Write?
    ensures a.t < |w.pcs|
  {}

  lemma CloseIsOnCurrent(w: World, t: nat)
    requires Tight(w) && t < |w.pcs| && w.pcs[t].Closes()
    ensures t in w.books.current && w.books.current[t] == w.pcs[t].b.owner
    ensures w.pcs[t].b in w.openers && w.openers[w.pcs[t].b] == t
  {
    hide Tight;
    CloseKnown(w, t);
  }

  lemma OthersKeepFields(w: World, a: Action, u: nat)
    requires Tight(w) && Enabled(w, a) && !ByThread(a, u) && u in w.books.current
    ensures SameFields(w, Apply(w, a), w.books.current[u])
  {
    hide Tight, Inv, Ledger.Ok, Enabled, Apply, SameFields;
    TightInv(w);
    CurrentKnown(w.books, u);
    if !a.Write? && a.t in w.books.current { ChunksDiffer(w.books, a.t, u); }
    StepKeepsFields(w, a, w.books.current[u]);
  }

  /** A step that is not of the thread that opened a buffer leaves its size and content alone. */
  lemma StepKeepsFill(w: World, a: Action, b: SendBuffer)
    requires Enabled(w, a) && b in w.fills && b in w.openers
    requires a.Access? && w.pcs[a.t].Closes() ==> w.pcs[a.t].b != b
    ensures b in FillsAfter(w, a) && FillsAfter(w, a)[b] == w.fills[b]
    ensures b in OpenersAfter(w, a) && OpenersAfter(w, a)[b] == w.openers[b]
  {
    hide SlotsAfter, FlagsAfter, BooksAfter, PcAfter, Poppable;
  }

  /** A buffer thread u is closing. */
  lemma OthersKeepClose(w: World, a: Action, u: nat)
    requires Tight(w) && Enabled(w, a) && !ByThread(a, u) && u < |w.pcs| && w.pcs[u].Closes()
    ensures CloseOk(Apply(w, a), u, w.pcs[u])
  {
    hide Tight, Inv, Ledger.Ok, SlotsAfter, FlagsAfter, FillsAfter, OpenersAfter, BooksAfter, PcAfter, Enabled, Live;
    TightInv(w);
    CloseKnown(w, u);
    OthersKeepBooks(w, a, u);
    if a.Access? {
      AccessRuns(w, a);
      if w.pcs[a.t].Closes() { CloseIsOnCurrent(w, a.t); }
    }
    StepKeepsFill(w, a, w.pcs[u].b);
  }

  lemma OtherThread(w: World, a: Action, u: nat)
    requires Tight(w) && Enabled(w, a) && !ByThread(a, u) && u < |w.pcs|
    ensures ThreadOk(Apply(w, a), u, w.pcs[u])
  {
    hide Tight, Inv, Ledger.Ok, SlotsAfter, FlagsAfter, FillsAfter, BooksAfter, PcAfter, Enabled, CloseOk;
    TightInv(w);
    OthersKeepBooks(w, a, u);
    if w.pcs[u].Closes() { OthersKeepClose(w, a, u); } else { NotClosing(Apply(w, a), u, w.pcs[u]); }
    if u in w.books.current {
      FieldsKnown(w, u);
      OthersKeepFields(w, a, u);
    }
  }

  lemma NotClosing(w: World, t: nat, pc: Pc)
    requires !pc.Closes()
    ensures CloseOk(w, t, pc)
  {}

  // ---------------------------------------------------------------- one step of a thread

  /** What one access of thread t makes of the fields of its chunk. */
  lemma OwnFields(w: World, a: Action)
    requires Tight(w) && Enabled(w, a) && a.Access? && !w.pcs[a.t].Closes()
    ensures a.t in w.books.current && HasFields(Apply(w, a), w.books.current[a.t])
    ensures var c := w.books.current[a.t];
            FieldsOk(PcAfter(w, a), Apply(w, a).slots[c], Apply(w, a).flags[c])
  {
    hide Tight, FillsAfter, BooksAfter;
    AccessHasCurrent(w, a.t);
    FieldsKnown(w, a.t);
  }

  lemma OwnAccess(w: World, a: Action)
    requires Tight(w) && Enabled(w, a) && a.Access? && !w.pcs[a.t].Closes()
    ensures ThreadOk(Apply(w, a), a.t, PcAfter(w, a))
  {
    hide Tight, FillsAfter, SlotsAfter, FlagsAfter, FieldsOk, Enabled, CloseOk;
    OwnFields(w, a);
    StillOpening(w, a);
    NotClosing(Apply(w, a), a.t, PcAfter(w, a));
  }

  lemma StillOpening(w: World, a: Action)
    requires Enabled(w, a) && a.Access? && !w.pcs[a.t].Closes()
    ensures !PcAfter(w, a).Closes()
  {}

  /** What one access of `Close` makes of the fields of the chunk, and of the buffer. */
  lemma OwnClosingFields(w: World, a: Action)
    requires Tight(w) && Enabled(w, a) && a.Access? && w.pcs[a.t].Closes()
    ensures a.t in w.books.current && HasFields(Apply(w, a), w.books.current[a.t])
    ensures var c := w.books.current[a.t];
            FieldsOk(PcAfter(w, a), Apply(w, a).slots[c], Apply(w, a).flags[c])
  {
    hide Tight, FillsAfter, BooksAfter, CloseOk;
    CloseIsOnCurrent(w, a.t);
    FieldsKnown(w, a.t);
  }

  lemma OwnClosingOn(w: World, a: Action)
    requires Tight(w) && Enabled(w, a) && a.Access? && w.pcs[a.t].Closes()
    ensures CloseOk(Apply(w, a), a.t, PcAfter(w, a))
  {
    hide Tight, SlotsAfter, FlagsAfter;
    CloseKnown(w, a.t);
  }

  lemma OwnClosing(w: World, a: Action)
    requires Tight(w) && Enabled(w, a) && a.Access? && w.pcs[a.t].Closes()
    ensures ThreadOk(Apply(w, a), a.t, PcAfter(w, a))
  {
    hide Tight, SlotsAfter, FlagsAfter, FillsAfter, FieldsOk, CloseOk, Enabled, PcAfter;
    OwnClosingFields(w, a);
    OwnClosingOn(w, a);
  }

  lemma OwnCallClose(w: World, a: Action)
    requires Tight(w) && Enabled(w, a) && OwnClose(w, a) && a.CallClose?
    ensures ThreadOk(Apply(w, a), a.t, PcAfter(w, a))
  {
    hide Tight;
    OpenerKnown(w, a.b);
  }

  /** A step on the books leads to where nothing is asked of the fields, or leaves them alone. */
  lemma OwnBooksFields(w: World, a: Action)
    requires Tight(w) && Enabled(w, a) && !a.Write? && !a.Access? && !a.CallClose? && !a.Swap? && a.t in w.books.current
    ensures HasFields(Apply(w, a), w.books.current[a.t])
    ensures var c := w.books.current[a.t];
            FieldsOk(PcAfter(w, a), Apply(w, a).slots[c], Apply(w, a).flags[c])
  {
    hide Tight, FillsAfter, BooksAfter, Poppable;
    FieldsKnown(w, a.t);
  }

  lemma OwnBooks(w: World, a: Action)
    requires Tight(w) && Enabled(w, a) && !a.Write? && !a.Access? && !a.CallClose?
    ensures ThreadOk(Apply(w, a), a.t, PcAfter(w, a))
  {
    hide Tight, BooksAfter, FillsAfter, SlotsAfter, FlagsAfter, PcAfter, FieldsOk, Enabled, CloseOk, Poppable;
    BooksPc(w, a);
    NotClosing(Apply(w, a), a.t, PcAfter(w, a));
    if !a.Swap? {
      SameCurrent(w, a);
      if a.t in w.books.current { OwnBooksFields(w, a); }
    }
  }

  lemma BooksPc(w: World, a: Action)
    requires Enabled(w, a) && !a.Write? && !a.Access? && !a.CallClose?
    ensures !PcAfter(w, a).Closes()
    ensures a.Swap? ==> forall s, flag :: FieldsOk(PcAfter(w, a), s, flag)
  {
    hide SlotsAfter, FlagsAfter, FillsAfter, BooksAfter;
  }

  lemma SameCurrent(w: World, a: Action)
    requires Enabled(w, a) && !a.Write? && !a.Swap?
    ensures BooksAfter(w, a).current == w.books.current
  {
    hide SlotsAfter, FlagsAfter, FillsAfter, PcAfter;
  }

  lemma ThreadsNext(w: World, a: Action, u: nat)
    requires Tight(w) && Enabled(w, a) && OwnClose(w, a) && u < |w.pcs|
    ensures ThreadIn(Apply(w, a), u)
  {
    hide Tight, ThreadOk, BooksAfter, SlotsAfter, FlagsAfter, FillsAfter, PcAfter, Enabled;
    if !ByThread(a, u) {
      OtherThread(w, a, u);
    } else if a.Access? {
      if w.pcs[u].Closes() { OwnClosing(w, a); } else { OwnAccess(w, a); }
    } else if a.CallClose? {
      OwnCallClose(w, a);
    } else {
      OwnBooks(w, a);
    }
  }

  // ---------------------------------------------------------------- the chunks with their buffers

  lemma EmptyOk(c: SendBufferChunk, s: Slot, s': Slot, fills: map<SendBuffer, Fill>)
    requires SlotOk(c, s, {}, fills) && s'.bytes == s.bytes && s'.used <= s.used
    ensures SlotOk(c, s', {}, fills)
  {}

  /** The size of an open buffer is stored; it does not matter yet. */
  lemma SizingOk(c: SendBufferChunk, s: Slot, buffers: set<SendBuffer>, fills: map<SendBuffer, Fill>, b: SendBuffer,
      n: nat)
    requires SlotOk(c, s, buffers, fills) && b in buffers && !fills[b].closed && n <= b.allocSize
    ensures SlotOk(c, s, buffers, fills[b := fills[b].(writeSize := n)])
  {
    assert Fits(s, b, fills[b]);
    forall d | d in buffers && d != b ensures d.offset + fills[d].writeSize <= b.offset && fills[d].closed {
      assert Fits(s, d, fills[d]) && Disjoint(b, fills[b], d, fills[d]);
    }
  }

  lemma SlotsPop(w: World, a: Action, c: SendBufferChunk)
    requires Tight(w) && Enabled(w, a) && a.Pop?
    ensures SlotIn(Apply(w, a), c)
  {
    hide Tight, SlotOk, Inv, Ledger.Ok, PcAfter, FlagsAfter, Poppable;
    TightInv(w);
    if c in w.slots {
      SlotKnown(w, c);
      if a.c == c { PooledIsEmpty(w, a.t, c, a.bytes); }
    } else {
      if a.c == c { NewHasBytes(w, a); }
      NewSlotOk(c, a.bytes, w.fills);
    }
  }

  lemma NewHasBytes(w: World, a: Action)
    requires Enabled(w, a) && a.Pop? && a.c !in w.slots
    ensures |a.bytes| == CHUNK_SIZE
  {}

  lemma NewSlotOk(c: SendBufferChunk, bytes: seq<Byte>, fills: map<SendBuffer, Fill>)
    ensures |bytes| == CHUNK_SIZE ==> SlotOk(c, Slot(false, 0, bytes), {}, fills)
  {}

  lemma SlotsCut(w: World, a: Action, c: SendBufferChunk)
    requires Tight(w) && Enabled(w, a) && a.Cut? && c in w.slots
    ensures SlotIn(Apply(w, a), c)
  {
    hide Tight, SlotOk, PcAfter, FlagsAfter;
    SlotKnown(w, c);
    OwnersKnown(w, c);
    if a.b.owner == c {
      FieldsKnown(w, a.t);
      OpeningOk(c, w.slots[c], w.books.buffers[c], w.fills, a.b);
    } else {
      OtherFills(c, w.slots[c], w.books.buffers[c], w.fills, FillsAfter(w, a));
    }
  }

  lemma SlotsSizing(w: World, a: Action, c: SendBufferChunk)
    requires Tight(w) && Enabled(w, a) && a.Access? && w.pcs[a.t].Sizing? && c in w.slots && c in w.books.buffers
    ensures SlotIn(Apply(w, a), c)
  {
    hide Tight, SlotOk, PcAfter, FlagsAfter;
    SlotKnown(w, c);
    OwnersKnown(w, c);
    CloseKnown(w, a.t);
    var b, n := w.pcs[a.t].b, w.pcs[a.t].n;
    if b.owner == c {
      SizingOk(c, w.slots[c], w.books.buffers[c], w.fills, b, n);
    } else {
      OtherFills(c, w.slots[c], w.books.buffers[c], w.fills, FillsAfter(w, a));
    }
  }

  lemma SlotsAdding(w: World, a: Action, c: SendBufferChunk)
    requires Tight(w) && Enabled(w, a) && a.Access? && w.pcs[a.t].Adding? && c in w.slots && c in w.books.buffers
    ensures SlotIn(Apply(w, a), c)
  {
    hide Tight, SlotOk, PcAfter, FlagsAfter;
    SlotKnown(w, c);
    OwnersKnown(w, c);
    CloseKnown(w, a.t);
    FieldsKnown(w, a.t);
    var b, n := w.pcs[a.t].b, w.pcs[a.t].n;
    if b.owner == c {
      ClosingOk(c, w.slots[c], w.books.buffers[c], w.fills, b, n);
      assert ClosedSlot(w.slots[c], n) == SlotsAfter(w, a)[c];
    } else {
      OtherFills(c, w.slots[c], w.books.buffers[c], w.fills, FillsAfter(w, a));
    }
  }

  lemma SlotsResetting(w: World, a: Action, c: SendBufferChunk)
    requires Tight(w) && Enabled(w, a) && a.Access? && (w.pcs[a.t].Lowering? || w.pcs[a.t].Resetting?)
    requires c in w.slots && c in w.books.buffers
    ensures SlotIn(Apply(w, a), c)
  {
    hide SlotOk, PcAfter, FlagsAfter, Tight, Inv, Ledger.Ok;
    SlotKnown(w, c);
    TightInv(w);
    ResetIsFresh(w, a.t);
    if w.books.current[a.t] == c {
      EmptyOk(c, w.slots[c], SlotsAfter(w, a)[c], w.fills);
    }
  }

  /** Every chunk with its live buffers. */
  lemma SlotsNext(w: World, a: Action, c: SendBufferChunk)
    requires Tight(w) && Enabled(w, a)
    ensures SlotIn(Apply(w, a), c)
  {
    hide Tight, SlotIn, Enabled, Apply;
    if a.Pop? {
      SlotsPop(w, a, c);
    } else if c !in w.slots {
      StillNone(w, a, c);
    } else if a.Cut? {
      SlotsCut(w, a, c);
    } else if a.Access? {
      SlotsAccess(w, a, c);
    } else {
      SlotsOther(w, a, c);
    }
  }

  lemma StillNone(w: World, a: Action, c: SendBufferChunk)
    requires Enabled(w, a) && !a.Pop? && c !in w.slots
    ensures SlotIn(Apply(w, a), c)
  {
    hide SlotOk, BooksAfter, FillsAfter, PcAfter, FlagsAfter;
    SlotKeysNext(w, a);
  }

  lemma SlotsOther(w: World, a: Action, c: SendBufferChunk)
    requires Tight(w) && Enabled(w, a) && !a.Pop? && !a.Cut? && !a.Access? && c in w.slots
    ensures SlotIn(Apply(w, a), c)
  {
    hide Tight, SlotOk, PcAfter, FlagsAfter;
    SlotKnown(w, c);
    if a.Write? && a.b.owner == c {
      WritingOk(c, w.slots[c], w.books.buffers[c], w.fills, a.b, a.i, a.v);
    } else if a.Drop? && a.b.owner == c {
      DroppingOk(c, w.slots[c], w.books.buffers[c], w.fills, a.b);
    }
  }

  lemma SlotsAccess(w: World, a: Action, c: SendBufferChunk)
    requires Tight(w) && Enabled(w, a) && a.Access? && c in w.slots
    ensures SlotIn(Apply(w, a), c)
  {
    hide Tight, SlotOk, PcAfter, FlagsAfter;
    SlotKnown(w, c);
    var pc := w.pcs[a.t];
    if pc.Sizing? {
      SlotsSizing(w, a, c);
    } else if pc.Adding? {
      SlotsAdding(w, a, c);
    } else if pc.Lowering? || pc.Resetting? {
      SlotsResetting(w, a, c);
    }
  }

  // ---------------------------------------------------------------- flags and openers

  /** The flag of the acting thread's own chunk. */
  lemma OwnFlag(w: World, a: Action, c: SendBufferChunk)
    requires Tight(w) && Enabled(w, a) && !a.Write? && !a.Access? && a.t in w.books.current && w.books.current[a.t] == c
    ensures HasFields(Apply(w, a), c)
    ensures Apply(w, a).flags[c] == Apply(w, a).slots[c].open
  {
    hide Tight, FillsAfter, BooksAfter, Poppable;
    FieldsKnown(w, a.t);
  }

  lemma OwnAccessFlag(w: World, a: Action, c: SendBufferChunk)
    requires Tight(w) && Enabled(w, a) && a.Access? && a.t in w.books.current && w.books.current[a.t] == c
    ensures HasFields(Apply(w, a), c)
    ensures Apply(w, a).flags[c] == Apply(w, a).slots[c].open || Between(PcAfter(w, a))
  {
    hide Tight, FillsAfter, BooksAfter, CloseOk;
    FieldsKnown(w, a.t);
    if w.pcs[a.t].Closes() {
      CloseIsOnCurrent(w, a.t);
      CloseKnown(w, a.t);
    }
  }

  /** While thread u stands between, its chunk stays its current one. */
  lemma StaysCurrent(w: World, a: Action, u: nat)
    requires Tight(w) && Enabled(w, a) && u in w.books.current && !(ByThread(a, u) && a.Swap?)
    ensures w.books.current[u] in BooksAfter(w, a).holder
    ensures BooksAfter(w, a).holder[w.books.current[u]] == Current(u)
  {
    hide Tight, Inv, Ledger.Ok, BooksAfter, PcAfter, SlotsAfter, FlagsAfter, FillsAfter, Enabled;
    TightInv(w);
    BooksNext(w, a);
    OpenerStays(w, a, u);
    CurrentKnown(BooksAfter(w, a), u);
  }

  lemma FlagsNext(w: World, a: Action, c: SendBufferChunk)
    requires Tight(w) && Enabled(w, a) && HasFields(Apply(w, a), c) && c in Apply(w, a).books.holder
    ensures FlagOk(Apply(w, a), c)
  {
    hide Tight, Inv, Ledger.Ok, BooksAfter, SlotsAfter, FlagsAfter, FillsAfter, PcAfter, Enabled, Between, Poppable;
    TightInv(w);
    if c !in w.slots {
      NewFlag(w, a, c);
    } else if !a.Write? && a.t in w.books.current && w.books.current[a.t] == c {
      AccessRuns(w, a);
      if a.Access? {
        OwnAccessFlag(w, a, c);
        StaysCurrent(w, a, a.t);
      } else {
        OwnFlag(w, a, c);
      }
    } else {
      StepKeepsFields(w, a, c);
      OtherFlag(w, a, c);
    }
  }

  lemma OtherFlag(w: World, a: Action, c: SendBufferChunk)
    requires Tight(w) && Enabled(w, a) && c in w.slots && HasFields(Apply(w, a), c) && c in Apply(w, a).books.holder
    requires a.Write? || a.t !in w.books.current || w.books.current[a.t] != c
    requires SameFields(w, Apply(w, a), c)
    ensures FlagOk(Apply(w, a), c)
  {
    hide Tight, Inv, Ledger.Ok, BooksAfter, SlotsAfter, FlagsAfter, FillsAfter, PcAfter, Enabled, Between, Poppable;
    FlagKnown(w, c);
    SamePcs(w, a);
    if !a.Write? { AccessRuns(w, a); }
    if w.flags[c] != w.slots[c].open {
      var u := w.books.holder[c].t;
      TightInv(w);
      PlaceKnown(w.books, c);
      StaysCurrent(w, a, u);
    }
  }

  lemma FlagKnown(w: World, c: SendBufferChunk)
    requires Tight(w) && c in w.slots
    ensures HasFields(w, c) && c in w.books.holder && FlagOk(w, c)
  {
    SlotKnown(w, c);
  }

  lemma NewFlag(w: World, a: Action, c: SendBufferChunk)
    requires Tight(w) && Enabled(w, a) && HasFields(Apply(w, a), c) && c !in w.slots
    ensures !Apply(w, a).flags[c] && !Apply(w, a).slots[c].open
  {
    TightInv(w);
    hide Tight, Inv, Ledger.Ok, BooksAfter, FillsAfter, PcAfter;
    SlotKeysNext(w, a);
  }

  lemma BookBefore(w: World, a: Action, c: SendBufferChunk, b: SendBuffer)
    requires Enabled(w, a) && c in BooksAfter(w, a).buffers && b in BooksAfter(w, a).buffers[c]
    ensures (a.Cut? && b == a.b) || (c in w.books.buffers && b in w.books.buffers[c])
  {
    hide SlotsAfter, FillsAfter, PcAfter, FlagsAfter, Poppable;
  }

  /** Where a live buffer comes from. */
  lemma BufferBefore(w: World, a: Action, c: SendBufferChunk, b: SendBuffer)
    requires Tight(w) && Enabled(w, a) && c in BooksAfter(w, a).buffers && b in BooksAfter(w, a).buffers[c]
    ensures (a.Cut? && b == a.b) || (c in w.slots && c in w.books.buffers && b in w.books.buffers[c] && Live(w, b) &&
            b.owner == c)
  {
    hide Tight, Inv, Ledger.Ok, SlotsAfter, FillsAfter, PcAfter, FlagsAfter, BooksAfter, Enabled, Live;
    BookBefore(w, a, c, b);
    TightInv(w);
    if c in w.slots { OwnersKnown(w, c); }
  }

  lemma OpenersNext(w: World, a: Action, c: SendBufferChunk, b: SendBuffer)
    requires Tight(w) && Enabled(w, a) && c in Apply(w, a).books.buffers && b in Apply(w, a).books.buffers[c]
    ensures OpenerOk(Apply(w, a), b)
  {
    hide Tight, SlotsAfter, FlagsAfter, FillsAfter, BooksAfter, Poppable, PcAfter, Enabled;
    BufferBefore(w, a, c, b);
    if a.Cut? && b == a.b {
      NewOpener(w, a);
    } else if b in FillsAfter(w, a) && !FillsAfter(w, a)[b].closed {
      OpenerKnown(w, b);
      WasUnclosed(w, a, b);
      NotSwapping(w, a, b);
      OpenerStays(w, a, w.openers[b]);
      SameOpener(w, a, b);
      SamePcs(w, a);
    }
  }

  lemma NewOpener(w: World, a: Action)
    requires Enabled(w, a) && a.Cut?
    ensures OpenerOk(Apply(w, a), a.b)
  {
    hide SlotsAfter, FlagsAfter;
  }

  lemma SameOpener(w: World, a: Action, b: SendBuffer)
    requires Enabled(w, a) && b in w.fills && b in w.openers
    ensures b in OpenersAfter(w, a) && OpenersAfter(w, a)[b] == w.openers[b]
  {
    hide SlotsAfter, FlagsAfter, FillsAfter, BooksAfter, PcAfter;
  }

  /** A thread that exchanges its chunk for another has closed its buffers. */
  lemma NotSwapping(w: World, a: Action, b: SendBuffer)
    requires Tight(w) && Enabled(w, a) && Live(w, b) && !w.fills[b].closed
    ensures b in w.openers && w.openers[b] in w.books.current && !(ByThread(a, w.openers[b]) && a.Swap?)
  {
    hide Tight, PcOk;
    OpenerKnown(w, b);
    if ByThread(a, w.openers[b]) && a.Swap? {
      FieldsKnown(w, a.t);
      NextIfCurrent(w, a.t);
    }
  }

  lemma NextIfCurrent(w: World, t: nat)
    requires Tight(w) && t < |w.pcs| && w.pcs[t].FirstHand?
    ensures t !in w.books.current
  {
    ThreadKnown(w, t);
  }

  lemma OpenerStays(w: World, a: Action, o: nat)
    requires Tight(w) && Enabled(w, a) && o in w.books.current && !(ByThread(a, o) && a.Swap?)
    ensures o in BooksAfter(w, a).current && BooksAfter(w, a).current[o] == w.books.current[o]
  {
    hide Tight, Inv, Ledger.Ok, BooksAfter, PcAfter, SlotsAfter, FlagsAfter, FillsAfter, Enabled;
    TightInv(w);
    if ByThread(a, o) { SameCurrent(w, a); } else { OthersKeepBooks(w, a, o); }
  }

  lemma WasUnclosed(w: World, a: Action, b: SendBuffer)
    requires Enabled(w, a) && b in w.fills && b in FillsAfter(w, a) && !FillsAfter(w, a)[b].closed
    ensures !w.fills[b].closed
  {
    hide BooksAfter, SlotsAfter, PcAfter, FlagsAfter;
  }

  // ---------------------------------------------------------------- over whole runs

  lemma AllOpeners(w: World, a: Action)
    requires Tight(w) && Enabled(w, a)
    ensures forall b | b in OpenersAfter(w, a) :: OpenersAfter(w, a)[b] < |w.pcs|
  {
    hide Inv, SlotIn, ThreadIn, FlagOk, OpenerOk;
  }

  /** Every access of every thread keeps the invariant. */
  lemma NextTight(w: World, a: Action)
    requires Tight(w) && Enabled(w, a) && OwnClose(w, a)
    ensures Tight(Apply(w, a))
  {
    var w' := Apply(w, a);
    TightInv(w);
    NextInv(w, a);
    SamePcs(w, a);
    AllOpeners(w, a);
    forall c | c in w'.slots ensures SlotIn(w', c) { SlotsNext(w, a, c); }
    forall t | 0 <= t < |w'.pcs| ensures ThreadIn(w', t) { ThreadsNext(w, a, t); }
    forall c | HasFields(w', c) && c in w'.books.holder ensures FlagOk(w', c) { FlagsNext(w, a, c); }
    forall c | c in w'.books.buffers ensures forall b | b in w'.books.buffers[c] :: OpenerOk(w', b) {
      forall b | b in w'.books.buffers[c] ensures OpenerOk(w', b) { OpenersNext(w, a, c, b); }
    }
    hide Apply, Inv, SlotIn, ThreadIn, FlagOk, OpenerOk;
  }

  lemma AllowedIsOwn(rule: Rule, w: World, a: Action)
    requires Tight(w) && Enabled(w, a) && Own(rule, |w.pcs|) && Allowed(rule, w, a)
    ensures OwnClose(w, a)
  {
    hide Inv, SlotIn, ThreadIn, FlagOk, OpenerOk, Live;
  }
  lemma {:induction false} TightRun(rule: Rule, w: World, acts: seq<Action>, w': World)
    requires Tight(w) && Own(rule, |w.pcs|) && Leads(rule, w, acts, w')
    ensures Tight(w') && |w'.pcs| == |w.pcs|
    decreases |acts|
  {
    hide Tight, Apply, Enabled, Allowed, Own, OwnClose;
    if acts != [] {
      AllowedIsOwn(rule, w, acts[0]);
      NextTight(w, acts[0]);
      SamePcs(w, acts[0]);
      TightRun(rule, Apply(w, acts[0]), acts[1..], w');
    }
  }

  lemma InitRun(rule: Rule, w: World, acts: seq<Action>, w': World)
    requires Init(w) && Own(rule, |w.pcs|) && Leads(rule, w, acts, w')
    ensures Tight(w') && |w'.pcs| == |w.pcs|
  {
    hide Tight, Init, Own, Leads;
    InitTight(w);
    TightRun(rule, w, acts, w');
  }

  /** A closed buffer still holds what it held when it was closed. */
  predicate Intact(s: Slot, b: SendBuffer, f: Fill) {
    f.closed ==> b.offset + f.writeSize <= |s.bytes| && s.bytes[b.offset..b.offset + f.writeSize] == f.content
  }

  /** No two live buffers share bytes or are both open on one chunk, and closed ones are intact. */
  ghost predicate Apart(w: World) {
    forall c | c in w.books.buffers && c in w.slots ::
      forall b | b in w.books.buffers[c] && b in w.fills ::
        && Intact(w.slots[c], b, w.fills[b])
        && forall d | d in w.books.buffers[c] && d in w.fills && d != b :: Disjoint(b, w.fills[b], d, w.fills[d])
  }

  lemma TightIsApart(w: World)
    requires Tight(w)
    ensures Apart(w)
  {
    hide Inv, ThreadOk, FlagOk, OpenerOk, Disjoint;
    forall c, b | c in w.books.buffers && c in w.slots && b in w.books.buffers[c] && b in w.fills
      ensures Intact(w.slots[c], b, w.fills[b])
    {
      SlotKnown(w, c);
      assert Fits(w.slots[c], b, w.fills[b]);
    }
  }

  /** Safety over whole runs of any number of threads. */
  lemma LiveApart(rule: Rule, w: World, acts: seq<Action>, w': World)
    requires Init(w) && Own(rule, |w.pcs|) && Leads(rule, w, acts, w')
    ensures Apart(w')
  {
    hide Tight, Init, Own, Leads, Apart;
    InitRun(rule, w, acts, w');
    TightIsApart(w');
  }

  lemma ClosedStaysOnce(w: World, a: Action, b: SendBuffer)
    requires Tight(w) && Enabled(w, a) && b in w.fills && w.fills[b].closed
    ensures b in Apply(w, a).fills && Apply(w, a).fills[b] == w.fills[b]
  {
    hide Tight, BooksAfter, SlotsAfter, FlagsAfter, PcAfter, Poppable;
    if a.Access? && w.pcs[a.t].Closes() { CloseKnown(w, a.t); }
  }

  lemma {:induction false} ClosedStaysOn(rule: Rule, w: World, acts: seq<Action>, w': World, b: SendBuffer)
    requires Tight(w) && Own(rule, |w.pcs|) && Leads(rule, w, acts, w') && b in w.fills && w.fills[b].closed
    ensures b in w'.fills && w'.fills[b] == w.fills[b]
    decreases |acts|
  {
    hide Tight, Apply, Enabled, Allowed, Own, OwnClose;
    if acts != [] {
      AllowedIsOwn(rule, w, acts[0]);
      NextTight(w, acts[0]);
      SamePcs(w, acts[0]);
      ClosedStaysOnce(w, acts[0], b);
      ClosedStaysOn(rule, Apply(w, acts[0]), acts[1..], w', b);
    }
  }

  /** The size and the bytes a buffer was closed with never change. */
  lemma ClosedStays(rule: Rule, w0: World, before: seq<Action>, w: World, after: seq<Action>, w': World, b: SendBuffer)
    requires Init(w0) && Own(rule, |w0.pcs|) && Leads(rule, w0, before, w) && Leads(rule, w, after, w')
    requires b in w.fills && w.fills[b].closed
    ensures b in w'.fills && w'.fills[b] == w.fills[b]
  {
    hide Tight, Init, Leads, Own;
    InitRun(rule, w0, before, w);
    ClosedStaysOn(rule, w, after, w', b);
  }

  /** The assertions of the chunk hold when they are met, slices fit into the chunk, and no
      addition to the used size is lost. */
  lemma AssertionsHold(rule: Rule, w: World, acts: seq<Action>, w': World, t: nat)
    requires Init(w) && Own(rule, |w.pcs|) && Leads(rule, w, acts, w') && t < |w'.pcs|
    ensures w'.pcs[t].Asserting? ==> HasCurrent(w', t) && !w'.flags[w'.books.current[t]]
    ensures w'.pcs[t].Confirming? ==> HasFields(w', w'.pcs[t].b.owner) && w'.flags[w'.pcs[t].b.owner]
    ensures w'.pcs[t].Cutting? ==>
              HasCurrent(w', t) && w'.slots[w'.books.current[t]].used + w'.pcs[t].size <= CHUNK_SIZE
    ensures w'.pcs[t].Adding? ==> Enabled(w', Access(t)) && w'.pcs[t].seen == w'.slots[w'.pcs[t].b.owner].used
  {
    hide Tight, Init, Leads, Own;
    InitRun(rule, w, acts, w');
    ThreadHasChunk(w', t);
    if w'.pcs[t].Closes() { CloseKnown(w', t); }
    if t in w'.books.current { FieldsKnown(w', t); }
  }

  lemma ThreadHasChunk(w: World, t: nat)
    requires Tight(w) && t < |w.pcs|
    ensures w.pcs[t].HasChunk() ==> t in w.books.current
  {
    ThreadKnown(w, t);
  }

  // ---------------------------------------------------------------- buffers closed before they are dropped

  ghost predicate ClosedFirst(w: World, acts: seq<Action>)
    decreases |acts|
  {
    acts == [] ||
    (Enabled(w, acts[0]) && (acts[0].Drop? ==> acts[0].b in w.fills && w.fills[acts[0].b].closed) &&
     ClosedFirst(Apply(w, acts[0]), acts[1..]))
  }

  /** A chunk with `open` set has a live buffer that is not closed yet. */
  ghost predicate Tidy(w: World, c: SendBufferChunk) {
    c in w.slots && w.slots[c].open ==> exists b | b in w.fills :: Live(w, b) && b.owner == c && !w.fills[b].closed
  }

  /** A chunk is open after a step only if it was cut from, or was open and nothing was closed. */
  lemma OpenBefore(w: World, a: Action, c: SendBufferChunk)
    requires Enabled(w, a) && c in SlotsAfter(w, a) && SlotsAfter(w, a)[c].open
    ensures (a.Cut? && a.b.owner == c) ||
            (c in w.slots && w.slots[c].open && !(a.Access? && w.pcs[a.t].Adding? && w.pcs[a.t].b.owner == c))
  {
    hide Ledger.Ok, FillsAfter, FlagsAfter, PcAfter, BooksAfter;
  }

  lemma TidyNext(w: World, a: Action, c: SendBufferChunk)
    requires Tight(w) && Enabled(w, a) && Tidy(w, c) && (a.Drop? ==> a.b in w.fills && w.fills[a.b].closed)
    ensures Tidy(Apply(w, a), c)
  {
    hide Tight, Inv, SlotsAfter, FillsAfter, PcAfter, BooksAfter, FlagsAfter, Live;
    var w' := Apply(w, a);
    if c in w'.slots && w'.slots[c].open {
      OpenBefore(w, a, c);
      if a.Cut? && a.b.owner == c {
        CutIsLive(w, a);
      } else {
        var b :| b in w.fills && Live(w, b) && b.owner == c && !w.fills[b].closed;
        TightInv(w);
        StillLive(w, a, b);
        UnclosedStays(w, a, b);
        assert Live(w', b) && !w'.fills[b].closed;
      }
    }
  }

  lemma StillLive(w: World, a: Action, b: SendBuffer)
    requires Inv(w) && Enabled(w, a) && Live(w, b) && !(a.Drop? && a.b == b)
    ensures Live(Apply(w, a), b)
  {
    hide Inv, BooksAfter, SlotsAfter, FlagsAfter, FillsAfter, PcAfter, Enabled;
    LiveStays(w, a, b);
  }

  lemma CutIsLive(w: World, a: Action)
    requires Tight(w) && Enabled(w, a) && a.Cut?
    ensures Live(Apply(w, a), a.b) && a.b in Apply(w, a).fills && !Apply(w, a).fills[a.b].closed
  {
    hide Tight, PcAfter, FlagsAfter;
  }

  lemma UnclosedStays(w: World, a: Action, b: SendBuffer)
    requires Enabled(w, a) && b in w.fills && !w.fills[b].closed
    requires !(a.Access? && w.pcs[a.t].Adding? && w.pcs[a.t].b.owner == b.owner)
    ensures b in FillsAfter(w, a) && !FillsAfter(w, a)[b].closed
  {
    hide BooksAfter, SlotsAfter, PcAfter, FlagsAfter, Poppable;
  }

  lemma {:induction false} TidyRun(rule: Rule, w: World, acts: seq<Action>, w': World, c: SendBufferChunk)
    requires Tight(w) && Own(rule, |w.pcs|) && Leads(rule, w, acts, w') && ClosedFirst(w, acts) && Tidy(w, c)
    ensures Tidy(w', c)
    decreases |acts|
  {
    hide Tight, Apply, Enabled, Tidy, Allowed, Own, OwnClose;
    if acts != [] {
      AllowedIsOwn(rule, w, acts[0]);
      TidyNext(w, acts[0], c);
      NextTight(w, acts[0]);
      SamePcs(w, acts[0]);
      TidyRun(rule, Apply(w, acts[0]), acts[1..], w', c);
    }
  }

  lemma InitTidy(w: World, c: SendBufferChunk)
    requires Init(w)
    ensures Tidy(w, c)
  {}

  lemma TidyKnown(w: World, c: SendBufferChunk) returns (b: SendBuffer)
    requires Tidy(w, c) && c in w.slots && w.slots[c].open
    ensures b in w.fills && Live(w, b) && b.owner == c && !w.fills[b].closed
  {
    b :| b in w.fills && Live(w, b) && b.owner == c && !w.fills[b].closed;
  }

  /** If besides every buffer is closed before it is dropped, the assertion of the manager's
      `Open` fails only for a thread that has not closed its own last buffer; in particular
      never for a thread's first chunk, though it is not reset. */
  lemma CheckFailsOnlyWhileOpen(rule: Rule, w: World, acts: seq<Action>, w': World, t: nat)
    requires Init(w) && Own(rule, |w.pcs|) && Leads(rule, w, acts, w') && ClosedFirst(w, acts)
    requires t < |w'.pcs| && w'.pcs[t].Checking?
    ensures t in w'.books.current
    ensures Enabled(w', Access(t)) ||
              exists b | b in w'.fills ::
                Live(w', b) && b.owner == w'.books.current[t] && !w'.fills[b].closed && b in w'.openers &&
                    w'.openers[b] == t
  {
    hide Tight, Init, Leads, Own, ClosedFirst, Tidy, Live, Inv, Ledger.Ok;
    InitTight(w);
    InitRun(rule, w, acts, w');
    ThreadHasChunk(w', t);
    var c := w'.books.current[t];
    FieldsKnown(w', t);
    InitTidy(w, c);
    TidyRun(rule, w, acts, w', c);
    if w'.flags[c] {
      var b := TidyKnown(w', c);
      OpenerKnown(w', b);
      TightInv(w');
      if w'.openers[b] != t { ChunksDiffer(w'.books, t, w'.openers[b]); }
    }
  }

  // ---------------------------------------------------------------- what breaks under any other rule

  lemma {:induction false} OneMore(rule: Rule, w: World, acts: seq<Action>, w1: World, a: Action)
    requires Leads(rule, w, acts, w1) && Enabled(w1, a) && Allowed(rule, w1, a)
    ensures Leads(rule, w, acts + [a], Apply(w1, a))
    decreases |acts|
  {
    hide Apply, Enabled, Allowed;
    if acts == [] {
      assert acts + [a] == [a] && [a][1..] == [];
    } else {
      OneMore(rule, Apply(w, acts[0]), acts[1..], w1, a);
      assert (acts + [a])[1..] == acts[1..] + [a];
    }
  }

  /** Chunk c is the current one of thread t, all of it written up to `used`. */
  ghost predicate On(w: World, t: nat, c: SendBufferChunk, used: nat, flag: bool) {
    && t < |w.pcs| && t in w.books.current && w.books.current[t] == c && HasFields(w, c) && c in w.books.buffers
    && w.slots[c].used == used && w.flags[c] == flag && |w.slots[c].bytes| == CHUNK_SIZE
  }

  ghost predicate AfterOpen(w: World, w': World, t: nat, c: SendBufferChunk, b: SendBuffer) {
    && w'.pcs == w.pcs && w'.fills == w.fills[b := Fill(0, false, [])] && w'.openers == w.openers[b := t]
    && c in w.books.buffers && c in w'.books.buffers && w'.books.buffers[c] == w.books.buffers[c] + {b}
    && c in w.slots && c in w'.slots && w'.slots[c].bytes == w.slots[c].bytes
  }

  /** Thread t stands in `Open`, its pc apart all as in w. */
  ghost predicate Inside(w: World, w1: World, t: nat, pc: Pc) {
    t < |w.pcs| && w1 == w.(pcs := w.pcs[t := pc])
  }

  lemma OpenChecks(w: World, t: nat, c: SendBufferChunk, used: nat, size: nat)
    requires On(w, t, c, used, false) && w.pcs[t].Idle? && used + size <= CHUNK_SIZE
    ensures Enabled(w, CallOpen(t, size)) && Inside(w, Apply(w, CallOpen(t, size)), t, Checking(size))
  {}

  lemma OpenMoves(w: World, w1: World, t: nat, c: SendBufferChunk, used: nat, pc: Pc)
    requires On(w, t, c, used, false) && Inside(w, w1, t, pc) && (pc.Checking? || pc.Measuring? || pc.Asserting?)
    requires used + pc.size <= CHUNK_SIZE
    ensures Enabled(w1, Access(t))
    ensures Inside(w, Apply(w1, Access(t)), t,
                   if pc.Checking? then Measuring(pc.size) else if pc.Measuring? then Asserting(pc.size)
                       else Raising(pc.size))
  {}

  lemma OpenEnds(w: World, w1: World, t: nat, c: SendBufferChunk, used: nat, b: SendBuffer)
    requires On(w, t, c, used, false) && Inside(w, w1, t, Raising(b.allocSize)) && w.pcs[t].Idle?
    requires b !in w.fills && b.owner == c && b.offset == used && used + b.allocSize <= CHUNK_SIZE
    ensures Enabled(w1, Access(t)) && Enabled(Apply(w1, Access(t)), Cut(t, b))
    ensures var w' := Apply(Apply(w1, Access(t)), Cut(t, b)); On(w', t, c, used, true) && AfterOpen(w, w', t, c, b)
  {
    var w2 := Apply(w1, Access(t));
    assert w2.pcs == w.pcs[t := Cutting(b.allocSize)];
    assert Apply(w2, Cut(t, b)).pcs == w.pcs;
  }

  /** From the manager's assertion on, undisturbed, thread t opens b where its chunk is free. */
  lemma OpensFrom(rule: Rule, r: World, acts: seq<Action>, w1: World, w: World, t: nat, c: SendBufferChunk, used: nat,
      b: SendBuffer)
      returns (acts': seq<Action>, w': World)
    requires Leads(rule, r, acts, w1) && Inside(w, w1, t, Checking(b.allocSize))
    requires On(w, t, c, used, false) && w.pcs[t].Idle?
    requires b !in w.fills && b.owner == c && b.offset == used && used + b.allocSize <= CHUNK_SIZE
    ensures Leads(rule, r, acts', w') && On(w', t, c, used, true) && AfterOpen(w, w', t, c, b)
  {
    hide Leads, Apply, Enabled, AfterOpen, On;
    var size := b.allocSize;
    OpenMoves(w, w1, t, c, used, Checking(size));
    var w2 := Apply(w1, Access(t));
    OneMore(rule, r, acts, w1, Access(t));
    OpenMoves(w, w2, t, c, used, Measuring(size));
    var w3 := Apply(w2, Access(t));
    OneMore(rule, r, acts + [Access(t)], w2, Access(t));
    OpenMoves(w, w3, t, c, used, Asserting(size));
    var w4 := Apply(w3, Access(t));
    OneMore(rule, r, acts + [Access(t)] + [Access(t)], w3, Access(t));
    OpenEnds(w, w4, t, c, used, b);
    var w5 := Apply(w4, Access(t));
    OneMore(rule, r, acts + [Access(t)] + [Access(t)] + [Access(t)], w4, Access(t));
    acts' := acts + [Access(t)] + [Access(t)] + [Access(t)] + [Access(t)];
    OneMore(rule, r, acts', w5, Cut(t, b));
    acts', w' := acts' + [Cut(t, b)], Apply(w5, Cut(t, b));
  }

  lemma Opens(rule: Rule, r: World, acts: seq<Action>, w: World, t: nat, c: SendBufferChunk, used: nat, b: SendBuffer)
      returns (acts': seq<Action>, w': World)
    requires Leads(rule, r, acts, w) && On(w, t, c, used, false) && w.pcs[t].Idle?
    requires b !in w.fills && b.owner == c && b.offset == used && used + b.allocSize <= CHUNK_SIZE
    ensures Leads(rule, r, acts', w') && On(w', t, c, used, true) && AfterOpen(w, w', t, c, b)
  {
    hide Leads, Apply, Enabled, AfterOpen, On;
    OpenChecks(w, t, c, used, b.allocSize);
    OneMore(rule, r, acts, w, CallOpen(t, b.allocSize));
    acts', w' := OpensFrom(rule, r, acts + [CallOpen(t, b.allocSize)], Apply(w, CallOpen(t, b.allocSize)), w, t, c,
        used, b);
  }

  lemma StartsFirst(w: World, t: nat, c: SendBufferChunk, bytes: seq<Byte>, size: nat)
    requires Init(w) && t < |w.pcs| && Poppable(w, c, bytes)
    ensures Enabled(w, CallOpen(t, size)) && Enabled(Apply(w, CallOpen(t, size)), Pop(t, c, bytes))
    ensures Apply(Apply(w, CallOpen(t, size)), Pop(t, c, bytes)) ==
              World(w.books.Popped(t, c), if c in w.slots then w.slots else w.slots[c := Slot(false, 0, bytes)],
                    if c in w.flags then w.flags else w.flags[c := false], map[], map[], w.pcs[t := FirstHand(size)])
  {
    hide Ledger.Popped;
    var w1 := Apply(w, CallOpen(t, size));
    assert w1 == w.(pcs := w.pcs[t := FirstPop(size)]);
    assert Apply(w1, Pop(t, c, bytes)).pcs == w.pcs[t := FirstHand(size)];
  }

  /** The thread's first chunk. */
  lemma TakesFirst(w: World, w2: World, t: nat, c: SendBufferChunk, bytes: seq<Byte>, size: nat)
    requires Init(w) && t < |w.pcs| && Poppable(w, c, bytes)
    requires w2 == World(w.books.Popped(t, c), if c in w.slots then w.slots else w.slots[c := Slot(false, 0, bytes)],
                         if c in w.flags then w.flags else w.flags[c := false], map[], map[],
                             w.pcs[t := FirstHand(size)])
    ensures Enabled(w2, Swap(t))
    ensures var w3 := Apply(w2, Swap(t));
            && Inside(w3.(pcs := w.pcs), w3, t, Checking(size)) && On(w3.(pcs := w.pcs), t, c, 0, false)
            && w3.fills == map[] && w3.openers == map[] && w3.books.buffers[c] == {}
  {
    assert w2.books.hand == map[t := c];
    assert Apply(w2, Swap(t)).pcs == w.pcs[t := Checking(size)];
  }

  lemma OpensFirst(rule: Rule, w: World, t: nat, c: SendBufferChunk, bytes: seq<Byte>, b: SendBuffer)
      returns (acts: seq<Action>, w': World)
    requires Init(w) && t < |w.pcs| && Poppable(w, c, bytes) && b.owner == c && b.offset == 0 &&
             b.allocSize <= CHUNK_SIZE
    ensures Leads(rule, w, acts, w') && On(w', t, c, 0, true) && w'.pcs == w.pcs && w'.books.buffers[c] == {b}
    ensures w'.fills == map[b := Fill(0, false, [])] && w'.openers == map[b := t]
  {
    hide Apply, Enabled, On, Poppable;
    var size := b.allocSize;
    assert Leads(rule, w, [], w);
    assert w.pcs[t].Idle?;
    hide Leads, Init;
    StartsFirst(w, t, c, bytes, size);
    var w1 := Apply(w, CallOpen(t, size));
    var w2 := Apply(w1, Pop(t, c, bytes));
    TakesFirst(w, w2, t, c, bytes, size);
    var w3 := Apply(w2, Swap(t));
    OneMore(rule, w, [], w, CallOpen(t, size));
    OneMore(rule, w, [] + [CallOpen(t, size)], w1, Pop(t, c, bytes));
    OneMore(rule, w, [] + [CallOpen(t, size)] + [Pop(t, c, bytes)], w2, Swap(t));
    acts := [] + [CallOpen(t, size)] + [Pop(t, c, bytes)] + [Swap(t)];
    acts, w' := OpensFrom(rule, w, acts, w3, w3.(pcs := w.pcs), t, c, 0, b);
  }

  /** Thread u has lowered the flag, the used size is to follow. */
  ghost predicate HalfClosed(w: World, w': World, u: nat, c: SendBufferChunk, b: SendBuffer, n: nat) {
    && u < |w.pcs| && w'.pcs == w.pcs[u := Loading(b, n)] && b in w.fills &&
        w'.fills == w.fills[b := w.fills[b].(writeSize := n)]
    && w'.openers == w.openers && w'.books == w.books && w'.slots == w.slots
  }

  lemma CloseBegins(w: World, t: nat, c: SendBufferChunk, used: nat, u: nat, b: SendBuffer, n: nat)
    requires On(w, t, c, used, true) && u < |w.pcs| && w.pcs[u].Idle? && b.owner == c && n <= b.allocSize
    requires b in w.fills && b in w.books.buffers[c]
    ensures Enabled(w, CallClose(u, b, n)) && Enabled(Apply(w, CallClose(u, b, n)), Access(u))
    ensures Apply(Apply(w, CallClose(u, b, n)), Access(u)) ==
              w.(pcs := w.pcs[u := Confirming(b, n)], fills := w.fills[b := w.fills[b].(writeSize := n)])
  {
    var w1 := Apply(w, CallClose(u, b, n));
    assert Apply(w1, Access(u)).pcs == w.pcs[u := Confirming(b, n)];
  }

  lemma CloseGoesOn(w: World, w2: World, t: nat, c: SendBufferChunk, used: nat, u: nat, b: SendBuffer, n: nat)
    requires On(w, t, c, used, true) && u < |w.pcs| && b.owner == c && b in w.fills
    requires w2 == w.(pcs := w.pcs[u := Confirming(b, n)], fills := w.fills[b := w.fills[b].(writeSize := n)])
    ensures Enabled(w2, Access(u)) && Enabled(Apply(w2, Access(u)), Access(u))
    ensures var w4 := Apply(Apply(w2, Access(u)), Access(u)); On(w4, t, c, used, false) && HalfClosed(w, w4, u, c, b, n)
  {
    var w3 := Apply(w2, Access(u));
    assert w3.pcs == w.pcs[u := Shutting(b, n)];
    assert Apply(w3, Access(u)).pcs == w.pcs[u := Loading(b, n)];
  }

  /** Thread u closes b half way. */
  lemma HalfCloses(rule: Rule, r: World, acts: seq<Action>, w: World, t: nat, c: SendBufferChunk, used: nat, u: nat,
      b: SendBuffer, n: nat)
      returns (acts': seq<Action>, w': World)
    requires Leads(rule, r, acts, w) && On(w, t, c, used, true) && u < |w.pcs| && w.pcs[u].Idle?
    requires b.owner == c && n <= b.allocSize && b in w.fills && b in w.books.buffers[c]
    requires Allowed(rule, w, CallClose(u, b, n))
    ensures Leads(rule, r, acts', w') && On(w', t, c, used, false) && HalfClosed(w, w', u, c, b, n)
  {
    hide Leads, Apply, Enabled, HalfClosed;
    CloseBegins(w, t, c, used, u, b, n);
    var w1 := Apply(w, CallClose(u, b, n));
    var w2 := Apply(w1, Access(u));
    CloseGoesOn(w, w2, t, c, used, u, b, n);
    var w3 := Apply(w2, Access(u));
    hide On;
    OneMore(rule, r, acts, w, CallClose(u, b, n));
    OneMore(rule, r, acts + [CallClose(u, b, n)], w1, Access(u));
    OneMore(rule, r, acts + [CallClose(u, b, n)] + [Access(u)], w2, Access(u));
    OneMore(rule, r, acts + [CallClose(u, b, n)] + [Access(u)] + [Access(u)], w3, Access(u));
    acts', w' := acts + [CallClose(u, b, n)] + [Access(u)] + [Access(u)] + [Access(u)], Apply(w3, Access(u));
  }

  ghost predicate Closed(w: World, w': World, u: nat, c: SendBufferChunk, b: SendBuffer, n: nat) {
    && u < |w.pcs| && w'.pcs == w.pcs[u := Idle] && b in w.fills && c in w.slots && c in w'.slots
    && b.offset + n <= |w.slots[c].bytes|
    && w'.fills == w.fills[b := Fill(n, true, w.slots[c].bytes[b.offset..b.offset + n])]
    && w'.openers == w.openers && w'.books == w.books && w'.slots[c].bytes == w.slots[c].bytes
  }

  lemma CloseEnds(w: World, t: nat, c: SendBufferChunk, used: nat, flag: bool, u: nat, b: SendBuffer, n: nat)
    requires On(w, t, c, used, flag) && u < |w.pcs| && w.pcs[u] == Loading(b, n) && b.owner == c &&
             b.offset + n <= CHUNK_SIZE
    requires b in w.fills && w.fills[b].writeSize == n && used + n <= CHUNK_SIZE
    ensures Enabled(w, Access(u)) && Enabled(Apply(w, Access(u)), Access(u))
    ensures var w' := Apply(Apply(w, Access(u)), Access(u)); On(w', t, c, used + n, flag) && Closed(w, w', u, c, b, n)
  {
    var w1 := Apply(w, Access(u));
    assert w1.pcs == w.pcs[u := Adding(b, n, used)];
    assert Apply(w1, Access(u)).pcs == w.pcs[u := Idle];
  }

  /** And the other half. */
  lemma EndsClose(rule: Rule, r: World, acts: seq<Action>, w: World, t: nat, c: SendBufferChunk, used: nat,
      flag: bool, u: nat, b: SendBuffer, n: nat)
      returns (acts': seq<Action>, w': World)
    requires Leads(rule, r, acts, w) && On(w, t, c, used, flag) && u < |w.pcs| && w.pcs[u] == Loading(b, n)
    requires b.owner == c && b.offset + n <= CHUNK_SIZE && used + n <= CHUNK_SIZE && b in w.fills &&
             w.fills[b].writeSize == n
    ensures Leads(rule, r, acts', w') && On(w', t, c, used + n, flag) && Closed(w, w', u, c, b, n)
  {
    hide Leads, Apply, Enabled, Closed, On;
    CloseEnds(w, t, c, used, flag, u, b, n);
    var w1 := Apply(w, Access(u));
    OneMore(rule, r, acts, w, Access(u));
    OneMore(rule, r, acts + [Access(u)], w1, Access(u));
    acts', w' := acts + [Access(u)] + [Access(u)], Apply(w1, Access(u));
  }

  /** What shows it: two open buffers of one chunk. */
  lemma BothOpen(w: World, c: SendBufferChunk, b: SendBuffer, d: SendBuffer)
    requires c in w.books.buffers && c in w.slots && b in w.books.buffers[c] && d in w.books.buffers[c] && b != d
    requires b in w.fills && d in w.fills && !w.fills[b].closed && !w.fills[d].closed
    ensures !Apart(w)
  {
    assert !Disjoint(b, w.fills[b], d, w.fills[d]);
  }

  lemma OnKnown(w: World, t: nat, c: SendBufferChunk, used: nat, flag: bool)
    requires On(w, t, c, used, flag)
    ensures t < |w.pcs| && c in w.books.buffers && c in w.slots && |w.slots[c].bytes| == CHUNK_SIZE
  {}

  /** Buffer b of chunk c is live, not closed, and thread t's. */
  ghost predicate Held(w: World, t: nat, c: SendBufferChunk, b: SendBuffer, n: nat) {
    && c in w.books.buffers && b in w.books.buffers[c] && b in w.openers && w.openers[b] == t
    && b in w.fills && w.fills[b] == Fill(n, false, [])
  }

  /** The same of a buffer closed or not. */
  ghost predicate Opened(w: World, t: nat, c: SendBufferChunk, b: SendBuffer) {
    c in w.books.buffers && b in w.books.buffers[c] && b in w.openers && w.openers[b] == t && b in w.fills
  }

  lemma HeldAllowed(rule: Rule, w: World, t: nat, c: SendBufferChunk, b: SendBuffer, n: nat, u: nat, m: nat)
    requires Held(w, t, c, b, n) && rule.may(t, u)
    ensures Allowed(rule, w, CallClose(u, b, m)) && b in w.fills && c in w.books.buffers && b in w.books.buffers[c]
  {}

  lemma OpenedIsHeld(w: World, w': World, t: nat, c: SendBufferChunk, b: SendBuffer)
    requires AfterOpen(w, w', t, c, b)
    ensures Held(w', t, c, b, 0) && w'.pcs == w.pcs && c in w.slots && c in w'.slots &&
            w'.slots[c].bytes == w.slots[c].bytes
    ensures w'.fills.Keys == w.fills.Keys + {b}
    ensures forall o: nat, d, n: nat | d != b && Held(w, o, c, d, n) :: Held(w', o, c, d, n)
    ensures forall o: nat, d | d != b && Opened(w, o, c, d) :: Opened(w', o, c, d)
  {}

  lemma HalfIsHeld(w: World, w': World, t: nat, u: nat, c: SendBufferChunk, b: SendBuffer, n: nat)
    requires HalfClosed(w, w', u, c, b, n) && Held(w, t, c, b, 0)
    ensures Held(w', t, c, b, n) && w'.fills.Keys == w.fills.Keys
    ensures u < |w.pcs| && w'.pcs == w.pcs[u := Loading(b, n)]
    ensures forall o: nat, d, m: nat | d != b && Held(w, o, c, d, m) :: Held(w', o, c, d, m)
  {}

  lemma HeldApart(w: World, t: nat, u: nat, c: SendBufferChunk, b: SendBuffer, d: SendBuffer, n: nat, m: nat)
    requires Held(w, t, c, b, n) && Held(w, u, c, d, m) && b != d && c in w.slots
    ensures !Apart(w)
  {
    hide Apart;
    BothOpen(w, c, b, d);
  }

  lemma FirstIsHeld(w: World, t: nat, c: SendBufferChunk, b: SendBuffer)
    requires On(w, t, c, 0, true) && w.books.buffers[c] == {b}
    requires w.fills == map[b := Fill(0, false, [])] && w.openers == map[b := t]
    ensures Held(w, t, c, b, 0) && w.fills.Keys == {b}
  {}

  /** Thread u closes the buffer of thread t half way; t opens the next one in between, in the
      same place. */
  lemma ForeignHalf(rule: Rule, w: World, t: nat, u: nat, c: SendBufferChunk, bytes: seq<Byte>, b: SendBuffer,
      d: SendBuffer, n: nat)
      returns (acts: seq<Action>, w': World)
    requires Init(w) && t < |w.pcs| && u < |w.pcs| && t != u && rule.may(t, u) && Poppable(w, c, bytes)
    requires b != d && b.owner == d.owner == c && b.offset == d.offset == 0 && n <= b.allocSize <= CHUNK_SIZE &&
             d.allocSize <= CHUNK_SIZE
    ensures Leads(rule, w, acts, w') && On(w', t, c, 0, true) && w'.pcs == w.pcs[u := Loading(b, n)]
    ensures Held(w', t, c, b, n) && Held(w', t, c, d, 0) && !Apart(w')
  {
    assert w.pcs[t].Idle? && w.pcs[u].Idle?;
    hide Init, Leads, Poppable, Apart, On, Held, AfterOpen, HalfClosed, Allowed;
    var w1, w2;
    acts, w1 := OpensFirst(rule, w, t, c, bytes, b);
    OnKnown(w1, t, c, 0, true);
    FirstIsHeld(w1, t, c, b);
    HeldAllowed(rule, w1, t, c, b, 0, u, n);
    acts, w2 := HalfCloses(rule, w, acts, w1, t, c, 0, u, b, n);
    HalfIsHeld(w1, w2, t, u, c, b, n);
    acts, w' := Opens(rule, w, acts, w2, t, c, 0, d);
    OpenedIsHeld(w2, w', t, c, d);
    HeldApart(w', t, t, c, b, d, n, 0);
  }

  lemma ClosedKeeps(w: World, w': World, t: nat, u: nat, c: SendBufferChunk, b: SendBuffer, n: nat)
    requires Closed(w, w', u, c, b, n) && Held(w, t, c, b, n)
    ensures u < |w.pcs| && w'.pcs == w.pcs[u := Idle] && w'.fills.Keys == w.fills.Keys
    ensures c in w'.books.buffers && b in w'.books.buffers[c] && b in w'.openers && w'.openers[b] == t && b in w'.fills
    ensures w'.fills[b].closed && w'.fills[b].writeSize == n && c in w'.slots && Intact(w'.slots[c], b, w'.fills[b])
    ensures forall o: nat, d, m: nat | d != b && Held(w, o, c, d, m) :: Held(w', o, c, d, m)
  {}

  lemma HeldSize(w: World, t: nat, c: SendBufferChunk, b: SendBuffer, n: nat)
    requires Held(w, t, c, b, n)
    ensures b in w.fills && w.fills[b].writeSize == n && !w.fills[b].closed && c in w.books.buffers &&
            b in w.books.buffers[c]
  {}

  /** A thread that may close its own buffers more than once, with one that is closed, still live. */
  lemma ClosesAgain(rule: Rule, r: World, acts: seq<Action>, w: World, t: nat, c: SendBufferChunk, b: SendBuffer,
      d: SendBuffer)
      returns (acts': seq<Action>, w': World)
    requires Leads(rule, r, acts, w) && On(w, t, c, 0, true) && w.pcs[t].Idle? && rule.may(t, t) && !rule.once
    requires Opened(w, t, c, b) && b.owner == c && b.offset == 0 && b != d && Held(w, t, c, d, 0)
    ensures Leads(rule, r, acts', w') && On(w', t, c, 0, false) && w'.pcs == w.pcs && Held(w', t, c, d, 0)
    ensures w'.fills.Keys == w.fills.Keys
  {
    hide Leads, On, HasFields;
    OnKnown(w, t, c, 0, true);
    var x;
    acts', x := HalfCloses(rule, r, acts, w, t, c, 0, t, b, 0);
    assert Held(x, t, c, d, 0);
    acts', w' := EndsClose(rule, r, acts', x, t, c, 0, false, t, b, 0);
  }

  lemma ClosesOnce(rule: Rule, r: World, acts: seq<Action>, w: World, t: nat, c: SendBufferChunk, b: SendBuffer)
      returns (acts': seq<Action>, w': World)
    requires Leads(rule, r, acts, w) && On(w, t, c, 0, true) && w.pcs[t].Idle? && rule.may(t, t)
    requires b.owner == c && b.offset == 0 && Held(w, t, c, b, 0)
    ensures Leads(rule, r, acts', w') && On(w', t, c, 0, false) && w'.pcs == w.pcs && w'.fills.Keys == w.fills.Keys
    ensures Opened(w', t, c, b)
  {
    hide Leads, On, Held, HalfClosed, Closed, Allowed, HasFields, Intact;
    OnKnown(w, t, c, 0, true);
    HeldAllowed(rule, w, t, c, b, 0, t, 0);
    var x;
    acts', x := HalfCloses(rule, r, acts, w, t, c, 0, t, b, 0);
    HalfIsHeld(w, x, t, t, c, b, 0);
    HeldSize(x, t, c, b, 0);
    acts', w' := EndsClose(rule, r, acts', x, t, c, 0, false, t, b, 0);
    ClosedKeeps(x, w', t, t, c, b, 0);
  }

  lemma NextAfterFirst(rule: Rule, w: World, t: nat, c: SendBufferChunk, bytes: seq<Byte>, b: SendBuffer, d: SendBuffer)
      returns (acts: seq<Action>, w': World)
    requires Init(w) && t < |w.pcs| && rule.may(t, t) && Poppable(w, c, bytes)
    requires b != d && b.owner == d.owner == c && b.offset == d.offset == 0 && b.allocSize <= CHUNK_SIZE &&
             d.allocSize <= CHUNK_SIZE
    ensures Leads(rule, w, acts, w') && On(w', t, c, 0, true) && w'.pcs == w.pcs && w'.fills.Keys == {b, d}
    ensures Opened(w', t, c, b) && Held(w', t, c, d, 0)
  {
    assert w.pcs[t].Idle?;
    hide Init, Leads, Poppable, On, Held, AfterOpen, Opened;
    var v, x;
    acts, v := OpensFirst(rule, w, t, c, bytes, b);
    OnKnown(v, t, c, 0, true);
    FirstIsHeld(v, t, c, b);
    acts, x := ClosesOnce(rule, w, acts, v, t, c, b);
    acts, w' := Opens(rule, w, acts, x, t, c, 0, d);
    OpenedIsHeld(x, w', t, c, d);
  }

  /** A thread closes its buffer twice, the second time while its next one is open; then the
      next but one starts in the same place as the next. */
  lemma TwiceClosed(rule: Rule, w: World, t: nat, c: SendBufferChunk, bytes: seq<Byte>, b: SendBuffer, d: SendBuffer,
      e: SendBuffer)
      returns (acts: seq<Action>, w': World)
    requires Init(w) && t < |w.pcs| && rule.may(t, t) && !rule.once && Poppable(w, c, bytes)
    requires b != d && b != e && d != e && b.owner == d.owner == e.owner == c && b.offset == d.offset == e.offset == 0
    requires b.allocSize <= CHUNK_SIZE && d.allocSize <= CHUNK_SIZE && e.allocSize <= CHUNK_SIZE
    ensures Leads(rule, w, acts, w') && !Apart(w')
  {
    assert w.pcs[t].Idle?;
    hide Init, Leads, Poppable, Apart, On, Held, AfterOpen, Opened, HasFields;
    var v, x;
    acts, v := NextAfterFirst(rule, w, t, c, bytes, b, d);
    acts, x := ClosesAgain(rule, w, acts, v, t, c, b, d);
    assert e !in x.fills.Keys;
    acts, w' := Opens(rule, w, acts, x, t, c, 0, e);
    OpenedIsHeld(x, w', t, c, e);
    HeldApart(w', t, t, c, d, e, 0, 0);
  }

  /** Every run keeps live buffers apart if and only if the rule is that every thread closes
      only its own buffers, each once. (c is the chunk a first `Pop` returns; the other three are
      buffers that can be cut from its front.) */
  lemma ApartIffOwn(rule: Rule, w: World, c: SendBufferChunk, bytes: seq<Byte>, b: SendBuffer, d: SendBuffer,
      e: SendBuffer)
    requires Init(w) && Poppable(w, c, bytes)
    requires b != d && b != e && d != e && b.owner == d.owner == e.owner == c && b.offset == d.offset == e.offset == 0
    requires b.allocSize <= CHUNK_SIZE && d.allocSize <= CHUNK_SIZE && e.allocSize <= CHUNK_SIZE
    ensures (forall acts, w' | Leads(rule, w, acts, w') :: Apart(w')) <==> Own(rule, |w.pcs|)
  {
    hide Init, Leads, Apart, Poppable;
    if Own(rule, |w.pcs|) {
      forall acts, w' | Leads(rule, w, acts, w') ensures Apart(w') { LiveApart(rule, w, acts, w'); }
    } else {
      var t: nat, u: nat :| t < |w.pcs| && u < |w.pcs| && rule.may(t, u) && !(t == u && rule.once);
      var acts, w';
      if t != u {
        acts, w' := ForeignHalf(rule, w, t, u, c, bytes, b, d, 0);
      } else {
        acts, w' := TwiceClosed(rule, w, t, c, bytes, b, d, e);
      }
    }
  }

  /** A run that shows what happens: thread u closes the buffer of thread t with n bytes, t opens
      the next one before u has added them to the used size, no assertion fails, and what t then
      writes changes the bytes of the closed buffer. */
  lemma ForeignCloseOverwritten(rule: Rule, w: World, t: nat, u: nat, c: SendBufferChunk, bytes: seq<Byte>,
      b: SendBuffer, d: SendBuffer, n: nat)
      returns (acts: seq<Action>, w1: World, v: Byte, w2: World)
    requires Init(w) && t < |w.pcs| && u < |w.pcs| && t != u && rule.may(t, u) && Poppable(w, c, bytes)
    requires b != d && b.owner == d.owner == c && b.offset == d.offset == 0 && 0 < n <= b.allocSize <= CHUNK_SIZE
    requires 0 < d.allocSize <= CHUNK_SIZE
    ensures Leads(rule, w, acts, w1) && Live(w1, b) && Live(w1, d) && w1.pcs == w.pcs
    ensures w1.fills[b].closed && w1.fills[b].writeSize == n && Intact(w1.slots[c], b, w1.fills[b]) &&
            !w1.fills[d].closed
    ensures Enabled(w1, Write(d, 0, v)) && w2 == Apply(w1, Write(d, 0, v))
    ensures Live(w2, b) && w2.fills[b] == w1.fills[b] && !Intact(w2.slots[c], b, w2.fills[b])
  {
    assert w.pcs[u].Idle?;
    hide Init, Leads, Poppable, Apart, On, Held, Closed, Allowed;
    var x;
    acts, x := ForeignHalf(rule, w, t, u, c, bytes, b, d, n);
    OnKnown(x, t, c, 0, true);
    HeldSize(x, t, c, b, n);
    acts, w1 := EndsClose(rule, w, acts, x, t, c, 0, true, u, b, n);
    OnKnown(w1, t, c, n, true);
    ClosedKeeps(x, w1, t, u, c, b, n);
    HeldSize(w1, t, c, d, 0);
    v, w2 := Overwrites(w1, c, b, d);
  }

  lemma Overwrites(w: World, c: SendBufferChunk, b: SendBuffer, d: SendBuffer) returns (v: Byte, w': World)
    requires Live(w, b) && Live(w, d) && b.owner == d.owner == c && b.offset == d.offset == 0 &&
             0 < d.allocSize <= CHUNK_SIZE
    requires w.fills[b].closed && 0 < w.fills[b].writeSize <= CHUNK_SIZE && Intact(w.slots[c], b, w.fills[b])
    requires !w.fills[d].closed && |w.slots[c].bytes| == CHUNK_SIZE
    ensures Enabled(w, Write(d, 0, v)) && w' == Apply(w, Write(d, 0, v))
    ensures Live(w', b) && w'.fills[b] == w.fills[b] && !Intact(w'.slots[c], b, w'.fills[b])
  {
    v := if w.slots[c].bytes[0] == 0 then 1 else 0;
    w' := Apply(w, Write(d, 0, v));
    var n := w.fills[b].writeSize;
    assert w.slots[c].bytes[0..n][0] != v && w'.slots[c].bytes[0..n][0] == v;
  }
}
