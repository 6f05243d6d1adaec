/** The tagged free-list pool: a stack of blocks under a packed head word. Threads
    `allocate` and `deallocate` by compare-and-swap on the head; the tag counts the swaps
    modulo 2^19 so that a swap notices that the head has changed since it was loaded.
    Every load, store and compare-and-swap is one step. */
module TaggedPool {
  import MachineWords
  import opened PackedPointer

  /** What an address is. `pos` is the height in the stack. */
  datatype Place = Nothing | Fresh(t: nat) | Held | Releasing(t: nat) | OnChain(pos: nat)

  /** `combined` is the link word of the block; `chaser` is 0 for a block of the arena, and
      otherwise one more than the number of the chaser made for it. */
  datatype Cell = Cell(combined: nat, place: Place, chaser: nat)

  /** A record of a block from the general allocator. `next` is 0 or one more than a chaser's
      number; `pos` is its height in the list, once it is on it. */
  datatype Chaser = Chaser(target: nat, next: nat, pushed: bool, pos: nat)

  /** `stamp` is the number of swaps of the head when `seen` was loaded. */
  datatype Op =
    | Idle
    | TakeTop(seen: nat, stamp: nat)
    | TakeNext(seen: nat, stamp: nat, next: nat)
    | Minting(made: nat)
    | GiveTop(block: nat, seen: nat, stamp: nat)
    | GiveLinked(block: nat, seen: nat, stamp: nat)

  /** `chain` is the stack, bottom first, and `record` the list of chasers, bottom first;
      `swaps` counts the changes of the head. No operation reads these three. */
  datatype State = State(
    head: nat, mem: seq<Cell>, poolTop: nat, chasers: seq<Chaser>, threads: seq<Op>,
    chain: seq<nat>, record: seq<nat>, swaps: nat)

  datatype Action =
    | LoadToTake(t: nat)
    | ReadNext(t: nat)
    | TakeCas(t: nat)
    | TakeFail(t: nat)            // the head differs, or the weak compare-and-swap gave up
    | Mint(t: nat, at: nat)       // an empty stack: the general allocator returns an address
    | Record(t: nat)
    | RecordFail(t: nat)
    | LoadToGive(t: nat, block: nat)
    | StoreLink(t: nat)
    | GiveCas(t: nat)
    | GiveFail(t: nat)

  function Top(chain: seq<nat>): nat { if chain == [] then 0 else chain[|chain| - 1] }

  predicate Enabled(s: State, a: Action) {
    && a.t < |s.threads|
    && var op := s.threads[a.t];
       match a
       case LoadToTake(_) => op.Idle?
       case ReadNext(_) => op.TakeTop? && 0 < PointerOf(op.seen) < |s.mem|
       case TakeCas(_) => op.TakeNext? && s.head == op.seen && PointerOf(op.seen) < |s.mem|
       case TakeFail(_) => op.TakeNext?
       case Mint(_, at) => op.TakeTop? && PointerOf(op.seen) == 0 && 0 < at < |s.mem| && s.mem[at].place.Nothing?
       case Record(_) =>
         op.Minting? && op.made < |s.chasers| && s.poolTop == s.chasers[op.made].next &&
         s.chasers[op.made].target < |s.mem|
       case RecordFail(_) => op.Minting? && op.made < |s.chasers|
       case LoadToGive(_, b) => op.Idle? && b < |s.mem| && s.mem[b].place.Held?
       case StoreLink(_) => op.GiveTop? && op.block < |s.mem|
       case GiveCas(_) => op.GiveLinked? && s.head == op.seen && op.block < |s.mem|
       case GiveFail(_) => op.GiveLinked?
  }

  function Apply(s: State, a: Action): State
    requires Enabled(s, a)
  {
    var t, op := a.t, s.threads[a.t];
    match a
    case LoadToTake(_) => s.(threads := s.threads[t := TakeTop(s.head, s.swaps)])
    case ReadNext(_) =>
      s.(threads := s.threads[t := TakeNext(op.seen, op.stamp, PointerOf(s.mem[PointerOf(op.seen)].combined))])
    case TakeCas(_) =>
      var b := PointerOf(op.seen);
      s.(head := Pack(op.next, TagOf(op.seen) + 1), swaps := s.swaps + 1,
         mem := s.mem[b := s.mem[b].(place := Held)],
         chain := if s.chain == [] then [] else s.chain[..|s.chain| - 1],
         threads := s.threads[t := Idle])
    case TakeFail(_) => s.(threads := s.threads[t := TakeTop(s.head, s.swaps)])
    case Mint(_, at) =>
      s.(mem := s.mem[at := Cell(0, Fresh(t), |s.chasers| + 1)],
         chasers := s.chasers + [Chaser(at, s.poolTop, false, 0)],
         threads := s.threads[t := Minting(|s.chasers|)])
    case Record(_) =>
      var c := s.chasers[op.made];
      s.(poolTop := op.made + 1,
         chasers := s.chasers[op.made := c.(pushed := true, pos := |s.record|)],
         record := s.record + [op.made],
         mem := s.mem[c.target := s.mem[c.target].(place := Held)],
         threads := s.threads[t := Idle])
    case RecordFail(_) =>
      s.(chasers := s.chasers[op.made := s.chasers[op.made].(next := s.poolTop)])
    case LoadToGive(_, b) =>
      s.(mem := s.mem[b := s.mem[b].(place := Releasing(t))],
         threads := s.threads[t := GiveTop(b, s.head, s.swaps)])
    case StoreLink(_) =>
      s.(mem := s.mem[op.block := s.mem[op.block].(combined := op.seen)],
         threads := s.threads[t := GiveLinked(op.block, op.seen, op.stamp)])
    case GiveCas(_) =>
      s.(head := Pack(op.block, TagOf(op.seen) + 1), swaps := s.swaps + 1,
         mem := s.mem[op.block := s.mem[op.block].(place := OnChain(|s.chain|))],
         chain := s.chain + [op.block],
         threads := s.threads[t := Idle])
    case GiveFail(_) => s.(threads := s.threads[t := GiveTop(op.block, s.head, s.swaps)])
  }

  /** The number of swaps between the load of the head and a taking swap is not a positive
      multiple of 2^19. */
  predicate Timely(s: State, a: Action) {
    a.TakeCas? && a.t < |s.threads| && s.threads[a.t].TakeNext? ==>
      s.swaps == s.threads[a.t].stamp || (s.swaps - s.threads[a.t].stamp) % TAGS != 0
  }

  ghost predicate Leads(s: State, acts: seq<Action>, s': State)
    decreases |acts|
  {
    if acts == [] then s == s'
    else Enabled(s, acts[0]) && Timely(s, acts[0]) && Leads(Apply(s, acts[0]), acts[1..], s')
  }

  // ---------------------------------------------------------------- invariant

  /** The link at height i names the block below. */
  predicate LinkOk(s: State, i: nat)
    requires i < |s.chain|
  {
    var b := s.chain[i];
    && 0 < b < |s.mem|
    && s.mem[b].place == OnChain(i)
    && PointerOf(s.mem[b].combined) == Top(s.chain[..i])
  }

  predicate StackCellOk(s: State, b: nat, c: Cell) {
    c.place.OnChain? ==> c.place.pos < |s.chain| && s.chain[c.place.pos] == b
  }

  predicate GivenCellOk(s: State, b: nat, c: Cell) {
    c.place.Releasing? ==>
      && c.place.t < |s.threads|
      && (s.threads[c.place.t].GiveTop? || s.threads[c.place.t].GiveLinked?)
      && s.threads[c.place.t].block == b
  }

  predicate MintedCellOk(s: State, b: nat, c: Cell) {
    && (c.place.Nothing? ==> c.chaser == 0)
    && (c.place.Fresh? ==>
          && c.place.t < |s.threads| && s.threads[c.place.t].Minting?
          && c.chaser == s.threads[c.place.t].made + 1)
    && (c.chaser > 0 ==>
          && c.chaser <= |s.chasers| && s.chasers[c.chaser - 1].target == b
          && (s.chasers[c.chaser - 1].pushed <==> !c.place.Fresh?))
  }

  predicate CellOk(s: State, b: nat, c: Cell) {
    StackCellOk(s, b, c) && GivenCellOk(s, b, c) && MintedCellOk(s, b, c)
  }

  predicate ChaserOk(s: State, k: nat, c: Chaser) {
    && 0 < c.target < |s.mem| && s.mem[c.target].chaser == k + 1
    && (c.pushed ==> c.pos < |s.record| && s.record[c.pos] == k && c.next == RecordTop(s.record[..c.pos]))
  }

  function RecordTop(record: seq<nat>): nat { if record == [] then 0 else record[|record| - 1] + 1 }

  predicate RecordOk(s: State, i: nat)
    requires i < |s.record|
  {
    var k := s.record[i];
    k < |s.chasers| && s.chasers[k].pushed && s.chasers[k].pos == i
  }

  /** While no swap happened since the load, what the thread knows is still true. */
  predicate ThreadOk(s: State, t: nat, op: Op) {
    && ((op.TakeTop? || op.TakeNext?) ==>
          && op.stamp <= s.swaps
          && TagOf(op.seen) == op.stamp % TAGS
          && PointerOf(op.seen) < |s.mem|
          && (op.stamp == s.swaps ==> op.seen == s.head)
          && (PointerOf(op.seen) > 0 ==> !s.mem[PointerOf(op.seen)].place.Nothing?))
    && (op.TakeNext? ==>
          && PointerOf(op.seen) > 0
          && (op.stamp == s.swaps ==> op.next == PointerOf(s.mem[PointerOf(op.seen)].combined)))
    && (op.Minting? ==>
          && op.made < |s.chasers| && !s.chasers[op.made].pushed
          && s.chasers[op.made].target < |s.mem| && s.mem[s.chasers[op.made].target].place == Fresh(t))
    && ((op.GiveTop? || op.GiveLinked?) ==>
          && 0 < op.block < |s.mem| && s.mem[op.block].place == Releasing(t)
          && TagOf(op.seen) < TAGS)
    && (op.GiveLinked? ==> s.mem[op.block].combined == op.seen)
  }

  predicate Canonical(w: nat) {
    w < WORD && w % TAG_UNIT < ADDRESSES
  }

  predicate HeadOk(s: State) {
    && PointerOf(s.head) == Top(s.chain)
    && TagOf(s.head) == s.swaps % TAGS
    && Canonical(s.head)
    && s.poolTop == RecordTop(s.record)
    && 0 < |s.mem| <= ADDRESSES
    && s.mem[0].place.Nothing?
  }

  ghost predicate Inv(s: State) {
    && HeadOk(s)
    && (forall i | 0 <= i < |s.chain| :: LinkOk(s, i))
    && (forall b | 0 <= b < |s.mem| :: CellOk(s, b, s.mem[b]))
    && (forall k | 0 <= k < |s.chasers| :: ChaserOk(s, k, s.chasers[k]))
    && (forall i | 0 <= i < |s.record| :: RecordOk(s, i))
    && (forall t | 0 <= t < |s.threads| :: ThreadOk(s, t, s.threads[t]))
  }

  /** A fresh tag: when the swap finds the head it loaded, nothing happened in between. */
  lemma EqualTags(stamp: nat, now: nat)
    requires stamp <= now && stamp % TAGS == now % TAGS && (stamp == now || (now - stamp) % TAGS != 0)
    ensures stamp == now
  {}

  lemma KnownOf(s: State, a: Action)
    requires Inv(s) && Enabled(s, a)
    ensures HeadOk(s) && ThreadOk(s, a.t, s.threads[a.t])
    ensures forall i | 0 <= i < |s.chain| :: LinkOk(s, i)
    ensures forall i | 0 <= i < |s.record| :: RecordOk(s, i)
  {
  }

  /** A swap that finds the word it expects has had a multiple of 2^19 swaps before it since
      its load: what the condition leaves out is just the swaps that find an outdated word. */
  lemma FoundAgain(s: State, acts: seq<Action>, s': State, t: nat)
    requires Inv(s) && Leads(s, acts, s') && Enabled(s', TakeCas(t))
    ensures (s'.swaps - s'.threads[t].stamp) % TAGS == 0
    ensures Timely(s', TakeCas(t)) <==> s'.swaps == s'.threads[t].stamp
  {
    hide Inv, Leads;
    RunInv(s, acts, s');
    TagsAgree(s', t);
    SameRemainders(s'.threads[t].stamp, s'.swaps);
  }

  lemma TagsAgree(s: State, t: nat)
    requires Inv(s) && Enabled(s, TakeCas(t))
    ensures s.threads[t].stamp <= s.swaps && s.threads[t].stamp % TAGS == s.swaps % TAGS
  {
    hide Inv, PointerOf, TagOf, Pack, Canonical;
    KnownOf(s, TakeCas(t));
  }

  lemma SameRemainders(stamp: nat, now: nat)
    requires stamp <= now && stamp % TAGS == now % TAGS
    ensures (now - stamp) % TAGS == 0
  {
    var q, r := stamp / TAGS, now / TAGS;
    assert now - stamp == (r - q) * TAGS;
    MultipleIsWhole(r - q);
  }

  lemma MultipleIsWhole(k: int)
    ensures (k * TAGS) % TAGS == 0
  {}

  /** A timely taking swap that succeeds installs the block below the top. */
  lemma WinningTake(s: State, a: Action)
    requires Inv(s) && Enabled(s, a) && Timely(s, a) && a.TakeCas?
    ensures s.chain != [] && PointerOf(s.head) == Top(s.chain)
    ensures s.mem[Top(s.chain)].place == OnChain(|s.chain| - 1)
    ensures PointerOf(Apply(s, a).head) == Top(Apply(s, a).chain)
    ensures s.threads[a.t].stamp == s.swaps
  {
    var op := s.threads[a.t];
    assert ThreadOk(s, a.t, op);
    EqualTags(op.stamp, s.swaps);
    assert LinkOk(s, |s.chain| - 1);
    UnpackPacked(op.next, TagOf(op.seen) + 1);
  }

  lemma NextWord(s: State, a: Action)
    requires Inv(s) && Enabled(s, a) && Timely(s, a) && (a.TakeCas? || a.GiveCas?)
    ensures PointerOf(Apply(s, a).head) == (if a.TakeCas? then Top(s.chain[..|s.chain| - 1]) else s.threads[a.t].block)
    ensures TagOf(Apply(s, a).head) == (s.swaps + 1) % TAGS
    ensures a.TakeCas? ==> s.chain != []
    ensures Canonical(Apply(s, a).head)
  {
    KnownOf(s, a);
    var op := s.threads[a.t];
    if a.TakeCas? {
      WinningTake(s, a);
      NextTag(op.next, op.seen, s.swaps);
      PackedIsCanonical(op.next, TagOf(op.seen) + 1);
    } else {
      NextTag(op.block, op.seen, s.swaps);
      PackedIsCanonical(op.block, TagOf(op.seen) + 1);
    }
  }

  lemma StepKeepsHead(s: State, a: Action)
    requires Inv(s) && Enabled(s, a) && Timely(s, a)
    ensures HeadOk(Apply(s, a))
  {
    KnownOf(s, a);
    hide Inv, PointerOf, TagOf, Pack, LinkOk, Canonical;
    if a.TakeCas? || a.GiveCas? { NextWord(s, a); }
  }

  lemma StepKeepsLinks(s: State, a: Action, i: nat)
    requires Inv(s) && Enabled(s, a) && Timely(s, a) && i < |Apply(s, a).chain|
    ensures LinkOk(Apply(s, a), i)
  {
    KnownOf(s, a);
    if a.TakeCas? { WinningTake(s, a); }
    hide Inv, PointerOf, TagOf, Pack, RecordOk;
    if i < |s.chain| {
      assert LinkOk(s, i);
      assert a.TakeCas? ==> s.chain[..i] == Apply(s, a).chain[..i];
    }
    assert a.GiveCas? ==> Apply(s, a).chain[..i] == s.chain[..i];
  }

  lemma StepKeepsRecord(s: State, a: Action, i: nat)
    requires Inv(s) && Enabled(s, a) && i < |Apply(s, a).record|
    ensures RecordOk(Apply(s, a), i)
  {
    KnownOf(s, a);
    hide Inv, PointerOf, TagOf, Pack, LinkOk;
    assert i < |s.record| ==> RecordOk(s, i);
  }

  lemma CellKnown(s: State, b: nat)
    requires Inv(s) && b < |s.mem|
    ensures CellOk(s, b, s.mem[b])
  {}

  lemma StackCells(s: State, a: Action, b: nat)
    requires Inv(s) && Enabled(s, a) && Timely(s, a) && b < |s.mem|
    ensures StackCellOk(Apply(s, a), b, Apply(s, a).mem[b])
  {
    hide Inv, PointerOf, TagOf, Pack, RecordOk, LinkOk, GivenCellOk, MintedCellOk, HeadOk, ThreadOk;
    CellKnown(s, b);
    KnownOf(s, a);
    if a.TakeCas? { WinningTake(s, a); }
  }

  lemma GivenCells(s: State, a: Action, b: nat)
    requires Inv(s) && Enabled(s, a) && b < |s.mem|
    ensures GivenCellOk(Apply(s, a), b, Apply(s, a).mem[b])
  {
    CellKnown(s, b);
    hide Inv, PointerOf, TagOf, Pack, StackCellOk, MintedCellOk;
  }

  /** Who holds the block a step works on. */
  lemma PlaceBefore(s: State, a: Action)
    requires Inv(s) && Enabled(s, a) && Timely(s, a)
    ensures var op := s.threads[a.t];
            && (a.TakeCas? ==> s.mem[PointerOf(op.seen)].place.OnChain?)
            && (a.StoreLink? || a.GiveCas? ==> s.mem[op.block].place == Releasing(a.t))
            && (a.Record? || a.RecordFail? ==> !s.chasers[op.made].pushed)
            && (a.Record? ==> s.mem[s.chasers[op.made].target].place == Fresh(a.t))
  {
    KnownOf(s, a);
    if a.TakeCas? { WinningTake(s, a); }
  }

  lemma MintedCells(s: State, a: Action, b: nat)
    requires Inv(s) && Enabled(s, a) && Timely(s, a) && b < |s.mem|
    ensures MintedCellOk(Apply(s, a), b, Apply(s, a).mem[b])
  {
    hide Inv, PointerOf, TagOf, Pack, RecordOk, LinkOk, StackCellOk, GivenCellOk, ThreadOk, HeadOk;
    CellKnown(s, b);
    PlaceBefore(s, a);
  }

  lemma StepKeepsCells(s: State, a: Action, b: nat)
    requires Inv(s) && Enabled(s, a) && Timely(s, a) && b < |s.mem|
    ensures CellOk(Apply(s, a), b, Apply(s, a).mem[b])
  {
    hide Inv, PointerOf, TagOf, Pack, LinkOk, RecordOk, ThreadOk, HeadOk;
    KnownOf(s, a);
    CellKnown(s, b);
    StackCells(s, a, b);
    GivenCells(s, a, b);
    MintedCells(s, a, b);
    hide StackCellOk, GivenCellOk, MintedCellOk;
  }

  lemma ChaserKnown(s: State, k: nat)
    requires Inv(s) && k < |s.chasers|
    ensures ChaserOk(s, k, s.chasers[k])
  {}

  lemma StepKeepsChasers(s: State, a: Action, k: nat)
    requires Inv(s) && Enabled(s, a) && Timely(s, a) && k < |Apply(s, a).chasers|
    ensures ChaserOk(Apply(s, a), k, Apply(s, a).chasers[k])
  {
    hide Inv, PointerOf, TagOf, Pack, RecordOk, LinkOk, StackCellOk, GivenCellOk, ThreadOk;
    KnownOf(s, a);
    PlaceBefore(s, a);
    if a.Mint? { CellKnown(s, a.at); }
    if k < |s.chasers| {
      ChaserKnown(s, k);
      var s', c := Apply(s, a), s.chasers[k];
      assert c.pushed ==> s'.record[..c.pos] == s.record[..c.pos];
    }
    assert a.Record? ==> Apply(s, a).record[..|s.record|] == s.record;
  }

  lemma ThreadKnown(s: State, t: nat)
    requires Inv(s) && t < |s.threads|
    ensures ThreadOk(s, t, s.threads[t])
  {}

  lemma TopPlace(s: State)
    requires Inv(s)
    ensures s.chain != [] ==> 0 < Top(s.chain) < |s.mem| && s.mem[Top(s.chain)].place.OnChain?
    ensures PointerOf(s.head) == Top(s.chain) && TagOf(s.head) == s.swaps % TAGS < TAGS
    ensures 0 < |s.mem|
  {
    assert s.chain != [] ==> LinkOk(s, |s.chain| - 1);
  }

  lemma StepKeepsThreads(s: State, a: Action, t: nat)
    requires Inv(s) && Enabled(s, a) && Timely(s, a) && t < |s.threads|
    ensures ThreadOk(Apply(s, a), t, Apply(s, a).threads[t])
  {
    hide Inv, PointerOf, TagOf, Pack, RecordOk, LinkOk, StackCellOk, GivenCellOk, MintedCellOk;
    KnownOf(s, a);
    ThreadKnown(s, t);
    PlaceBefore(s, a);
    TopPlace(s);
    hide HeadOk;
  }

  lemma NextInv(s: State, a: Action)
    requires Inv(s) && Enabled(s, a) && Timely(s, a)
    ensures Inv(Apply(s, a))
  {
    hide Apply, LinkOk, CellOk, ChaserOk, RecordOk, ThreadOk, HeadOk, Timely;
    var s' := Apply(s, a);
    StepKeepsHead(s, a);
    SameSize(s, a);
    forall i | 0 <= i < |s'.chain| ensures LinkOk(s', i) { StepKeepsLinks(s, a, i); }
    forall b | 0 <= b < |s'.mem| ensures CellOk(s', b, s'.mem[b]) { StepKeepsCells(s, a, b); }
    forall k | 0 <= k < |s'.chasers| ensures ChaserOk(s', k, s'.chasers[k]) { StepKeepsChasers(s, a, k); }
    forall i | 0 <= i < |s'.record| ensures RecordOk(s', i) { StepKeepsRecord(s, a, i); }
    forall t | 0 <= t < |s'.threads| ensures ThreadOk(s', t, s'.threads[t]) { StepKeepsThreads(s, a, t); }
  }

  lemma SameSize(s: State, a: Action)
    requires Enabled(s, a)
    ensures |Apply(s, a).mem| == |s.mem| && |Apply(s, a).threads| == |s.threads|
  {}

  // ---------------------------------------------------------------- the start

  function Address(start: nat, size: nat, i: nat): nat { start + i * size }

  predicate InArena(at: nat, start: nat, size: nat, count: nat)
    requires size > 0
  {
    at >= start && (at - start) % size == 0 && (at - start) / size < count
  }

  function Number(at: nat, start: nat, size: nat): nat
    requires size > 0 && at >= start
  { (at - start) / size }

  lemma AddressIsBlock(start: nat, size: nat, count: nat, i: nat)
    requires size > 0 && i < count
    ensures var at := Address(start, size, i);
            InArena(at, start, size, count) && at >= start && Number(at, start, size) == i
  {
    MachineWords.DivUnique(i * size, i, 0, size);
  }

  lemma BlockHasAddress(at: nat, start: nat, size: nat, count: nat)
    requires size > 0 && InArena(at, start, size, count)
    ensures at >= start && Number(at, start, size) < count && at == Address(start, size, Number(at, start, size))
  {
    assert at - start == (at - start) / size * size + (at - start) % size;
  }

  lemma {:induction false} AddressGrows(start: nat, size: nat, i: nat, j: nat)
    requires i < j
    ensures Address(start, size, i) + size <= Address(start, size, j)
    decreases j
  {
    assert (j - 1) * size == j * size - size;
    if i + 1 < j {
      AddressGrows(start, size, i, j - 1);
    }
  }

  function StartCell(at: nat, word: nat, start: nat, size: nat, count: nat): Cell
    requires size > 0
  {
    if InArena(at, start, size, count) then
      BlockHasAddress(at, start, size, count);
      Cell(word, OnChain(count - 1 - Number(at, start, size)), 0)
    else Cell(word, Nothing, 0)
  }

  /** The pool after its constructor, for the given memory and number of threads. */
  ghost function StartState(head: nat, words: seq<nat>, start: nat, size: nat, count: nat, threads: nat): State
    requires size > 0
  {
    State(head, seq(|words|, at requires 0 <= at < |words| => StartCell(at, words[at], start, size, count)),
          0, [], seq(threads, _ => Idle),
          seq(count, i requires 0 <= i < count => Address(start, size, count - 1 - i)), [], 0)
  }

  ghost predicate Initialized(head: nat, words: seq<nat>, start: nat, size: nat, count: nat) {
    && head == Pack(start, 0)
    && forall i | 0 <= i < count ::
         Address(start, size, i) < |words| &&
         words[Address(start, size, i)] == Pack(if i + 1 < count then Address(start, size, i + 1) else 0, 0)
  }

  /** `initialize` links the blocks in address order; only the block headers are written. */
  method Initialize(mem: array<nat>, start: nat, size: nat, count: nat) returns (head: nat)
    requires 0 < size && 0 < count && 0 < start && Address(start, size, count) <= mem.Length <= ADDRESSES
    modifies mem
    ensures Initialized(head, mem[..], start, size, count)
    ensures forall at | 0 <= at < mem.Length && !InArena(at, start, size, count) :: mem[at] == old(mem[at])
  {
    hide Pack, Address, InArena;
    AddressPositive(start, size, 0);
    var i := 0;
    while i < count - 1
      invariant 0 <= i <= count - 1
      invariant forall k | 0 <= k < i ::
                  Address(start, size, k) < mem.Length &&
                  mem[Address(start, size, k)] == Pack(Address(start, size, k + 1), 0)
      invariant forall at | 0 <= at < mem.Length && !InArena(at, start, size, count) :: mem[at] == old(mem[at])
    {
      AddressGrows(start, size, i, count);
      AddressIsBlock(start, size, count, i);
      forall k | 0 <= k < i ensures Address(start, size, k) < Address(start, size, i) { AddressGrows(start, size, k,
          i); }
      mem[Address(start, size, i)] := Pack(Address(start, size, i + 1), 0);
      i := i + 1;
    }
    AddressGrows(start, size, count - 1, count);
    AddressIsBlock(start, size, count, count - 1);
    forall k | 0 <= k < count - 1 ensures Address(start, size, k) < Address(start, size, count - 1) {
      AddressGrows(start, size, k, count - 1);
    }
    mem[Address(start, size, count - 1)] := Pack(0, 0);
    head := Pack(start, 0);
  }

  ghost predicate Started(head: nat, words: seq<nat>, start: nat, size: nat, count: nat) {
    && 0 < size && 0 < count && 0 < start && Address(start, size, count) <= |words| <= ADDRESSES
    && Initialized(head, words, start, size, count)
  }

  lemma StartLinks(s: State, head: nat, words: seq<nat>, start: nat, size: nat, count: nat, threads: nat, i: nat)
    requires Started(head, words, start, size, count) && i < count
    requires s == StartState(head, words, start, size, count, threads)
    ensures LinkOk(s, i)
  {
    hide Pack, Address, InArena, PointerOf, TagOf, Number;
    var k := count - 1 - i;
    AddressIsBlock(start, size, count, k);
    AddressGrows(start, size, k, count);
    if i > 0 {
      AddressGrows(start, size, k + 1, count);
      UnpackPacked(Address(start, size, k + 1), 0);
    } else {
      UnpackPacked(0, 0);
    }
    AddressPositive(start, size, k);
    assert s.chain[i] == Address(start, size, k);
    assert i > 0 ==> Top(s.chain[..i]) == Address(start, size, k + 1);
  }

  lemma AddressPositive(start: nat, size: nat, i: nat)
    ensures start <= Address(start, size, i) && Address(start, size, 0) == start
  {}

  lemma InitInv(head: nat, words: seq<nat>, start: nat, size: nat, count: nat, threads: nat)
    requires Started(head, words, start, size, count)
    ensures Inv(StartState(head, words, start, size, count, threads))
  {
    hide Pack, Address, InArena, PointerOf, TagOf, LinkOk, Number;
    var s := StartState(head, words, start, size, count, threads);
    forall i | 0 <= i < count ensures LinkOk(s, i) {
      StartLinks(s, head, words, start, size, count, threads, i);
    }
    UnpackPacked(start, 0);
    PackedIsCanonical(start, 0);
    AddressGrows(start, size, 0, count);
    AddressPositive(start, size, 0);
    forall at | 0 <= at < |words| ensures CellOk(s, at, s.mem[at]) {
      if InArena(at, start, size, count) {
        BlockHasAddress(at, start, size, count);
      }
    }
    if InArena(0, start, size, count) { BlockHasAddress(0, start, size, count); }
  }

  // ---------------------------------------------------------------- over whole runs

  lemma {:induction false} RunInv(s: State, acts: seq<Action>, s': State)
    requires Inv(s) && Leads(s, acts, s')
    ensures Inv(s')
    decreases |acts|
  {
    hide Inv, Timely;
    if acts != [] {
      NextInv(s, acts[0]);
      RunInv(Apply(s, acts[0]), acts[1..], s');
    }
  }

  /** Height i of the chain holds block b. */
  predicate At(s: State, i: nat, b: nat) { i < |s.chain| && s.chain[i] == b }

  lemma AtIsPlace(s: State, i: nat, b: nat)
    requires Inv(s) && b < |s.mem|
    ensures At(s, i, b) <==> s.mem[b].place == OnChain(i)
  {
    CellKnown(s, b);
    assert i < |s.chain| ==> LinkOk(s, i);
  }

  /** The chain is acyclic, and a block is on it or held, never both. */
  lemma ChainIsAcyclic(s: State, acts: seq<Action>, s': State, i: nat, j: nat, b: nat)
    requires Inv(s) && Leads(s, acts, s') && At(s', i, b) && b < |s'.mem|
    ensures At(s', j, b) ==> i == j
    ensures !s'.mem[b].place.Held?
  {
    RunInv(s, acts, s');
    AtIsPlace(s', i, b);
    AtIsPlace(s', j, b);
  }

  /** The block the step returns to the caller of `allocate`. */
  function Returned(s: State, a: Action): nat
    requires Enabled(s, a) && (a.TakeCas? || a.Record?)
  {
    if a.TakeCas? then PointerOf(s.threads[a.t].seen) else s.chasers[s.threads[a.t].made].target
  }

  /** On every timely run each allocation returns a block nobody held: the top of the
      chain, which loses just that block, or an address new to the pool. From then on the
      caller holds it, and no other step makes a block held. */
  lemma NoDoubleAllocation(s: State, acts: seq<Action>, s': State, a: Action)
    requires Inv(s) && Leads(s, acts, s') && Enabled(s', a) && Timely(s', a)
    ensures a.TakeCas? ==>
              && Returned(s', a) < |s'.mem| && s'.mem[Returned(s', a)].place.OnChain?
              && s'.chain == Apply(s', a).chain + [Returned(s', a)]
    ensures a.Record? ==>
              && Returned(s', a) < |s'.mem| && s'.mem[Returned(s', a)].place == Fresh(a.t)
              && s'.chain == Apply(s', a).chain
    ensures forall b | 0 <= b < |s'.mem| ::
              (Apply(s', a).mem[b].place.Held? <==>
               ((a.TakeCas? || a.Record?) && b == Returned(s', a)) ||
               (s'.mem[b].place.Held? && !(a.LoadToGive? && b == a.block)))
  {
    hide Inv, Leads, PointerOf, TagOf, Pack, Timely, HeadOk, ThreadOk, LinkOk, CellOk, RecordOk, ChaserOk;
    RunInv(s, acts, s');
    PlaceBefore(s', a);
    if a.TakeCas? { WinningTake(s', a); }
    if a.Mint? { assert s'.mem[a.at].place.Nothing?; }
  }

  /** No thread reads the link of an address that was never a block. */
  lemma ReadsOnlyBlocks(s: State, acts: seq<Action>, s': State, t: nat)
    requires Inv(s) && Leads(s, acts, s') && t < |s'.threads| && s'.threads[t].TakeTop?
    requires PointerOf(s'.threads[t].seen) != 0
    ensures Enabled(s', ReadNext(t)) && !s'.mem[PointerOf(s'.threads[t].seen)].place.Nothing?
  {
    RunInv(s, acts, s');
    ThreadKnown(s', t);
  }

  /** The guards of the model only say where a thread stands: every call can go on, given
      memory, and a swap succeeds whenever it finds the word it expects. */
  lemma NothingBlocks(s: State, acts: seq<Action>, s': State, t: nat)
    requires Inv(s) && Leads(s, acts, s') && t < |s'.threads|
    ensures var op := s'.threads[t];
            match op
            case Idle => Enabled(s', LoadToTake(t))
            case TakeTop(seen, _) =>
              if PointerOf(seen) != 0 then Enabled(s', ReadNext(t))
              else forall at | 0 < at < |s'.mem| && s'.mem[at].place.Nothing? :: Enabled(s', Mint(t, at))
            case TakeNext(seen, _, _) => Enabled(s', TakeFail(t)) && (s'.head == seen ==> Enabled(s', TakeCas(t)))
            case Minting(made) =>
              Enabled(s', RecordFail(t)) && (s'.poolTop == s'.chasers[made].next ==> Enabled(s', Record(t)))
            case GiveTop(_, _, _) => Enabled(s', StoreLink(t))
            case GiveLinked(_, seen, _) => Enabled(s', GiveFail(t)) && (s'.head == seen ==> Enabled(s', GiveCas(t)))
  {
    hide Inv, Leads, PointerOf, TagOf;
    RunInv(s, acts, s');
    ThreadKnown(s', t);
  }

  /** Height i of the list under poolTop records block b. */
  predicate Records(s: State, i: nat, b: nat) {
    i < |s.record| && s.record[i] < |s.chasers| && s.chasers[s.record[i]].target == b
  }

  lemma RecordIsUnique(s: State, i: nat, b: nat)
    requires Inv(s) && Records(s, i, b)
    ensures b < |s.mem| && s.mem[b].chaser == s.record[i] + 1
    ensures !s.mem[b].place.Fresh? && s.chasers[s.record[i]].pos == i
    ensures s.chasers[s.record[i]].next == RecordTop(s.record[..i])
  {
    assert RecordOk(s, i);
    ChaserKnown(s, s.record[i]);
    CellKnown(s, b);
  }

  /** Each block from the general allocator is, once handed out, the target of exactly one
      record of the list under poolTop, and the list holds nothing else. */
  lemma RecordedOnce(s: State, acts: seq<Action>, s': State, b: nat)
    requires Inv(s) && Leads(s, acts, s') && b < |s'.mem|
    ensures s'.mem[b].chaser > 0 && !s'.mem[b].place.Fresh? <==> exists i: nat :: Records(s', i, b)
    ensures forall i: nat, j: nat | Records(s', i, b) && Records(s', j, b) :: i == j
    ensures s'.poolTop == RecordTop(s'.record)
    ensures forall i: nat | Records(s', i, b) :: s'.chasers[s'.record[i]].next == RecordTop(s'.record[..i])
  {
    RunInv(s, acts, s');
    assert HeadOk(s');
    CellKnown(s', b);
    if s'.mem[b].chaser > 0 && !s'.mem[b].place.Fresh? {
      ChaserKnown(s', s'.mem[b].chaser - 1);
      assert Records(s', s'.chasers[s'.mem[b].chaser - 1].pos, b);
    }
    hide Inv, CellOk;
    forall i: nat | Records(s', i, b)
      ensures s'.mem[b].chaser == s'.record[i] + 1 && !s'.mem[b].place.Fresh?
      ensures s'.chasers[s'.record[i]].pos == i && s'.chasers[s'.record[i]].next == RecordTop(s'.record[..i])
    {
      RecordIsUnique(s', i, b);
    }
  }

  // ---------------------------------------------------------------- the bound is tight

  lemma {:induction false} LeadsOn(s: State, acts: seq<Action>, s1: State, more: seq<Action>, s2: State)
    requires Leads(s, acts, s1) && Leads(s1, more, s2)
    ensures Leads(s, acts + more, s2)
    decreases |acts|
  {
    hide Timely, Apply;
    if acts == [] {
      assert acts + more == more;
    } else {
      LeadsOn(Apply(s, acts[0]), acts[1..], s1, more, s2);
      assert (acts + more)[1..] == acts[1..] + more;
    }
  }

  /** Some timely run from s ends in s' with `swaps` swaps, and thread t stands where it stood. */
  ghost predicate Passes(s: State, s': State, t: nat, w: nat, swaps: nat) {
    && Inv(s') && s'.swaps == s.swaps + swaps
    && |s'.threads| == |s.threads| && |s'.mem| == |s.mem|
    && t < |s.threads| && w < |s.threads| && t != w
    && s'.threads[t] == s.threads[t] && s'.threads[w].Idle?
    && exists acts :: Leads(s, acts, s')
  }

  lemma PassesOn(s: State, s1: State, s2: State, t: nat, w: nat, m: nat, n: nat)
    requires Passes(s, s1, t, w, m) && Passes(s1, s2, t, w, n)
    ensures Passes(s, s2, t, w, m + n)
  {
    var acts :| Leads(s, acts, s1);
    var more :| Leads(s1, more, s2);
    LeadsOn(s, acts, s1, more, s2);
  }

  lemma ThreeSteps(s: State, a: Action, b: Action, c: Action)
    requires Enabled(s, a) && Enabled(Apply(s, a), b) && Enabled(Apply(Apply(s, a), b), c)
    requires Timely(s, a) && Timely(Apply(s, a), b) && Timely(Apply(Apply(s, a), b), c)
    ensures Leads(s, [a, b, c], Apply(Apply(Apply(s, a), b), c))
  {
    hide Apply, Enabled, Timely;
    var s1 := Apply(s, a);
    var s2 := Apply(s1, b);
    var s3 := Apply(s2, c);
    assert Leads(s3, [], s3);
    StepFirst(s2, c, [], s3);
    StepFirst(s1, b, [c], s3);
    StepFirst(s, a, [b, c], s3);
    assert [a] + ([b] + ([c] + [])) == [a, b, c];
  }

  lemma StepFirst(s: State, a: Action, acts: seq<Action>, s': State)
    requires Enabled(s, a) && Timely(s, a) && Leads(Apply(s, a), acts, s')
    ensures Leads(s, [a] + acts, s')
  {
    hide Apply, Enabled, Timely;
    assert ([a] + acts)[1..] == acts;
  }

  /** Thread w takes the top block with nobody in between. */
  lemma SoloTake(s: State, t: nat, w: nat) returns (s': State)
    requires Inv(s) && s.chain != [] && t < |s.threads| && w < |s.threads| && t != w && s.threads[w].Idle?
    ensures Passes(s, s', t, w, 1)
    ensures s'.chain == s.chain[..|s.chain| - 1]
    ensures Top(s.chain) < |s.mem| && s'.mem[Top(s.chain)].place.Held?
    ensures forall b | 0 <= b < |s.mem| && b != Top(s.chain) :: s'.mem[b].place == s.mem[b].place
  {
    hide Inv, PointerOf, TagOf, Pack;
    TopPlace(s);
    var a, b, c := LoadToTake(w), ReadNext(w), TakeCas(w);
    var s1 := Apply(s, a);
    var s2 := Apply(s1, b);
    s' := Apply(s2, c);
    NextInv(s, a);
    NextInv(s1, b);
    NextInv(s2, c);
    ThreeSteps(s, a, b, c);
  }

  /** Thread w gives block b back with nobody in between. */
  lemma SoloGive(s: State, t: nat, w: nat, b: nat) returns (s': State)
    requires Inv(s) && t < |s.threads| && w < |s.threads| && t != w && s.threads[w].Idle?
    requires b < |s.mem| && s.mem[b].place.Held?
    ensures Passes(s, s', t, w, 1)
    ensures s'.chain == s.chain + [b]
    ensures s'.mem[b].place.OnChain?
    ensures forall c | 0 <= c < |s.mem| && c != b :: s'.mem[c].place == s.mem[c].place
  {
    hide Inv, PointerOf, TagOf, Pack;
    var a, a', a'' := LoadToGive(w, b), StoreLink(w), GiveCas(w);
    var s1 := Apply(s, a);
    var s2 := Apply(s1, a');
    s' := Apply(s2, a'');
    NextInv(s, a);
    NextInv(s1, a');
    NextInv(s2, a'');
    ThreeSteps(s, a, a', a'');
  }

  /** Taking and giving back the top block k times moves the tag by 2k and nothing else. */
  lemma {:induction false} Spin(s: State, t: nat, w: nat, k: nat) returns (s': State)
    requires Inv(s) && s.chain != [] && t < |s.threads| && w < |s.threads| && t != w && s.threads[w].Idle?
    ensures Passes(s, s', t, w, 2 * k) && s'.chain == s.chain
    ensures forall b | 0 <= b < |s.mem| :: s'.mem[b].place.Held? <==> s.mem[b].place.Held?
    decreases k
  {
    hide Inv, Leads, Enabled, Timely;
    TopPlace(s);
    if k == 0 {
      s' := s;
      StaysPut(s, t, w);
    } else {
      var top := Top(s.chain);
      var s1 := SoloTake(s, t, w);
      var s2 := SoloGive(s1, t, w, top);
      assert s2.chain == s.chain;
      PassesOn(s, s1, s2, t, w, 1, 1);
      s' := Spin(s2, t, w, k - 1);
      PassesOn(s, s2, s', t, w, 2, 2 * k - 2);
    }
  }

  lemma StaysPut(s: State, t: nat, w: nat)
    requires Inv(s) && t < |s.threads| && w < |s.threads| && t != w && s.threads[w].Idle?
    ensures Passes(s, s, t, w, 0)
  {
    assert Leads(s, [], s);
  }

  /** After exactly 2^19 swaps the tag is the same again. Thread t has loaded the head and
      its successor; thread w takes the three top blocks, gives the first one back, and
      spins. The swap of t then succeeds and makes a block that w holds the new head. */
  lemma FullRingIsStale(s: State, t: nat, w: nat) returns (s': State)
    requires Inv(s) && |s.chain| >= 3 && t < |s.threads| && w < |s.threads| && t != w && s.threads[w].Idle?
    requires s.threads[t] == TakeNext(s.head, s.swaps, s.chain[|s.chain| - 2])
    ensures Passes(s, s', t, w, TAGS)
    ensures Enabled(s', TakeCas(t)) && !Timely(s', TakeCas(t))
    ensures s.chain[|s.chain| - 2] < |s'.mem| && s'.mem[s.chain[|s.chain| - 2]].place.Held?
    ensures PointerOf(Apply(s', TakeCas(t)).head) == s.chain[|s.chain| - 2]
  {
    hide Inv, Leads, Pack, PointerOf, TagOf, Canonical;
    var n := |s.chain|;
    var x, y, z := s.chain[n - 1], s.chain[n - 2], s.chain[n - 3];
    TopPlace(s);
    var s1 := SoloTake(s, t, w);
    TopPlace(s1);
    assert Top(s1.chain) == y;
    var s2 := SoloTake(s1, t, w);
    TopPlace(s2);
    var s3 := SoloTake(s2, t, w);
    PassesOn(s, s1, s2, t, w, 1, 1);
    PassesOn(s, s2, s3, t, w, 2, 1);
    var s4 := SoloGive(s3, t, w, x);
    PassesOn(s, s3, s4, t, w, 3, 1);
    assert Top(s4.chain) == x;
    s' := Spin(s4, t, w, (TAGS - 4) / 2);
    PassesOn(s, s4, s', t, w, 4, TAGS - 4);
    SameHead(s, s');
    NextTag(y, s.head, s.swaps);
  }

  lemma SameHead(s: State, s': State)
    requires Inv(s) && Inv(s') && Top(s.chain) == Top(s'.chain) && s'.swaps == s.swaps + TAGS
    ensures s'.head == s.head && TagOf(s.head) == s.swaps % TAGS && |s.mem| <= ADDRESSES
  {
    TopPlace(s);
    TopPlace(s');
    SameParts(s.head, s'.head);
  }

  /** It happens from the start, in every pool of three blocks and two threads: one thread
      loads the head and its successor, and the other makes 2^19 swaps. */
  lemma StaleFromStart(head: nat, words: seq<nat>, start: nat, size: nat, count: nat, threads: nat)
      returns (acts: seq<Action>, s': State)
    requires Started(head, words, start, size, count) && count >= 3 && threads >= 2
    ensures var s := StartState(head, words, start, size, count, threads);
            Leads(s, acts, s') && s'.swaps == TAGS && Enabled(s', TakeCas(0))
    ensures var b := PointerOf(Apply(s', TakeCas(0)).head); b < |s'.mem| && s'.mem[b].place.Held?
  {
    var s := StartState(head, words, start, size, count, threads);
    InitInv(head, words, start, size, count, threads);
    var s1, s2 := LoadAndRead(s);
    s' := FullRingIsStale(s2, 0, 1);
    hide Inv, StartState, Started, Enabled, Apply, Timely;
    var more :| Leads(s2, more, s');
    acts := [LoadToTake(0), ReadNext(0)] + more;
    LeadsOn(s, [LoadToTake(0), ReadNext(0)], s2, more, s');
  }

  /** Thread 0 loads the head and the link of the top block. */
  lemma LoadAndRead(s: State) returns (s1: State, s2: State)
    requires Inv(s) && |s.chain| >= 2 && |s.threads| >= 2 && s.threads[0].Idle?
    ensures Leads(s, [LoadToTake(0), ReadNext(0)], s2) && Inv(s2)
    ensures s2 == s.(threads := s.threads[0 := TakeNext(s.head, s.swaps, s.chain[|s.chain| - 2])])
  {
    hide Inv, PointerOf, TagOf, Pack, Leads;
    TopPlace(s);
    TopLink(s);
    s1 := Apply(s, LoadToTake(0));
    s2 := Apply(s1, ReadNext(0));
    assert s2.threads == s.threads[0 := TakeNext(s.head, s.swaps, s.chain[|s.chain| - 2])];
    NextInv(s, LoadToTake(0));
    NextInv(s1, ReadNext(0));
    NoSteps(s2);
    StepFirst(s1, ReadNext(0), [], s2);
    assert [ReadNext(0)] + [] == [ReadNext(0)];
    StepFirst(s, LoadToTake(0), [ReadNext(0)], s2);
    assert [LoadToTake(0)] + [ReadNext(0)] == [LoadToTake(0), ReadNext(0)];
  }

  lemma NoSteps(s: State)
    ensures Leads(s, [], s)
  {}

  lemma TopLink(s: State)
    requires Inv(s) && |s.chain| >= 2
    ensures Top(s.chain) < |s.mem| && PointerOf(s.mem[Top(s.chain)].combined) == s.chain[|s.chain| - 2]
  {
    assert LinkOk(s, |s.chain| - 1);
  }
}
