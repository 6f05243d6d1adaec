/** The blocks of one explicit producer under many consumers. A consumer that has claimed an
    index looks its block up, moves the element out and sets the element's empty flag; the
    producer scans the flags of the block ahead and uses it again, or puts a new one into the
    circle, as long as the block index has room. Every access of a shared field is one step. */
module BlockReuse {
  import opened Options
  import opened MachineWords
  import BlockRing

  const BLOCK_SIZE := BlockRing.BLOCK_SIZE

  datatype Block<T> = Block(slots: seq<Option<T>>, emptyFlags: seq<bool>)

  datatype Entry = Entry(base: nat, block: nat)

  /** Where the producer stands in `enqueue` of x. */
  datatype Producer<T> =
    | Resting
    | Scanning(x: T, k: nat)      // flag k of the block ahead is about to be read
    | Inserting(x: T)             // it is not empty: a new block is needed
    | Clearing(x: T, k: nat)      // `reset_empty`: flag k is about to be cleared
    | WritingBase(x: T)
    | WritingBlock(x: T)
    | StoringFront(x: T)
    | Building(x: T)
    | Publishing                  // the tail index is about to be stored
  {
    /** The newest block is not in the index yet. */
    predicate Starts() { Clearing? || WritingBase? || WritingBlock? || StoringFront? }
  }

  /** Where a consumer stands in `dequeue`, once it has claimed index i. `at` is auxiliary: which
      block start wrote the entry that was the front one. */
  datatype Consumer =
    | Idle
    | Claimed(i: nat)
    | HasFront(i: nat, front: nat, at: nat)
    | HasBase(i: nat, front: nat, at: nat, base: nat)
    | HasBlock(i: nat, block: nat)
    | Moved(i: nat, block: nat)
  {
    predicate Reads() { Claimed? || HasFront? || HasBase? || HasBlock? }
    predicate Holds() { Reads() || Moved? }
  }

  /** Auxiliary, read by no operation: `log`, the elements built so far; `done`, which claimed
      indices have had their flag set; and `starts`, the block of each start, of which the last
      `used` form the circle, oldest first, so that the oldest is the block ahead. */
  datatype State<T> = State(
    head: nat, tail: nat, blocks: seq<Block<T>>, entries: seq<Entry>, front: nat, prFront: nat, used: nat,
    producer: Producer<T>, consumers: seq<Consumer>, starts: seq<nat>, log: seq<T>, done: seq<bool>)
  {
    function First(): int { |starts| - used }
    /** How many starts are in the index; how many have their base written, and their block. */
    function Published(): int { |starts| - if producer.Starts() then 1 else 0 }
    function Based(): int { Published() + if producer.WritingBlock? || producer.StoringFront? then 1 else 0 }
    function Written(): int { Published() + if producer.StoringFront? then 1 else 0 }
    function Cleared(): nat { if producer.Clearing? then producer.k else BLOCK_SIZE }
  }

  datatype Action<T> =
    | Call(x: T)
    | Insert(block: Block<T>)     // a new block, with whatever is in it
    | GiveUp                      // no leeway, or no memory
    | Produce
    | Claim(t: nat)
    | Consume(t: nat)

  function FlagOf(i: nat): nat { BLOCK_SIZE - 1 - i % BLOCK_SIZE }

  // ---------------------------------------------------------------- steps

  predicate HasAhead<T>(s: State<T>) { 0 < s.used <= |s.starts| && s.starts[|s.starts| - s.used] < |s.blocks| }

  function Ahead<T>(s: State<T>): nat
    requires HasAhead(s)
  { s.starts[|s.starts| - s.used] }

  predicate HasNewest<T>(s: State<T>) { s.starts != [] && s.starts[|s.starts| - 1] < |s.blocks| }

  function Newest<T>(s: State<T>): nat
    requires HasNewest(s)
  { s.starts[|s.starts| - 1] }

  predicate CanProduce<T>(s: State<T>) {
    match s.producer
    case Scanning(_, k) => HasAhead(s) && (k < BLOCK_SIZE ==> k < |s.blocks[Ahead(s)].emptyFlags|)
    case Clearing(_, k) => HasNewest(s) && (k < BLOCK_SIZE ==> k < |s.blocks[Newest(s)].emptyFlags|)
    case WritingBase(_) => s.prFront < |s.entries|
    case WritingBlock(_) => s.prFront < |s.entries| && s.starts != []
    case StoringFront(_) => s.entries != []
    case Building(_) => HasNewest(s) && s.tail % BLOCK_SIZE < |s.blocks[Newest(s)].slots|
    case Publishing => true
    case _ => false
  }

  function Produced<T>(s: State<T>): State<T>
    requires CanProduce(s)
  {
    match s.producer
    case Scanning(x, k) =>
      if k >= BLOCK_SIZE then s.(starts := s.starts + [Ahead(s)], producer := Clearing(x, 0))
      else s.(producer := if s.blocks[Ahead(s)].emptyFlags[k] then Scanning(x, k + 1) else Inserting(x))
    case Clearing(x, k) =>
      if k >= BLOCK_SIZE then s.(producer := WritingBase(x))
      else
        var b := s.blocks[Newest(s)];
        s.(blocks := s.blocks[Newest(s) := b.(emptyFlags := b.emptyFlags[k := false])], producer := Clearing(x, k + 1))
    case WritingBase(x) =>
      s.(entries := s.entries[s.prFront := s.entries[s.prFront].(base := Word(s.tail))], producer := WritingBlock(x))
    case WritingBlock(x) =>
      s.(entries := s.entries[s.prFront := s.entries[s.prFront].(block := s.starts[|s.starts| - 1])],
          producer := StoringFront(x))
    case StoringFront(x) =>
      s.(front := s.prFront, prFront := (s.prFront + 1) % |s.entries|, producer := Building(x))
    case Building(x) =>
      var b := s.blocks[Newest(s)];
      s.(blocks := s.blocks[Newest(s) := b.(slots := b.slots[s.tail % BLOCK_SIZE := Some(x)])], log := s.log + [x],
         producer := Publishing)
    case Publishing => s.(tail := s.tail + 1, producer := Resting)
  }

  /** The entry the lookup of index i goes to, from the front and its base. */
  function EntryOf<T>(s: State<T>, i: nat, front: nat, base: nat): nat
    requires s.entries != []
  { (front + BlockRing.BlockOffset(i, base)) % |s.entries| }

  predicate CanConsume<T>(s: State<T>, c: Consumer) {
    match c
    case Idle => false
    case Claimed(_) => true
    case HasFront(_, front, _) => front < |s.entries|
    case HasBase(_, _, _, _) => s.entries != []
    case HasBlock(i, block) => block < |s.blocks| && i % BLOCK_SIZE < |s.blocks[block].slots|
    case Moved(i, block) => block < |s.blocks| && FlagOf(i) < |s.blocks[block].emptyFlags| && i < |s.done|
  }

  function ConsumerAfter<T>(s: State<T>, c: Consumer): Consumer
    requires CanConsume(s, c)
  {
    match c
    case Claimed(i) => HasFront(i, s.front, if s.Published() > 0 then s.Published() - 1 else 0)
    case HasFront(i, front, at) => HasBase(i, front, at, s.entries[front].base)
    case HasBase(i, front, _, base) => HasBlock(i, s.entries[EntryOf(s, i, front, base)].block)
    case HasBlock(i, block) => Moved(i, block)
    case Moved(_, _) => Idle
  }

  function BlocksAfter<T>(s: State<T>, c: Consumer): seq<Block<T>>
    requires CanConsume(s, c)
  {
    match c
    case HasBlock(i, block) =>
      var b := s.blocks[block];
      s.blocks[block := b.(slots := b.slots[i % BLOCK_SIZE := None])]
    case Moved(i, block) =>
      var b := s.blocks[block];
      s.blocks[block := b.(emptyFlags := b.emptyFlags[FlagOf(i) := true])]
    case _ => s.blocks
  }

  function Consumed<T>(s: State<T>, t: nat): State<T>
    requires t < |s.consumers| && CanConsume(s, s.consumers[t])
  {
    var c := s.consumers[t];
    s.(consumers := s.consumers[t := ConsumerAfter(s, c)], blocks := BlocksAfter(s, c),
       done := if c.Moved? then s.done[c.i := true] else s.done)
  }

  predicate Enabled<T>(s: State<T>, a: Action<T>) {
    match a
    case Call(_) => s.producer.Resting?
    case Insert(b) => s.producer.Inserting? && s.used < |s.entries| && |b.slots| == |b.emptyFlags| == BLOCK_SIZE
    case GiveUp => s.producer.Inserting?
    case Produce => CanProduce(s)
    case Claim(t) => t < |s.consumers| && s.consumers[t].Idle? && s.head < s.tail
    case Consume(t) => t < |s.consumers| && CanConsume(s, s.consumers[t])
  }

  function Apply<T>(s: State<T>, a: Action<T>): State<T>
    requires Enabled(s, a)
  {
    match a
    case Call(x) =>
      s.(producer := if s.tail % BLOCK_SIZE != 0 then Building(x) else if s.starts == [] then Inserting(x)
          else Scanning(x, 0))
    case Insert(b) =>
      s.(blocks := s.blocks + [b], starts := s.starts + [|s.blocks|], used := s.used + 1,
          producer := Clearing(s.producer.x, 0))
    case GiveUp => s.(producer := Resting)
    case Produce => Produced(s)
    case Claim(t) => s.(head := s.head + 1, consumers := s.consumers[t := Claimed(s.head)], done := s.done + [false])
    case Consume(t) => Consumed(s, t)
  }

  ghost predicate Init<T>(s: State<T>) {
    && s.head == s.tail == 0 && s.blocks == [] && 0 < |s.entries| < BlockRing.MAX_BLOCKS && s.front < |s.entries| &&
        s.prFront == 0
    && s.used == 0 && s.producer.Resting? && s.starts == [] && s.log == [] && s.done == []
    && forall t | 0 <= t < |s.consumers| :: s.consumers[t].Idle?
  }

  ghost predicate Leads<T>(s: State<T>, acts: seq<Action<T>>, s': State<T>)
    decreases |acts|
  {
    if acts == [] then s == s'
    else Enabled(s, acts[0]) && Leads(Apply(s, acts[0]), acts[1..], s')
  }

  // ---------------------------------------------------------------- invariant

  /** How far the producer has come, against the blocks started. */
  predicate ProducerOk<T>(p: Producer<T>, starts: nat, tail: nat, log: nat) {
    && log == tail + (if p.Publishing? then 1 else 0)
    && (p.Scanning? || p.Inserting? ==> tail == BLOCK_SIZE * starts)
    && (p.Scanning? ==> starts > 0 && p.k <= BLOCK_SIZE)
    && (p.Starts() ==> starts > 0 && tail == BLOCK_SIZE * (starts - 1))
    && (p.Clearing? ==> p.k <= BLOCK_SIZE)
    && (p.Building? || p.Publishing? ==> BLOCK_SIZE * (starts - 1) <= tail < BLOCK_SIZE * starts)
    && (p.Resting? ==> tail <= BLOCK_SIZE * starts && (starts > 0 ==> BLOCK_SIZE * (starts - 1) < tail))
  }

  predicate Shape<T>(s: State<T>) {
    && 0 < |s.entries| < BlockRing.MAX_BLOCKS && s.used <= |s.starts| && s.used <= |s.entries|
    && (s.starts != [] ==> s.used > 0)
    && s.head <= s.tail && |s.done| == s.head && BLOCK_SIZE * s.First() <= s.head
    && ProducerOk(s.producer, |s.starts|, s.tail, |s.log|)
  }

  predicate FrontOk<T>(s: State<T>)
    requires s.entries != []
  {
    && s.prFront == s.Published() % |s.entries|
    && (s.Published() > 0 ==> s.front == (s.Published() - 1) % |s.entries|)
  }

  ghost predicate BlocksOk<T>(blocks: seq<Block<T>>, starts: seq<nat>) {
    && (forall b | 0 <= b < |blocks| :: |blocks[b].slots| == |blocks[b].emptyFlags| == BLOCK_SIZE)
    && (forall k | 0 <= k < |starts| :: starts[k] < |blocks|)
  }

  /** The last starts, from `first` on, are of different blocks. */
  ghost predicate Circle(starts: seq<nat>, first: int) {
    forall j, k | first <= j < k < |starts| && 0 <= j :: starts[j] != starts[k]
  }

  /** The index entry of start k: its base is written for the starts below `based`, its block for
      those below `written`. */
  predicate EntryOk(starts: seq<nat>, entries: seq<Entry>, based: int, written: int, k: nat)
    requires k < |starts| && entries != []
  {
    var e := entries[k % |entries|];
    (k < based ==> e.base == Word(BLOCK_SIZE * k)) && (k < written ==> e.block == starts[k])
  }

  ghost predicate Entries(starts: seq<nat>, entries: seq<Entry>, first: int, based: int, written: int) {
    entries != [] && forall k | 0 <= k < |starts| && first <= k :: EntryOk(starts, entries, based, written, k)
  }

  predicate Done(done: seq<bool>, i: nat) { i < |done| && done[i] }

  /** Flag f of start k tells whether its index is done; of the newest start, as far as the flags
      have been cleared. */
  predicate FlagOk<T>(starts: seq<nat>, blocks: seq<Block<T>>, done: seq<bool>, cleared: nat, k: nat, f: nat)
    requires k < |starts| && f < BLOCK_SIZE
  {
    starts[k] < |blocks| && |blocks[starts[k]].emptyFlags| == BLOCK_SIZE &&
    (k < |starts| - 1 || f < cleared ==>
       (blocks[starts[k]].emptyFlags[f] <==> Done(done, BLOCK_SIZE * k + BLOCK_SIZE - 1 - f)))
  }

  ghost predicate Flags<T>(starts: seq<nat>, blocks: seq<Block<T>>, done: seq<bool>, first: int, cleared: nat) {
    forall k, f | 0 <= k < |starts| && first <= k && 0 <= f < BLOCK_SIZE :: FlagOk(starts, blocks, done, cleared, k, f)
  }

  /** The element of index i is in its place. */
  ghost predicate InPlace<T>(starts: seq<nat>, blocks: seq<Block<T>>, log: seq<T>, i: nat) {
    var k := i / BLOCK_SIZE;
    && k < |starts| && starts[k] < |blocks| && |blocks[starts[k]].slots| == BLOCK_SIZE
    && i < |log| && blocks[starts[k]].slots[i % BLOCK_SIZE] == Some(log[i])
  }

  ghost predicate Places<T>(starts: seq<nat>, blocks: seq<Block<T>>, log: seq<T>, head: nat) {
    forall i | head <= i < |log| :: InPlace(starts, blocks, log, i)
  }

  predicate HoldOk(c: Consumer, first: int, done: seq<bool>) {
    c.Holds() ==> c.i < |done| && !done[c.i] && BLOCK_SIZE * first <= c.i
  }

  predicate LookOk(c: Consumer, starts: seq<nat>, size: nat, published: int)
    requires size > 0
  {
    && (c.HasFront? || c.HasBase? ==> c.i / BLOCK_SIZE <= c.at < published && c.front == c.at % size)
    && (c.HasBase? ==> c.base == Word(BLOCK_SIZE * c.at))
    && (c.HasBlock? || c.Moved? ==> c.i / BLOCK_SIZE < |starts| && c.block == starts[c.i / BLOCK_SIZE])
  }

  ghost predicate ReadOk<T>(c: Consumer, starts: seq<nat>, blocks: seq<Block<T>>, log: seq<T>) {
    c.Reads() ==> InPlace(starts, blocks, log, c.i)
  }

  ghost predicate Holding(consumers: seq<Consumer>, first: int, done: seq<bool>) {
    forall t | 0 <= t < |consumers| :: HoldOk(consumers[t], first, done)
  }

  ghost predicate Looking(consumers: seq<Consumer>, starts: seq<nat>, size: nat, published: int) {
    size > 0 && forall t | 0 <= t < |consumers| :: LookOk(consumers[t], starts, size, published)
  }

  ghost predicate Reading<T>(consumers: seq<Consumer>, starts: seq<nat>, blocks: seq<Block<T>>, log: seq<T>) {
    forall t | 0 <= t < |consumers| :: ReadOk(consumers[t], starts, blocks, log)
  }

  /** No two consumers hold one index. */
  ghost predicate Differ(consumers: seq<Consumer>) {
    forall t, u | 0 <= t < u < |consumers| && consumers[t].Holds() && consumers[u].Holds() ::
      consumers[t].i != consumers[u].i
  }

  /** What has been read of the flags of the block ahead is still true. */
  ghost predicate Scanned<T>(p: Producer<T>, flags: seq<bool>) {
    p.Scanning? ==> forall f | 0 <= f < p.k && f < |flags| :: flags[f]
  }

  ghost function AheadFlags<T>(s: State<T>): seq<bool> { if HasAhead(s) then s.blocks[Ahead(s)].emptyFlags else [] }

  ghost predicate Inv<T>(s: State<T>) {
    && Shape(s) && FrontOk(s) && BlocksOk(s.blocks, s.starts) && Circle(s.starts, s.First())
    && Entries(s.starts, s.entries, s.First(), s.Based(), s.Written())
    && Flags(s.starts, s.blocks, s.done, s.First(), s.Cleared())
    && Places(s.starts, s.blocks, s.log, s.head)
    && Holding(s.consumers, s.First(), s.done)
    && Looking(s.consumers, s.starts, |s.entries|, s.Published())
    && Reading(s.consumers, s.starts, s.blocks, s.log)
    && Differ(s.consumers) && Scanned(s.producer, AheadFlags(s))
  }

  lemma InitInv<T>(s: State<T>)
    requires Init(s)
    ensures Inv(s)
  {}

  // ---------------------------------------------------------------- the lookup

  /** Counted from the entry of start `at`, the offset computed on words leads to that of index i. */
  lemma LookupIs(size: nat, i: nat, at: nat)
    requires 0 < size < BlockRing.MAX_BLOCKS && i / BLOCK_SIZE <= at < i / BLOCK_SIZE + size
    ensures (at % size + BlockRing.BlockOffset(i, Word(BLOCK_SIZE * at))) % size == i / BLOCK_SIZE % size
  {
    var k := i / BLOCK_SIZE;
    BlockRing.WordRemainder(i);
    assert i - i % BLOCK_SIZE == BLOCK_SIZE * k;
    WordOfDifference(BLOCK_SIZE * k, BLOCK_SIZE * at);
    assert BLOCK_SIZE * k - BLOCK_SIZE * at == BLOCK_SIZE * (k - at);
    SignedWord(BLOCK_SIZE * (k - at));
    assert BlockRing.BlockOffset(i, Word(BLOCK_SIZE * at)) == k - at;
    ModOffset(at, k - at, size);
  }

  // ---------------------------------------------------------------- the producer's steps

  lemma CallInv<T>(s: State<T>, a: Action<T>)
    requires Inv(s) && Enabled(s, a) && (a.Call? || a.GiveUp?)
    ensures Inv(Apply(s, a))
  {
    hide BlocksOk, Circle, Entries, Flags, Places, Holding, Looking, Reading, Differ, AheadFlags;
    CallShape(s, a);
    CallFront(s, a);
    hide Shape, FrontOk;
  }

  lemma CallShape<T>(s: State<T>, a: Action<T>)
    requires Shape(s) && Enabled(s, a) && (a.Call? || a.GiveUp?)
    ensures Shape(Apply(s, a))
  {
    WholeBlocks(s.tail, |s.starts|);
  }

  lemma CallFront<T>(s: State<T>, a: Action<T>)
    requires s.entries != [] && FrontOk(s) && Enabled(s, a) && (a.Call? || a.GiveUp?)
    ensures Apply(s, a).entries == s.entries && FrontOk(Apply(s, a))
  {
    assert Apply(s, a).Published() == s.Published();
  }

  /** At the end of a block the tail is that of all the blocks started. */
  lemma WholeBlocks(tail: nat, starts: nat)
    requires tail <= BLOCK_SIZE * starts && (starts > 0 ==> BLOCK_SIZE * (starts - 1) < tail)
    ensures tail % BLOCK_SIZE == 0 <==> tail == BLOCK_SIZE * starts
  {}

  lemma PublishInv<T>(s: State<T>)
    requires Inv(s) && CanProduce(s) && s.producer.Publishing?
    ensures Inv(Produced(s))
  {
    hide BlocksOk, Circle, Entries, Flags, Places, Holding, Looking, Reading, Differ;
  }

  lemma InPlaceStays<T>(starts: seq<nat>, blocks: seq<Block<T>>, log: seq<T>, more: seq<nat>, blocks': seq<Block<T>>,
      i: nat)
    requires InPlace(starts, blocks, log, i) && starts <= more && blocks <= blocks'
    ensures InPlace(more, blocks', log, i)
  {}

  /** Another start, whatever its block, takes nothing away. */
  lemma StartKeeps<T>(s: State<T>, starts: seq<nat>, blocks: seq<Block<T>>)
    requires Inv(s) && s.starts <= starts && s.blocks <= blocks
    ensures Places(starts, blocks, s.log, s.head) && Reading(s.consumers, starts, blocks, s.log)
    ensures Looking(s.consumers, starts, |s.entries|, s.Published())
  {
    hide BlocksOk, Circle, Entries, Flags, Holding, Differ, InPlace, Shape;
    forall i | s.head <= i < |s.log| ensures InPlace(starts, blocks, s.log, i) {
      InPlaceStays(s.starts, s.blocks, s.log, starts, blocks, i);
    }
    forall t | 0 <= t < |s.consumers| &&
        s.consumers[t].Reads() ensures InPlace(starts, blocks, s.log, s.consumers[t].i) {
      assert ReadOk(s.consumers[t], s.starts, s.blocks, s.log);
      InPlaceStays(s.starts, s.blocks, s.log, starts, blocks, s.consumers[t].i);
    }
    forall t | 0 <= t < |s.consumers| ensures LookOk(s.consumers[t], starts, |s.entries|, s.Published()) {
      assert LookOk(s.consumers[t], s.starts, |s.entries|, s.Published());
    }
  }

  lemma EntriesStart(starts: seq<nat>, entries: seq<Entry>, first: int, published: int, b: nat, first': int)
    requires Entries(starts, entries, first, published, published) && published == |starts| && first <= first'
    ensures Entries(starts + [b], entries, first', published, published)
  {
    forall k | 0 <= k < |starts| + 1 && first' <= k ensures EntryOk(starts + [b], entries, published, published, k) {
      if k < |starts| { assert EntryOk(starts, entries, published, published, k); }
    }
  }

  lemma FlagsStart<T>(starts: seq<nat>, blocks: seq<Block<T>>, done: seq<bool>, first: int, b: nat,
      blocks': seq<Block<T>>, first': int)
    requires Flags(starts, blocks, done, first, BLOCK_SIZE) && first <= first' && blocks <= blocks'
    requires b < |blocks'| && |blocks'[b].emptyFlags| == BLOCK_SIZE
    ensures Flags(starts + [b], blocks', done, first', 0)
  {
    forall k, f | 0 <= k < |starts| + 1 && first' <= k && 0 <= f < BLOCK_SIZE
      ensures FlagOk(starts + [b], blocks', done, 0, k, f)
    {
      if k < |starts| { assert FlagOk(starts, blocks, done, BLOCK_SIZE, k, f); }
    }
  }

  lemma InsertInv<T>(s: State<T>, a: Action<T>)
    requires Inv(s) && Enabled(s, a) && a.Insert?
    ensures Inv(Apply(s, a))
  {
    hide Entries, Flags, Places, Holding, Looking, Reading, Differ;
    var s' := Apply(s, a);
    StartKeeps(s, s'.starts, s'.blocks);
    EntriesStart(s.starts, s.entries, s.First(), s.Published(), |s.blocks|, s.First());
    FlagsStart(s.starts, s.blocks, s.done, s.First(), |s.blocks|, s'.blocks, s.First());
  }

  /** Every index of the block ahead is done. */
  lemma AheadIsDone<T>(s: State<T>, i: nat)
    requires Inv(s) && HasAhead(s) && s.producer.Scanning? && s.producer.k == BLOCK_SIZE
    requires BLOCK_SIZE * s.First() <= i < BLOCK_SIZE * s.First() + BLOCK_SIZE
    ensures i < s.head && s.done[i]
  {
    hide Circle, Entries, Places, Holding, Looking, Reading, Differ;
    var f := BLOCK_SIZE * s.First() + BLOCK_SIZE - 1 - i;
    assert FlagOk(s.starts, s.blocks, s.done, s.Cleared(), s.First(), f);
  }

  lemma ReusedIsApart(starts: seq<nat>, first: nat)
    requires Circle(starts, first) && first < |starts|
    ensures Circle(starts + [starts[first]], first + 1)
  {}

  lemma HoldsBeyond<T>(s: State<T>)
    requires Inv(s) && HasAhead(s) && s.producer.Scanning? && s.producer.k == BLOCK_SIZE
    ensures BLOCK_SIZE * (s.First() + 1) <= s.head && Holding(s.consumers, s.First() + 1, s.done)
  {
    hide Inv, Shape;
    AheadIsDone(s, BLOCK_SIZE * s.First() + BLOCK_SIZE - 1);
    forall t | 0 <= t < |s.consumers| ensures HoldOk(s.consumers[t], s.First() + 1, s.done) {
      var c := s.consumers[t];
      HoldKnown(s, t);
      if c.Holds() && c.i < BLOCK_SIZE * s.First() + BLOCK_SIZE { AheadIsDone(s, c.i); }
    }
  }

  lemma HoldKnown<T>(s: State<T>, t: nat)
    requires Inv(s) && t < |s.consumers|
    ensures HoldOk(s.consumers[t], s.First(), s.done) && 0 <= s.First() && |s.done| == s.head
    ensures LookOk(s.consumers[t], s.starts, |s.entries|, s.Published())
    ensures ReadOk(s.consumers[t], s.starts, s.blocks, s.log)
  {}

  lemma ScanEnds<T>(s: State<T>)
    requires Inv(s) && CanProduce(s) && s.producer.Scanning? && s.producer.k == BLOCK_SIZE
    ensures Inv(Produced(s))
  {
    hide Circle, Entries, Flags, Places, Holding, Looking, Reading, Differ;
    var s' := Produced(s);
    HoldsBeyond(s);
    StartKeeps(s, s'.starts, s'.blocks);
    EntriesStart(s.starts, s.entries, s.First(), s.Published(), Ahead(s), s.First() + 1);
    FlagsStart(s.starts, s.blocks, s.done, s.First(), Ahead(s), s.blocks, s.First() + 1);
    ReusedIsApart(s.starts, s.First());
  }

  lemma ScanInv<T>(s: State<T>)
    requires Inv(s) && CanProduce(s) && s.producer.Scanning?
    ensures Inv(Produced(s))
  {
    hide BlocksOk, Circle, Entries, Flags, Places, Holding, Looking, Reading, Differ;
    if s.producer.k == BLOCK_SIZE { ScanEnds(s); }
  }

  /** A change of the flags of one block. */
  lemma FlagsKeep<T>(s: State<T>, b: nat, flags: seq<bool>)
    requires Inv(s) && b < |s.blocks| && |flags| == BLOCK_SIZE
    ensures var blocks := s.blocks[b := s.blocks[b].(emptyFlags := flags)];
            && BlocksOk(blocks, s.starts) && Places(s.starts, blocks, s.log, s.head)
            && Reading(s.consumers, s.starts, blocks, s.log)
  {
    hide Circle, Entries, Flags, Holding, Looking, Differ, Shape, InPlace;
    var blocks := s.blocks[b := s.blocks[b].(emptyFlags := flags)];
    forall i | s.head <= i < |s.log| ensures InPlace(s.starts, blocks, s.log, i) {
      FlagsKeepPlace(s.starts, s.blocks, s.log, b, flags, i);
    }
    forall t | 0 <= t < |s.consumers| ensures ReadOk(s.consumers[t], s.starts, blocks, s.log) {
      assert ReadOk(s.consumers[t], s.starts, s.blocks, s.log);
      if s.consumers[t].Reads() { FlagsKeepPlace(s.starts, s.blocks, s.log, b, flags, s.consumers[t].i); }
    }
  }

  lemma FlagsKeepPlace<T>(starts: seq<nat>, blocks: seq<Block<T>>, log: seq<T>, b: nat, flags: seq<bool>, i: nat)
    requires InPlace(starts, blocks, log, i) && b < |blocks|
    ensures InPlace(starts, blocks[b := blocks[b].(emptyFlags := flags)], log, i)
  {}

  lemma ClearedOne<T>(starts: seq<nat>, blocks: seq<Block<T>>, done: seq<bool>, first: int, k: nat)
    requires Flags(starts, blocks, done, first, k) && Circle(starts, first) && k < BLOCK_SIZE && starts != []
    requires BlocksOk(blocks, starts) && |done| <= BLOCK_SIZE * (|starts| - 1)
    ensures var b := starts[|starts| - 1];
            Flags(starts, blocks[b := blocks[b].(emptyFlags := blocks[b].emptyFlags[k := false])], done, first, k + 1)
  {
    var b := starts[|starts| - 1];
    var blocks' := blocks[b := blocks[b].(emptyFlags := blocks[b].emptyFlags[k := false])];
    var more := k + 1;
    forall j, f | 0 <= j < |starts| && first <= j &&
        0 <= f < BLOCK_SIZE ensures FlagOk(starts, blocks', done, more, j, f) {
      assert FlagOk(starts, blocks, done, k, j, f);
    }
  }

  lemma ClearInv<T>(s: State<T>)
    requires Inv(s) && CanProduce(s) && s.producer.Clearing?
    ensures Inv(Produced(s))
  {
    hide Circle, Entries, Flags, Places, Holding, Looking, Reading, Differ;
    var k := s.producer.k;
    if k < BLOCK_SIZE {
      FlagsKeep(s, Newest(s), s.blocks[Newest(s)].emptyFlags[k := false]);
      ClearedOne(s.starts, s.blocks, s.done, s.First(), k);
    }
    hide BlocksOk;
  }

  lemma SlotsDiffer(j: nat, k: nat, size: nat)
    requires j < k < j + size
    ensures j % size != k % size
  {
    var d := k / size - j / size;
    assert k - j == d * size + k % size - j % size;
    assert d >= 1 ==> d * size >= size;
    assert d <= 0 ==> d * size <= 0;
  }

  /** One more entry's base, or block, is written. */
  lemma EntryWritten(starts: seq<nat>, entries: seq<Entry>, first: int, p: nat, e: Entry, based: int, written: int)
    requires Entries(starts, entries, first, based, written) && p == |starts| - 1 && first > p - |entries|
    requires written == p && (based == p || (based == p + 1 && first <= p))
    requires e == if based == p then entries[p % |entries|].(base := Word(BLOCK_SIZE * p))
             else entries[p % |entries|].(block := starts[p])
    ensures Entries(starts, entries[p % |entries| := e], first, p + 1, if based == p then p else p + 1)
  {
    var entries' := entries[p % |entries| := e];
    var based', written' := p + 1, if based == p then p else p + 1;
    forall k | 0 <= k < |starts| && first <= k ensures EntryOk(starts, entries', based', written', k) {
      assert EntryOk(starts, entries, based, written, k);
      if k < p { SlotsDiffer(k, p, |entries|); }
    }
  }

  lemma WriteInv<T>(s: State<T>)
    requires Inv(s) && CanProduce(s) && (s.producer.WritingBase? || s.producer.WritingBlock?)
    ensures Inv(Produced(s))
  {
    hide BlocksOk, Circle, Entries, Flags, Places, Holding, Looking, Reading, Differ;
    var p := |s.starts| - 1;
    assert s.prFront == p % |s.entries|;
    var e := s.entries[s.prFront];
    EntryWritten(s.starts, s.entries, s.First(), p,
                 if s.producer.WritingBase? then e.(base := Word(BLOCK_SIZE * p)) else e.(block := s.starts[p]),
                     s.Based(), s.Written());
  }

  lemma NextSlot(p: nat, size: nat)
    requires size > 0
    ensures (p % size + 1) % size == (p + 1) % size
  {
    ModOffset(p, 1, size);
  }

  lemma LookingOn(consumers: seq<Consumer>, starts: seq<nat>, size: nat, published: int)
    requires Looking(consumers, starts, size, published)
    ensures Looking(consumers, starts, size, published + 1)
  {
    forall t | 0 <= t < |consumers| ensures LookOk(consumers[t], starts, size, published + 1) {
      assert LookOk(consumers[t], starts, size, published);
    }
  }

  lemma FrontInv<T>(s: State<T>)
    requires Inv(s) && CanProduce(s) && s.producer.StoringFront?
    ensures Inv(Produced(s))
  {
    hide BlocksOk, Circle, Entries, Flags, Places, Holding, Looking, Reading, Differ;
    NextSlot(s.Published(), |s.entries|);
    LookingOn(s.consumers, s.starts, |s.entries|, s.Published());
  }

  /** A change of one slot, of index i, in the block of a start in the circle. */
  lemma SlotKeeps<T>(starts: seq<nat>, blocks: seq<Block<T>>, first: int, i: nat, x: Option<T>, log: seq<T>,
      log': seq<T>, j: nat)
    requires Circle(starts, first) && i / BLOCK_SIZE < |starts| && BLOCK_SIZE * first <= i &&
             starts[i / BLOCK_SIZE] < |blocks|
    requires |blocks[starts[i / BLOCK_SIZE]].slots| == BLOCK_SIZE
    requires BLOCK_SIZE * first <= j && j != i && InPlace(starts, blocks, log, j) && log <= log'
    ensures var b := starts[i / BLOCK_SIZE];
            InPlace(starts, blocks[b := blocks[b].(slots := blocks[b].slots[i % BLOCK_SIZE := x])], log', j)
  {
    if j / BLOCK_SIZE == i / BLOCK_SIZE {
      assert j % BLOCK_SIZE != i % BLOCK_SIZE;
    } else {
      assert first <= i / BLOCK_SIZE && first <= j / BLOCK_SIZE;
    }
  }

  lemma SlotsKeepFlags<T>(starts: seq<nat>, blocks: seq<Block<T>>, done: seq<bool>, first: int, cleared: nat, b: nat,
      slots: seq<Option<T>>)
    requires Flags(starts, blocks, done, first, cleared) && BlocksOk(blocks, starts) && b < |blocks| &&
             |slots| == BLOCK_SIZE
    ensures var blocks' := blocks[b := blocks[b].(slots := slots)];
            Flags(starts, blocks', done, first, cleared) && BlocksOk(blocks', starts)
  {
    var blocks' := blocks[b := blocks[b].(slots := slots)];
    forall k, f | 0 <= k < |starts| && first <= k &&
        0 <= f < BLOCK_SIZE ensures FlagOk(starts, blocks', done, cleared, k, f) {
      assert FlagOk(starts, blocks, done, cleared, k, f);
    }
  }

  lemma BuildInv<T>(s: State<T>)
    requires Inv(s) && CanProduce(s) && s.producer.Building?
    ensures Inv(Produced(s))
  {
    hide Circle, Entries, Flags, Places, Holding, Looking, Reading, Differ, InPlace;
    var s' := Produced(s);
    assert s.tail / BLOCK_SIZE == |s.starts| - 1;
    SlotsKeepFlags(s.starts, s.blocks, s.done, s.First(), s.Cleared(), Newest(s),
                   s.blocks[Newest(s)].slots[s.tail % BLOCK_SIZE := Some(s.producer.x)]);
    BuildPlaces(s);
    BuildReading(s);
    hide BlocksOk;
  }

  lemma BuildPlaces<T>(s: State<T>)
    requires Inv(s) && CanProduce(s) && s.producer.Building?
    ensures Places(s.starts, Produced(s).blocks, Produced(s).log, s.head)
  {
    hide Circle, Entries, Flags, Holding, Looking, Reading, Differ, InPlace;
    var s' := Produced(s);
    assert s.tail / BLOCK_SIZE == |s.starts| - 1;
    forall i | s.head <= i < |s'.log| ensures InPlace(s.starts, s'.blocks, s'.log, i) {
      if i == s.tail {
        BuiltInPlace(s);
      } else {
        SlotKeeps(s.starts, s.blocks, s.First(), s.tail, Some(s.producer.x), s.log, s'.log, i);
      }
    }
  }

  lemma BuiltInPlace<T>(s: State<T>)
    requires Inv(s) && CanProduce(s) && s.producer.Building?
    ensures InPlace(s.starts, Produced(s).blocks, Produced(s).log, s.tail)
  {
    hide Circle, Entries, Flags, Holding, Looking, Reading, Differ, Places;
    assert s.tail / BLOCK_SIZE == |s.starts| - 1;
  }

  lemma BuildReading<T>(s: State<T>)
    requires Inv(s) && CanProduce(s) && s.producer.Building?
    ensures Reading(s.consumers, s.starts, Produced(s).blocks, Produced(s).log)
  {
    hide Circle, Entries, Flags, Places, Differ, InPlace, Holding, Looking, Reading;
    var s' := Produced(s);
    assert s.tail / BLOCK_SIZE == |s.starts| - 1;
    forall t | 0 <= t < |s.consumers| ensures ReadOk(s.consumers[t], s.starts, s'.blocks, s'.log) {
      var c := s.consumers[t];
      HoldKnown(s, t);
      if c.Reads() { SlotKeeps(s.starts, s.blocks, s.First(), s.tail, Some(s.producer.x), s.log, s'.log, c.i); }
    }
    IsReading(s.consumers, s.starts, s'.blocks, s'.log);
  }

  lemma IsReading<T>(consumers: seq<Consumer>, starts: seq<nat>, blocks: seq<Block<T>>, log: seq<T>)
    requires forall t | 0 <= t < |consumers| :: ReadOk(consumers[t], starts, blocks, log)
    ensures Reading(consumers, starts, blocks, log)
  {}

  // ---------------------------------------------------------------- the consumers' steps

  lemma ClaimedFlags<T>(starts: seq<nat>, blocks: seq<Block<T>>, done: seq<bool>, first: int, cleared: nat)
    requires Flags(starts, blocks, done, first, cleared)
    ensures Flags(starts, blocks, done + [false], first, cleared)
  {
    forall k, f | 0 <= k < |starts| && first <= k && 0 <= f < BLOCK_SIZE
      ensures FlagOk(starts, blocks, done + [false], cleared, k, f)
    {
      assert FlagOk(starts, blocks, done, cleared, k, f);
    }
  }

  /** The consumers with one of them replaced. */
  lemma OneConsumer<T>(s: State<T>, t: nat, c: Consumer, first: int, done: seq<bool>, blocks: seq<Block<T>>)
    requires t < |s.consumers| && HoldOk(c, first, done) && s.entries != [] &&
             LookOk(c, s.starts, |s.entries|, s.Published())
    requires ReadOk(c, s.starts, blocks, s.log)
    requires forall u | 0 <= u < |s.consumers| && u != t ::
               && HoldOk(s.consumers[u], first, done) && LookOk(s.consumers[u], s.starts, |s.entries|, s.Published())
               && ReadOk(s.consumers[u], s.starts, blocks, s.log)
    ensures Holding(s.consumers[t := c], first, done) &&
            Looking(s.consumers[t := c], s.starts, |s.entries|, s.Published())
    ensures Reading(s.consumers[t := c], s.starts, blocks, s.log)
  {
    hide HoldOk, LookOk, ReadOk;
  }

  lemma OtherDiffers(consumers: seq<Consumer>, t: nat, c: Consumer)
    requires Differ(consumers) && t < |consumers|
    requires c.Holds() ==> forall u | 0 <= u < |consumers| && u != t && consumers[u].Holds() :: consumers[u].i != c.i
    ensures Differ(consumers[t := c])
  {}

  lemma ClaimInv<T>(s: State<T>, a: Action<T>)
    requires Inv(s) && Enabled(s, a) && a.Claim?
    ensures Inv(Apply(s, a))
  {
    hide BlocksOk, Circle, Entries, Flags, Holding, Looking, Reading, Differ, InPlace;
    assert InPlace(s.starts, s.blocks, s.log, s.head);
    ClaimedFlags(s.starts, s.blocks, s.done, s.First(), s.Cleared());
    var c, done := Claimed(s.head), s.done + [false];
    forall u | 0 <= u < |s.consumers| && u != a.t
      ensures HoldOk(s.consumers[u], s.First(), done) && LookOk(s.consumers[u], s.starts, |s.entries|, s.Published())
      ensures ReadOk(s.consumers[u], s.starts, s.blocks, s.log) &&
              (s.consumers[u].Holds() ==> s.consumers[u].i != s.head)
    {
      HoldKnown(s, u);
    }
    OneConsumer(s, a.t, c, s.First(), done, s.blocks);
    OtherDiffers(s.consumers, a.t, c);
    hide Scanned, HoldOk, LookOk, ReadOk;
  }

  /** The producer turns to a new block only if the block ahead is not all done when it looks. */
  lemma InsertsOnlyIfNotDone<T>(s: State<T>) returns (i: nat)
    requires Inv(s) && CanProduce(s) && s.producer.Scanning? && Produced(s).producer.Inserting?
    ensures BLOCK_SIZE * s.First() <= i < BLOCK_SIZE * s.First() + BLOCK_SIZE && !Done(s.done, i)
  {
    hide Circle, Entries, Places, Holding, Looking, Reading, Differ;
    var f := s.producer.k;
    i := BLOCK_SIZE * s.First() + BLOCK_SIZE - 1 - f;
    assert FlagOk(s.starts, s.blocks, s.done, s.Cleared(), s.First(), f);
  }

  /** A claimed index belongs to a start that is in the index. */
  lemma ClaimedIsPublished<T>(s: State<T>, t: nat)
    requires Inv(s) && t < |s.consumers| && s.consumers[t].Holds()
    ensures s.consumers[t].i / BLOCK_SIZE < s.Published() && s.First() <= s.consumers[t].i / BLOCK_SIZE
  {
    hide BlocksOk, Circle, Entries, Flags, Places, Looking, Reading, Differ, Holding;
    HoldKnown(s, t);
  }

  lemma EntryKnown<T>(s: State<T>, k: nat)
    requires Inv(s) && k < |s.starts| && s.First() <= k
    ensures s.entries != [] && EntryOk(s.starts, s.entries, s.Based(), s.Written(), k)
  {}

  lemma LookupEntry(starts: seq<nat>, entries: seq<Entry>, based: int, written: int, i: nat, at: nat)
    requires 0 < |entries| < BlockRing.MAX_BLOCKS && i / BLOCK_SIZE <= at < i / BLOCK_SIZE + |entries|
    requires i / BLOCK_SIZE < |starts| && i / BLOCK_SIZE < written &&
             EntryOk(starts, entries, based, written, i / BLOCK_SIZE)
    ensures var to := (at % |entries| + BlockRing.BlockOffset(i, Word(BLOCK_SIZE * at))) % |entries|;
            entries[to].block == starts[i / BLOCK_SIZE]
  {
    hide BlockRing.BlockOffset, Word;
    LookupIs(|entries|, i, at);
  }

  lemma IndexSize<T>(s: State<T>)
    requires Inv(s)
    ensures 0 < |s.entries| < BlockRing.MAX_BLOCKS && s.Published() <= |s.starts| && s.Published() <= s.Written()
    ensures s.Published() - s.First() <= |s.entries|
  {}

  /** On every lookup the entry read is that of the block of the claimed index. */
  lemma LookupFinds<T>(s: State<T>, t: nat)
    requires Inv(s) && t < |s.consumers| && s.consumers[t].HasBase?
    ensures var c := s.consumers[t];
            && s.entries != [] && c.i / BLOCK_SIZE < |s.starts|
            && s.entries[EntryOf(s, c.i, c.front, c.base)].block == s.starts[c.i / BLOCK_SIZE]
  {
    hide Inv, EntryOk, BlockRing.BlockOffset, Word;
    var c := s.consumers[t];
    IndexSize(s);
    HoldKnown(s, t);
    ClaimedIsPublished(s, t);
    EntryKnown(s, c.i / BLOCK_SIZE);
    LookupEntry(s.starts, s.entries, s.Based(), s.Written(), c.i, c.at);
  }

  lemma FrontFinds<T>(s: State<T>, t: nat)
    requires Inv(s) && t < |s.consumers| && s.consumers[t].Claimed?
    ensures s.entries != [] && 0 < s.Published() && s.front == (s.Published() - 1) % |s.entries|
    ensures s.consumers[t].i / BLOCK_SIZE < s.Published()
  {
    hide BlocksOk, Circle, Entries, Flags, Places, Looking, Reading, Differ, Holding;
    ClaimedIsPublished(s, t);
  }

  lemma BaseFinds<T>(s: State<T>, t: nat)
    requires Inv(s) && t < |s.consumers| && s.consumers[t].HasFront?
    ensures s.consumers[t].front < |s.entries| &&
            s.entries[s.consumers[t].front].base == Word(BLOCK_SIZE * s.consumers[t].at)
  {
    hide BlocksOk, Circle, Entries, Flags, Places, Looking, Reading, Differ, Holding;
    HoldKnown(s, t);
    ClaimedIsPublished(s, t);
    EntryKnown(s, s.consumers[t].at);
  }

  lemma LookOn<T>(s: State<T>, t: nat)
    requires Inv(s) && t < |s.consumers| && CanConsume(s, s.consumers[t])
    requires s.consumers[t].Claimed? || s.consumers[t].HasFront? || s.consumers[t].HasBase?
    ensures s.entries != [] && LookOk(ConsumerAfter(s, s.consumers[t]), s.starts, |s.entries|, s.Published())
  {
    hide Inv, EntryOf;
    var c := s.consumers[t];
    HoldKnown(s, t);
    if c.Claimed? {
      FrontFinds(s, t);
    } else if c.HasFront? {
      BaseFinds(s, t);
    } else {
      LookupFinds(s, t);
    }
  }

  lemma LookInv<T>(s: State<T>, t: nat)
    requires Inv(s) && t < |s.consumers| && CanConsume(s, s.consumers[t])
    requires s.consumers[t].Claimed? || s.consumers[t].HasFront? || s.consumers[t].HasBase?
    ensures Inv(Consumed(s, t))
  {
    hide BlocksOk, Circle, Entries, Flags, Places, Looking, Reading, Differ, Holding, LookOk, InPlace;
    var c := ConsumerAfter(s, s.consumers[t]);
    HoldKnown(s, t);
    LookOn(s, t);
    forall u | 0 <= u < |s.consumers| && u != t
      ensures HoldOk(s.consumers[u], s.First(), s.done) && LookOk(s.consumers[u], s.starts, |s.entries|, s.Published())
      ensures ReadOk(s.consumers[u], s.starts, s.blocks, s.log)
    {
      HoldKnown(s, u);
    }
    OneConsumer(s, t, c, s.First(), s.done, s.blocks);
    HoldsAlone(s, t);
    OtherDiffers(s.consumers, t, c);
    hide Scanned, HoldOk, ReadOk;
  }

  lemma HoldsAlone<T>(s: State<T>, t: nat)
    requires Inv(s) && t < |s.consumers| && s.consumers[t].Holds()
    ensures forall u | 0 <= u < |s.consumers| && u != t &&
            s.consumers[u].Holds() :: s.consumers[u].i != s.consumers[t].i
  {
    hide BlocksOk, Circle, Entries, Flags, Places, Looking, Reading, Holding;
  }

  /** Taking the element of a held index leaves every other one in its place. */
  lemma TakeKeeps<T>(s: State<T>, t: nat, j: nat)
    requires Inv(s) && t < |s.consumers| && CanConsume(s, s.consumers[t]) && s.consumers[t].HasBlock?
    requires InPlace(s.starts, s.blocks, s.log, j) && j != s.consumers[t].i && BLOCK_SIZE * s.First() <= j
    ensures InPlace(s.starts, BlocksAfter(s, s.consumers[t]), s.log, j)
  {
    hide Circle, Entries, Flags, Places, Looking, Reading, Differ, Holding, InPlace;
    HoldKnown(s, t);
    SlotKeeps(s.starts, s.blocks, s.First(), s.consumers[t].i, None, s.log, s.log, j);
  }

  lemma TakeInv<T>(s: State<T>, t: nat)
    requires Inv(s) && t < |s.consumers| && CanConsume(s, s.consumers[t]) && s.consumers[t].HasBlock?
    ensures Inv(Consumed(s, t))
  {
    hide Circle, Entries, Flags, Looking, Reading, Differ, Holding, LookOk, InPlace;
    var c := s.consumers[t];
    HoldKnown(s, t);
    HoldsAlone(s, t);
    var blocks := BlocksAfter(s, c);
    SlotsKeepFlags(s.starts, s.blocks, s.done, s.First(), s.Cleared(), c.block,
        s.blocks[c.block].slots[c.i % BLOCK_SIZE := None]);
    forall i | s.head <= i < |s.log| ensures InPlace(s.starts, blocks, s.log, i) { TakeKeeps(s, t, i); }
    forall u | 0 <= u < |s.consumers| && u != t
      ensures HoldOk(s.consumers[u], s.First(), s.done) && LookOk(s.consumers[u], s.starts, |s.entries|, s.Published())
      ensures ReadOk(s.consumers[u], s.starts, blocks, s.log)
    {
      HoldKnown(s, u);
      if s.consumers[u].Reads() { TakeKeeps(s, t, s.consumers[u].i); }
    }
    MovedLooks(c, s.starts, |s.entries|, s.Published());
    OneConsumer(s, t, Moved(c.i, c.block), s.First(), s.done, blocks);
    OtherDiffers(s.consumers, t, Moved(c.i, c.block));
    hide BlocksOk, HoldOk, ReadOk;
  }

  lemma MovedLooks(c: Consumer, starts: seq<nat>, size: nat, published: int)
    requires c.HasBlock? && size > 0 && LookOk(c, starts, size, published)
    ensures LookOk(Moved(c.i, c.block), starts, size, published)
  {}

  /** Setting the flag of index i. */
  lemma SetFlags<T>(starts: seq<nat>, blocks: seq<Block<T>>, done: seq<bool>, first: int, cleared: nat, i: nat)
    requires Flags(starts, blocks, done, first, cleared) && Circle(starts, first) && BlocksOk(blocks, starts)
    requires i < |done| && BLOCK_SIZE * first <= i && i / BLOCK_SIZE < |starts|
    ensures var b := starts[i / BLOCK_SIZE];
            Flags(starts, blocks[b := blocks[b].(emptyFlags := blocks[b].emptyFlags[FlagOf(i) := true])],
                done[i := true], first, cleared)
  {
    var b := starts[i / BLOCK_SIZE];
    var blocks' := blocks[b := blocks[b].(emptyFlags := blocks[b].emptyFlags[FlagOf(i) := true])];
    var done' := done[i := true];
    forall k, f | 0 <= k < |starts| && first <= k &&
        0 <= f < BLOCK_SIZE ensures FlagOk(starts, blocks', done', cleared, k, f) {
      assert FlagOk(starts, blocks, done, cleared, k, f);
      assert BLOCK_SIZE * k + BLOCK_SIZE - 1 - f == i <==> k == i / BLOCK_SIZE && f == FlagOf(i);
    }
  }

  lemma StillScanned<T>(s: State<T>, b: nat, f: nat)
    requires Inv(s) && b < |s.blocks| && f < |s.blocks[b].emptyFlags|
    ensures var blocks := s.blocks[b := s.blocks[b].(emptyFlags := s.blocks[b].emptyFlags[f := true])];
            Scanned(s.producer, AheadFlags(s.(blocks := blocks)))
  {
    hide Circle, Entries, Flags, Places, Looking, Reading, Differ, Holding;
  }

  lemma SetShape<T>(s: State<T>, t: nat)
    requires Inv(s) && t < |s.consumers| && CanConsume(s, s.consumers[t]) && s.consumers[t].Moved?
    ensures Shape(Consumed(s, t)) && FrontOk(Consumed(s, t))
  {
    hide BlocksOk, Circle, Entries, Flags, Places, Looking, Reading, Differ, Holding, Scanned;
  }

  lemma SetScan<T>(s: State<T>, t: nat)
    requires Inv(s) && t < |s.consumers| && CanConsume(s, s.consumers[t]) && s.consumers[t].Moved?
    ensures Scanned(Consumed(s, t).producer, AheadFlags(Consumed(s, t)))
  {
    hide Inv, Scanned;
    var c := s.consumers[t];
    StillScanned(s, c.block, FlagOf(c.i));
  }

  lemma SetInv<T>(s: State<T>, t: nat)
    requires Inv(s) && t < |s.consumers| && CanConsume(s, s.consumers[t]) && s.consumers[t].Moved?
    ensures Inv(Consumed(s, t))
  {
    hide BlocksOk, Circle, Entries, Flags, Places, Looking, Reading, Differ, Holding, Scanned, AheadFlags, Shape,
        FrontOk;
    SetShape(s, t);
    SetScan(s, t);
    SetOthers(s, t);
    SetBlocks(s, t);
    HoldsAlone(s, t);
    OtherDiffers(s.consumers, t, Idle);
  }

  lemma SetBlocks<T>(s: State<T>, t: nat)
    requires Inv(s) && t < |s.consumers| && CanConsume(s, s.consumers[t]) && s.consumers[t].Moved?
    ensures var s' := Consumed(s, t);
            && BlocksOk(s'.blocks, s.starts) && Places(s.starts, s'.blocks, s.log, s.head)
            && Flags(s.starts, s'.blocks, s'.done, s.First(), s.Cleared())
  {
    hide Circle, Entries, Flags, Places, Looking, Reading, Differ, Holding, Scanned, AheadFlags, FrontOk;
    var c := s.consumers[t];
    HoldKnown(s, t);
    MovedBlock(s, t);
    FlagsKeep(s, c.block, s.blocks[c.block].emptyFlags[FlagOf(c.i) := true]);
    SetFlags(s.starts, s.blocks, s.done, s.First(), s.Cleared(), c.i);
  }

  lemma MovedBlock<T>(s: State<T>, t: nat)
    requires Inv(s) && t < |s.consumers| && (s.consumers[t].HasBlock? || s.consumers[t].Moved?)
    ensures s.consumers[t].i / BLOCK_SIZE < |s.starts| &&
            s.consumers[t].block == s.starts[s.consumers[t].i / BLOCK_SIZE]
    ensures s.consumers[t].block < |s.blocks| && |s.blocks[s.consumers[t].block].emptyFlags| == BLOCK_SIZE
    ensures |s.blocks[s.consumers[t].block].slots| == BLOCK_SIZE
  {
    hide Circle, Entries, Flags, Places, Looking, Reading, Differ, Holding;
    HoldKnown(s, t);
  }

  lemma SetOthers<T>(s: State<T>, t: nat)
    requires Inv(s) && t < |s.consumers| && CanConsume(s, s.consumers[t]) && s.consumers[t].Moved?
    ensures var s' := Consumed(s, t);
            && Holding(s'.consumers, s.First(), s'.done) && Looking(s'.consumers, s.starts, |s.entries|, s.Published())
            && Reading(s'.consumers, s.starts, s'.blocks, s.log)
  {
    hide Circle, Entries, Flags, Places, Looking, Reading, Differ, Holding, LookOk, InPlace;
    var c, s' := s.consumers[t], Consumed(s, t);
    HoldsAlone(s, t);
    MovedBlock(s, t);
    FlagsKeep(s, c.block, s.blocks[c.block].emptyFlags[FlagOf(c.i) := true]);
    forall u | 0 <= u < |s.consumers| && u != t
      ensures HoldOk(s.consumers[u], s.First(), s'.done) && LookOk(s.consumers[u], s.starts, |s.entries|, s.Published())
      ensures ReadOk(s.consumers[u], s.starts, s'.blocks, s.log)
    {
      HoldKnown(s, u);
      ReadingKnown(s.consumers, s.starts, s'.blocks, s.log, u);
    }
    IdleLooks(s.starts, |s.entries|, s.Published());
    OneConsumer(s, t, Idle, s.First(), s'.done, s'.blocks);
  }

  lemma ReadingKnown<T>(consumers: seq<Consumer>, starts: seq<nat>, blocks: seq<Block<T>>, log: seq<T>, t: nat)
    requires Reading(consumers, starts, blocks, log) && t < |consumers|
    ensures ReadOk(consumers[t], starts, blocks, log)
  {}

  lemma IdleLooks(starts: seq<nat>, size: nat, published: int)
    requires size > 0
    ensures LookOk(Idle, starts, size, published)
  {}

  // ---------------------------------------------------------------- over whole runs

  /** Every access of the producer and of every consumer keeps the invariant. */
  lemma NextInv<T>(s: State<T>, a: Action<T>)
    requires Inv(s) && Enabled(s, a)
    ensures Inv(Apply(s, a))
  {
    hide Inv, CanProduce, CanConsume;
    match a
    case Call(_) => CallInv(s, a);
    case GiveUp => CallInv(s, a);
    case Insert(_) => InsertInv(s, a);
    case Claim(_) => ClaimInv(s, a);
    case Produce => ProduceInv(s);
    case Consume(t) => ConsumeInv(s, t);
  }

  lemma ProduceInv<T>(s: State<T>)
    requires Inv(s) && CanProduce(s)
    ensures Inv(Produced(s))
  {
    hide Inv, Produced;
    match s.producer
    case Scanning(_, _) => ScanInv(s);
    case Clearing(_, _) => ClearInv(s);
    case WritingBase(_) => WriteInv(s);
    case WritingBlock(_) => WriteInv(s);
    case StoringFront(_) => FrontInv(s);
    case Building(_) => BuildInv(s);
    case Publishing => PublishInv(s);
  }

  lemma ConsumeInv<T>(s: State<T>, t: nat)
    requires Inv(s) && t < |s.consumers| && CanConsume(s, s.consumers[t])
    ensures Inv(Consumed(s, t))
  {
    hide Inv, Consumed;
    var c := s.consumers[t];
    if c.HasBlock? {
      TakeInv(s, t);
    } else if c.Moved? {
      SetInv(s, t);
    } else {
      LookInv(s, t);
    }
  }

  lemma {:induction false} RunInv<T>(s: State<T>, acts: seq<Action<T>>, s': State<T>)
    requires Inv(s) && Leads(s, acts, s')
    ensures Inv(s')
    decreases |acts|
  {
    hide Inv, Apply, Enabled;
    if acts != [] {
      NextInv(s, acts[0]);
      RunInv(Apply(s, acts[0]), acts[1..], s');
    }
  }

  lemma ReachedInv<T>(s: State<T>, acts: seq<Action<T>>, s': State<T>)
    requires Init(s) && Leads(s, acts, s')
    ensures Inv(s')
  {
    hide Inv, Init, Leads;
    InitInv(s);
    RunInv(s, acts, s');
  }

  /** On every run a consumer that has claimed index i looks up the block that i was put into,
      takes from it the i-th element enqueued, and finds its flag not set, as the source asserts,
      although the producer scans, clears and uses blocks again meanwhile; and no other consumer
      has that index. */
  lemma TakesItsOwn<T>(s: State<T>, acts: seq<Action<T>>, s': State<T>, t: nat)
    requires Init(s) && Leads(s, acts, s') && t < |s'.consumers| && s'.consumers[t].Holds()
    ensures var c := s'.consumers[t]; c.i < s'.head && c.i < |s'.log| && c.i / BLOCK_SIZE < |s'.starts|
    ensures forall u | 0 <= u < |s'.consumers| && u != t &&
            s'.consumers[u].Holds() :: s'.consumers[u].i != s'.consumers[t].i
    ensures Enabled(s', Consume(t))
    ensures var c := s'.consumers[t];
            && (c.HasBase? ==> s'.entries[EntryOf(s', c.i, c.front, c.base)].block == s'.starts[c.i / BLOCK_SIZE])
            && (c.HasBlock? || c.Moved? ==> c.block == s'.starts[c.i / BLOCK_SIZE])
            && (c.HasBlock? ==> s'.blocks[c.block].slots[c.i % BLOCK_SIZE] == Some(s'.log[c.i]))
            && (c.Moved? ==> !s'.blocks[c.block].emptyFlags[FlagOf(c.i)])
  {
    hide Inv, Init, Leads, InPlace;
    ReachedInv(s, acts, s');
    var c := s'.consumers[t];
    HoldKnown(s', t);
    HoldsAlone(s', t);
    ClaimedIsPublished(s', t);
    FrontKnown(s', t);
    if c.HasBase? { LookupFinds(s', t); }
    if c.HasBlock? { MovedBlock(s', t); PlaceKnown(s', c.i); }
    if c.Moved? { MovedBlock(s', t); HeldFlag(s', t); }
  }

  lemma PlaceKnown<T>(s: State<T>, i: nat)
    requires InPlace(s.starts, s.blocks, s.log, i)
    ensures i / BLOCK_SIZE < |s.starts| && s.starts[i / BLOCK_SIZE] < |s.blocks| && i < |s.log|
    ensures |s.blocks[s.starts[i / BLOCK_SIZE]].slots| == BLOCK_SIZE
    ensures s.blocks[s.starts[i / BLOCK_SIZE]].slots[i % BLOCK_SIZE] == Some(s.log[i])
  {}

  lemma FrontKnown<T>(s: State<T>, t: nat)
    requires Inv(s) && t < |s.consumers|
    ensures s.head <= s.tail <= |s.log| && s.entries != [] && s.Published() <= |s.starts| && |s.done| == s.head
    ensures s.consumers[t].HasFront? ==> s.consumers[t].front < |s.entries|
  {
    HoldKnown(s, t);
  }

  /** The flag of a held index is not set. */
  lemma HeldFlag<T>(s: State<T>, t: nat)
    requires Inv(s) && t < |s.consumers| && s.consumers[t].Moved?
    ensures var c := s.consumers[t];
            && c.block < |s.blocks| && FlagOf(c.i) < |s.blocks[c.block].emptyFlags|
            && !s.blocks[c.block].emptyFlags[FlagOf(c.i)]
  {
    hide Circle, Entries, Places, Looking, Reading, Differ, Holding, InPlace;
    var c := s.consumers[t];
    HoldKnown(s, t);
    MovedBlock(s, t);
    var k := c.i / BLOCK_SIZE;
    assert FlagOk(s.starts, s.blocks, s.done, s.Cleared(), k, FlagOf(c.i));
    assert BLOCK_SIZE * k + BLOCK_SIZE - 1 - FlagOf(c.i) == c.i;
  }

  /** On every run, while the newest block is being cleared and entered into the index, it holds
      no index that a consumer has, and none that is still to be claimed. */
  lemma ReuseMeetsNobody<T>(s: State<T>, acts: seq<Action<T>>, s': State<T>)
    requires Init(s) && Leads(s, acts, s') && s'.producer.Starts()
    ensures s'.starts != []
    ensures forall t | 0 <= t < |s'.consumers| && s'.consumers[t].Holds() ::
              var k := s'.consumers[t].i / BLOCK_SIZE; k < |s'.starts| && s'.starts[k] != s'.starts[|s'.starts| - 1]
    ensures forall i | s'.head <= i < |s'.log| ::
              i / BLOCK_SIZE < |s'.starts| && s'.starts[i / BLOCK_SIZE] != s'.starts[|s'.starts| - 1]
  {
    hide Inv, Init, Leads;
    ReachedInv(s, acts, s');
    StartingKnown(s');
    forall t | 0 <= t < |s'.consumers| && s'.consumers[t].Holds()
      ensures var k := s'.consumers[t].i / BLOCK_SIZE; k < |s'.starts| && s'.starts[k] != s'.starts[|s'.starts| - 1]
    {
      ClaimedIsPublished(s', t);
      HoldKnown(s', t);
    }
  }

  lemma StartingKnown<T>(s: State<T>)
    requires Inv(s) && s.producer.Starts()
    ensures s.starts != [] && 0 <= s.First() && |s.log| == s.tail == BLOCK_SIZE * (|s.starts| - 1) &&
            BLOCK_SIZE * s.First() <= s.head
    ensures forall k | s.First() <= k < |s.starts| - 1 :: s.starts[k] != s.starts[|s.starts| - 1]
  {
    hide Entries, Flags, Places, Looking, Reading, Differ, Holding;
  }

  lemma LogGrows<T>(s: State<T>, a: Action<T>)
    requires Enabled(s, a)
    ensures s.log <= Apply(s, a).log
  {}

  /** Which element an index stands for never changes. */
  lemma {:induction false} LogStays<T>(s: State<T>, acts: seq<Action<T>>, s': State<T>)
    requires Leads(s, acts, s')
    ensures s.log <= s'.log
    decreases |acts|
  {
    hide Apply, Enabled;
    if acts != [] {
      LogGrows(s, acts[0]);
      LogStays(Apply(s, acts[0]), acts[1..], s');
    }
  }

  /** The guards of the model only say where a thread stands: the producer can go on with its
      call, or give it up where it needs a new block, and every consumer with its own. */
  lemma NothingBlocks<T>(s: State<T>, acts: seq<Action<T>>, s': State<T>)
    requires Init(s) && Leads(s, acts, s')
    ensures s'.producer.Resting? ==> forall x :: Enabled(s', Call(x))
    ensures s'.producer.Inserting? ==> Enabled(s', GiveUp)
    ensures !s'.producer.Resting? && !s'.producer.Inserting? ==> Enabled(s', Produce)
    ensures forall t | 0 <= t < |s'.consumers| && s'.consumers[t].Holds() :: Enabled(s', Consume(t))
  {
    hide Inv, Init, Leads;
    ReachedInv(s, acts, s');
    if !s'.producer.Resting? && !s'.producer.Inserting? { ProducerGoesOn(s'); }
    forall t | 0 <= t < |s'.consumers| && s'.consumers[t].Holds() ensures Enabled(s', Consume(t)) {
      TakesItsOwn(s, acts, s', t);
    }
  }

  lemma ProducerGoesOn<T>(s: State<T>)
    requires Inv(s) && !s.producer.Resting? && !s.producer.Inserting?
    ensures CanProduce(s)
  {
    hide Circle, Entries, Flags, Places, Looking, Reading, Differ, Holding;
  }
}
