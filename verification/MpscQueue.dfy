/** The linked queue with many producers and one consumer. A producer swings the tail to
    its node first and stores the link into the old tail later; the consumer walks the
    links, moves the values out and frees the nodes behind it. The allocator may hand a
    freed address out again at once. Every access of a shared field is one step. */
module MpscQueue {

  /** `Queued(pos)`: the node became the tail by the pos-th swing (the first dummy is 0). */
  datatype Place = Unused | Private(t: nat) | Queued(pos: nat)

  /** `linker` is the producer that swung the tail off the node; no operation reads it. */
  datatype Node<V> = Node(data: V, next: nat, place: Place, linker: nat)

  datatype Producer =
    | Idle
    | Reading(node: nat)
    | Checking(node: nat, seen: nat)
    | Swinging(node: nat, seen: nat)
    | Linking(node: nat, prev: nat)

  /** `flush` tells `try_flush_single` from `try_pop_single`. */
  datatype Consumer =
    | Resting
    | Looking(flush: bool, cursor: nat)
    | Moving(flush: bool, cursor: nat, found: nat)
    | Taking(flush: bool, behind: nat, found: nat)
    | Deleting(flush: bool, behind: nat, found: nat)

  /** `chain` holds the node of every swing so far, `order` the values of the swings after
      the dummy, `out` the values the consumer has delivered. */
  datatype State<V> = State(
    mem: seq<Node<V>>, head: nat, tail: nat, producers: seq<Producer>, consumer: Consumer,
    chain: seq<nat>, order: seq<V>, out: seq<V>)

  datatype Action<V> =
    | Construct(t: nat, at: nat, data: V)   // the allocator returns an unused address
    | ReadTail(t: nat)
    | Recheck(t: nat)
    | Swing(t: nat)
    | SwingFail(t: nat)                     // the tail differs
    | Link(t: nat)
    | StartPop
    | StartFlush
    | Look
    | Move
    | Take
    | Delete

  predicate Enabled<V>(s: State<V>, a: Action<V>) {
    match a
    case Construct(t, at, _) =>
      t < |s.producers| && s.producers[t].Idle? && 0 < at < |s.mem| && s.mem[at].place.Unused?
    case ReadTail(t) => t < |s.producers| && s.producers[t].Reading?
    case Recheck(t) => t < |s.producers| && s.producers[t].Checking?
    case Swing(t) =>
      t < |s.producers| && s.producers[t].Swinging? && s.tail == s.producers[t].seen &&
      s.tail < |s.mem| && s.producers[t].node < |s.mem|
    case SwingFail(t) => t < |s.producers| && s.producers[t].Swinging? && s.tail != s.producers[t].seen
    case Link(t) => t < |s.producers| && s.producers[t].Linking? && s.producers[t].prev < |s.mem|
    case StartPop => s.consumer.Resting?
    case StartFlush => s.consumer.Resting?
    case Look => s.consumer.Looking? && s.consumer.cursor < |s.mem|
    case Move => s.consumer.Moving?
    case Take => s.consumer.Taking? && s.consumer.found < |s.mem|
    case Delete => s.consumer.Deleting? && s.consumer.behind < |s.mem|
  }

  function Apply<V>(s: State<V>, a: Action<V>): State<V>
    requires Enabled(s, a)
  {
    match a
    case Construct(t, at, data) =>
      s.(mem := s.mem[at := Node(data, 0, Private(t), 0)], producers := s.producers[t := Reading(at)])
    case ReadTail(t) => s.(producers := s.producers[t := Checking(s.producers[t].node, s.tail)])
    case Recheck(t) =>
      var p := s.producers[t];
      s.(producers := s.producers[t := if p.seen == s.tail then Swinging(p.node, p.seen) else Reading(p.node)])
    case Swing(t) =>
      var p := s.producers[t];
      s.(tail := p.node,
         mem := s.mem[s.tail := s.mem[s.tail].(linker := t)][p.node := s.mem[p.node].(place := Queued(|s.chain|))],
         producers := s.producers[t := Linking(p.node, p.seen)],
         chain := s.chain + [p.node],
         order := s.order + [s.mem[p.node].data])
    case SwingFail(t) => s.(producers := s.producers[t := Reading(s.producers[t].node)])
    case Link(t) =>
      var p := s.producers[t];
      s.(mem := s.mem[p.prev := s.mem[p.prev].(next := p.node)], producers := s.producers[t := Idle])
    case StartPop => s.(consumer := Looking(false, s.head))
    case StartFlush => s.(consumer := Looking(true, s.head))
    case Look =>
      var c := s.consumer;
      if s.mem[c.cursor].next != 0 then s.(consumer := Moving(c.flush, c.cursor, s.mem[c.cursor].next))
      else if c.flush then s.(head := c.cursor, consumer := Resting)
      else s.(consumer := Resting)
    case Move =>
      var c := s.consumer;
      s.(head := if c.flush then s.head else c.found, consumer := Taking(c.flush, c.cursor, c.found))
    case Take =>
      var c := s.consumer;
      s.(out := s.out + [s.mem[c.found].data], consumer := Deleting(c.flush, c.behind, c.found))
    case Delete =>
      var c := s.consumer;
      s.(mem := s.mem[c.behind := s.mem[c.behind].(place := Unused)],
         consumer := if c.flush then Looking(true, c.found) else Resting)
  }

  ghost predicate Init<V>(s: State<V>) {
    && 0 < s.head < |s.mem| && s.tail == s.head
    && (forall a | 0 <= a < |s.mem| :: s.mem[a].place == if a == s.head then Queued(0) else Unused)
    && s.mem[s.head].next == 0
    && (forall t | 0 <= t < |s.producers| :: s.producers[t].Idle?)
    && s.consumer.Resting? && s.chain == [s.head] && s.order == [] && s.out == []
  }

  ghost predicate Leads<V>(s: State<V>, acts: seq<Action<V>>, s': State<V>)
    decreases |acts|
  {
    if acts == [] then s == s'
    else Enabled(s, acts[0]) && Leads(Apply(s, acts[0]), acts[1..], s')
  }

  // ---------------------------------------------------------------- invariant

  /** The position of the oldest node not yet freed. */
  function Base<V>(s: State<V>): int {
    if s.consumer.Deleting? then |s.out| - 1 else |s.out|
  }

  ghost predicate SlotOk<V>(s: State<V>, k: nat)
    requires k < |s.chain|
  {
    && 0 < s.chain[k] < |s.mem|
    && s.mem[s.chain[k]].place == Queued(k)
    && (k > 0 ==> k - 1 < |s.order| && s.mem[s.chain[k]].data == s.order[k - 1])
  }

  /** A node's link is stored, or one producer is about to store it. */
  predicate NodeOk<V>(s: State<V>, a: nat, n: Node<V>) {
    && (n.place.Queued? ==>
          && Base(s) <= n.place.pos < |s.chain| && s.chain[n.place.pos] == a
          && (n.next != 0 ==> n.place.pos + 1 < |s.chain| && n.next == s.chain[n.place.pos + 1])
          && (n.next == 0 && n.place.pos + 1 < |s.chain| ==>
                n.linker < |s.producers| && s.producers[n.linker] == Linking(s.chain[n.place.pos + 1], a)))
    && (n.place.Private? ==> n.next == 0)
  }

  predicate ProducerOk<V>(s: State<V>, t: nat, p: Producer) {
    && (p.Reading? || p.Checking? || p.Swinging? ==>
          0 < p.node < |s.mem| && s.mem[p.node].place == Private(t))
    && (p.Linking? ==>
          && 0 < p.node && p.prev < |s.mem|
          && s.mem[p.prev].place.Queued? && s.mem[p.prev].next == 0 && s.mem[p.prev].linker == t
          && s.mem[p.prev].place.pos + 1 < |s.chain|
          && s.chain[s.mem[p.prev].place.pos + 1] == p.node)
  }

  predicate ConsumerOk<V>(s: State<V>) {
    var c, k := s.consumer, |s.out|;
    && |s.chain| == |s.order| + 1 && k <= |s.order|
    && s.tail == s.chain[|s.order|]
    && match c
       case Resting => s.head == s.chain[k]
       case Looking(flush, cursor) => cursor == s.chain[k] && (flush || s.head == cursor)
       case Moving(flush, cursor, found) =>
         && cursor == s.chain[k] && k + 1 < |s.chain| && found == s.chain[k + 1]
         && (flush || s.head == cursor) && 0 < cursor < |s.mem| && s.mem[cursor].next == found
       case Taking(flush, behind, found) =>
         && behind == s.chain[k] && k + 1 < |s.chain| && found == s.chain[k + 1]
         && (flush || s.head == found) && 0 < behind < |s.mem| && s.mem[behind].next == found
       case Deleting(flush, behind, found) =>
         && k > 0 && behind == s.chain[k - 1] && found == s.chain[k]
         && (flush || s.head == found) && 0 < behind < |s.mem| && s.mem[behind].next == found
  }

  ghost predicate Inv<V>(s: State<V>) {
    && ConsumerOk(s)
    && s.out == s.order[..|s.out|]
    && (forall k | Base(s) <= k < |s.chain| :: SlotOk(s, k))
    && (forall a | 0 <= a < |s.mem| :: NodeOk(s, a, s.mem[a]))
    && (forall t | 0 <= t < |s.producers| :: ProducerOk(s, t, s.producers[t]))
  }

  lemma InitInv<V>(s: State<V>)
    requires Init(s)
    ensures Inv(s)
  {}

  lemma SlotKnown<V>(s: State<V>, k: nat)
    requires Inv(s) && Base(s) <= k < |s.chain|
    ensures SlotOk(s, k) && NodeOk(s, s.chain[k], s.mem[s.chain[k]])
  {
    assert SlotOk(s, k);
  }

  lemma ProducerKnown<V>(s: State<V>, t: nat)
    requires Inv(s) && t < |s.producers|
    ensures ProducerOk(s, t, s.producers[t])
  {}

  lemma TailKnown<V>(s: State<V>)
    requires Inv(s)
    ensures ConsumerOk(s) && 0 <= Base(s) <= |s.out| < |s.chain| && |s.order| < |s.chain|
  {}

  lemma OutKnown<V>(s: State<V>)
    requires Inv(s)
    ensures s.out == s.order[..|s.out|]
  {}

  lemma SwingKnown<V>(s: State<V>, a: Action<V>)
    requires Inv(s) && Enabled(s, a)
    ensures a.Swing? || a.Link? ==> 0 < s.producers[a.t].node
    ensures a.Construct? ==> s.mem[a.at].place.Unused?
    ensures a.Link? ==> s.mem[s.producers[a.t].prev].next == 0
    ensures a.Swing? ==> s.producers[a.t].node < |s.mem| && s.mem[s.producers[a.t].node].place.Private?
  {
    if a.Swing? || a.Link? { ProducerKnown(s, a.t); }
  }

  lemma NodeKnown<V>(s: State<V>, n: nat)
    requires Inv(s) && n < |s.mem|
    ensures NodeOk(s, n, s.mem[n])
    ensures s.mem[n].place.Queued? ==> SlotOk(s, s.mem[n].place.pos)
  {
    assert NodeOk(s, n, s.mem[n]);
    if s.mem[n].place.Queued? { SlotKnown(s, s.mem[n].place.pos); }
  }

  /** What a step may rely on: its producer, the tail, and the nodes the consumer stands at. */
  lemma StepKnown<V>(s: State<V>, a: Action<V>)
    requires Inv(s) && Enabled(s, a)
    ensures ConsumerOk(s)
    ensures !a.StartPop? && !a.StartFlush? && !a.Look? && !a.Move? && !a.Take? && !a.Delete? ==>
              ProducerOk(s, a.t, s.producers[a.t])
    ensures SlotOk(s, |s.order|) && NodeOk(s, s.tail, s.mem[s.tail])
    ensures 0 <= Base(s)
    ensures SlotOk(s, Base(s)) && NodeOk(s, s.chain[Base(s)], s.mem[s.chain[Base(s)]])
    ensures s.consumer.Moving? || s.consumer.Taking? || s.consumer.Deleting? ==>
              Base(s) + 1 < |s.chain| && SlotOk(s, Base(s) + 1)
  {
    SlotKnown(s, |s.order|);
    SlotKnown(s, Base(s));
    if Base(s) + 1 < |s.chain| { SlotKnown(s, Base(s) + 1); }
  }

  lemma SlotsNext<V>(s: State<V>, a: Action<V>, k: nat)
    requires Inv(s) && Enabled(s, a)
    requires Base(Apply(s, a)) <= k < |Apply(s, a).chain|
    ensures SlotOk(Apply(s, a), k)
  {
    hide Inv, NodeOk;
    StepKnown(s, a);
    if k < |s.chain| { SlotKnown(s, k); }
  }

  predicate ByConsumer<V>(a: Action<V>) {
    a.StartPop? || a.StartFlush? || a.Look? || a.Move? || a.Take? || a.Delete?
  }

  lemma NodesAfterConsumer<V>(s: State<V>, a: Action<V>, n: nat)
    requires Inv(s) && Enabled(s, a) && n < |s.mem| && ByConsumer(a)
    ensures NodeOk(Apply(s, a), n, Apply(s, a).mem[n])
  {
    hide Inv, ProducerOk;
    StepKnown(s, a);
    NodeKnown(s, n);
  }

  lemma NodesAfterSwing<V>(s: State<V>, a: Action<V>, n: nat)
    requires Inv(s) && Enabled(s, a) && n < |s.mem| && a.Swing?
    ensures NodeOk(Apply(s, a), n, Apply(s, a).mem[n])
  {
    hide Inv;
    StepKnown(s, a);
    NodeKnown(s, n);
  }

  lemma NodesNext<V>(s: State<V>, a: Action<V>, n: nat)
    requires Inv(s) && Enabled(s, a) && n < |s.mem|
    ensures NodeOk(Apply(s, a), n, Apply(s, a).mem[n])
  {
    hide Inv;
    if ByConsumer(a) {
      NodesAfterConsumer(s, a, n);
    } else if a.Swing? {
      NodesAfterSwing(s, a, n);
    } else {
      StepKnown(s, a);
      NodeKnown(s, n);
    }
  }

  lemma ProducersNext<V>(s: State<V>, a: Action<V>, t: nat)
    requires Inv(s) && Enabled(s, a) && t < |s.producers|
    ensures ProducerOk(Apply(s, a), t, Apply(s, a).producers[t])
  {
    hide Inv;
    StepKnown(s, a);
    ProducerKnown(s, t);
  }

  lemma OutNext<V>(s: State<V>, a: Action<V>)
    requires Inv(s) && Enabled(s, a)
    ensures Apply(s, a).out == Apply(s, a).order[..|Apply(s, a).out|]
  {
    hide Inv, ProducerOk, NodeOk;
    StepKnown(s, a);
    OutKnown(s);
  }

  lemma ConsumerNext<V>(s: State<V>, a: Action<V>)
    requires Inv(s) && Enabled(s, a)
    ensures ConsumerOk(Apply(s, a))
  {
    hide Inv, ProducerOk;
    StepKnown(s, a);
    SwingKnown(s, a);
  }

  lemma NextInv<V>(s: State<V>, a: Action<V>)
    requires Inv(s) && Enabled(s, a)
    ensures Inv(Apply(s, a))
  {
    hide Apply, SlotOk, NodeOk, ProducerOk, ConsumerOk;
    var s' := Apply(s, a);
    ConsumerNext(s, a);
    OutNext(s, a);
    SameSize(s, a);
    StepKnown(s, a);
    forall k | Base(s') <= k < |s'.chain| ensures SlotOk(s', k) { SlotsNext(s, a, k); }
    forall n | 0 <= n < |s'.mem| ensures NodeOk(s', n, s'.mem[n]) { NodesNext(s, a, n); }
    forall t | 0 <= t < |s'.producers| ensures ProducerOk(s', t, s'.producers[t]) { ProducersNext(s, a, t); }
  }

  lemma SameSize<V>(s: State<V>, a: Action<V>)
    requires Inv(s) && Enabled(s, a)
    ensures |Apply(s, a).mem| == |s.mem| && |Apply(s, a).producers| == |s.producers|
    ensures 0 <= Base(s) <= Base(Apply(s, a))
  {}

  lemma {:induction false} RunInv<V>(s: State<V>, acts: seq<Action<V>>, s': State<V>)
    requires Inv(s) && Leads(s, acts, s')
    ensures Inv(s')
    decreases |acts|
  {
    hide Inv;
    if acts != [] {
      NextInv(s, acts[0]);
      RunInv(Apply(s, acts[0]), acts[1..], s');
    }
  }

  // ---------------------------------------------------------------- over whole runs

  /** What a run enqueues: the values swung in, in swing order. */
  function Swung<V>(s: State<V>, acts: seq<Action<V>>): seq<V>
    decreases |acts|
  {
    if acts == [] || !Enabled(s, acts[0]) then []
    else
      var a := acts[0];
      (if a.Swing? && s.producers[a.t].node < |s.mem| then [s.mem[s.producers[a.t].node].data] else [])
      + Swung(Apply(s, a), acts[1..])
  }

  lemma {:induction false} OrderIsSwung<V>(s: State<V>, acts: seq<Action<V>>, s': State<V>)
    requires Leads(s, acts, s')
    ensures s'.order == s.order + Swung(s, acts)
    decreases |acts|
  {
    if acts != [] {
      OrderIsSwung(Apply(s, acts[0]), acts[1..], s');
    }
  }

  /** First in, first out: on every run the delivered values are a prefix of the values in
      the order of the tail swings, none lost, none twice. */
  lemma Fifo<V>(s: State<V>, acts: seq<Action<V>>, s': State<V>)
    requires Init(s) && Leads(s, acts, s')
    ensures s'.out <= Swung(s, acts)
  {
    InitInv(s);
    RunInv(s, acts, s');
    OutKnown(s');
    hide Inv, Leads, Init;
    OrderIsSwung(s, acts, s');
    StartsEmpty(s);
  }

  lemma StartsEmpty<V>(s: State<V>)
    requires Init(s)
    ensures s.order == []
  {}

  /** The nodes a step reads or writes. */
  function Touched<V>(s: State<V>, a: Action<V>): set<nat>
    requires Enabled(s, a)
  {
    match a
    case Swing(t) => {s.producers[t].node}
    case Link(t) => {s.producers[t].prev}
    case Look => {s.consumer.cursor}
    case Take => {s.consumer.found}
    case Delete => {s.consumer.behind}
    case _ => {}
  }

  /** On every run no step touches a freed node, each link is stored once, by the producer
      that swung the tail off the node, and a freed node has no link outstanding. */
  lemma MemorySafe<V>(s: State<V>, acts: seq<Action<V>>, s': State<V>, a: Action<V>)
    requires Inv(s) && Leads(s, acts, s') && Enabled(s', a)
    ensures forall n | n in Touched(s', a) :: n < |s'.mem| && !s'.mem[n].place.Unused?
    ensures a.Swing? ==> s'.mem[s'.producers[a.t].node].place == Private(a.t)
    ensures a.Link? ==>
              && s'.mem[s'.producers[a.t].prev].place.Queued?
              && s'.mem[s'.producers[a.t].prev].next == 0
              && s'.mem[s'.producers[a.t].prev].linker == a.t
    ensures a.Look? ==> s'.mem[s'.consumer.cursor].place.Queued?
    ensures a.Take? ==> s'.mem[s'.consumer.found].place.Queued?
    ensures a.Delete? ==>
              && s'.mem[s'.consumer.behind].place.Queued?
              && forall t | 0 <= t < |s'.producers| && s'.producers[t].Linking? ::
                   s'.producers[t].prev != s'.consumer.behind
  {
    RunInv(s, acts, s');
    StepKnown(s', a);
    if a.Swing? || a.Link? { ProducerKnown(s', a.t); }
    if a.Delete? {
      forall t | 0 <= t < |s'.producers| && s'.producers[t].Linking?
        ensures s'.producers[t].prev != s'.consumer.behind
      {
        ProducerKnown(s', t);
      }
    }
  }

  /** `try_pop_single` answers false exactly when nothing is left or the producer of the
      next value has not stored its link yet. */
  lemma FalseMeansPending<V>(s: State<V>, acts: seq<Action<V>>, s': State<V>)
    requires Inv(s) && Leads(s, acts, s') && s'.consumer.Looking?
    ensures s'.consumer.cursor < |s'.mem|
    ensures s'.mem[s'.consumer.cursor].next == 0 <==>
              s'.out == s'.order ||
              exists t | 0 <= t < |s'.producers| ::
                s'.producers[t].Linking? && s'.producers[t].prev == s'.consumer.cursor
  {
    RunInv(s, acts, s');
    OutKnown(s');
    SlotKnown(s', |s'.out|);
    var cursor := s'.consumer.cursor;
    if t :| 0 <= t < |s'.producers| && s'.producers[t].Linking? && s'.producers[t].prev == cursor {
      ProducerKnown(s', t);
    }
    if s'.mem[cursor].next == 0 && s'.out != s'.order {
      assert s'.producers[s'.mem[cursor].linker].Linking?;
    }
  }

  /** `empty_single` tells exactly whether every enqueued value has been delivered. */
  lemma EmptyIsExact<V>(s: State<V>, acts: seq<Action<V>>, s': State<V>)
    requires Inv(s) && Leads(s, acts, s') && s'.consumer.Resting?
    ensures s'.tail == s'.head <==> s'.out == s'.order
  {
    RunInv(s, acts, s');
    OutKnown(s');
    SlotKnown(s', |s'.out|);
    SlotKnown(s', |s'.order|);
  }

  /** The guards of the model only say where a thread stands: every call can go on. */
  lemma NothingBlocks<V>(s: State<V>, acts: seq<Action<V>>, s': State<V>, t: nat)
    requires Inv(s) && Leads(s, acts, s') && t < |s'.producers|
    ensures match s'.producers[t]
            case Idle => true
            case Reading(_) => Enabled(s', ReadTail(t))
            case Checking(_, _) => Enabled(s', Recheck(t))
            case Swinging(_, _) => Enabled(s', Swing(t)) || Enabled(s', SwingFail(t))
            case Linking(_, _) => Enabled(s', Link(t))
    ensures match s'.consumer
            case Resting => Enabled(s', StartPop) && Enabled(s', StartFlush)
            case Looking(_, _) => Enabled(s', Look)
            case Moving(_, _, _) => Enabled(s', Move)
            case Taking(_, _, _) => Enabled(s', Take)
            case Deleting(_, _, _) => Enabled(s', Delete)
  {
    hide Inv, Leads, NodeOk;
    RunInv(s, acts, s');
    ProducerKnown(s', t);
    TailKnown(s');
    SlotKnown(s', |s'.order|);
    SlotKnown(s', |s'.out|);
    if |s'.out| + 1 < |s'.chain| { SlotKnown(s', |s'.out| + 1); }
  }

  // ---------------------------------------------------------------- a flush is repeated pops

  function Pops<V>(k: nat): seq<Action<V>> {
    if k == 0 then [] else [StartPop, Look, Move, Take, Delete] + Pops(k - 1)
  }

  function Rounds<V>(k: nat): seq<Action<V>> {
    if k == 0 then [] else [Look, Move, Take, Delete] + Rounds(k - 1)
  }

  lemma {:induction false} LeadsOn<V>(s: State<V>, acts: seq<Action<V>>, s1: State<V>, more: seq<Action<V>>,
      s2: State<V>)
    requires Leads(s, acts, s1) && Leads(s1, more, s2)
    ensures Leads(s, acts + more, s2)
    decreases |acts|
  {
    hide Apply, Enabled;
    if acts == [] {
      assert acts + more == more;
    } else {
      LeadsOn(Apply(s, acts[0]), acts[1..], s1, more, s2);
      assert (acts + more)[1..] == acts[1..] + more;
    }
  }

  lemma StepFirst<V>(s: State<V>, a: Action<V>, acts: seq<Action<V>>, s': State<V>)
    requires Enabled(s, a) && Leads(Apply(s, a), acts, s')
    ensures Leads(s, [a] + acts, s')
  {
    assert ([a] + acts)[1..] == acts;
  }

  /** One round of the loop from a node with a link: deliver the value behind it, free it. */
  function Delivered<V>(s: State<V>, cursor: nat): State<V>
    requires cursor < |s.mem| && s.mem[cursor].next < |s.mem|
  {
    s.(mem := s.mem[cursor := s.mem[cursor].(place := Unused)], out := s.out + [s.mem[s.mem[cursor].next].data])
  }

  function AfterRound<V>(s: State<V>): State<V>
    requires s.consumer.Looking? && s.consumer.cursor < |s.mem| && s.mem[s.consumer.cursor].next < |s.mem|
  {
    var c := s.consumer;
    var next := s.mem[c.cursor].next;
    Delivered(s, c.cursor).(head := if c.flush then s.head else next,
                            consumer := if c.flush then Looking(true, next) else Resting)
  }

  lemma RoundSteps<V>(s: State<V>)
    requires s.consumer.Looking? && s.consumer.cursor < |s.mem| && 0 < s.mem[s.consumer.cursor].next < |s.mem|
    ensures Enabled(s, Look) && Enabled(Apply(s, Look), Move)
    ensures var s2 := Apply(Apply(s, Look), Move);
            Enabled(s2, Take) && Enabled(Apply(s2, Take), Delete) &&
            Apply(Apply(s2, Take), Delete) == AfterRound(s)
  {
  }

  lemma RoundFrom<V>(s: State<V>)
    requires s.consumer.Looking? && s.consumer.cursor < |s.mem| && 0 < s.mem[s.consumer.cursor].next < |s.mem|
    ensures Leads(s, [Look, Move, Take, Delete], AfterRound(s))
  {
    hide Apply, Enabled, AfterRound;
    RoundSteps(s);
    var s1 := Apply(s, Look);
    var s2 := Apply(s1, Move);
    var s3 := Apply(s2, Take);
    var s4 := Apply(s3, Delete);
    assert Leads(s4, [], s4);
    StepFirst(s3, Delete, [], s4);
    StepFirst(s2, Take, [Delete], s4);
    StepFirst(s1, Move, [Take, Delete], s4);
    StepFirst(s, Look, [Move, Take, Delete], s4);
    assert [Action<V>.Look] + ([Move] + ([Take] + ([Delete] + []))) == [Look, Move, Take, Delete];
  }

  /** The flush loop f, which keeps a head of its own, runs beside pops from p. */
  lemma {:induction false} LoopIsPops<V>(p: State<V>, f: State<V>) returns (k: nat, p': State<V>, f': State<V>)
    requires Inv(p) && p.consumer.Resting? && f == p.(head := f.head, consumer := Looking(true, p.head))
    ensures Leads(p, Pops(k), p') && Leads(f, Rounds(k), f')
    ensures p'.consumer.Resting? && f' == p'.(head := f'.head, consumer := Looking(true, p'.head))
    ensures Inv(p') && p'.head < |p'.mem| && p'.mem[p'.head].next == 0
    decreases |p.order| - |p.out|
  {
    SlotKnown(p, |p.out|);
    if p.mem[p.head].next == 0 {
      k, p', f' := 0, p, f;
    } else {
      SlotKnown(p, |p.out| + 1);
      var next := p.mem[p.head].next;
      var q := Apply(p, StartPop);
      RoundFrom(q);
      var p1 := Delivered(p, p.head).(head := next, consumer := Resting);
      assert p1 == Delivered(q, q.consumer.cursor).(head := next, consumer := Resting);
      hide Inv, SlotOk, NodeOk;
      StepFirst(p, StartPop, [Look, Move, Take, Delete], p1);
      assert [Action<V>.StartPop] + [Look, Move, Take, Delete] == [StartPop, Look, Move, Take, Delete];
      RunInv(p, [StartPop, Look, Move, Take, Delete], p1);
      RoundFrom(f);
      var f1 := Delivered(f, f.consumer.cursor).(consumer := Looking(true, next));
      k, p', f' := LoopIsPops(p1, f1);
      LeadsOn(p, [StartPop, Look, Move, Take, Delete], p1, Pops(k), p');
      LeadsOn(f, [Look, Move, Take, Delete], f1, Rounds(k), f');
      k := k + 1;
    }
  }

  /** At the end of the links both give up: the flush stores its head first. */
  lemma BothStop<V>(p: State<V>, f: State<V>)
    requires p.consumer.Resting? && p.head < |p.mem| && p.mem[p.head].next == 0
    requires f == p.(head := f.head, consumer := Looking(true, p.head))
    ensures Leads(f, [Look], p) && Leads(p, [StartPop, Look], p)
  {
    var q := Apply(p, StartPop);
    assert Enabled(f, Look) && Apply(f, Look) == p;
    assert Enabled(p, StartPop) && Enabled(q, Look) && Apply(q, Look) == p;
    hide Apply, Enabled;
    assert Leads(p, [], p);
    StepFirst(f, Look, [], p);
    StepFirst(q, Look, [], p);
    StepFirst(p, StartPop, [Look], p);
    assert [Action<V>.Look] + [] == [Look] && [Action<V>.StartPop] + [Look] == [StartPop, Look];
  }

  /** Undisturbed, `try_flush_single` and `try_pop_single` called until it answers false
      deliver the same values and leave the same queue. */
  lemma FlushIsPops<V>(s: State<V>) returns (k: nat, s': State<V>)
    requires Inv(s) && s.consumer.Resting?
    ensures Leads(s, [StartFlush] + Rounds(k) + [Look], s')
    ensures Leads(s, Pops(k) + [StartPop, Look], s')
    ensures s'.consumer.Resting? && s'.head < |s'.mem| && s'.mem[s'.head].next == 0
  {
    var f := Apply(s, StartFlush);
    assert Enabled(s, StartFlush) && f == s.(consumer := Looking(true, s.head));
    hide Inv, Apply, Enabled, Leads;
    var f';
    k, s', f' := LoopIsPops(s, f);
    BothStop(s', f');
    StartsFlush(s);
    LeadsOn(s, [StartFlush], f, Rounds(k), f');
    LeadsOn(s, [StartFlush] + Rounds(k), f', [Look], s');
    LeadsOn(s, Pops(k), s', [StartPop, Look], s');
  }

  lemma StartsFlush<V>(s: State<V>)
    requires s.consumer.Resting?
    ensures Leads(s, [StartFlush], Apply(s, StartFlush))
  {
    assert Leads(Apply(s, StartFlush), [], Apply(s, StartFlush));
  }

  // ---------------------------------------------------------------- a false answer behind a completed enqueue

  lemma OneMore<V>(s: State<V>, acts: seq<Action<V>>, s1: State<V>, a: Action<V>)
    requires Leads(s, acts, s1) && Enabled(s1, a)
    ensures Leads(s, acts + [a], Apply(s1, a))
  {
    var s2 := Apply(s1, a);
    hide Apply, Enabled;
    assert Leads(s2, [], s2);
    StepFirst(s1, a, [], s2);
    assert [a] + [] == [a];
    LeadsOn(s, acts, s1, [a], s2);
  }

  /** Producer t, undisturbed, has swung the tail to its node at `at`. */
  ghost predicate HasSwung<V>(s: State<V>, s': State<V>, t: nat, at: nat, data: V) {
    && t < |s.producers| && s'.producers == s.producers[t := Linking(at, s.tail)]
    && s'.tail == at && s'.order == s.order + [data] && s'.chain == s.chain + [at]
    && s'.out == s.out && s'.consumer == s.consumer && s'.head == s.head && |s'.mem| == |s.mem|
    && forall b | 0 <= b < |s.mem| && b != at ::
         s'.mem[b].next == s.mem[b].next && s'.mem[b].place == s.mem[b].place
  }

  lemma SwingSteps<V>(s: State<V>, t: nat, at: nat, data: V)
    requires t < |s.producers| && s.producers[t].Idle? && 0 < at < |s.mem| && s.mem[at].place.Unused?
    requires s.tail < |s.mem| && s.tail != at
    ensures var a, b, c, d := Action<V>.Construct(t, at, data), Action<V>.ReadTail(t), Action<V>.Recheck(t),
            Action<V>.Swing(t);
            && Enabled(s, a) && Enabled(Apply(s, a), b) && Enabled(Apply(Apply(s, a), b), c)
            && Enabled(Apply(Apply(Apply(s, a), b), c), d)
            && HasSwung(s, Apply(Apply(Apply(Apply(s, a), b), c), d), t, at, data)
  {
    var s1 := Apply(s, Construct(t, at, data));
    var s2 := Apply(s1, ReadTail(t));
    var s3 := Apply(s2, Recheck(t));
    assert Apply(s3, Swing(t)).producers == s.producers[t := Linking(at, s.tail)];
  }

  lemma SwingAlone<V>(r: State<V>, acts: seq<Action<V>>, s: State<V>, t: nat, at: nat, data: V)
      returns (acts': seq<Action<V>>, s': State<V>)
    requires Leads(r, acts, s) && Inv(s) && t < |s.producers| && s.producers[t].Idle?
    requires 0 < at < |s.mem| && s.mem[at].place.Unused?
    ensures Leads(r, acts', s') && Inv(s') && HasSwung(s, s', t, at, data)
  {
    TailIsNode(s);
    SwingSteps(s, t, at, data);
    hide Inv, Leads, Apply, Enabled, HasSwung;
    var s1 := Apply(s, Construct(t, at, data));
    var s2 := Apply(s1, ReadTail(t));
    var s3 := Apply(s2, Recheck(t));
    s' := Apply(s3, Swing(t));
    NextInv(s, Construct(t, at, data));
    NextInv(s1, ReadTail(t));
    NextInv(s2, Recheck(t));
    NextInv(s3, Swing(t));
    OneMore(r, acts, s, Construct(t, at, data));
    OneMore(r, acts + [Construct(t, at, data)], s1, ReadTail(t));
    OneMore(r, acts + [Construct(t, at, data)] + [ReadTail(t)], s2, Recheck(t));
    OneMore(r, acts + [Construct(t, at, data)] + [ReadTail(t)] + [Recheck(t)], s3, Swing(t));
    acts' := acts + [Construct(t, at, data)] + [ReadTail(t)] + [Recheck(t)] + [Swing(t)];
  }

  lemma TailIsNode<V>(s: State<V>)
    requires Inv(s)
    ensures 0 < s.tail < |s.mem| && s.mem[s.tail].place.Queued?
  {
    TailKnown(s);
    SlotKnown(s, |s.order|);
  }

  /** The queue after its constructor, with room for two nodes and two producers. */
  function Start<V>(dummy: V): State<V> {
    State([Node(dummy, 0, Unused, 0), Node(dummy, 0, Queued(0), 0), Node(dummy, 0, Unused, 0), Node(dummy, 0, Unused,
        0)],
          1, 1, [Idle, Idle], Resting, [1], [], [])
  }

  lemma StartIsInit<V>(dummy: V)
    ensures Init(Start(dummy)) && Leads(Start(dummy), [], Start(dummy))
  {}

  /** From the start: one producer swings the tail and pauses, another one enqueues to the
      end, and `try_pop_single` answers false although that enqueue has completed. */
  lemma FalseBehindCompleted<V>(dummy: V, x: V, y: V) returns (acts: seq<Action<V>>, s: State<V>)
    ensures Init(Start(dummy)) && Leads(Start(dummy), acts, s)
    ensures s.consumer.Looking? && s.consumer.cursor < |s.mem| && s.mem[s.consumer.cursor].next == 0
    ensures s.order == [x, y] && s.out == [] && |s.producers| == 2 && s.producers[0].Linking? && s.producers[1].Idle?
  {
    var r := Start(dummy);
    StartIsInit(dummy);
    hide Inv, Leads, Init;
    InitInv(r);
    var s1, s2;
    acts, s1 := SwingAlone(r, [], r, 0, 2, x);
    acts, s2 := SwingAlone(r, acts, s1, 1, 3, y);
    assert s2.order == [x, y];
    OneMore(r, acts, s2, Link(1));
    var s3 := Apply(s2, Link(1));
    OneMore(r, acts + [Link(1)], s3, StartPop);
    s := Apply(s3, StartPop);
    acts := acts + [Link(1)] + [StartPop];
  }
}
