/** The reference-counted free list of the vendored queue (`FreeList::add`,
    `FreeList::try_get`), one atomic access per step, any number of threads, any
    interleaving. Nodes are never freed while the list lives, so an address stays a
    node; ownership of a node moves through the list or between clients. */
module NodeFreeList {

  type Tid = nat
  /** A node, by its number; NULL is the null pointer. */
  type Ptr = int
  const NULL: Ptr := -1

  /** The should-be-on-freelist bit; the reference count is below it. */
  const FLAG := 0x8000_0000
  const WORD := 0x1_0000_0000

  function FetchAdd(v: nat, d: int): (w: nat)
    ensures w < WORD
    ensures 0 <= v + d < WORD ==> w == v + d
  {
    (v + d) % WORD
  }

  function RefBits(v: nat): nat { v % FLAG }

  /** The access a thread stands before. */
  datatype Op =
    | Idle
    // add and add_knowing_refcount_is_zero
    | AddMark | LoadHead | SetNext | SetRefs | Publish | Unpublish
    // try_get
    | GetHead | GetRefs | TryRef | GetNext | TryTake | DropTwo | DropOne

  /** `n` is the node worked on; `p` the other pointer held: the head value an adder
      installs over, the successor or the new head a taker has loaded. `refs` is the
      count a taker has loaded. An add made inside `try_get` goes on, when done, with
      the loop of `try_get` from `cur`. */
  datatype Pc = Pc(op: Op, n: Ptr, p: Ptr, refs: nat, inTryGet: bool, cur: Ptr)
  {
    /** Between raising the count of node m and lowering it again. */
    predicate Reads(m: Ptr) {
      (op.GetNext? || op.TryTake? || op.DropTwo? || op.DropOne?) && n == m
    }
    predicate Prepares() { op.LoadHead? || op.SetNext? || op.SetRefs? }
    predicate Publishes() { op.Publish? || op.Unpublish? }
    predicate UsesNode() { !op.Idle? && !op.GetHead? }
  }

  const IDLE := Pc(Idle, NULL, NULL, 0, false, NULL)

  /** Who is responsible for a node. */
  datatype Place =
    | Held(t: Tid)
    | Marking(t: Tid)
    | Waiting
    | Preparing(t: Tid)
    | Publishing(t: Tid)
    | OnList
    | Taking(t: Tid)
  {
    predicate Flagged() { Waiting? || Preparing? }
    predicate Counted() { Publishing? || OnList? || Taking? }
  }

  /** `place` and `readers` are auxiliary: the threads between raising and lowering
      the count of the node. */
  datatype Node = Node(refs: nat, next: Ptr, place: Place, readers: set<Tid>)

  /** `held` is what clients own: a pair is added when `try_get` returns the node and
      removed when `add` is called. `chain` is auxiliary. */
  datatype State = State(
    head: Ptr,
    nodes: seq<Node>,
    pcs: seq<Pc>,
    held: set<(Tid, Ptr)>,
    chain: seq<Ptr>
  )

  datatype Action =
    | CallAdd(t: Tid, n: Ptr)
    | CallTryGet(t: Tid)
    | HandOver(t: Tid, n: Ptr, u: Tid)
    | Access(t: Tid)

  // ---------------------------------------------------------------- one access

  /** `try_get` at the top of its loop with `cur` as the head it has seen. */
  function Loop(cur: Ptr): Pc {
    if cur == NULL then IDLE else IDLE.(op := GetRefs, n := cur)
  }

  function AfterAdd(p: Pc): Pc {
    if p.inTryGet then Loop(p.cur) else IDLE
  }

  /** The locals after the access. */
  function PcAfter(p: Pc, nd: Node, head: Ptr): Pc {
    match p.op
    case Idle => p
    case AddMark => if nd.refs == 0 then p.(op := LoadHead, inTryGet := false) else IDLE
    case LoadHead => p.(op := SetNext, p := head)
    case SetNext => p.(op := SetRefs)
    case SetRefs => p.(op := Publish)
    case Publish => if head == p.p then AfterAdd(p) else p.(op := Unpublish, p := head)
    case Unpublish => if nd.refs == 1 then p.(op := SetNext) else AfterAdd(p)
    case GetHead => Loop(head)
    case GetRefs => if RefBits(nd.refs) == 0 then IDLE.(op := GetHead) else p.(op := TryRef, refs := nd.refs)
    case TryRef => if nd.refs == p.refs then p.(op := GetNext) else IDLE.(op := GetHead)
    case GetNext => p.(op := TryTake, p := nd.next)
    case TryTake => if head == p.n then p.(op := DropTwo) else p.(op := DropOne, p := head)
    case DropTwo => IDLE
    case DropOne => if nd.refs == FLAG + 1 then p.(op := LoadHead, inTryGet := true, cur := p.p) else Loop(p.p)
  }

  /** The node worked on after the access of thread t. */
  function NodeAfter(t: Tid, p: Pc, nd: Node, head: Ptr): Node {
    match p.op
    case AddMark =>
      nd.(refs := FetchAdd(nd.refs, FLAG), place := if nd.refs == 0 then Preparing(t) else Waiting)
    case SetNext => nd.(next := p.p)
    case SetRefs => nd.(refs := 1, place := Publishing(t))
    case Publish => if head == p.p then nd.(place := OnList) else nd
    case Unpublish =>
      nd.(refs := FetchAdd(nd.refs, FLAG - 1), place := if nd.refs == 1 then Preparing(t) else Waiting)
    case TryRef =>
      if nd.refs == p.refs then nd.(refs := FetchAdd(nd.refs, 1), readers := nd.readers + {t}) else nd
    case TryTake => if head == p.n then nd.(place := Taking(t)) else nd
    case DropTwo => nd.(refs := FetchAdd(nd.refs, -2), readers := nd.readers - {t}, place := Held(t))
    case DropOne =>
      nd.(refs := FetchAdd(nd.refs, -1), readers := nd.readers - {t},
          place := if nd.refs == FLAG + 1 then Preparing(t) else nd.place)
    case _ => nd
  }

  function HeadAfter(p: Pc, head: Ptr): Ptr {
    if p.op.Publish? && head == p.p then p.n
    else if p.op.TryTake? && head == p.n then p.p
    else head
  }

  function ChainAfter(p: Pc, head: Ptr, chain: seq<Ptr>): seq<Ptr> {
    if p.op.Publish? && head == p.p then [p.n] + chain
    else if p.op.TryTake? && head == p.n && chain != [] then chain[1..]
    else chain
  }

  predicate IsPtr(s: State, p: Ptr) { NULL <= p < |s.nodes| }

  predicate IsNode(s: State, p: Ptr) { 0 <= p < |s.nodes| }

  predicate PcInRange(s: State, p: Pc) {
    && IsPtr(s, p.n) && IsPtr(s, p.p) && IsPtr(s, p.cur)
    && (p.UsesNode() ==> IsNode(s, p.n))
  }

  /** One atomic access by thread t. */
  ghost predicate AccessStep(s: State, t: Tid, s': State) {
    && t < |s.pcs| && !s.pcs[t].op.Idle?
    && var p := s.pcs[t];
       if p.op.GetHead? then
         s' == s.(pcs := s.pcs[t := Loop(s.head)])
       else
         && IsNode(s, p.n)
         && s' == State(
              HeadAfter(p, s.head),
              s.nodes[p.n := NodeAfter(t, p, s.nodes[p.n], s.head)],
              s.pcs[t := PcAfter(p, s.nodes[p.n], s.head)],
              if p.op.DropTwo? then s.held + {(t, p.n)} else s.held,
              ChainAfter(p, s.head, s.chain))
  }

  /** A client call, a hand-over between clients, or one atomic access. */
  ghost predicate Next(s: State, a: Action, s': State) {
    match a
    case CallAdd(t, n) =>
      && t < |s.pcs| && s.pcs[t].op.Idle? && (t, n) in s.held && IsNode(s, n)
      && s' == s.(held := s.held - {(t, n)},
                  nodes := s.nodes[n := s.nodes[n].(place := Marking(t))],
                  pcs := s.pcs[t := IDLE.(op := AddMark, n := n)])
    case CallTryGet(t) =>
      && t < |s.pcs| && s.pcs[t].op.Idle?
      && s' == s.(pcs := s.pcs[t := IDLE.(op := GetHead)])
    case HandOver(t, n, u) =>
      && (t, n) in s.held && IsNode(s, n)
      && s' == s.(held := s.held - {(t, n)} + {(u, n)},
                  nodes := s.nodes[n := s.nodes[n].(place := Held(u))])
    case Access(t) => AccessStep(s, t, s')
  }

  ghost predicate Init(s: State) {
    && s.head == NULL && s.chain == []
    && |s.pcs| < FLAG - 2
    && (forall t | 0 <= t < |s.pcs| :: s.pcs[t] == IDLE)
    && (forall n | 0 <= n < |s.nodes| ::
          && s.nodes[n].refs == 0 && s.nodes[n].next == NULL && s.nodes[n].readers == {}
          && s.nodes[n].place.Held? && (s.nodes[n].place.t, n) in s.held)
    && (forall c <- s.held :: IsNode(s, c.1) && s.nodes[c.1].place == Held(c.0))
  }

  ghost predicate IsRun(run: seq<State>, acts: seq<Action>) {
    && |run| == |acts| + 1
    && Init(run[0])
    && forall i | 0 <= i < |acts| :: Next(run[i], acts[i], run[i + 1])
  }

  // ---------------------------------------------------------------- invariant

  /** The word of a node: its readers, plus the reference of the list, of its adder or
      of its taker, plus the bit while it waits to be added. */
  predicate NodeOk(nd: Node) {
    && nd.refs == |nd.readers| + (if nd.place.Counted() then 1 else 0) + (if nd.place.Flagged() then FLAG else 0)
    && (nd.place.Waiting? ==> nd.readers != {})
    && (nd.place.Preparing? ==> nd.readers == {})
  }

  /** Thread t at p, working on a node in state nd. */
  predicate ThreadOk(t: Tid, p: Pc, nd: Node) {
    && (p.op.AddMark? ==> nd.place == Marking(t))
    && (p.Prepares() ==> nd.place == Preparing(t))
    && (p.Publishes() ==> nd.place == Publishing(t))
    && (p.op.DropTwo? ==> nd.place == Taking(t))
    && (p.Reads(p.n) <==> t in nd.readers)
    && (p.op.TryTake? || p.op.SetRefs? || p.op.Publish? ==> nd.next == p.p)
    && (p.op.TryRef? ==> RefBits(p.refs) != 0)
  }

  /** The thread a place names is at a matching point, working on node n. */
  predicate PlaceOk(s: State, n: Ptr, nd: Node) {
    match nd.place
    case Held(t) => (t, n) in s.held
    case Marking(t) => t < |s.pcs| && s.pcs[t].n == n && s.pcs[t].op.AddMark?
    case Preparing(t) => t < |s.pcs| && s.pcs[t].n == n && s.pcs[t].Prepares()
    case Publishing(t) => t < |s.pcs| && s.pcs[t].n == n && s.pcs[t].Publishes()
    case Taking(t) => t < |s.pcs| && s.pcs[t].n == n && s.pcs[t].op.DropTwo?
    case OnList => n in s.chain
    case Waiting => true
  }

  ghost predicate InRange(s: State) {
    && |s.pcs| < FLAG - 2
    && IsPtr(s, s.head)
    && (forall n | 0 <= n < |s.nodes| :: IsPtr(s, s.nodes[n].next))
    && (forall t | 0 <= t < |s.pcs| :: PcInRange(s, s.pcs[t]))
  }

  ghost predicate NodeInv(s: State) {
    forall n | 0 <= n < |s.nodes| :: NodeOk(s.nodes[n]) && PlaceOk(s, n, s.nodes[n])
  }

  predicate ReadersOk(s: State, n: Ptr, nd: Node) {
    forall t: nat <- nd.readers :: t < |s.pcs| && s.pcs[t].Reads(n)
  }

  ghost predicate ThreadInv(s: State) {
    && (forall t | 0 <= t < |s.pcs| && s.pcs[t].UsesNode() ::
          IsNode(s, s.pcs[t].n) && ThreadOk(t, s.pcs[t], s.nodes[s.pcs[t].n]))
    && (forall n | 0 <= n < |s.nodes| :: ReadersOk(s, n, s.nodes[n]))
  }

  ghost predicate HeldInv(s: State) {
    forall c <- s.held :: IsNode(s, c.1) && s.nodes[c.1].place == Held(c.0)
  }

  function At(chain: seq<Ptr>, i: nat): Ptr {
    if i < |chain| then chain[i] else NULL
  }

  /** `chain` is what one meets following next pointers from the head: every node on
      the list, each once. */
  ghost predicate ChainInv(s: State) { Linked(s.nodes, s.head, s.chain) }

  predicate Linked(nodes: seq<Node>, head: Ptr, chain: seq<Ptr>) {
    && head == At(chain, 0)
    && (forall i | 0 <= i < |chain| :: 0 <= chain[i] < |nodes| && nodes[chain[i]].next == At(chain, i + 1))
    && (forall i | 0 <= i < |chain| :: nodes[chain[i]].place.OnList?)
    && (forall i, j | 0 <= i < j < |chain| :: chain[i] != chain[j])
  }

  ghost predicate Inv(s: State) {
    InRange(s) && NodeInv(s) && ThreadInv(s) && HeldInv(s) && ChainInv(s)
  }

  // ---------------------------------------------------------------- one access keeps what is local

  /** An access keeps the word of its node right. */
  lemma AccessNodeOk(t: Tid, p: Pc, nd: Node, head: Ptr)
    requires NodeOk(nd) && ThreadOk(t, p, nd) && |nd.readers| < FLAG - 2
    requires p.op.TryTake? && head == p.n ==> nd.place.OnList?
    ensures NodeOk(NodeAfter(t, p, nd, head))
  {
  }

  lemma AccessThreadOk(t: Tid, p: Pc, nd: Node, head: Ptr)
    requires p.UsesNode() && NodeOk(nd) && ThreadOk(t, p, nd) && |nd.readers| < FLAG - 2
    ensures var q := PcAfter(p, nd, head);
            q.UsesNode() && q.n == p.n ==> ThreadOk(t, q, NodeAfter(t, p, nd, head))
  {
  }

  /** An access of t keeps what any other thread u relies on at the same node. */
  lemma AccessOtherOk(t: Tid, p: Pc, nd: Node, head: Ptr, u: Tid, q: Pc)
    requires u != t && p.n == q.n
    requires NodeOk(nd) && ThreadOk(t, p, nd) && ThreadOk(u, q, nd) && |nd.readers| < FLAG - 2
    requires p.op.TryTake? && head == p.n ==> nd.place.OnList?
    ensures ThreadOk(u, q, NodeAfter(t, p, nd, head))
  {
  }

  // ---------------------------------------------------------------- induction

  ghost predicate NodeAccess(s: State, t: Tid, s': State) {
    AccessStep(s, t, s') && s.pcs[t].UsesNode()
  }

  lemma FewReaders(s: State, n: Ptr)
    requires ThreadInv(s) && IsNode(s, n)
    ensures |s.nodes[n].readers| <= |s.pcs|
  {
    var r := s.nodes[n].readers;
    assert ReadersOk(s, n, s.nodes[n]);
    assert r <= Numbers(|s.pcs|);
    assert Numbers(|s.pcs|) == r + (Numbers(|s.pcs|) - r);
  }

  function Numbers(k: nat): (r: set<nat>)
    ensures forall i: nat :: i in r <==> i < k
    ensures |r| == k
  {
    if k == 0 then {} else Numbers(k - 1) + {k - 1}
  }

  lemma HeadIsOnList(s: State)
    requires ChainInv(s) && s.head != NULL
    ensures IsNode(s, s.head) && s.nodes[s.head].place.OnList?
    ensures s.chain != [] && s.chain[0] == s.head
  {
  }

  lemma PcAfterInRange(s: State, p: Pc, nd: Node)
    requires PcInRange(s, p) && IsPtr(s, nd.next) && IsPtr(s, s.head)
    ensures PcInRange(s, PcAfter(p, nd, s.head))
  {
  }

  lemma AccessInRange(s: State, t: Tid, s': State)
    requires InRange(s) && NodeAccess(s, t, s')
    ensures InRange(s')
  {
    var p := s.pcs[t];
    assert PcInRange(s, p);
    PcAfterInRange(s, p, s.nodes[p.n]);
    forall u | 0 <= u < |s'.pcs|
      ensures PcInRange(s', s'.pcs[u])
    {
      assert PcInRange(s, s'.pcs[u]);
    }
  }

  lemma NodeKnown(s: State, i: Ptr)
    requires Inv(s) && IsNode(s, i)
    ensures NodeOk(s.nodes[i]) && PlaceOk(s, i, s.nodes[i]) && |s.nodes[i].readers| < FLAG - 2
    ensures s.head == i ==> s.nodes[i].place.OnList?
  {
    FewReaders(s, i);
    if s.head == i { HeadIsOnList(s); }
  }

  lemma ThreadKnown(s: State, t: Tid)
    requires Inv(s) && t < |s.pcs|
    ensures PcInRange(s, s.pcs[t])
    ensures s.pcs[t].UsesNode() ==> ThreadOk(t, s.pcs[t], s.nodes[s.pcs[t].n])
  {
  }

  lemma AccessNodeInv(s: State, t: Tid, s': State, i: Ptr)
    requires Inv(s) && NodeAccess(s, t, s') && IsNode(s, i)
    ensures NodeOk(s'.nodes[i])
  {
    hide Inv, NodeOk, ThreadOk, PlaceOk, NodeAfter, PcAfter, HeadAfter, ChainAfter;
    NodeKnown(s, i);
    var n := s.pcs[t].n;
    if i == n {
      ThreadKnown(s, t);
      AccessNodeOk(t, s.pcs[t], s.nodes[n], s.head);
    }
  }

  /** If the place names thread t, then t, at p, is where that place says. */
  predicate Matches(place: Place, t: Tid, p: Pc, n: Ptr) {
    match place
    case Marking(u) => u == t ==> p.n == n && p.op.AddMark?
    case Preparing(u) => u == t ==> p.n == n && p.Prepares()
    case Publishing(u) => u == t ==> p.n == n && p.Publishes()
    case Taking(u) => u == t ==> p.n == n && p.op.DropTwo?
    case _ => true
  }

  lemma AccessMatches(t: Tid, p: Pc, nd: Node, head: Ptr)
    requires p.UsesNode() && NodeOk(nd) && ThreadOk(t, p, nd) && Matches(nd.place, t, p, p.n)
    ensures Matches(NodeAfter(t, p, nd, head).place, t, PcAfter(p, nd, head), p.n)
  {}

  /** A place changes in favour of the accessing thread, of the list, or of nobody. */
  lemma AccessPlace(t: Tid, p: Pc, nd: Node, head: Ptr)
    requires p.UsesNode()
    ensures var l := NodeAfter(t, p, nd, head).place;
            || (l == nd.place && !(p.op.TryTake? &&
                head == p.n)) || l.Waiting? || l == Preparing(t) || l == Publishing(t) || l == Taking(t)
            || (l.OnList? && p.op.Publish? && head == p.p)
            || (l == Held(t) && p.op.DropTwo?)
  {}

  lemma PlaceMatches(s: State, t: Tid, n: Ptr)
    requires IsNode(s, n) && t < |s.pcs| && PlaceOk(s, n, s.nodes[n])
    ensures Matches(s.nodes[n].place, t, s.pcs[t], n)
  {}

  lemma AccessPlaceInv(s: State, t: Tid, s': State, i: Ptr)
    requires Inv(s) && NodeAccess(s, t, s') && IsNode(s, i)
    ensures PlaceOk(s', i, s'.nodes[i])
  {
    if s.head == s.pcs[t].n { HeadIsOnList(s); }
    hide Inv, NodeOk, ThreadOk, NodeAfter, PcAfter, HeadAfter;
    NodeKnown(s, i);
    if i == s.pcs[t].n {
      ThreadKnown(s, t);
      PlaceMatches(s, t, i);
      AccessMatches(t, s.pcs[t], s.nodes[i], s.head);
      AccessPlace(t, s.pcs[t], s.nodes[i], s.head);
    }
  }

  /** A thread that goes on with another node is no reader of it. */
  lemma NewNodeOk(s: State, t: Tid, m: Ptr)
    requires Inv(s) && t < |s.pcs| && IsNode(s, m) && m != s.pcs[t].n
    ensures ThreadOk(t, IDLE.(op := GetRefs, n := m), s.nodes[m])
  {
    assert ReadersOk(s, m, s.nodes[m]);
    hide Inv;
  }

  lemma AccessMoves(p: Pc, nd: Node, head: Ptr)
    ensures var q := PcAfter(p, nd, head);
            q.UsesNode() && q.n != p.n ==> q == IDLE.(op := GetRefs, n := q.n)
  {}

  lemma AccessThreadInv(s: State, t: Tid, s': State, u: Tid)
    requires Inv(s) && NodeAccess(s, t, s') && u < |s.pcs| && InRange(s')
    requires s'.pcs[u].UsesNode()
    ensures IsNode(s', s'.pcs[u].n) && ThreadOk(u, s'.pcs[u], s'.nodes[s'.pcs[u].n])
  {
    assert PcInRange(s', s'.pcs[u]);
    hide Inv, InRange, NodeOk, ThreadOk, PlaceOk, NodeAfter, PcAfter, HeadAfter, ChainAfter;
    var p, q := s.pcs[t], s'.pcs[u];
    ThreadKnown(s, t);
    ThreadKnown(s, u);
    NodeKnown(s, p.n);
    if u == t {
      AccessThreadOk(t, p, s.nodes[p.n], s.head);
      if q.n != p.n {
        AccessMoves(p, s.nodes[p.n], s.head);
        NewNodeOk(s, t, q.n);
      }
    } else if q.n == p.n {
      AccessOtherOk(t, p, s.nodes[p.n], s.head, u, q);
    }
  }

  lemma AccessReaders(s: State, t: Tid, s': State, i: Ptr)
    requires Inv(s) && NodeAccess(s, t, s') && IsNode(s, i)
    ensures ReadersOk(s', i, s'.nodes[i])
  {
    assert ReadersOk(s, i, s.nodes[i]);
  }

  lemma AccessHeld(s: State, t: Tid, s': State)
    requires Inv(s) && NodeAccess(s, t, s')
    ensures HeldInv(s')
  {
    var p := s.pcs[t];
    if s.head == p.n { HeadIsOnList(s); }
    assert NodeOk(s.nodes[p.n]) && ThreadOk(t, p, s.nodes[p.n]);
    FewReaders(s, p.n);
  }

  /** The winning CAS of a taker: the head is the node it holds a reference to, and the
      successor it loaded earlier is still the node's true successor. */
  lemma TakeInstallsSuccessor(s: State, t: Tid)
    requires Inv(s) && t < |s.pcs| && s.pcs[t].op.TryTake? && s.pcs[t].n == s.head
    ensures s.chain != [] && s.chain[0] == s.head
    ensures s.pcs[t].p == s.nodes[s.head].next == At(s.chain, 1)
  {
    HeadIsOnList(s);
    assert ThreadOk(t, s.pcs[t], s.nodes[s.head]);
  }

  lemma TakeChain(s: State, t: Tid, s': State)
    requires Inv(s) && NodeAccess(s, t, s') && s.pcs[t].op.TryTake? && s.pcs[t].n == s.head
    ensures ChainInv(s')
  {
    TakeInstallsSuccessor(s, t);
  }

  lemma LinkedMore(nodes: seq<Node>, head: Ptr, chain: seq<Ptr>, n: nat, nd: Node)
    requires Linked(nodes, head, chain) && n < |nodes| && !nodes[n].place.OnList?
    requires nd.next == head && nd.place.OnList?
    ensures Linked(nodes[n := nd], n, [n] + chain)
  {}

  lemma PublishChain(s: State, t: Tid, s': State)
    requires Inv(s) && NodeAccess(s, t, s') && s.pcs[t].op.Publish? && s.pcs[t].p == s.head
    ensures ChainInv(s')
  {
    assert ChainInv(s);
    hide Inv, Linked;
    ThreadKnown(s, t);
    var n := s.pcs[t].n;
    LinkedMore(s.nodes, s.head, s.chain, n, s'.nodes[n]);
  }

  lemma OtherChain(s: State, t: Tid, s': State)
    requires Inv(s) && NodeAccess(s, t, s')
    requires HeadAfter(s.pcs[t], s.head) == s.head && ChainAfter(s.pcs[t], s.head, s.chain) == s.chain
    ensures ChainInv(s')
  {
    var p := s.pcs[t];
    var nd := s.nodes[p.n];
    assert NodeOk(nd) && ThreadOk(t, p, nd);
    FewReaders(s, p.n);
    if s.head == p.n { HeadIsOnList(s); }
    var nd' := s'.nodes[p.n];
    assert nd.place.OnList? ==> nd'.place.OnList? && nd'.next == nd.next;
  }

  lemma AccessChain(s: State, t: Tid, s': State)
    requires Inv(s) && NodeAccess(s, t, s')
    ensures ChainInv(s')
  {
    var p := s.pcs[t];
    if p.op.TryTake? && p.n == s.head {
      TakeChain(s, t, s');
    } else if p.op.Publish? && p.p == s.head {
      PublishChain(s, t, s');
    } else {
      OtherChain(s, t, s');
    }
  }

  lemma AccessInv(s: State, t: Tid, s': State)
    requires Inv(s) && NodeAccess(s, t, s')
    ensures Inv(s')
  {
    AccessInRange(s, t, s');
    AccessHeld(s, t, s');
    AccessChain(s, t, s');
    forall i | 0 <= i < |s'.nodes|
      ensures NodeOk(s'.nodes[i]) && PlaceOk(s', i, s'.nodes[i]) && ReadersOk(s', i, s'.nodes[i])
    {
      AccessNodeInv(s, t, s', i);
      AccessPlaceInv(s, t, s', i);
      AccessReaders(s, t, s', i);
    }
    forall u | 0 <= u < |s'.pcs| && s'.pcs[u].UsesNode()
      ensures IsNode(s', s'.pcs[u].n) && ThreadOk(u, s'.pcs[u], s'.nodes[s'.pcs[u].n])
    {
      AccessThreadInv(s, t, s', u);
    }
  }

  /** A thread not working on a node moves to a point where it relies on nothing. */
  ghost predicate Enters(s: State, t: Tid, p: Pc, s': State) {
    && t < |s.pcs| && !s.pcs[t].UsesNode()
    && s' == s.(pcs := s.pcs[t := p])
    && (p == IDLE.(op := GetHead) || p == Loop(s.head))
  }

  lemma EnterInRange(s: State, t: Tid, p: Pc, s': State)
    requires InRange(s) && Enters(s, t, p, s')
    ensures InRange(s')
  {
    forall u | 0 <= u < |s'.pcs|
      ensures PcInRange(s', s'.pcs[u])
    {
      assert PcInRange(s, s.pcs[u]);
    }
  }

  lemma EnterThreadInv(s: State, t: Tid, p: Pc, s': State)
    requires InRange(s) && ThreadInv(s) && Enters(s, t, p, s')
    ensures ThreadInv(s')
  {
    forall i | 0 <= i < |s.nodes|
      ensures ReadersOk(s', i, s.nodes[i]) && t !in s.nodes[i].readers
    {
      assert ReadersOk(s, i, s.nodes[i]);
    }
  }

  lemma EnterInv(s: State, t: Tid, p: Pc, s': State)
    requires Inv(s) && Enters(s, t, p, s')
    ensures Inv(s')
  {
    EnterInRange(s, t, p, s');
    EnterThreadInv(s, t, p, s');
    forall i | 0 <= i < |s.nodes|
      ensures PlaceOk(s', i, s.nodes[i])
    {
      assert PlaceOk(s, i, s.nodes[i]);
    }
  }

  /** A client's call or hand-over: the place of a node it holds changes with its pc. */
  ghost predicate Passes(s: State, t: Tid, n: Ptr, p: Pc, place: Place, held: set<(Tid, Ptr)>, s': State) {
    && IsNode(s, n) && (t, n) in s.held
    && s' == s.(held := held, nodes := s.nodes[n := s.nodes[n].(place := place)],
                pcs := if t < |s.pcs| then s.pcs[t := p] else s.pcs)
    && (if place == Marking(t) then t < |s.pcs| && s.pcs[t].op.Idle? && p == IDLE.(op := AddMark, n := n)
                                    && held == s.held - {(t, n)}
        else place.Held? && (t < |s.pcs| ==> p == s.pcs[t]) && held == s.held - {(t, n)} + {(place.t, n)})
  }

  lemma HeldKnown(s: State, t: Tid, n: Ptr)
    requires Inv(s) && (t, n) in s.held
    ensures IsNode(s, n) && s.nodes[n].place == Held(t)
  {
    var c := (t, n);
    assert c in s.held;
  }

  lemma PassesInRange(s: State, t: Tid, n: Ptr, p: Pc, place: Place, held: set<(Tid, Ptr)>, s': State)
    requires InRange(s) && Passes(s, t, n, p, place, held, s')
    ensures InRange(s')
  {
    forall v | 0 <= v < |s'.pcs|
      ensures PcInRange(s', s'.pcs[v])
    {
      assert PcInRange(s, s.pcs[v]);
    }
  }

  lemma PassesNode(s: State, t: Tid, n: Ptr, p: Pc, place: Place, held: set<(Tid, Ptr)>, s': State, i: Ptr)
    requires Inv(s) && Passes(s, t, n, p, place, held, s') && IsNode(s, i)
    ensures NodeOk(s'.nodes[i]) && PlaceOk(s', i, s'.nodes[i])
  {
    hide Inv;
    HeldKnown(s, t, n);
    NodeKnown(s, i);
  }

  lemma PassesReaders(s: State, t: Tid, n: Ptr, p: Pc, place: Place, held: set<(Tid, Ptr)>, s': State, i: Ptr)
    requires Inv(s) && Passes(s, t, n, p, place, held, s') && IsNode(s, i)
    ensures ReadersOk(s', i, s'.nodes[i])
  {
    assert ReadersOk(s, i, s.nodes[i]);
    hide Inv;
  }

  lemma PassesThread(s: State, t: Tid, n: Ptr, p: Pc, place: Place, held: set<(Tid, Ptr)>, s': State, u: Tid)
    requires Inv(s) && Passes(s, t, n, p, place, held, s') && u < |s.pcs| && s'.pcs[u].UsesNode()
    ensures IsNode(s', s'.pcs[u].n) && ThreadOk(u, s'.pcs[u], s'.nodes[s'.pcs[u].n])
  {
    assert ReadersOk(s, n, s.nodes[n]);
    hide Inv;
    HeldKnown(s, t, n);
    ThreadKnown(s, u);
  }

  lemma PassesHeld(s: State, t: Tid, n: Ptr, p: Pc, place: Place, held: set<(Tid, Ptr)>, s': State)
    requires Inv(s) && Passes(s, t, n, p, place, held, s')
    ensures HeldInv(s')
  {
    HeldKnown(s, t, n);
    forall c <- s'.held ensures IsNode(s', c.1) && s'.nodes[c.1].place == Held(c.0) {
      if c in s.held {
        HeldKnown(s, c.0, c.1);
        assert c.1 == n ==> c == (t, n);
      }
    }
  }

  lemma PassesChain(s: State, t: Tid, n: Ptr, p: Pc, place: Place, held: set<(Tid, Ptr)>, s': State)
    requires Inv(s) && Passes(s, t, n, p, place, held, s')
    ensures ChainInv(s')
  {
    HeldKnown(s, t, n);
    assert ChainInv(s);
    hide Inv;
    assert !s.nodes[n].place.OnList?;
  }

  lemma PassesInv(s: State, t: Tid, n: Ptr, p: Pc, place: Place, held: set<(Tid, Ptr)>, s': State)
    requires Inv(s) && Passes(s, t, n, p, place, held, s')
    ensures Inv(s')
  {
    PassesInRange(s, t, n, p, place, held, s');
    PassesHeld(s, t, n, p, place, held, s');
    PassesChain(s, t, n, p, place, held, s');
    forall i | 0 <= i < |s'.nodes|
      ensures NodeOk(s'.nodes[i]) && PlaceOk(s', i, s'.nodes[i]) && ReadersOk(s', i, s'.nodes[i])
    {
      PassesNode(s, t, n, p, place, held, s', i);
      PassesReaders(s, t, n, p, place, held, s', i);
    }
    forall u | 0 <= u < |s'.pcs| && s'.pcs[u].UsesNode()
      ensures IsNode(s', s'.pcs[u].n) && ThreadOk(u, s'.pcs[u], s'.nodes[s'.pcs[u].n])
    {
      PassesThread(s, t, n, p, place, held, s', u);
    }
    hide NodeOk, PlaceOk, ReadersOk, ThreadOk, InRange, HeldInv, ChainInv;
  }

  /** Every step of every thread keeps the invariant. */
  lemma NextInv(s: State, a: Action, s': State)
    requires Inv(s) && Next(s, a, s')
    ensures Inv(s')
  {
    match a
    case CallAdd(t, n) => PassesInv(s, t, n, IDLE.(op := AddMark, n := n), Marking(t), s.held - {(t, n)}, s');
    case CallTryGet(t) => EnterInv(s, t, IDLE.(op := GetHead), s');
    case HandOver(t, n, u) =>
      PassesInv(s, t, n, if t < |s.pcs| then s.pcs[t] else IDLE, Held(u), s.held - {(t, n)} + {(u, n)}, s');
    case Access(t) =>
      if s.pcs[t].op.GetHead? {
        EnterInv(s, t, Loop(s.head), s');
      } else {
        AccessInv(s, t, s');
      }
  }

  lemma InitInv(s: State)
    requires Init(s)
    ensures Inv(s)
  {}

  lemma {:induction false} RunInv(run: seq<State>, acts: seq<Action>, i: nat)
    requires IsRun(run, acts) && i < |run|
    ensures Inv(run[i])
  {
    hide Inv, Next;
    if i == 0 {
      InitInv(run[0]);
    } else {
      RunInv(run, acts, i - 1);
      NextInv(run[i - 1], acts[i - 1], run[i]);
    }
  }

  // ---------------------------------------------------------------- results

  /** The readers of node n: the threads between raising and lowering its count. */
  function ReadersOf(s: State, n: Ptr): (r: set<Tid>) {
    set t: nat | t < |s.pcs| && s.pcs[t].Reads(n)
  }

  /** Following next pointers from p meets exactly the nodes of `chain` and ends. */
  predicate Follows(s: State, p: Ptr, chain: seq<Ptr>)
    decreases |chain|
  {
    if chain == [] then p == NULL
    else IsNode(s, p) && chain[0] == p && p !in chain[1..] && Follows(s, s.nodes[p].next, chain[1..])
  }

  lemma {:induction false} FollowsChain(s: State, k: nat)
    requires ChainInv(s) && k <= |s.chain|
    ensures Follows(s, At(s.chain, k), s.chain[k..])
    decreases |s.chain| - k
  {
    if k < |s.chain| {
      FollowsChain(s, k + 1);
      assert s.chain[k..][1..] == s.chain[k + 1..];
    }
  }

  /** Safety over whole runs. No node is owned twice; the list is a finite chain
      without repetition of nodes nobody owns; and the low bits of a node's word are
      its readers plus one for the list or an adder or taker of the node. */
  lemma FreeListSafety(run: seq<State>, acts: seq<Action>, i: nat)
    requires IsRun(run, acts) && i < |run|
    ensures forall c <- run[i].held, d <- run[i].held :: c.1 == d.1 ==> c.0 == d.0
    ensures Follows(run[i], run[i].head, run[i].chain)
    ensures forall c <- run[i].held :: c.1 !in run[i].chain
    ensures forall n | 0 <= n < |run[i].nodes| ::
              var nd := run[i].nodes[n];
              RefBits(nd.refs) == |ReadersOf(run[i], n)| + (if nd.place.Counted() then 1 else 0)
  {
    RunInv(run, acts, i);
    var s := run[i];
    FollowsChain(s, 0);
    assert s.chain[0..] == s.chain;
    forall n | 0 <= n < |s.nodes|
      ensures RefBits(s.nodes[n].refs) == |ReadersOf(s, n)| + (if s.nodes[n].place.Counted() then 1 else 0)
    {
      WordOfNode(s, n);
    }
  }

  lemma ReadersAreReaders(s: State, n: Ptr)
    requires ThreadInv(s) && IsNode(s, n)
    ensures s.nodes[n].readers == ReadersOf(s, n)
  {
    assert ReadersOk(s, n, s.nodes[n]);
    forall t | t in ReadersOf(s, n)
      ensures t in s.nodes[n].readers
    {
      assert ThreadOk(t, s.pcs[t], s.nodes[s.pcs[t].n]);
    }
  }

  lemma WordOfNode(s: State, n: Ptr)
    requires Inv(s) && IsNode(s, n)
    ensures RefBits(s.nodes[n].refs) == |ReadersOf(s, n)| + (if s.nodes[n].place.Counted() then 1 else 0)
    ensures s.nodes[n].readers == ReadersOf(s, n)
  {
    ReadersAreReaders(s, n);
    FewReaders(s, n);
    LowBits(s.nodes[n]);
  }

  lemma LowBits(nd: Node)
    requires NodeOk(nd) && |nd.readers| < FLAG - 2
    ensures RefBits(nd.refs) == |nd.readers| + (if nd.place.Counted() then 1 else 0)
  {
  }

  /** While some thread counts as a reader of a node, its next pointer stands still. */
  lemma ReferencedNextIsStable(run: seq<State>, acts: seq<Action>, i: nat, n: Ptr)
    requires IsRun(run, acts) && i < |acts| && IsNode(run[i], n)
    requires ReadersOf(run[i], n) != {}
    ensures |run[i + 1].nodes| == |run[i].nodes| && run[i + 1].nodes[n].next == run[i].nodes[n].next
  {
    RunInv(run, acts, i);
    var s := run[i];
    WordOfNode(s, n);
    assert NodeOk(s.nodes[n]);
    assert Next(s, acts[i], run[i + 1]);
    if acts[i].Access? && s.pcs[acts[i].t].UsesNode() && s.pcs[acts[i].t].n == n {
      assert ThreadOk(acts[i].t, s.pcs[acts[i].t], s.nodes[n]);
    }
  }

  lemma WinningTakeStep(s: State, t: Tid, s': State)
    requires Inv(s) && AccessStep(s, t, s') && s.pcs[t].op.TryTake? && s.pcs[t].n == s.head
    ensures s.chain != [] && s.chain[0] == s.head
    ensures s'.chain == s.chain[1..] && s'.head == At(s.chain, 1)
    ensures IsNode(s', s.head) && s'.nodes[s.head].place.Taking?
  {
    TakeInstallsSuccessor(s, t);
  }

  /** A winning head CAS of `try_get` takes the first node of the list, installs its
      true successor, and hands out a node that nobody owned; the should-be-on-list
      bit of the node is then clear, as the code asserts. */
  lemma WinningTake(run: seq<State>, acts: seq<Action>, i: nat)
    requires IsRun(run, acts) && i < |acts| && acts[i].Access?
    requires acts[i].t < |run[i].pcs|
    requires run[i].pcs[acts[i].t].op.TryTake? && run[i].pcs[acts[i].t].n == run[i].head
    ensures run[i].chain != [] && run[i].chain[0] == run[i].head
    ensures run[i + 1].chain == run[i].chain[1..] && run[i + 1].head == At(run[i].chain, 1)
    ensures forall c <- run[i].held :: c.1 != run[i].head
    ensures IsNode(run[i + 1], run[i].head) && run[i + 1].nodes[run[i].head].refs < FLAG
  {
    RunInv(run, acts, i);
    RunInv(run, acts, i + 1);
    assert Next(run[i], acts[i], run[i + 1]);
    WinningTakeStep(run[i], acts[i].t, run[i + 1]);
    FewReaders(run[i + 1], run[i].head);
    assert NodeOk(run[i + 1].nodes[run[i].head]);
  }

  /** No node is lost: when no thread is inside the list's operations, each node is on
      the list or owned by a client, and its word is 1 or 0 accordingly. */
  lemma NothingLostAtRest(run: seq<State>, acts: seq<Action>, i: nat, n: Ptr)
    requires IsRun(run, acts) && i < |run| && IsNode(run[i], n)
    requires forall t | 0 <= t < |run[i].pcs| :: run[i].pcs[t].op.Idle?
    ensures (n in run[i].chain && run[i].nodes[n].refs == 1) ||
            ((exists c <- run[i].held :: c.1 == n) && run[i].nodes[n].refs == 0)
  {
    RunInv(run, acts, i);
    var s := run[i];
    var nd := s.nodes[n];
    assert NodeOk(nd) && PlaceOk(s, n, nd) && ReadersOk(s, n, nd);
    assert forall t: nat :: t !in nd.readers;
    if nd.place.Held? {
      assert (nd.place.t, n) in s.held;
    }
  }

  ghost predicate CanStep(s: State, a: Action) { exists s' :: Next(s, a, s') }

  lemma CanAccess(s: State, t: Tid)
    requires t < |s.pcs| && (s.pcs[t].UsesNode() ==> IsNode(s, s.pcs[t].n))
    ensures CanStep(s, if s.pcs[t].op.Idle? then CallTryGet(t) else Access(t))
  {
    hide PcAfter, NodeAfter, HeadAfter, ChainAfter;
    var p := s.pcs[t];
    if p.op.Idle? {
      assert Next(s, CallTryGet(t), s.(pcs := s.pcs[t := IDLE.(op := GetHead)]));
    } else if p.op.GetHead? {
      assert Next(s, Access(t), s.(pcs := s.pcs[t := Loop(s.head)]));
    } else {
      var s' := State(
        HeadAfter(p, s.head),
        s.nodes[p.n := NodeAfter(t, p, s.nodes[p.n], s.head)],
        s.pcs[t := PcAfter(p, s.nodes[p.n], s.head)],
        if p.op.DropTwo? then s.held + {(t, p.n)} else s.held,
        ChainAfter(p, s.head, s.chain));
      assert Next(s, Access(t), s');
    }
  }

  /** The guards of the model only say where a thread stands: on every run each thread inside an
      operation can take its next access, and each other one can begin. */
  lemma NothingBlocks(run: seq<State>, acts: seq<Action>, i: nat, t: Tid)
    requires IsRun(run, acts) && i < |run| && t < |run[i].pcs|
    ensures CanStep(run[i], if run[i].pcs[t].op.Idle? then CallTryGet(t) else Access(t))
  {
    hide Inv, IsRun, CanStep;
    RunInv(run, acts, i);
    InRangeOf(run[i], t);
    CanAccess(run[i], t);
  }

  lemma InRangeOf(s: State, t: Tid)
    requires Inv(s) && t < |s.pcs|
    ensures s.pcs[t].UsesNode() ==> IsNode(s, s.pcs[t].n)
  {}

  // ---------------------------------------------------------------- what try_get answers

  /** Thread t is inside `try_get`, an add of its own included. */
  predicate InTryGet(p: Pc) {
    || p.op.GetHead? || p.op.GetRefs? || p.op.TryRef? || p.op.GetNext? || p.op.TryTake? || p.op.DropTwo? ||
        p.op.DropOne?
    || (p.inTryGet && (p.Prepares() || p.Publishes()))
  }

  /** It goes on from a null head that it has read. */
  predicate CarriesNull(p: Pc) {
    (p.op.DropOne? && p.p == NULL) || (p.inTryGet && (p.Prepares() || p.Publishes()) && p.cur == NULL)
  }

  /** At step j thread t, inside a call that is not over before step i, reads a null head. */
  ghost predicate ReadsNull(run: seq<State>, acts: seq<Action>, j: nat, i: nat, t: Tid) {
    && j <= i < |run| == |acts| + 1 && j < |acts| && acts[j] == Access(t) && run[j].head == NULL
    && t < |run[j].pcs| && (run[j].pcs[t].op.GetHead? || run[j].pcs[t].op.TryTake?)
    && forall k | j < k <= i :: t < |run[k].pcs| && InTryGet(run[k].pcs[t])
  }

  /** Where a pc that carries a null head comes from. */
  lemma CarriesBefore(s: State, a: Action, s': State, t: Tid)
    requires Next(s, a, s') && t < |s'.pcs| && CarriesNull(s'.pcs[t])
    ensures |s.pcs| == |s'.pcs|
    ensures CarriesNull(s.pcs[t]) || (a == Access(t) && s.pcs[t].op.TryTake? && s.head == NULL)
  {}

  lemma {:induction false} NullWasRead(run: seq<State>, acts: seq<Action>, i: nat, t: Tid) returns (j: nat)
    requires IsRun(run, acts) && i < |run| && t < |run[i].pcs| && CarriesNull(run[i].pcs[t])
    ensures ReadsNull(run, acts, j, i, t)
  {
    assert InTryGet(run[i].pcs[t]);
    if i > 0 {
      assert Next(run[i - 1], acts[i - 1], run[i]);
      CarriesBefore(run[i - 1], acts[i - 1], run[i], t);
      hide IsRun, Next, InTryGet, CarriesNull;
      if CarriesNull(run[i - 1].pcs[t]) {
        j := NullWasRead(run, acts, i - 1, t);
      } else {
        j := i - 1;
      }
    }
  }

  /** The ways out of `try_get` without a node. */
  lemma EmptyHanded(s: State, t: Tid, s': State)
    requires Next(s, Access(t), s') && InTryGet(s.pcs[t]) && s'.pcs[t].op.Idle? && !s.pcs[t].op.DropTwo?
    ensures CarriesNull(s.pcs[t]) || (s.pcs[t].op.GetHead? && s.head == NULL)
  {}

  /** On every run `try_get` comes back without a node only if it has read, during the call, that
      the list was empty. */
  lemma EmptyOnlyOnNullHead(run: seq<State>, acts: seq<Action>, i: nat, t: Tid) returns (j: nat)
    requires IsRun(run, acts) && i < |acts| && acts[i] == Access(t) && t < |run[i].pcs|
    requires InTryGet(run[i].pcs[t]) && t < |run[i + 1].pcs| && run[i + 1].pcs[t].op.Idle? && !run[i].pcs[t].op.DropTwo?
    ensures ReadsNull(run, acts, j, i, t)
  {
    assert Next(run[i], acts[i], run[i + 1]);
    EmptyHanded(run[i], t, run[i + 1]);
    hide Next, InTryGet, CarriesNull;
    if CarriesNull(run[i].pcs[t]) {
      j := NullWasRead(run, acts, i, t);
    } else {
      j := i;
    }
  }

  // ---------------------------------------------------------------- an undisturbed try_get

  /** Thread t makes a call of k accesses from s to s', nobody else doing anything. */
  ghost predicate Calls(s: State, t: Tid, run: seq<State>, s': State) {
    && |run| >= 2 && run[0] == s && run[|run| - 1] == s' && Next(s, CallTryGet(t), run[1])
    && (forall i | 1 <= i < |run| - 1 :: Next(run[i], Access(t), run[i + 1]))
    && (forall i | 1 <= i < |run| - 1 :: t < |run[i].pcs| && !run[i].pcs[t].op.Idle?)
    && t < |s'.pcs| && s'.pcs[t].op.Idle?
  }

  ghost predicate AtRest(s: State) { forall t | 0 <= t < |s.pcs| :: s.pcs[t].op.Idle? }

  /** The first node at rest. */
  lemma HeadAtRest(s: State)
    requires Inv(s) && AtRest(s) && s.head != NULL
    ensures IsNode(s, s.head) && s.nodes[s.head].refs == 1 && s.nodes[s.head].readers == {}
    ensures s.chain != [] && s.chain[0] == s.head && s.nodes[s.head].next == At(s.chain, 1)
  {
    HeadIsOnList(s);
    NodeKnown(s, s.head);
    assert ReadersOk(s, s.head, s.nodes[s.head]);
    assert forall t: nat :: t !in s.nodes[s.head].readers;
  }

  /** The states of a call that takes the first node, one after the other. */
  function Taking7(s: State, t: Tid, k: nat): State
    requires t < |s.pcs| && IsNode(s, s.head) && k < 8
  {
    var n, nd, q := s.head, s.nodes[s.head], IDLE.(op := GetRefs, n := s.head);
    var counted := s.nodes[n := nd.(refs := 2, readers := {t})];
    var rest := if s.chain == [] then [] else s.chain[1..];
    if k == 0 then s
    else if k == 1 then s.(pcs := s.pcs[t := IDLE.(op := GetHead)])
    else if k == 2 then s.(pcs := s.pcs[t := q])
    else if k == 3 then s.(pcs := s.pcs[t := q.(op := TryRef, refs := 1)])
    else if k == 4 then s.(pcs := s.pcs[t := q.(op := GetNext, refs := 1)], nodes := counted)
    else if k == 5 then s.(pcs := s.pcs[t := q.(op := TryTake, refs := 1, p := nd.next)], nodes := counted)
    else if k == 6 then
      s.(pcs := s.pcs[t := q.(op := DropTwo, refs := 1, p := nd.next)], head := nd.next, chain := rest,
         nodes := s.nodes[n := nd.(refs := 2, readers := {t}, place := Taking(t))])
    else
      s.(pcs := s.pcs[t := IDLE], head := nd.next, chain := rest, held := s.held + {(t, n)},
         nodes := s.nodes[n := Node(0, nd.next, Held(t), {})])
  }

  ghost predicate Takeable(s: State, t: Tid) {
    && t < |s.pcs| && s.pcs[t].op.Idle? && s.head != NULL && IsNode(s, s.head)
    && s.chain != [] && s.nodes[s.head].refs == 1 && s.nodes[s.head].readers == {}
  }

  lemma TakeStep(s: State, t: Tid, k: nat)
    requires Takeable(s, t) && k < 7
    ensures Next(Taking7(s, t, k), if k == 0 then CallTryGet(t) else Access(t), Taking7(s, t, k + 1))
  {
    var nd := s.nodes[s.head];
    assert {} + {t} == {t} && {t} - {t} == {};
    var a, b := Taking7(s, t, k), Taking7(s, t, k + 1);
    if k == 0 {
    } else if k == 1 {
      assert b.pcs == a.pcs[t := b.pcs[t]];
    } else {
      assert b.pcs == a.pcs[t := b.pcs[t]];
      assert b.nodes == a.nodes[s.head := b.nodes[s.head]];
    }
  }

  lemma TakingShape(s: State, t: Tid, k: nat)
    requires Takeable(s, t) && k < 8
    ensures t < |Taking7(s, t, k).pcs| && (0 < k < 7 <==> !Taking7(s, t, k).pcs[t].op.Idle?)
    ensures Taking7(s, t, 0) == s && Taking7(s, t, 7).chain == s.chain[1..]
    ensures Taking7(s, t, 7).held == s.held + {(t, s.head)}
  {}

  lemma TakesFirst(s: State, t: Tid) returns (run: seq<State>)
    requires Takeable(s, t)
    ensures Calls(s, t, run, Taking7(s, t, 7))
  {
    hide Next, Takeable, Taking7;
    assert t < |s.pcs| && IsNode(s, s.head) by { TakingShapes(s, t); }
    run := seq(8, k requires 0 <= k < 8 => Taking7(s, t, k));
    forall k | 0 <= k < 8
      ensures k < 7 ==> Next(run[k], if k == 0 then CallTryGet(t) else Access(t), run[k + 1])
      ensures t < |run[k].pcs| && (0 < k < 7 <==> !run[k].pcs[t].op.Idle?)
    {
      if k < 7 { TakeStep(s, t, k); }
      TakingShape(s, t, k);
    }
    TakingShape(s, t, 0);
  }

  lemma TakingShapes(s: State, t: Tid)
    requires Takeable(s, t)
    ensures t < |s.pcs| && IsNode(s, s.head)
  {}

  /** From rest, an undisturbed `try_get` takes the first node exactly when there is one, and
      else leaves everything as it is. */
  lemma SoloTryGet(s: State, t: Tid) returns (run: seq<State>, s': State)
    requires Inv(s) && AtRest(s) && t < |s.pcs|
    ensures Calls(s, t, run, s')
    ensures s.chain == [] ==> s' == s.(pcs := s.pcs[t := IDLE])
    ensures s.chain != [] ==> s'.chain == s.chain[1..] && s'.held == s.held + {(t, s.chain[0])}
  {
    hide Inv;
    NoHeadNoChain(s);
    assert s.pcs[t].op.Idle?;
    if s.head == NULL {
      var s1 := s.(pcs := s.pcs[t := IDLE.(op := GetHead)]);
      s' := s.(pcs := s.pcs[t := IDLE]);
      assert s1.pcs[t := IDLE] == s'.pcs;
      run := [s, s1, s'];
    } else {
      HeadAtRest(s);
      run := TakesFirst(s, t);
      TakingShape(s, t, 7);
      s' := Taking7(s, t, 7);
      hide Calls, Taking7;
    }
  }

  lemma NoHeadNoChain(s: State)
    requires Inv(s)
    ensures s.head == NULL <==> s.chain == []
  {
    assert ChainInv(s);
  }
}
