/** Epoch-based reclamation: threads read shared nodes inside sections (`Start`, `End`),
    remove nodes to their own free list (`RemoveNode`) and take nodes back from it
    (`GetNewNode`). Every load, store and fetch_add is a step of its own, so the scans
    over the threads' counters interleave with everything else. */
module EpochReclamation {

  const WORD := 0x1_0000_0000_0000_0000
  const MAX_EPOCH := WORD - 1

  /** Between the fetch_add and the store of `Start` a thread has fetched its epoch.
      `since` is the moment of the store. */
  datatype Section = Outside | Fetched(epoch: nat) | Inside(epoch: nat, since: nat)

  /** A scan over the counters below `next` has met `acc`. */
  datatype Op = Free | MaxScan(node: nat, next: nat, acc: nat) | MinScan(node: nat, next: nat, acc: nat)

  /** `refs` are the nodes the thread has taken references to in its section. */
  datatype Thread = Thread(counter: nat, section: Section, refs: set<nat>, op: Op, freeList: seq<nat>)

  datatype Place =
    | Linked                    // reachable by readers
    | Unlinked(owner: nat)      // taken out by a thread that will remove it
    | Removing(owner: nat)      // its RemoveNode is running
    | Retired(owner: nat)       // on the owner's free list
    | Taken(owner: nat)         // handed out by GetNewNode, not linked yet

  /** `removedAt` is the moment the last RemoveNode of the node was called. */
  datatype Node = Node(removePoint: nat, place: Place, removedAt: nat)

  /** The scans read the counters below `scanned`; the arrays may hold more threads.
      `clock` counts the steps and is read by no operation. */
  datatype State = State(clock: nat, epoch: nat, scanned: nat, threads: seq<Thread>, nodes: seq<Node>)

  datatype Action =
    | FetchEpoch(t: nat)
    | StoreEpoch(t: nat)
    | End(t: nat)
    | Acquire(t: nat, n: nat)
    | Unlink(t: nat, n: nat)
    | Link(t: nat, n: nat)
    | CallRemove(t: nat, n: nat)
    | CallNew(t: nat)
    | Scan(t: nat)

  function Max(a: nat, b: nat): nat { if a < b then b else a }
  function Min(a: nat, b: nat): nat { if a < b then a else b }

  /** What a client may do, and where each operation stands. */
  predicate Enabled(s: State, a: Action) {
    && a.t < |s.threads|
    && var th := s.threads[a.t];
       match a
       case FetchEpoch(_) => th.section.Outside?
       case StoreEpoch(_) => th.section.Fetched?
       case End(_) => th.section.Inside?
       case Acquire(_, n) => th.section.Inside? && n < |s.nodes| && s.nodes[n].place.Linked?
       case Unlink(_, n) => n < |s.nodes| && s.nodes[n].place.Linked?
       case Link(t, n) => n < |s.nodes| && s.nodes[n].place == Taken(t)
       case CallRemove(t, n) => th.op.Free? && n < |s.nodes| && s.nodes[n].place == Unlinked(t)
       case CallNew(_) => th.op.Free? && (th.freeList != [] ==> th.freeList[0] < |s.nodes|)
       case Scan(_) => !th.op.Free? && th.op.node < |s.nodes| && (th.op.MinScan? ==> th.freeList != [])
  }

  /** One step changes one thread, at most one existing node, and may add a new node. */
  function Write(s: State, t: nat, th: Thread, n: nat, nd: Node): (r: State)
    requires t < |s.threads| && n < |s.nodes|
  {
    s.(clock := s.clock + 1, threads := s.threads[t := th], nodes := s.nodes[n := nd])
  }

  function WriteThread(s: State, t: nat, th: Thread): State
    requires t < |s.threads|
  {
    s.(clock := s.clock + 1, threads := s.threads[t := th])
  }

  /** The general allocator hands thread t a node no thread has seen. */
  function AddNode(s: State, t: nat, th: Thread): State
    requires t < |s.threads|
  {
    s.(clock := s.clock + 1, threads := s.threads[t := th], nodes := s.nodes + [Node(0, Taken(t), 0)])
  }

  function Apply(s: State, a: Action): State
    requires Enabled(s, a)
  {
    var t, th := a.t, s.threads[a.t];
    match a
    case FetchEpoch(_) =>
      WriteThread(s, t, th.(section := Fetched(s.epoch))).(epoch := (s.epoch + 1) % WORD)
    case StoreEpoch(_) =>
      WriteThread(s, t, th.(counter := th.section.epoch, section := Inside(th.section.epoch, s.clock)))
    case End(_) =>
      WriteThread(s, t, th.(counter := 0, section := Outside, refs := {}))
    case Acquire(_, n) => WriteThread(s, t, th.(refs := th.refs + {n}))
    case Unlink(_, n) => Write(s, t, th, n, s.nodes[n].(place := Unlinked(t)))
    case Link(_, n) => Write(s, t, th, n, s.nodes[n].(place := Linked))
    case CallRemove(_, n) =>
      Write(s, t, th.(op := MaxScan(n, 0, 0)), n, s.nodes[n].(place := Removing(t), removedAt := s.clock))
    case CallNew(_) =>
      if th.freeList == [] then AddNode(s, t, th)
      else WriteThread(s, t, th.(op := MinScan(th.freeList[0], 0, MAX_EPOCH)))
    case Scan(_) =>
      var n, i := th.op.node, th.op.next;
      if i < s.scanned && i < |s.threads| then
        var e := s.threads[i].counter;
        WriteThread(s, t, th.(op := if th.op.MaxScan? then MaxScan(n, i + 1, Max(th.op.acc, e))
                                    else MinScan(n, i + 1, if e != 0 then Min(th.op.acc, e) else th.op.acc)))
      else if th.op.MaxScan? then
        Write(s, t, th.(op := Free, freeList := th.freeList + [n]), n,
              s.nodes[n].(removePoint := th.op.acc, place := Retired(t)))
      else if s.nodes[n].removePoint >= th.op.acc then
        AddNode(s, t, th.(op := Free))
      else
        Write(s, t, th.(op := Free, freeList := th.freeList[1..]), n, s.nodes[n].(place := Taken(t)))
  }

  ghost predicate Init(s: State) {
    && s.epoch == 0 && s.scanned <= |s.threads|
    && (forall t | 0 <= t < |s.threads| :: s.threads[t] == Thread(0, Outside, {}, Free, []))
    && (forall n | 0 <= n < |s.nodes| :: s.nodes[n].place.Linked? && s.nodes[n].removedAt < s.clock)
  }

  /** The actions, in order, are possible from s and end in s'. */
  ghost predicate Leads(s: State, acts: seq<Action>, s': State)
    decreases |acts|
  {
    if acts == [] then s == s'
    else Enabled(s, acts[0]) && Leads(Apply(s, acts[0]), acts[1..], s')
  }

  // ---------------------------------------------------------------- what the scans protect

  /** A section the scans can see: its counter is scanned and is not the idle mark. */
  predicate Protected(s: State, u: nat) {
    u < |s.threads| && u < s.scanned && s.threads[u].section.Inside? && s.threads[u].section.epoch != 0
  }

  /** Thread u may read node n: it holds a reference, or its section was open when the
      node was removed. */
  predicate Reads(s: State, u: nat, n: nat)
    requires u < |s.threads| && n < |s.nodes|
  {
    && s.threads[u].section.Inside?
    && (n in s.threads[u].refs || s.threads[u].section.since <= s.nodes[n].removedAt)
  }

  /** The step hands node n out again from a free list. */
  predicate Reuses(s: State, a: Action, n: nat) {
    && Enabled(s, a) && n < |s.nodes| && s.nodes[n].place.Retired?
    && n < |Apply(s, a).nodes| && Apply(s, a).nodes[n].place.Taken?
  }

  // ---------------------------------------------------------------- invariant

  predicate Distinct(q: seq<nat>) {
    forall i, j | 0 <= i < j < |q| :: q[i] != q[j]
  }

  predicate SectionOk(s: State, th: Thread) {
    && th.counter == (if th.section.Inside? then th.section.epoch else 0)
    && (th.section.Inside? ==> th.section.since < s.clock)
    && (!th.section.Inside? ==> th.refs == {})
  }

  predicate OpOk(s: State, u: nat, th: Thread) {
    && (th.op.MaxScan? ==> th.op.node < |s.nodes| && s.nodes[th.op.node].place == Removing(u))
    && (th.op.MinScan? ==> th.freeList != [] && th.freeList[0] == th.op.node)
  }

  predicate ListOk(s: State, u: nat, th: Thread) {
    && Distinct(th.freeList)
    && (forall i | 0 <= i < |th.freeList| ::
          th.freeList[i] < |s.nodes| && s.nodes[th.freeList[i]].place == Retired(u))
  }

  predicate ThreadOk(s: State, u: nat, th: Thread) {
    SectionOk(s, th) && OpOk(s, u, th) && ListOk(s, u, th)
  }

  /** What a reference says about its node. */
  predicate RefOk(s: State, u: nat, th: Thread, n: nat) {
    n in th.refs ==>
      && n < |s.nodes| && th.section.Inside?
      && (Protected(s, u) ==> !s.nodes[n].place.Taken?)
      && (s.nodes[n].place.Removing? || s.nodes[n].place.Retired? ==> th.section.since <= s.nodes[n].removedAt)
  }

  predicate NodeOk(s: State, n: nat, nd: Node) {
    && (nd.place.Removing? || nd.place.Retired? ==> nd.place.owner < |s.threads|)
    && (nd.place.Removing? ==>
          s.threads[nd.place.owner].op.MaxScan? && s.threads[nd.place.owner].op.node == n)
    && (nd.place.Retired? ==> n in s.threads[nd.place.owner].freeList)
    && nd.removedAt < s.clock
  }

  /** A section still open since the node's removal has an epoch no larger than the remove
      point; a running scan knows as much about the counters behind it. */
  predicate Covered(u: nat, epoch: nat, n: nat, nd: Node, op: Op) {
    && (nd.place.Retired? ==> epoch <= nd.removePoint)
    && (nd.place.Removing? && op.MaxScan? && u < op.next ==> epoch <= op.acc)
    && (nd.place.Retired? && op.MinScan? && op.node == n && u < op.next ==> op.acc <= epoch)
  }

  predicate PairOk(s: State, u: nat, n: nat)
    requires u < |s.threads| && n < |s.nodes|
  {
    var nd, sec := s.nodes[n], s.threads[u].section;
    Protected(s, u) && (nd.place.Removing? || nd.place.Retired?) && sec.since <= nd.removedAt ==>
      nd.place.owner < |s.threads| && Covered(u, sec.epoch, n, nd, s.threads[nd.place.owner].op)
  }

  ghost predicate Inv(s: State) {
    && s.scanned <= |s.threads|
    && (forall u | 0 <= u < |s.threads| :: ThreadOk(s, u, s.threads[u]))
    && (forall n | 0 <= n < |s.nodes| :: NodeOk(s, n, s.nodes[n]))
    && (forall u, n: nat | 0 <= u < |s.threads| :: RefOk(s, u, s.threads[u], n))
    && (forall u, n | 0 <= u < |s.threads| && 0 <= n < |s.nodes| :: PairOk(s, u, n))
  }

  lemma InitInv(s: State)
    requires Init(s)
    ensures Inv(s)
  {}

  /** The heart of the argument: a scan that met only larger epochs than the remove point
      passed every protected section that was open at the removal. */
  lemma ReuseMeetsNoReader(s: State, a: Action, n: nat, u: nat)
    requires Inv(s) && Reuses(s, a, n) && Protected(s, u)
    ensures !Reads(s, u, n)
  {
    hide Inv;
    KnownOf(s, a.t, n);
    KnownOf(s, u, n);
  }

  lemma KnownOf(s: State, u: nat, n: nat)
    requires Inv(s) && u < |s.threads|
    ensures ThreadOk(s, u, s.threads[u]) && RefOk(s, u, s.threads[u], n)
    ensures n < |s.nodes| ==> NodeOk(s, n, s.nodes[n]) && PairOk(s, u, n)
    ensures s.scanned <= |s.threads|
  {
    hide ThreadOk, RefOk, NodeOk, PairOk;
  }

  lemma StepKeepsSections(s: State, a: Action, u: nat)
    requires Inv(s) && Enabled(s, a) && u < |s.threads|
    ensures SectionOk(Apply(s, a), Apply(s, a).threads[u])
  {
    hide Inv, PairOk, RefOk, NodeOk, OpOk, ListOk;
    KnownOf(s, u, 0);
  }

  lemma StepKeepsOps(s: State, a: Action, u: nat)
    requires Inv(s) && Enabled(s, a) && u < |s.threads|
    ensures OpOk(Apply(s, a), u, Apply(s, a).threads[u])
  {
    hide Inv, PairOk, RefOk, NodeOk, SectionOk;
    KnownOf(s, a.t, 0);
    KnownOf(s, u, 0);
    hide Distinct;
  }

  lemma StepKeepsLists(s: State, a: Action, u: nat)
    requires Inv(s) && Enabled(s, a) && u < |s.threads|
    ensures ListOk(Apply(s, a), u, Apply(s, a).threads[u])
  {
    hide Inv, PairOk, RefOk, NodeOk, SectionOk;
    KnownOf(s, a.t, 0);
    KnownOf(s, u, 0);
  }

  lemma StepKeepsThreads(s: State, a: Action, u: nat)
    requires Inv(s) && Enabled(s, a) && u < |s.threads|
    ensures ThreadOk(Apply(s, a), u, Apply(s, a).threads[u])
  {
    StepKeepsSections(s, a, u);
    StepKeepsOps(s, a, u);
    StepKeepsLists(s, a, u);
    hide Inv, Apply, SectionOk, OpOk, ListOk;
  }

  lemma StepKeepsNodes(s: State, a: Action, n: nat)
    requires Inv(s) && Enabled(s, a) && n < |Apply(s, a).nodes|
    ensures NodeOk(Apply(s, a), n, Apply(s, a).nodes[n])
  {
    hide Inv, PairOk, RefOk;
    KnownOf(s, a.t, n);
  }

  lemma StepKeepsRefs(s: State, a: Action, u: nat, n: nat)
    requires Inv(s) && Enabled(s, a) && u < |s.threads|
    ensures RefOk(Apply(s, a), u, Apply(s, a).threads[u], n)
  {
    hide Inv, NodeOk, PairOk;
    KnownOf(s, a.t, n);
    KnownOf(s, u, n);
    if Reuses(s, a, n) && Protected(s, u) {
      ReuseMeetsNoReader(s, a, n, u);
    }
  }

  lemma ScanKeepsPairs(s: State, a: Action, u: nat, n: nat)
    requires Inv(s) && Enabled(s, a) && a.Scan? && u < |s.threads| && n < |Apply(s, a).nodes|
    ensures PairOk(Apply(s, a), u, n)
  {
    hide Inv, RefOk, ListOk;
    KnownOf(s, a.t, n);
    KnownOf(s, u, n);
  }

  lemma OthersKeepPairs(s: State, a: Action, u: nat, n: nat)
    requires Inv(s) && Enabled(s, a) && !a.Scan? && u < |s.threads| && n < |Apply(s, a).nodes|
    ensures PairOk(Apply(s, a), u, n)
  {
    hide Inv, RefOk;
    KnownOf(s, a.t, n);
    KnownOf(s, u, n);
    hide Distinct;
  }

  lemma StepKeepsPairs(s: State, a: Action, u: nat, n: nat)
    requires Inv(s) && Enabled(s, a) && u < |s.threads| && n < |Apply(s, a).nodes|
    ensures PairOk(Apply(s, a), u, n)
  {
    if a.Scan? { ScanKeepsPairs(s, a, u, n); } else { OthersKeepPairs(s, a, u, n); }
  }

  lemma NextInv(s: State, a: Action)
    requires Inv(s) && Enabled(s, a)
    ensures Inv(Apply(s, a))
  {
    var s' := Apply(s, a);
    forall u | 0 <= u < |s'.threads| ensures ThreadOk(s', u, s'.threads[u]) { StepKeepsThreads(s, a, u); }
    forall n | 0 <= n < |s'.nodes| ensures NodeOk(s', n, s'.nodes[n]) { StepKeepsNodes(s, a, n); }
    forall u, n: nat | 0 <= u < |s'.threads| ensures RefOk(s', u, s'.threads[u], n) { StepKeepsRefs(s, a, u, n); }
    forall u, n | 0 <= u < |s'.threads| && 0 <= n < |s'.nodes| ensures PairOk(s', u, n) {
      StepKeepsPairs(s, a, u, n);
    }
    hide ThreadOk, NodeOk, RefOk, PairOk;
  }

  lemma {:induction false} RunInv(s: State, acts: seq<Action>, s': State)
    requires Inv(s) && Leads(s, acts, s')
    ensures Inv(s')
    decreases |acts|
  {
    if acts != [] {
      NextInv(s, acts[0]);
      hide Inv;
      RunInv(Apply(s, acts[0]), acts[1..], s');
    }
  }

  /** The grace period: on every run, when a node is handed out again no protected thread
      holds a reference to it, and every protected section that was open when RemoveNode
      was called for it has ended. */
  lemma GracePeriod(s: State, acts: seq<Action>, s': State, a: Action, n: nat, u: nat)
    requires Init(s) && Leads(s, acts, s') && Reuses(s', a, n) && Protected(s', u)
    ensures !Reads(s', u, n)
    ensures n !in s'.threads[u].refs && s'.nodes[n].removedAt < s'.threads[u].section.since
  {
    InitInv(s);
    RunInv(s, acts, s');
    ReuseMeetsNoReader(s', a, n, u);
  }

  /** On every run a retired node is on the list of exactly one thread, and there once. */
  lemma RetiredOnce(s: State, acts: seq<Action>, s': State, n: nat)
    requires Init(s) && Leads(s, acts, s') && n < |s'.nodes|
    ensures s'.nodes[n].place.Retired? <==>
              exists u | 0 <= u < |s'.threads| :: n in s'.threads[u].freeList
    ensures forall u, v, i, j | 0 <= u < |s'.threads| && 0 <= v < |s'.threads| &&
              0 <= i < |s'.threads[u].freeList| && 0 <= j < |s'.threads[v].freeList| &&
              s'.threads[u].freeList[i] == n && s'.threads[v].freeList[j] == n :: u == v && i == j
  {
    InitInv(s);
    RunInv(s, acts, s');
    assert NodeOk(s', n, s'.nodes[n]);
    assert forall u | 0 <= u < |s'.threads| :: ThreadOk(s', u, s'.threads[u]);
  }

  /** The guards of the model only say where a thread stands: on every run each operation
      can go on, and a new one can begin. */
  lemma NothingBlocks(s: State, acts: seq<Action>, s': State, t: nat)
    requires Init(s) && Leads(s, acts, s') && t < |s'.threads|
    ensures if s'.threads[t].op.Free? then Enabled(s', CallNew(t)) else Enabled(s', Scan(t))
    ensures Enabled(s', FetchEpoch(t)) || Enabled(s', StoreEpoch(t)) || Enabled(s', End(t))
  {
    InitInv(s);
    RunInv(s, acts, s');
    KnownOf(s', t, 0);
    hide Inv, Leads;
  }

  /** A call reads one counter after the other, and after the last one it is over: a removed node is
      on the thread's list, or a node has been handed out, the front one or a new one. */
  lemma CallsEnd(s: State, t: nat)
    requires Enabled(s, Scan(t)) && s.scanned <= |s.threads|
    ensures var th, th' := s.threads[t], Apply(s, Scan(t)).threads[t];
            && (th.op.next < s.scanned ==> !th'.op.Free? && th'.op.next == th.op.next + 1 && th'.op.node == th.op.node)
            && (th.op.next >= s.scanned ==> th'.op.Free?)
            && (th.op.next >= s.scanned && th.op.MaxScan? ==> th'.freeList == th.freeList + [th.op.node])
    ensures var th, s' := s.threads[t], Apply(s, Scan(t));
            th.op.next >= s.scanned && th.op.MinScan? ==>
              || (s'.threads[t].freeList == th.freeList[1..] && s'.nodes[th.op.node].place == Taken(t))
              || (s'.threads[t].freeList == th.freeList && |s'.nodes| == |s.nodes| + 1 &&
                  s'.nodes[|s.nodes|].place == Taken(t))
  {}

  // ---------------------------------------------------------------- the epochs handed out

  /** How often `Start` has been called. */
  function Starts(acts: seq<Action>): nat {
    if acts == [] then 0 else (if acts[0].FetchEpoch? then 1 else 0) + Starts(acts[1..])
  }

  lemma {:induction false} EpochCounts(s: State, acts: seq<Action>, s': State)
    requires Leads(s, acts, s') && s.epoch < 0x1_0000_0000_0000_0000
    ensures s'.epoch == (s.epoch + Starts(acts)) % 0x1_0000_0000_0000_0000
    decreases |acts|
  {
    if acts != [] {
      EpochStep(s, acts[0]);
      var s1 := Apply(s, acts[0]);
      hide Apply, Enabled;
      EpochCounts(s1, acts[1..], s');
      NextOnRing(s.epoch, Starts(acts[1..]));
    }
  }

  lemma NextOnRing(e: nat, k: nat)
    ensures ((e + 1) % 0x1_0000_0000_0000_0000 + k) % 0x1_0000_0000_0000_0000 == (e + 1 + k) % 0x1_0000_0000_0000_0000
  {}

  lemma EpochStep(s: State, a: Action)
    requires Enabled(s, a) && s.epoch < 0x1_0000_0000_0000_0000
    ensures Apply(s, a).epoch ==
              if a.FetchEpoch? then (s.epoch + 1) % 0x1_0000_0000_0000_0000 else s.epoch
  {}

  /** On every run the first `Start` gets epoch 0, the second epoch 1, and so on around a ring of
      2^64: of 2^64 sections in a row one has the idle mark, the first. */
  lemma StartsInOrder(s: State, acts: seq<Action>, s': State, t: nat)
    requires Init(s) && Leads(s, acts, s') && Enabled(s', FetchEpoch(t))
    ensures Apply(s', FetchEpoch(t)).threads[t].section == Fetched(Starts(acts) % 0x1_0000_0000_0000_0000)
    ensures Apply(s', FetchEpoch(t)).threads[t].section.epoch == 0 <==> Starts(acts) % 0x1_0000_0000_0000_0000 == 0
  {
    EpochCounts(s, acts, s');
    hide Leads, Init;
  }

  /** The epoch fetched is the one stored, and counts for the section. */
  lemma EpochIsStored(s: State, t: nat)
    requires Enabled(s, StoreEpoch(t))
    ensures var th, th' := s.threads[t], Apply(s, StoreEpoch(t)).threads[t];
            th.section.Fetched? && th'.section.Inside? && th'.section.epoch == th'.counter == th.section.epoch
  {}

  // ---------------------------------------------------------------- what the scans miss

  function Repeat(a: Action, k: nat): seq<Action> {
    if k == 0 then [] else [a] + Repeat(a, k - 1)
  }

  lemma {:induction false} LeadsOn(s: State, acts: seq<Action>, s1: State, more: seq<Action>, s2: State)
    requires Leads(s, acts, s1) && Leads(s1, more, s2)
    ensures Leads(s, acts + more, s2)
    decreases |acts|
  {
    if acts == [] {
      assert acts + more == more;
    } else {
      LeadsOn(Apply(s, acts[0]), acts[1..], s1, more, s2);
      assert (acts + more)[1..] == acts[1..] + more;
    }
  }

  /** Every counter the scans read shows the idle mark. */
  ghost predicate AllIdle(s: State) {
    && s.scanned <= |s.threads|
    && forall i | 0 <= i < s.scanned :: s.threads[i].counter == 0
  }

  /** State s after thread t has moved its scan on to op, k steps later. */
  function Later(s: State, t: nat, op: Op, k: nat): State
    requires t < |s.threads|
  {
    s.(clock := s.clock + k, threads := s.threads[t := s.threads[t].(op := op)])
  }

  lemma {:induction false} ScanAllIdle(s: State, t: nat)
    requires AllIdle(s) && Enabled(s, Scan(t)) && s.threads[t].op.next <= s.scanned
    ensures var op := s.threads[t].op;
            var k := s.scanned - op.next;
            Leads(s, Repeat(Scan(t), k), Later(s, t, op.(next := s.scanned), k))
    decreases s.scanned - s.threads[t].op.next
  {
    var op := s.threads[t].op;
    if op.next == s.scanned {
      assert Later(s, t, op, 0) == s;
    } else {
      var s1 := Apply(s, Scan(t));
      assert s1 == Later(s, t, op.(next := op.next + 1), 1);
      ScanAllIdle(s1, t);
      var k := s.scanned - op.next;
      assert Later(s1, t, op.(next := s.scanned), k - 1) == Later(s, t, op.(next := s.scanned), k);
      assert Repeat(Scan(t), k)[1..] == Repeat(Scan(t), k - 1);
    }
  }

  /** Some run leads from s to s'. */
  ghost predicate Goes(s: State, s': State) { exists acts :: Leads(s, acts, s') }

  lemma GoesNowhere(s: State)
    ensures Goes(s, s)
  {
    assert Leads(s, [], s);
  }

  lemma GoesStep(s: State, a: Action)
    requires Enabled(s, a)
    ensures Goes(s, Apply(s, a))
  {
    assert Leads(Apply(s, a), [a][1..], Apply(s, a));
    assert Leads(s, [a], Apply(s, a));
  }

  lemma GoesOn(s: State, s1: State, s2: State)
    requires Goes(s, s1) && Goes(s1, s2)
    ensures Goes(s, s2)
  {
    var acts :| Leads(s, acts, s1);
    var more :| Leads(s1, more, s2);
    LeadsOn(s, acts, s1, more, s2);
  }

  lemma GoesInv(s: State, s': State)
    requires Inv(s) && Goes(s, s')
    ensures Inv(s') && s'.scanned == s.scanned && |s'.threads| == |s.threads|
  {
    var acts :| Leads(s, acts, s');
    RunInv(s, acts, s');
    ScannedIsFixed(s, acts, s');
  }

  /** Some run from s hands node n out again while u's section is still open and reads it. */
  ghost predicate Exposed(s: State, u: nat, n: nat) {
    exists s', a ::
      Goes(s, s') && Reuses(s', a, n) && u < |s.threads| && u < |s'.threads| &&
      s'.threads[u].section == s.threads[u].section && Reads(s', u, n)
  }

  /** Thread t can call RemoveNode for n, which section u reads, and none of the nodes retired
      before it waits for the largest epoch there is. The other threads may be anywhere. */
  ghost predicate AboutToRemove(s: State, t: nat, u: nat, n: nat) {
    && Inv(s) && t < |s.threads| && u < |s.threads| && u != t && n < |s.nodes|
    && s.nodes[n].place == Unlinked(t) && s.threads[t].op.Free?
    && (forall i | 0 <= i < |s.threads[t].freeList| && s.threads[t].freeList[i] < |s.nodes| ::
          s.nodes[s.threads[t].freeList[i]].removePoint < MAX_EPOCH)
    && s.threads[u].section.Inside? && n in s.threads[u].refs
  }

  /** The sections of the threads below k, but for u, end. */
  lemma {:induction false} EndOthers(s: State, u: nat, k: nat) returns (s': State)
    requires Inv(s) && k <= |s.threads|
    ensures Goes(s, s') && Inv(s') && s'.scanned == s.scanned && |s'.threads| == |s.threads|
    ensures s'.nodes == s.nodes
    ensures forall v | 0 <= v < |s.threads| ::
              && s'.threads[v].op == s.threads[v].op && s'.threads[v].freeList == s.threads[v].freeList
              && (v == u || v >= k ==> s'.threads[v] == s.threads[v])
              && (v != u && v < k ==> s'.threads[v].counter == 0)
    decreases k
  {
    hide Inv, Goes;
    if k == 0 {
      s' := s;
      GoesNowhere(s);
    } else {
      var s1 := EndOthers(s, u, k - 1);
      KnownOf(s1, k - 1, 0);
      if k - 1 != u && s1.threads[k - 1].section.Inside? {
        s' := Apply(s1, End(k - 1));
        GoesStep(s1, End(k - 1));
        GoesOn(s, s1, s');
        NextInv(s1, End(k - 1));
      } else {
        s' := s1;
      }
    }
  }

  function Removed(s: State, t: nat, n: nat): State
    requires t < |s.threads| && n < |s.nodes|
  {
    s.(clock := s.clock + s.scanned + 2,
       threads := s.threads[t := s.threads[t].(op := Free, freeList := s.threads[t].freeList + [n])],
       nodes := s.nodes[n := Node(0, Retired(t), s.clock)])
  }

  lemma LastScanStep(s: State, t: nat, n: nat)
    requires AllIdle(s) && Enabled(s, CallRemove(t, n))
    ensures var s2 := Later(Apply(s, CallRemove(t, n)), t, MaxScan(n, s.scanned, 0), s.scanned);
            Enabled(s2, Scan(t)) && Apply(s2, Scan(t)) == Removed(s, t, n)
  {
    var s1 := Apply(s, CallRemove(t, n));
    var s2 := Later(s1, t, MaxScan(n, s.scanned, 0), s.scanned);
    assert Enabled(s2, Scan(t));
    var s3, s4 := Apply(s2, Scan(t)), Removed(s, t, n);
    assert s3.threads[t] == s4.threads[t];
    assert s3.threads == s4.threads;
    assert s3.nodes[n] == s4.nodes[n];
    assert s3.nodes == s4.nodes;
  }

  /** RemoveNode among idle counters: the remove point is 0. */
  lemma RemoveAmongIdle(s: State, t: nat, n: nat)
    requires AllIdle(s) && Enabled(s, CallRemove(t, n))
    ensures Goes(s, Removed(s, t, n))
  {
    var s1 := Apply(s, CallRemove(t, n));
    assert AllIdle(s1) && Enabled(s1, Scan(t));
    assert s1.threads[t].op == MaxScan(n, 0, 0) && s1.scanned == s.scanned;
    hide Apply, Leads;
    GoesStep(s, CallRemove(t, n));
    ScanAllIdle(s1, t);
    var s2 := Later(s1, t, MaxScan(n, s.scanned, 0), s.scanned);
    GoesOn(s, s1, s2);
    LastScanStep(s, t, n);
    GoesStep(s2, Scan(t));
    GoesOn(s, s2, Removed(s, t, n));
  }

  /** Thread t is about to hand out the front node of its list. */
  function FrontScanned(s: State, t: nat): State
    requires t < |s.threads| && s.threads[t].freeList != []
  {
    Later(s, t, MinScan(s.threads[t].freeList[0], s.scanned, MAX_EPOCH), s.scanned + 1)
  }

  function FrontTaken(s: State, t: nat): State
    requires t < |s.threads| && s.threads[t].freeList != [] && s.threads[t].freeList[0] < |s.nodes|
  {
    var m := s.threads[t].freeList[0];
    s.(clock := s.clock + s.scanned + 2,
       threads := s.threads[t := s.threads[t].(op := Free, freeList := s.threads[t].freeList[1..])],
       nodes := s.nodes[m := s.nodes[m].(place := Taken(t))])
  }

  /** GetNewNode among idle counters comes to hand the front node out. */
  lemma NewAmongIdle(s: State, t: nat)
    requires AllIdle(s) && Enabled(s, CallNew(t)) && s.threads[t].freeList != []
    requires s.nodes[s.threads[t].freeList[0]].removePoint < MAX_EPOCH
    ensures var s' := FrontScanned(s, t);
            Goes(s, s') && Enabled(s', Scan(t)) && Apply(s', Scan(t)) == FrontTaken(s, t)
  {
    var s1 := Apply(s, CallNew(t));
    assert AllIdle(s1) && Enabled(s1, Scan(t));
    GoesStep(s, CallNew(t));
    ScanAllIdle(s1, t);
    var s' := FrontScanned(s, t);
    var m := s.threads[t].freeList[0];
    assert s' == Later(s1, t, MinScan(m, s.scanned, MAX_EPOCH), s.scanned);
    GoesOn(s, s1, s');
    hide Goes, Leads;
    assert Apply(s', Scan(t)).threads == FrontTaken(s, t).threads;
  }

  /** The last node of t's list, once those before it have been handed out. */
  ghost predicate LastInLine(s: State, t: nat, n: nat) {
    && AllIdle(s) && t < |s.threads| && s.threads[t].op.Free?
    && var q := s.threads[t].freeList;
       q != [] && q[|q| - 1] == n &&
       forall i | 0 <= i < |q| :: q[i] < |s.nodes| && s.nodes[q[i]].removePoint < MAX_EPOCH &&
           s.nodes[q[i]].place == Retired(t)
  }

  lemma {:induction false} DrainTo(s: State, t: nat, n: nat) returns (s': State)
    requires LastInLine(s, t, n) && Distinct(s.threads[t].freeList)
    ensures Goes(s, s') && Reuses(s', Scan(t), n)
    ensures |s'.threads| == |s.threads| && forall v | 0 <= v < |s.threads| && v != t :: s'.threads[v] == s.threads[v]
    ensures |s'.nodes| == |s.nodes| && s'.nodes[n] == s.nodes[n]
    decreases |s.threads[t].freeList|
  {
    var q := s.threads[t].freeList;
    hide Goes, Leads;
    NewAmongIdle(s, t);
    if |q| == 1 {
      s' := FrontScanned(s, t);
    } else {
      var s1, s2 := FrontScanned(s, t), FrontTaken(s, t);
      assert s2.threads[t].freeList == q[1..];
      assert forall i | 0 <= i < |q| - 1 :: q[1..][i] == q[i + 1];
      hide Goes, Apply;
      GoesStep(s1, Scan(t));
      GoesOn(s, s1, s2);
      s' := DrainTo(s2, t, n);
      GoesOn(s, s2, s');
    }
  }

  lemma UnprotectedIsExposed(s: State, t: nat, u: nat, n: nat)
    requires AboutToRemove(s, t, u, n) && !Protected(s, u)
    ensures Exposed(s, u, n)
  {
    KnownOf(s, u, n);
    var s0 := EndOthers(s, u, |s.threads|);
    KnownOf(s0, u, n);
    KnownOf(s0, t, n);
    assert AllIdle(s0);
    hide Inv, Apply, Leads, Goes;
    RemoveAmongIdle(s0, t, n);
    var s1 := Removed(s0, t, n);
    GoesOn(s, s0, s1);
    GoesInv(s0, s1);
    KnownOf(s1, t, n);
    var s' := DrainTo(s1, t, n);
    GoesOn(s, s1, s');
    assert Reads(s', u, n);
  }

  /** The epoch of the first section ever (0, also the idle mark) and the counters past
      the scanned ones are not seen: a section is safe from reuse exactly when its thread
      is scanned and its epoch is not 0. */
  lemma SectionSafeIffProtected(s: State, t: nat, u: nat, n: nat)
    requires AboutToRemove(s, t, u, n)
    ensures Exposed(s, u, n) <==> u >= s.scanned || s.threads[u].section.epoch == 0
  {
    if Protected(s, u) && Exposed(s, u, n) {
      var s', a :| Goes(s, s') && Reuses(s', a, n) && u < |s'.threads| &&
        s'.threads[u].section == s.threads[u].section && Reads(s', u, n);
      GoesInv(s, s');
      hide Inv, Goes;
      ReuseMeetsNoReader(s', a, n, u);
    } else if !Protected(s, u) {
      UnprotectedIsExposed(s, t, u, n);
    }
  }

  lemma {:induction false} ScannedIsFixed(s: State, acts: seq<Action>, s': State)
    requires Leads(s, acts, s')
    ensures s'.scanned == s.scanned && |s'.threads| == |s.threads|
    decreases |acts|
  {
    if acts != [] {
      ScannedIsFixed(Apply(s, acts[0]), acts[1..], s');
    }
  }

  // ---------------------------------------------------------------- two runs that are not protected

  const RESTING := Thread(0, Outside, {}, Free, [])

  /** Two threads, the first `scanned` of which the scans see, and one node. */
  function Two(clock: nat, epoch: nat, scanned: nat, first: Thread, second: Thread, place: Place): State {
    State(clock, epoch, scanned, [first, second], [Node(0, place, 0)])
  }

  ghost predicate StepsTo(s: State, a: Action, s': State) { Enabled(s, a) && Apply(s, a) == s' }

  /** One more step of a walk from s. */
  lemma Walk(s: State, s1: State, a: Action, s2: State)
    requires Inv(s1) && Goes(s, s1) && StepsTo(s1, a, s2)
    ensures Goes(s, s2) && Inv(s2)
  {
    NextInv(s1, a);
    GoesStep(s1, a);
    hide Inv, Goes, Enabled, Apply;
    GoesOn(s, s1, s2);
  }

  /** The first section ever: thread 0 starts it and takes a reference, thread 1 unlinks the node. */
  function First(k: nat): State {
    if k == 0 then Two(1, 0, 2, RESTING, RESTING, Linked)
    else if k == 1 then Two(2, 1, 2, RESTING.(section := Fetched(0)), RESTING, Linked)
    else if k == 2 then Two(3, 1, 2, RESTING.(section := Inside(0, 2)), RESTING, Linked)
    else if k == 3 then Two(4, 1, 2, RESTING.(section := Inside(0, 2), refs := {0}), RESTING, Linked)
    else Two(5, 1, 2, RESTING.(section := Inside(0, 2), refs := {0}), RESTING, Unlinked(1))
  }

  lemma FirstSteps1()
    ensures StepsTo(First(0), FetchEpoch(0), First(1)) && StepsTo(First(1), StoreEpoch(0), First(2))
  {
    assert Apply(First(0), FetchEpoch(0)).threads == First(1).threads;
    assert Apply(First(1), StoreEpoch(0)).threads == First(2).threads;
  }

  lemma FirstSteps2()
    ensures StepsTo(First(2), Acquire(0, 0), First(3)) && StepsTo(First(3), Unlink(1, 0), First(4))
  {
    assert {} + {0} == {0};
    assert Apply(First(2), Acquire(0, 0)).threads[0] == First(3).threads[0];
    assert Apply(First(2), Acquire(0, 0)).threads == First(3).threads;
    assert Apply(First(3), Unlink(1, 0)).threads == First(4).threads;
    assert Apply(First(3), Unlink(1, 0)).nodes == First(4).nodes;
  }

  /** From the start, the first section ever loses its node. */
  lemma FirstSectionIsExposed()
    ensures Init(First(0)) && Goes(First(0), First(4)) && Exposed(First(4), 0, 0)
  {
    InitInv(First(0));
    assert Init(First(0));
    FirstSteps1();
    FirstSteps2();
    hide First, Inv, Init, Goes, StepsTo;
    GoesNowhere(First(0));
    Walk(First(0), First(0), FetchEpoch(0), First(1));
    Walk(First(0), First(1), StoreEpoch(0), First(2));
    Walk(First(0), First(2), Acquire(0, 0), First(3));
    Walk(First(0), First(3), Unlink(1, 0), First(4));
    FirstIsUnprotected();
    UnprotectedIsExposed(First(4), 1, 0, 0);
  }

  lemma FirstIsUnprotected()
    ensures Inv(First(4)) ==> AboutToRemove(First(4), 1, 0, 0) && !Protected(First(4), 0)
  {
    hide Inv;
  }

  /** A thread beyond the scanned ones: thread 0 has fetched epoch 0, thread 1 starts a section
      at epoch 1 and takes a reference, thread 0 unlinks the node. */
  function Beyond(k: nat): State {
    var x := RESTING.(section := Fetched(0));
    if k == 0 then Two(1, 0, 1, RESTING, RESTING, Linked)
    else if k == 1 then Two(2, 1, 1, x, RESTING, Linked)
    else if k == 2 then Two(3, 2, 1, x, RESTING.(section := Fetched(1)), Linked)
    else if k == 3 then Two(4, 2, 1, x, Thread(1, Inside(1, 3), {}, Free, []), Linked)
    else if k == 4 then Two(5, 2, 1, x, Thread(1, Inside(1, 3), {0}, Free, []), Linked)
    else Two(6, 2, 1, x, Thread(1, Inside(1, 3), {0}, Free, []), Unlinked(0))
  }

  lemma BeyondSteps1()
    ensures StepsTo(Beyond(0), FetchEpoch(0), Beyond(1)) && StepsTo(Beyond(1), FetchEpoch(1), Beyond(2))
  {
    assert Apply(Beyond(0), FetchEpoch(0)).threads == Beyond(1).threads;
    assert Apply(Beyond(1), FetchEpoch(1)).threads == Beyond(2).threads;
  }

  lemma BeyondSteps2()
    ensures StepsTo(Beyond(2), StoreEpoch(1), Beyond(3)) && StepsTo(Beyond(3), Acquire(1, 0), Beyond(4))
  {
    assert Apply(Beyond(2), StoreEpoch(1)).threads == Beyond(3).threads;
    assert {} + {0} == {0};
    assert Apply(Beyond(3), Acquire(1, 0)).threads[1] == Beyond(4).threads[1];
    assert Apply(Beyond(3), Acquire(1, 0)).threads == Beyond(4).threads;
  }

  lemma BeyondSteps3()
    ensures StepsTo(Beyond(4), Unlink(0, 0), Beyond(5))
  {
    assert Apply(Beyond(4), Unlink(0, 0)).threads == Beyond(5).threads;
    assert Apply(Beyond(4), Unlink(0, 0)).nodes == Beyond(5).nodes;
  }

  /** From the start, a section of a thread beyond the scanned ones, at epoch 1, does too. */
  lemma UnscannedIsExposed()
    ensures Init(Beyond(0)) && Goes(Beyond(0), Beyond(5)) && Exposed(Beyond(5), 1, 0)
  {
    InitInv(Beyond(0));
    assert Init(Beyond(0));
    BeyondSteps1();
    BeyondSteps2();
    BeyondSteps3();
    hide Beyond, Inv, Init, Goes, StepsTo;
    GoesNowhere(Beyond(0));
    Walk(Beyond(0), Beyond(0), FetchEpoch(0), Beyond(1));
    Walk(Beyond(0), Beyond(1), FetchEpoch(1), Beyond(2));
    Walk(Beyond(0), Beyond(2), StoreEpoch(1), Beyond(3));
    Walk(Beyond(0), Beyond(3), Acquire(1, 0), Beyond(4));
    Walk(Beyond(0), Beyond(4), Unlink(0, 0), Beyond(5));
    BeyondIsUnprotected();
    UnprotectedIsExposed(Beyond(5), 0, 1, 0);
  }

  lemma BeyondIsUnprotected()
    ensures Inv(Beyond(5)) ==> AboutToRemove(Beyond(5), 0, 1, 0) && !Protected(Beyond(5), 1)
  {
    hide Inv;
  }
}
