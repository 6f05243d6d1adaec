/** The dequeue ticket protocol of the vendored queue: one producer advances the
    tail, any number of consumers run `dequeue`, one atomic access per step, in
    any interleaving.

    The four counters are kept unbounded; the two comparisons the code makes are
    made on their machine words, with wrap-around. */
module DequeueTickets {
  import opened MachineWords

  // ---------------------------------------------------------------- state

  type Tid = nat

  /** Where a consumer stands in `dequeue`, with the locals it still needs. */
  datatype Pc =
    | Idle
    | HasTail(tail: nat)
    | HasOvercommit(tail: nat, over: nat)
    | Entered(over: nat)
    | Ticketed(over: nat, ticket: nat)
    | Passed(ticket: nat)
    | Failed(ticket: nat)
  {
    predicate Holding() { Ticketed? || Passed? || Failed? }
  }

  /** `claims` collects the pairs (index, consumer) handed out by the head counter. The
      other fields are auxiliary: the owner of each index, the consumer holding each ticket in flight, and the tickets
      that
      have ended in a claimed index or in an increment of the overcommit counter. */
  datatype State = State(
    tail: nat,
    head: nat,
    optimistic: nat,
    overcommit: nat,
    pc: map<Tid, Pc>,
    claims: set<(nat, Tid)>,
    owner: seq<Tid>,
    holder: map<nat, Tid>,
    won: set<nat>,
    lost: set<nat>
  )

  datatype Action =
    | Enqueue
    | LoadTail(t: Tid)
    | LoadOvercommit(t: Tid)
    | CheckOptimistic(t: Tid)
    | TakeTicket(t: Tid)
    | ReloadTail(t: Tid)
    | ClaimIndex(t: Tid)
    | GiveUp(t: Tid)

  ghost predicate Init(s: State) {
    && s.tail == s.head == s.optimistic == s.overcommit == 0
    && (forall t <- s.pc :: s.pc[t] == Idle)
    && s.claims == {} && s.owner == [] && s.holder == map[] && s.won == {} && s.lost == {}
  }

  /** One atomic access by the producer or by consumer `a.t`. */
  predicate Next(s: State, a: Action, s': State) {
    match a
    case Enqueue =>
      s' == s.(tail := s.tail + 1)
    case LoadTail(t) =>
      && t in s.pc && s.pc[t] == Idle
      && s' == s.(pc := s.pc[t := HasTail(s.tail)])
    case LoadOvercommit(t) =>
      && t in s.pc && s.pc[t].HasTail?
      && s' == s.(pc := s.pc[t := HasOvercommit(s.pc[t].tail, s.overcommit)])
    case CheckOptimistic(t) =>
      && t in s.pc && s.pc[t].HasOvercommit?
      && var enter := CircularLess(Word(s.optimistic - s.pc[t].over), Word(s.pc[t].tail));
         s' == s.(pc := s.pc[t := if enter then Entered(s.pc[t].over) else Idle])
    case TakeTicket(t) =>
      && t in s.pc && s.pc[t].Entered?
      && s' == s.(optimistic := s.optimistic + 1,
                  pc := s.pc[t := Ticketed(s.pc[t].over, s.optimistic)],
                  holder := s.holder[s.optimistic := t])
    case ReloadTail(t) =>
      && t in s.pc && s.pc[t].Ticketed?
      && var k := s.pc[t].ticket;
         var pass := CircularLess(Word(k - s.pc[t].over), Word(s.tail));
         s' == s.(pc := s.pc[t := if pass then Passed(k) else Failed(k)])
    case ClaimIndex(t) =>
      && t in s.pc && s.pc[t].Passed?
      && var k := s.pc[t].ticket;
         s' == s.(head := s.head + 1,
                  pc := s.pc[t := Idle],
                  claims := s.claims + {(s.head, t)},
                  owner := s.owner + [t],
                  holder := s.holder - {k},
                  won := s.won + {k})
    case GiveUp(t) =>
      && t in s.pc && s.pc[t].Failed?
      && var k := s.pc[t].ticket;
         s' == s.(overcommit := s.overcommit + 1,
                  pc := s.pc[t := Idle],
                  holder := s.holder - {k},
                  lost := s.lost + {k})
  }

  /** The second comparison of `dequeue` is made inside the window in which words
      compare like the counters they stand for. */
  predicate Timely(s: State, a: Action) {
    (a.ReloadTail? && a.t in s.pc && s.pc[a.t].Ticketed?) ==>
      InWindow(s.pc[a.t].ticket - s.pc[a.t].over, s.tail)
  }

  ghost predicate IsRun(run: seq<State>, acts: seq<Action>) {
    && |run| == |acts| + 1
    && Init(run[0])
    && forall i | 0 <= i < |acts| :: Next(run[i], acts[i], run[i + 1]) && Timely(run[i], acts[i])
  }

  // ---------------------------------------------------------------- counting

  function Below(tickets: set<nat>, k: nat): set<nat> {
    set q | q in tickets && q < k
  }

  function UpTo(n: nat): (r: set<nat>)
    ensures forall k: nat :: k in r <==> k < n
    ensures |r| == n
  {
    if n == 0 then {} else UpTo(n - 1) + {n - 1}
  }

  lemma SubsetSize(a: set<nat>, b: set<nat>)
    requires a <= b
    ensures |a| <= |b|
  {
    assert b == a + (b - a);
  }

  lemma {:induction false} Largest(p: set<nat>) returns (m: nat)
    requires p != {}
    ensures m in p && forall k <- p :: k <= m
    decreases |p|
  {
    m :| m in p;
    var rest := p - {m};
    assert p == rest + {m};
    if rest != {} {
      var r := Largest(rest);
      if r > m { m := r; }
    }
  }

  /** The heart of the protocol: rank the passing tickets and look at the largest.
      Everything passing is at most it, and everything given up before it is not
      passing, so there are at most as many passing tickets as elements. */
  lemma PassingBound(passing: set<nat>, lost: set<nat>, tail: nat)
    requires passing !! lost
    requires forall k <- passing :: k - |Below(lost, k)| < tail
    ensures |passing| <= tail
  {
    if passing != {} {
      var m := Largest(passing);
      var before := Below(lost, m);
      SubsetSize(passing + before, UpTo(m + 1));
      assert |passing + before| == |passing| + |before|;
    }
  }

  // ---------------------------------------------------------------- invariant

  /** Ticket k was issued after at least `over` tickets had been given up. */
  predicate IssuedAfter(s: State, k: nat, over: nat) {
    over <= |Below(s.lost, k)|
  }

  /** Ticket k has passed the second comparison. */
  predicate Sound(s: State, k: nat) {
    k - |Below(s.lost, k)| < s.tail
  }

  predicate PcInv(s: State, p: Pc) {
    match p
    case HasOvercommit(_, o) => o <= s.overcommit
    case Entered(o) => o <= s.overcommit
    case Ticketed(o, k) => IssuedAfter(s, k, o)
    case Passed(k) => Sound(s, k)
    case _ => true
  }

  /** Each ticket issued is held by one consumer, won or lost. */
  ghost predicate FateInv(s: State) {
    && (forall k: nat :: k < s.optimistic <==> k in s.holder || k in s.won || k in s.lost)
    && (forall k <- s.holder :: k !in s.won && k !in s.lost)
    && (forall k <- s.won :: k !in s.lost)
    && (forall k <- s.holder :: s.holder[k] in s.pc && s.pc[s.holder[k]].Holding() && s.pc[s.holder[k]].ticket == k)
    && (forall t <- s.pc :: s.pc[t].Holding() ==> s.pc[t].ticket in s.holder && s.holder[s.pc[t].ticket] == t)
  }

  ghost predicate CountInv(s: State) {
    && s.head == |s.won|
    && s.overcommit == |s.lost|
    && (forall k <- s.won :: Sound(s, k))
    && (forall t <- s.pc :: PcInv(s, s.pc[t]))
  }

  predicate IsClaimed(s: State, k: nat) {
    exists c <- s.claims :: c.0 == k
  }

  /** The indices below the head are shared out among the consumers. */
  ghost predicate IndexInv(s: State) {
    && |s.owner| == s.head
    && (forall i | 0 <= i < |s.owner| :: (i, s.owner[i]) in s.claims)
    && (forall c <- s.claims :: c.0 < |s.owner| && c.1 == s.owner[c.0])
  }

  ghost predicate Inv(s: State) {
    FateInv(s) && CountInv(s)
  }

  // ---------------------------------------------------------------- induction

  lemma InitInv(s: State)
    requires Init(s)
    ensures Inv(s) && IndexInv(s)
  {
  }

  lemma TakeTicketFate(s: State, t: Tid, s': State)
    requires FateInv(s) && Next(s, TakeTicket(t), s')
    ensures FateInv(s')
  {
  }

  lemma SettleFate(s: State, a: Action, s': State)
    requires FateInv(s) && Next(s, a, s') && (a.ClaimIndex? || a.GiveUp?)
    ensures FateInv(s')
  {
  }

  lemma NextFate(s: State, a: Action, s': State)
    requires FateInv(s) && Next(s, a, s')
    ensures FateInv(s')
  {
    if a.TakeTicket? {
      TakeTicketFate(s, a.t, s');
    } else if a.ClaimIndex? || a.GiveUp? {
      SettleFate(s, a, s');
    }
  }

  /** Giving a ticket up only adds to what was given up below any other. */
  lemma NextBelow(s: State, a: Action, s': State, q: nat)
    requires Next(s, a, s')
    ensures |Below(s.lost, q)| <= |Below(s'.lost, q)|
  {
    SubsetSize(Below(s.lost, q), Below(s'.lost, q));
  }

  /** The second comparison lets a ticket through only when it is sound. */
  lemma ReloadTailSound(s: State, t: Tid, s': State)
    requires CountInv(s) && Next(s, ReloadTail(t), s') && Timely(s, ReloadTail(t))
    ensures PcInv(s', s'.pc[t])
  {
    var k, o := s.pc[t].ticket, s.pc[t].over;
    assert IssuedAfter(s, k, o) by { assert PcInv(s, s.pc[t]); }
    CircularLessExact(k as int - o, s.tail);
  }

  lemma TakeTicketIssued(s: State, t: Tid, s': State)
    requires Inv(s) && Next(s, TakeTicket(t), s')
    ensures PcInv(s', s'.pc[t])
  {
    assert PcInv(s, s.pc[t]);
    assert s.lost <= UpTo(s.optimistic);
    assert Below(s.lost, s.optimistic) == s.lost;
  }

  lemma NextPc(s: State, a: Action, s': State, t: Tid)
    requires Inv(s) && Next(s, a, s') && Timely(s, a) && t in s.pc
    ensures PcInv(s', s'.pc[t])
  {
    assert PcInv(s, s.pc[t]);
    if s.pc[t].Holding() {
      NextBelow(s, a, s', s.pc[t].ticket);
    }
    if a == TakeTicket(t) {
      TakeTicketIssued(s, t, s');
    } else if a == ReloadTail(t) {
      ReloadTailSound(s, t, s');
    }
  }

  lemma NextCount(s: State, a: Action, s': State)
    requires Inv(s) && Next(s, a, s') && Timely(s, a)
    ensures CountInv(s')
  {
    forall k <- s'.won
      ensures Sound(s', k)
    {
      NextBelow(s, a, s', k);
      if k !in s.won {
        assert PcInv(s, s.pc[a.t]);
      }
    }
    forall t <- s'.pc
      ensures PcInv(s', s'.pc[t])
    {
      NextPc(s, a, s', t);
    }
  }

  lemma NextIndex(s: State, a: Action, s': State)
    requires IndexInv(s) && Next(s, a, s')
    ensures IndexInv(s')
  {
  }

  lemma {:induction false} RunInv(run: seq<State>, acts: seq<Action>, i: nat)
    requires IsRun(run, acts) && i < |run|
    ensures Inv(run[i]) && IndexInv(run[i])
  {
    if i == 0 {
      InitInv(run[0]);
    } else {
      RunInv(run, acts, i - 1);
      NextFate(run[i - 1], acts[i - 1], run[i]);
      NextCount(run[i - 1], acts[i - 1], run[i]);
      NextIndex(run[i - 1], acts[i - 1], run[i]);
    }
  }

  // ---------------------------------------------------------------- results

  /** Tickets that have passed the second comparison, claimed or about to. */
  function Passing(s: State): (r: set<nat>) {
    s.won + set t | t in s.pc && s.pc[t].Passed? :: s.pc[t].ticket
  }

  /** All consumers are outside `dequeue`. */
  predicate AtRest(s: State) {
    forall t <- s.pc :: s.pc[t] == Idle
  }

  lemma PassingSound(s: State, k: nat)
    requires Inv(s) && k in Passing(s)
    ensures Sound(s, k) && k !in s.lost
  {
    if k !in s.won {
      var t :| t in s.pc && s.pc[t].Passed? && s.pc[t].ticket == k;
      assert PcInv(s, s.pc[t]);
    }
  }

  lemma InvBounds(s: State)
    requires Inv(s)
    ensures |Passing(s)| <= s.tail
    ensures s.head <= s.tail
    ensures s.head + s.overcommit <= s.optimistic
  {
    forall k <- Passing(s)
      ensures Sound(s, k) && k !in s.lost
    {
      PassingSound(s, k);
    }
    PassingBound(Passing(s), s.lost, s.tail);
    SubsetSize(s.won, Passing(s));
    SubsetSize(s.won + s.lost, UpTo(s.optimistic));
    assert |s.won + s.lost| == |s.won| + |s.lost|;
  }

  lemma RestBalance(s: State)
    requires Inv(s) && AtRest(s)
    ensures s.optimistic - s.overcommit == s.head
  {
    assert s.holder.Keys == {};
    assert UpTo(s.optimistic) == s.won + s.lost;
    assert |s.won + s.lost| == |s.won| + |s.lost|;
  }

  /** Safety over whole runs: the head never passes the tail, the overcommit never
      passes the optimistic count, at rest their difference is the head, and the
      indices below the head are shared out, each to one consumer, once. */
  lemma TicketSafety(run: seq<State>, acts: seq<Action>, i: nat)
    requires IsRun(run, acts) && i < |run|
    ensures run[i].head <= run[i].tail
    ensures run[i].overcommit <= run[i].optimistic
    ensures AtRest(run[i]) ==> run[i].optimistic - run[i].overcommit == run[i].head
    ensures forall k: nat | k < run[i].head :: IsClaimed(run[i], k)
    ensures forall c <- run[i].claims :: c.0 < run[i].head
    ensures forall c <- run[i].claims, d <- run[i].claims :: c.0 == d.0 ==> c == d
  {
    RunInv(run, acts, i);
    InvBounds(run[i]);
    if AtRest(run[i]) { RestBalance(run[i]); }
    forall k: nat | k < run[i].head
      ensures IsClaimed(run[i], k)
    {
      assert (k, run[i].owner[k]) in run[i].claims;
    }
  }

  /** A claim always lands on an element already enqueued: the index handed out is
      below the tail at that very step. */
  lemma ClaimIsBelowTail(run: seq<State>, acts: seq<Action>, i: nat)
    requires IsRun(run, acts) && i < |acts| && acts[i].ClaimIndex?
    ensures run[i].head < run[i].tail
    ensures forall c <- run[i].claims :: c.0 != run[i].head
  {
    RunInv(run, acts, i);
    RunInv(run, acts, i + 1);
    InvBounds(run[i + 1]);
    assert Next(run[i], acts[i], run[i + 1]);
  }

  /** The states of one call of `dequeue` by t, run from rest without interference. */
  function SoloStates(s: State, t: Tid): (run: seq<State>)
  {
    var s1 := s.(pc := s.pc[t := HasTail(s.tail)]);
    var s2 := s.(pc := s.pc[t := HasOvercommit(s.tail, s.overcommit)]);
    if s.head < s.tail then
      var k := s.optimistic;
      var s3 := s.(pc := s.pc[t := Entered(s.overcommit)]);
      var s4 := s.(optimistic := k + 1, holder := s.holder[k := t], pc := s.pc[t := Ticketed(s.overcommit, k)]);
      var s5 := s4.(pc := s.pc[t := Passed(k)]);
      var s6 := s5.(head := s.head + 1, pc := s.pc[t := Idle], claims := s.claims + {(s.head, t)},
          owner := s.owner + [t],
                    holder := s5.holder - {k}, won := s.won + {k});
      [s, s1, s2, s3, s4, s5, s6]
    else
      [s, s1, s2, s.(pc := s.pc[t := Idle])]
  }

  function SoloActions(t: Tid): (acts: seq<Action>) {
    [LoadTail(t), LoadOvercommit(t), CheckOptimistic(t), TakeTicket(t), ReloadTail(t), ClaimIndex(t)]
  }

  /** Seen from rest, `dequeue` run without interference takes the element at the
      head exactly when there is one: the overcommit corrections have left no
      element unreachable. */
  lemma SoloDequeue(s: State, t: Tid)
    requires Inv(s) && AtRest(s) && t in s.pc
    requires InWindow(s.head, s.tail)
    ensures forall i | 0 <= i < |SoloStates(s, t)| - 1 ::
              Next(SoloStates(s, t)[i], SoloActions(t)[i], SoloStates(s, t)[i + 1])
    ensures var run := SoloStates(s, t);
            var last := run[|run| - 1];
            && AtRest(last)
            && last.claims == (if s.head < s.tail then s.claims + {(s.head, t)} else s.claims)
            && last.head == (if s.head < s.tail then s.head + 1 else s.head)
  {
    InvBounds(s);
    RestBalance(s);
    forall i | 0 <= i < |SoloStates(s, t)| - 1
      ensures Next(SoloStates(s, t)[i], SoloActions(t)[i], SoloStates(s, t)[i + 1])
    {
      SoloStep(s, t, i);
    }
  }

  lemma SoloStep(s: State, t: Tid, i: nat)
    requires t in s.pc && s.pc[t] == Idle && s.optimistic - s.overcommit == s.head
    requires s.head <= s.tail && InWindow(s.head, s.tail)
    requires i < |SoloStates(s, t)| - 1
    ensures Next(SoloStates(s, t)[i], SoloActions(t)[i], SoloStates(s, t)[i + 1])
  {
    CircularLessExact(s.head, s.tail);
    hide CircularLess, InWindow;
    match i
    case 0 =>
    case 1 =>
    case 2 =>
    case 3 =>
    case 4 =>
    case _ =>
  }

  // ---------------------------------------------------------------- how long a comparison may take

  /** A run of steps, whatever the comparisons answer. */
  ghost predicate IsTrace(run: seq<State>, acts: seq<Action>) {
    && |run| == |acts| + 1
    && Init(run[0])
    && forall i | 0 <= i < |acts| :: Next(run[i], acts[i], run[i + 1])
  }

  /** Fewer than 2^63 elements have been enqueued, and tickets drawn. */
  predicate Bounded(s: State) { s.tail < M / 2 && s.optimistic <= M / 2 }

  lemma BoundedIsTimely(s: State, a: Action)
    requires Inv(s) && Bounded(s)
    ensures Timely(s, a)
  {
    if a.ReloadTail? && a.t in s.pc && s.pc[a.t].Ticketed? {
      var k := s.pc[a.t].ticket;
      assert PcInv(s, s.pc[a.t]);
      SubsetSize(Below(s.lost, k), UpTo(k));
      assert k in s.holder;
    }
  }

  /** With fewer than 2^63 enqueues and tickets every run of steps meets the window of the
      comparisons, so the results hold of it. */
  lemma BoundedRunsAreTimely(run: seq<State>, acts: seq<Action>)
    requires IsTrace(run, acts) && forall i | 0 <= i < |run| :: Bounded(run[i])
    ensures IsRun(run, acts)
  {
    forall i | 0 <= i < |acts| ensures Timely(run[i], acts[i]) {
      TraceInv(run, acts, i);
      BoundedIsTimely(run[i], acts[i]);
    }
  }

  lemma {:induction false} TraceInv(run: seq<State>, acts: seq<Action>, i: nat)
    requires IsTrace(run, acts) && i < |run| && forall j | 0 <= j < |run| :: Bounded(run[j])
    ensures Inv(run[i])
  {
    if i == 0 {
      InitInv(run[0]);
    } else {
      TraceInv(run, acts, i - 1);
      BoundedIsTimely(run[i - 1], acts[i - 1]);
      hide Inv, Bounded, Timely, Init;
      StepInv(run[i - 1], acts[i - 1], run[i]);
    }
  }

  lemma StepInv(s: State, a: Action, s': State)
    requires Inv(s) && Next(s, a, s') && Timely(s, a)
    ensures Inv(s')
  {
    NextFate(s, a, s');
    NextCount(s, a, s');
  }

  /** Beyond: if the tail has run ahead of a consumer's ticket by 2^63 or more when it compares,
      the consumer gives up although its element is there. */
  lemma LateGivesUp(s: State, t: Tid, s': State)
    requires Next(s, ReloadTail(t), s') && s.pc[t].Ticketed?
    requires M / 2 <= s.tail - (s.pc[t].ticket - s.pc[t].over) < M
    ensures s'.pc[t].Failed? && s.pc[t].ticket - s.pc[t].over < s.tail
  {
    WordOfDifference(s.pc[t].ticket - s.pc[t].over, s.tail);
  }

  /** The access a consumer stands before. */
  function ActionAt(p: Pc, t: Tid): Action {
    match p
    case Idle => LoadTail(t)
    case HasTail(_) => LoadOvercommit(t)
    case HasOvercommit(_, _) => CheckOptimistic(t)
    case Entered(_) => TakeTicket(t)
    case Ticketed(_, _) => ReloadTail(t)
    case Passed(_) => ClaimIndex(t)
    case Failed(_) => GiveUp(t)
  }

  ghost predicate CanStep(s: State, a: Action) { exists s' :: Next(s, a, s') }

  /** The guards of the model only say where a thread stands: the producer and every consumer
      can always go on. */
  lemma NothingBlocks(s: State, t: Tid)
    requires t in s.pc
    ensures CanStep(s, Enqueue) && CanStep(s, ActionAt(s.pc[t], t))
  {
    assert Next(s, Enqueue, s.(tail := s.tail + 1));
    match s.pc[t]
    case Idle => assert Next(s, LoadTail(t), s.(pc := s.pc[t := HasTail(s.tail)]));
    case HasTail(tail) => assert Next(s, LoadOvercommit(t), s.(pc := s.pc[t := HasOvercommit(tail, s.overcommit)]));
    case HasOvercommit(tail, over) =>
      var enter := CircularLess(Word(s.optimistic - over), Word(tail));
      assert Next(s, CheckOptimistic(t), s.(pc := s.pc[t := if enter then Entered(over) else Idle]));
    case Entered(over) =>
      assert Next(s, TakeTicket(t), s.(optimistic := s.optimistic + 1, pc := s.pc[t := Ticketed(over, s.optimistic)],
                                       holder := s.holder[s.optimistic := t]));
    case Ticketed(over, k) =>
      var pass := CircularLess(Word(k - over), Word(s.tail));
      assert Next(s, ReloadTail(t), s.(pc := s.pc[t := if pass then Passed(k) else Failed(k)]));
    case Passed(k) =>
      assert Next(s, ClaimIndex(t), s.(head := s.head + 1, pc := s.pc[t := Idle], claims := s.claims + {(s.head, t)},
                                       owner := s.owner + [t], holder := s.holder - {k}, won := s.won + {k}));
    case Failed(k) =>
      assert Next(s, GiveUp(t), s.(overcommit := s.overcommit + 1, pc := s.pc[t := Idle],
                                   holder := s.holder - {k}, lost := s.lost + {k}));
  }
}
