/** What the path search of a chasing NPC relies on: the tile grid with its eight moves,
    trails of moves back to the start, and the state of a best-first search whose queue
    keeps outdated entries until they are popped. */
module ChaseField {
  import opened Options

  const WIDTH := 512
  const HEIGHT := 256
  const CELLS := 131072   // WIDTH * HEIGHT
  const COSTS := 65536    // costs are 16-bit

  datatype Cell = Cell(x: int, y: int)
  datatype Move = Move(dx: int, dy: int, weight: nat)
  datatype Entry = Entry(pos: Cell, cost: nat)

  const FRONT := [
    Move(0, -1, 1), Move(0, 1, 500), Move(-1, 0, 1), Move(1, 0, 1),
    Move(-1, -1, 2), Move(-1, 1, 500), Move(1, -1, 2), Move(1, 1, 500)]

  predicate InWorld(c: Cell) { 0 <= c.x < WIDTH && 0 <= c.y < HEIGHT }

  function Index(c: Cell): (i: nat)
    requires InWorld(c)
    ensures i < CELLS
  { c.y * WIDTH + c.x }

  lemma IndexApart(c: Cell, d: Cell)
    requires InWorld(c) && InWorld(d) && Index(c) == Index(d)
    ensures c == d
  {}

  function Beyond(c: Cell, k: nat): Cell
    requires k < 8
  { Cell(c.x + FRONT[k].dx, c.y + FRONT[k].dy) }

  function Abs(a: int): nat { if a < 0 then -a else a }

  function Distance(c: Cell, d: Cell): nat { Abs(c.x - d.x) + Abs(c.y - d.y) }

  /** One chase: the solid tiles, the clamped start and the player's tile. */
  datatype Chase = Chase(solid: set<Cell>, start: Cell, dest: Cell) {
    predicate Open(c: Cell) { InWorld(c) && c !in solid }

    /** d is one of the eight neighbours of c and can be entered. */
    predicate Step(c: Cell, d: Cell) {
      -1 <= d.x - c.x <= 1 && -1 <= d.y - c.y <= 1 && c != d && Open(d)
    }

    /** p leads from p[0] back to the start. */
    predicate Trail(p: seq<Cell>) {
      p != [] && if |p| == 1 then p[0] == start else Step(p[1], p[0]) && Trail(p[1..])
    }

    ghost predicate Reachable(c: Cell) { exists p :: Trail(p) && p[0] == c }
  }

  /** The eight moves are exactly the eight neighbours, each once. */
  lemma FrontIsNeighbours(c: Cell, d: Cell)
    ensures -1 <= d.x - c.x <= 1 && -1 <= d.y - c.y <= 1 && c != d <==>
              exists k | 0 <= k < 8 :: Beyond(c, k) == d
  {
    if -1 <= d.x - c.x <= 1 && -1 <= d.y - c.y <= 1 && c != d {
      assert Beyond(c, 0) == d || Beyond(c, 1) == d || Beyond(c, 2) == d || Beyond(c, 3) == d ||
             Beyond(c, 4) == d || Beyond(c, 5) == d || Beyond(c, 6) == d || Beyond(c, 7) == d;
    }
  }

  // ---------------------------------------------------------------- the search state

  /** The first cost of every tile (0 before it is met), the queue, and the parent map. */
  datatype Search = Search(best: seq<nat>, queue: multiset<Entry>, parent: map<Cell, Cell>)

  predicate Known(w: Chase, s: Search, c: Cell)
    requires |s.best| == CELLS
  {
    InWorld(c) && (c == w.start || s.best[Index(c)] != 0)
  }

  function Best(s: Search, c: Cell): nat
    requires |s.best| == CELLS && InWorld(c)
  { s.best[Index(c)] }

  /** The tile in direction k of c cannot be entered, or has a cost no larger than through c. */
  predicate Relaxed(w: Chase, s: Search, c: Cell, k: nat)
    requires |s.best| == CELLS && InWorld(c) && k < 8
  {
    var d := Beyond(c, k);
    w.Open(d) ==> Known(w, s, d) && Best(s, d) <= Best(s, c) + FRONT[k].weight + Distance(d, w.dest)
  }

  predicate Expanded(w: Chase, s: Search, c: Cell, n: nat)
    requires |s.best| == CELLS && InWorld(c) && n <= 8
  {
    forall k | 0 <= k < n :: Relaxed(w, s, c, k)
  }

  /** Lazy deletion: the best entry of a tile is queued, or the tile has been expanded. The
      destination is never expanded. `busy` is a tile being expanded, n directions done. */
  predicate CellOk(w: Chase, s: Search, c: Cell, busy: Cell, n: nat)
    requires |s.best| == CELLS && n <= 8
  {
    Known(w, s, c) ==>
      || s.queue[Entry(c, Best(s, c))] > 0
      || (c != w.dest && Expanded(w, s, c, if c == busy then n else 8))
  }

  predicate EntryOk(w: Chase, s: Search, e: Entry)
    requires |s.best| == CELLS
  {
    Known(w, s, e.pos) && Best(s, e.pos) <= e.cost < COSTS
  }

  /** Parents descend strictly in cost, by a move. */
  predicate ParentOk(w: Chase, s: Search, c: Cell)
    requires |s.best| == CELLS
  {
    && (Known(w, s, c) <==> c in s.parent)
    && (Known(w, s, c) && c != w.start ==>
          && Known(w, s, s.parent[c])
          && Best(s, s.parent[c]) < Best(s, c) < COSTS
          && w.Step(s.parent[c], c))
  }

  /** While `busy` is being expanded. */
  ghost predicate Inv(w: Chase, s: Search, busy: Cell, n: nat) {
    && |s.best| == CELLS && n <= 8
    && InWorld(w.start)
    && Known(w, s, busy) && Best(s, w.start) <= Best(s, busy)
    && (n < 8 ==> w.start != w.dest)
    && Best(s, w.start) == Distance(w.start, w.dest) < COSTS
    && w.start in s.parent && s.parent[w.start] == w.start
    && (forall c :: CellOk(w, s, c, busy, n))
    && (forall e | e in s.queue :: EntryOk(w, s, e))
    && (forall c :: ParentOk(w, s, c))
    && (forall c | Known(w, s, c) :: Best(s, w.start) <= Best(s, c) && (w.start == w.dest ==> c == w.start))
  }

  /** The search as `ExecuteAI` sets it up. */
  function Start(w: Chase): Search
    requires InWorld(w.start)
  {
    var h := Distance(w.start, w.dest);
    Search(seq(CELLS, _ => 0)[Index(w.start) := h], multiset{Entry(w.start, h)}, map[w.start := w.start])
  }

  lemma StartInv(w: Chase)
    requires InWorld(w.start) && Distance(w.start, w.dest) < COSTS
    ensures Inv(w, Start(w), w.start, 8)
  {
    var s := Start(w);
    assert forall c | Known(w, s, c) && Index(c) == Index(w.start) :: c == w.start;
  }

  /** The assignments of the innermost branch: d is met at cost f from c. */
  function Emplaced(s: Search, c: Cell, d: Cell, f: nat): Search
    requires |s.best| == CELLS && InWorld(d)
  {
    Search(s.best[Index(d) := f], s.queue + multiset{Entry(d, f)}, s.parent[d := c])
  }

  lemma EmplacedBest(s: Search, c: Cell, d: Cell, f: nat, e: Cell)
    requires |s.best| == CELLS && InWorld(d) && InWorld(e)
    ensures Best(Emplaced(s, c, d, f), e) == if e == d then f else Best(s, e)
  {
    if Index(e) == Index(d) { IndexApart(e, d); }
  }

  /** The cost of entering the tile in direction n of c. */
  function Cost(w: Chase, s: Search, c: Cell, n: nat): nat
    requires |s.best| == CELLS && InWorld(c) && n < 8
  { Best(s, c) + FRONT[n].weight + Distance(Beyond(c, n), w.dest) }

  /** What a move costs: 1 for each axis it moves along, but 500 for any move with growing y, and
      the distance left along both axes. */
  lemma CostOfMove(w: Chase, s: Search, c: Cell, n: nat)
    requires |s.best| == CELLS && InWorld(c) && n < 8
    ensures var d := Beyond(c, n);
            var dx, dy, ex, ey := d.x - c.x, d.y - c.y, d.x - w.dest.x, d.y - w.dest.y;
            Cost(w, s, c, n) ==
              Best(s, c)
              + (if dy > 0 then 500 else (if dx == 0 then 0 else 1) + (if dy == 0 then 0 else 1))
              + (if ex < 0 then -ex else ex) + (if ey < 0 then -ey else ey)
  {}

  lemma BusyKnown(w: Chase, s: Search, busy: Cell, n: nat)
    requires Inv(w, s, busy, n)
    ensures |s.best| == CELLS && InWorld(busy) && n <= 8
  {}

  lemma CellKnown(w: Chase, s: Search, busy: Cell, n: nat, c: Cell)
    requires Inv(w, s, busy, n)
    ensures CellOk(w, s, c, busy, n) && ParentOk(w, s, c)
    ensures Known(w, s, c) ==> Best(s, w.start) <= Best(s, c) && (w.start == w.dest ==> c == w.start)
  {}

  predicate Improves(w: Chase, s: Search, c: Cell, n: nat)
    requires |s.best| == CELLS && InWorld(c) && n < 8
  {
    var d := Beyond(c, n);
    w.Open(d) && (Best(s, d) == 0 || Best(s, d) > Cost(w, s, c, n)) && Cost(w, s, c, n) < COSTS
  }

  /** An improved tile is not the start: the start has the least cost of all. */
  lemma ImprovedIsNotStart(w: Chase, s: Search, busy: Cell, n: nat)
    requires Inv(w, s, busy, n) && n < 8 && Improves(w, s, busy, n)
    ensures Beyond(busy, n) != w.start && Beyond(busy, n) != busy
    ensures Best(s, w.start) <= Best(s, busy) < Cost(w, s, busy, n)
  {
  }

  lemma EmplaceKeepsRelaxed(w: Chase, s: Search, busy: Cell, n: nat, c: Cell, k: nat)
    requires Inv(w, s, busy, n) && n < 8 && Improves(w, s, busy, n)
    requires InWorld(c) && k < 8 && c != Beyond(busy, n)
    requires Relaxed(w, s, c, k) || (c == busy && k == n)
    ensures Relaxed(w, Emplaced(s, busy, Beyond(busy, n), Cost(w, s, busy, n)), c, k)
  {
    ImprovedIsNotStart(w, s, busy, n);
    var d, f := Beyond(busy, n), Cost(w, s, busy, n);
    EmplacedBest(s, busy, d, f, c);
    if w.Open(Beyond(c, k)) { EmplacedBest(s, busy, d, f, Beyond(c, k)); }
    hide Inv, Index, Emplaced;
  }

  lemma EmplaceKeepsCells(w: Chase, s: Search, busy: Cell, n: nat, c: Cell)
    requires Inv(w, s, busy, n) && n < 8 && Improves(w, s, busy, n)
    ensures CellOk(w, Emplaced(s, busy, Beyond(busy, n), Cost(w, s, busy, n)), c, busy, n + 1)
  {
    var d, f := Beyond(busy, n), Cost(w, s, busy, n);
    var s' := Emplaced(s, busy, d, f);
    hide Inv, Index, Relaxed, Distance;
    CellKnown(w, s, busy, n, c);
    if InWorld(c) {
      EmplacedBest(s, busy, d, f, c);
      if c != d && Known(w, s, c) && s.queue[Entry(c, Best(s, c))] == 0 {
        forall k | 0 <= k < if c == busy then n + 1 else 8
          ensures Relaxed(w, s', c, k)
        {
          EmplaceKeepsRelaxed(w, s, busy, n, c, k);
        }
      }
    }
  }

  lemma EmplaceKeepsParents(w: Chase, s: Search, busy: Cell, n: nat, c: Cell)
    requires Inv(w, s, busy, n) && n < 8 && Improves(w, s, busy, n)
    ensures ParentOk(w, Emplaced(s, busy, Beyond(busy, n), Cost(w, s, busy, n)), c)
  {
    var d, f := Beyond(busy, n), Cost(w, s, busy, n);
    ImprovedIsNotStart(w, s, busy, n);
    CellKnown(w, s, busy, n, c);
    FrontIsNeighbours(busy, d);
    hide Inv, Index;
    forall e | InWorld(e) ensures Best(Emplaced(s, busy, d, f), e) == if e == d then f else Best(s, e) {
      EmplacedBest(s, busy, d, f, e);
    }
    hide Emplaced, Best;
  }

  lemma EmplaceKeepsEntries(w: Chase, s: Search, busy: Cell, n: nat, e: Entry)
    requires Inv(w, s, busy, n) && n < 8 && Improves(w, s, busy, n)
    requires e in s.queue || e == Entry(Beyond(busy, n), Cost(w, s, busy, n))
    ensures EntryOk(w, Emplaced(s, busy, Beyond(busy, n), Cost(w, s, busy, n)), e)
  {
    assert e in s.queue ==> EntryOk(w, s, e);
    ImprovedIsNotStart(w, s, busy, n);
    EmplacedBest(s, busy, Beyond(busy, n), Cost(w, s, busy, n), e.pos);
    hide Inv;
  }

  lemma EmplaceInv(w: Chase, s: Search, busy: Cell, n: nat)
    requires Inv(w, s, busy, n) && n < 8 && Improves(w, s, busy, n)
    ensures Inv(w, Emplaced(s, busy, Beyond(busy, n), Cost(w, s, busy, n)), busy, n + 1)
  {
    var d, f := Beyond(busy, n), Cost(w, s, busy, n);
    var s' := Emplaced(s, busy, d, f);
    ImprovedIsNotStart(w, s, busy, n);
    EmplacedBest(s, busy, d, f, w.start);
    EmplacedBest(s, busy, d, f, busy);
    var m := n + 1;
    forall c ensures CellOk(w, s', c, busy, m) { EmplaceKeepsCells(w, s, busy, n, c); }
    forall c ensures ParentOk(w, s', c) { EmplaceKeepsParents(w, s, busy, n, c); }
    forall e | e in s'.queue ensures EntryOk(w, s', e) { EmplaceKeepsEntries(w, s, busy, n, e); }
    forall c | Known(w, s', c) ensures Best(s', w.start) <= Best(s', c) && w.start != w.dest {
      EmplacedBest(s, busy, d, f, c);
      CellKnown(w, s, busy, n, c);
    }
    hide CellOk, ParentOk, EntryOk;
  }

  /** A direction that is closed or brings nothing better is done without a change. */
  lemma SkipInv(w: Chase, s: Search, busy: Cell, n: nat)
    requires Inv(w, s, busy, n) && n < 8
    requires !w.Open(Beyond(busy, n)) || 0 < Best(s, Beyond(busy, n)) <= Cost(w, s, busy, n)
    ensures Inv(w, s, busy, n + 1)
  {
    var m := n + 1;
    forall c ensures CellOk(w, s, c, busy, m) {
      CellKnown(w, s, busy, n, c);
    }
  }

  function Popped(s: Search, e: Entry): Search { s.(queue := s.queue - multiset{e}) }

  /** Only the popped tile can lose its best entry. */
  lemma PoppedCell(w: Chase, s: Search, busy: Cell, e: Entry, next: Cell, n: nat, c: Cell)
    requires Inv(w, s, busy, 8) && e in s.queue && n <= 8 && InWorld(e.pos)
    requires if Best(s, e.pos) == e.cost then next == e.pos && n == 0 && next != w.dest else next == busy && n == 8
    ensures CellOk(w, Popped(s, e), c, next, n) && ParentOk(w, Popped(s, e), c)
    ensures Known(w, Popped(s, e), c) <==> Known(w, s, c)
    ensures Known(w, s, c) ==> Best(s, w.start) <= Best(s, c) && (w.start == w.dest ==> c == w.start)
  {
    CellKnown(w, s, busy, 8, c);
    assert forall k | 0 <= k < 8 && Known(w, s, c) && Relaxed(w, s, c, k) :: Relaxed(w, Popped(s, e), c, k);
    hide Inv, Relaxed;
  }

  lemma PoppedEntry(w: Chase, s: Search, busy: Cell, e: Entry, x: Entry)
    requires Inv(w, s, busy, 8) && x in s.queue
    ensures EntryOk(w, s, x) && EntryOk(w, Popped(s, e), x) && x.pos in s.parent
  {
    assert EntryOk(w, s, x);
    CellKnown(w, s, busy, 8, x.pos);
  }

  /** An entry costing more than its tile's best was superseded and can be dropped. */
  lemma StaleInv(w: Chase, s: Search, busy: Cell, e: Entry)
    requires Inv(w, s, busy, 8) && e in s.queue && InWorld(e.pos) && Best(s, e.pos) < e.cost
    ensures Inv(w, Popped(s, e), busy, 8)
  {
    var s' := Popped(s, e);
    forall c ensures CellOk(w, s', c, busy, 8) && ParentOk(w, s', c) { PoppedCell(w, s, busy, e, busy, 8, c); }
    forall c | Known(w, s', c) ensures Best(s, w.start) <= Best(s, c) && (w.start == w.dest ==> c == w.start) {
      PoppedCell(w, s, busy, e, busy, 8, c);
    }
    forall x | x in s'.queue ensures EntryOk(w, s', x) { PoppedEntry(w, s, busy, e, x); }
    hide CellOk, ParentOk, EntryOk;
  }

  /** Otherwise the entry is the tile's best, and its expansion begins. */
  lemma FreshInv(w: Chase, s: Search, busy: Cell, e: Entry)
    requires Inv(w, s, busy, 8) && e in s.queue && InWorld(e.pos) && Best(s, e.pos) == e.cost && e.pos != w.dest
    ensures Inv(w, Popped(s, e), e.pos, 0)
  {
    var s' := Popped(s, e);
    PoppedEntry(w, s, busy, e, e);
    CellKnown(w, s, busy, 8, e.pos);
    forall c ensures CellOk(w, s', c, e.pos, 0) && ParentOk(w, s', c) { PoppedCell(w, s, busy, e, e.pos, 0, c); }
    forall c | Known(w, s', c) ensures Best(s, w.start) <= Best(s, c) && (w.start == w.dest ==> c == w.start) {
      PoppedCell(w, s, busy, e, e.pos, 0, c);
    }
    forall x | x in s'.queue ensures EntryOk(w, s', x) { PoppedEntry(w, s, busy, e, x); }
    hide CellOk, ParentOk, EntryOk;
  }

  // ---------------------------------------------------------------- the search as it goes

  /** One direction of a popped tile. */
  function RelaxedOnce(w: Chase, s: Search, c: Cell, n: nat): (r: Search)
    requires |s.best| == CELLS && InWorld(c) && n < 8
    ensures |r.best| == CELLS
  {
    var d, f := Beyond(c, n), Cost(w, s, c, n);
    if w.Open(d) && (Best(s, d) == 0 || Best(s, d) > f) then Emplaced(s, c, d, f) else s
  }

  /** The first n directions. */
  function Expansion(w: Chase, s: Search, c: Cell, n: nat): (r: Search)
    requires |s.best| == CELLS && InWorld(c) && n <= 8
    ensures |r.best| == CELLS
  {
    if n == 0 then s else RelaxedOnce(w, Expansion(w, s, c, n - 1), c, n - 1)
  }

  /** The eight directions lead to eight tiles, none of them c. */
  lemma BeyondApart(c: Cell, j: nat, k: nat)
    requires j < 8 && k < 8
    ensures Beyond(c, j) != c && (j != k ==> Beyond(c, j) != Beyond(c, k))
  {}

  /** What expanding tile c does to a neighbour: if it can be entered and this way is cheaper, it
      gets this cost, is queued at it, and has c as its parent; otherwise it stays as it is. */
  lemma {:induction false} ExpansionIs(w: Chase, s: Search, c: Cell, n: nat, k: nat)
    requires |s.best| == CELLS && InWorld(c) && n <= 8 && k < 8 && InWorld(Beyond(c, k))
    ensures var r, d, f := Expansion(w, s, c, n), Beyond(c, k), Cost(w, s, c, k);
            && Best(r, c) == Best(s, c)
            && (if k < n && d !in w.solid && (Best(s, d) == 0 || Best(s, d) > f) then
                  Best(r, d) == f && d in r.parent && r.parent[d] == c && Entry(d, f) in r.queue
                else
                  Best(r, d) == Best(s, d) && (d in r.parent <==> d in s.parent) &&
                  (d in s.parent ==> r.parent[d] == s.parent[d]))
    decreases n
  {
    if n > 0 {
      ExpansionIs(w, s, c, n - 1, k);
      ExpansionStep(w, s, c, n, k);
    }
  }

  lemma ExpansionStep(w: Chase, s: Search, c: Cell, n: nat, k: nat)
    requires |s.best| == CELLS && InWorld(c) && 0 < n <= 8 && k < 8 && InWorld(Beyond(c, k))
    ensures var q, r, d := Expansion(w, s, c, n - 1), Expansion(w, s, c, n), Beyond(c, k);
            && Best(r, c) == Best(q, c) && (forall e | e in q.queue :: e in r.queue)
            && (k != n - 1 ==> Best(r, d) == Best(q, d) && (d in r.parent <==> d in q.parent) &&
                               (d in q.parent ==> r.parent[d] == q.parent[d]))
            && (k == n - 1 ==> r == RelaxedOnce(w, q, c, k))
  {
    var q, m := Expansion(w, s, c, n - 1), Beyond(c, n - 1);
    BeyondApart(c, n - 1, k);
    hide Expansion;
    assert Expansion(w, s, c, n) == RelaxedOnce(w, q, c, n - 1) by { ExpansionLast(w, s, c, n); }
    if InWorld(m) {
      var f := Cost(w, q, c, n - 1);
      EmplacedBest(q, c, m, f, c);
      EmplacedBest(q, c, m, f, Beyond(c, k));
    }
  }

  lemma ExpansionLast(w: Chase, s: Search, c: Cell, n: nat)
    requires |s.best| == CELLS && InWorld(c) && 0 < n <= 8
    ensures Expansion(w, s, c, n) == RelaxedOnce(w, Expansion(w, s, c, n - 1), c, n - 1)
  {}

  /** A direction would write a cost that 16 bits do not hold. */
  predicate Overflows(w: Chase, s: Search, c: Cell, n: nat)
    requires |s.best| == CELLS && InWorld(c) && n < 8
  {
    var d, f := Beyond(c, n), Cost(w, s, c, n);
    w.Open(d) && (Best(s, d) == 0 || Best(s, d) > f) && f >= COSTS
  }

  /** One round of the loop for the popped entry. */
  function Round(w: Chase, s: Search, e: Entry): (r: Search)
    requires |s.best| == CELLS
    ensures |r.best| == CELLS
  {
    if !InWorld(e.pos) || Best(s, e.pos) < e.cost || e.pos == w.dest then Popped(s, e)
    else Expansion(w, Popped(s, e), e.pos, 8)
  }

  function After(w: Chase, pops: seq<Entry>): (s: Search)
    requires InWorld(w.start)
    ensures |s.best| == CELLS
  {
    if pops == [] then Start(w) else Round(w, After(w, pops[..|pops| - 1]), pops[|pops| - 1])
  }

  predicate Least(q: multiset<Entry>, e: Entry) { e in q && forall x | x in q :: e.cost <= x.cost }

  /** Every pop takes a least entry of the queue that the pops before it leave. */
  predicate Legit(w: Chase, pops: seq<Entry>)
    requires InWorld(w.start)
  {
    pops == [] || (Legit(w, pops[..|pops| - 1]) && Least(After(w, pops[..|pops| - 1]).queue, pops[|pops| - 1]))
  }

  lemma OneMorePop(w: Chase, pops: seq<Entry>, e: Entry)
    requires InWorld(w.start) && Legit(w, pops) && Least(After(w, pops).queue, e)
    ensures Legit(w, pops + [e]) && After(w, pops + [e]) == Round(w, After(w, pops), e)
  {
    assert (pops + [e])[..|pops|] == pops;
  }

  lemma NoPops(w: Chase)
    requires InWorld(w.start)
    ensures Legit(w, []) && After(w, []) == Start(w)
  {}

  lemma RoundIs(w: Chase, s: Search, e: Entry)
    requires |s.best| == CELLS && InWorld(e.pos)
    ensures Best(s, e.pos) < e.cost || e.pos == w.dest ==> Round(w, s, e) == Popped(s, e)
    ensures Best(s, e.pos) >= e.cost && e.pos != w.dest ==> Round(w, s, e) == Expansion(w, Popped(s, e), e.pos, 8)
  {}

  /** The last pop's expansion comes upon a cost that 16 bits do not hold. */
  ghost predicate TooDear(w: Chase, pops: seq<Entry>)
    requires InWorld(w.start)
  {
    pops != [] &&
    (var s, e := After(w, pops[..|pops| - 1]), pops[|pops| - 1];
     InWorld(e.pos) && e.pos != w.dest &&
         exists n | 0 <= n < 8 :: Overflows(w, Expansion(w, Popped(s, e), e.pos, n), e.pos, n))
  }

  lemma IsTooDear(w: Chase, pops: seq<Entry>, s: Search, e: Entry)
    requires InWorld(w.start) && pops != [] && pops[|pops| - 1] == e && After(w, pops[..|pops| - 1]) == s &&
             InWorld(e.pos)
    requires e.pos != w.dest
    requires exists n | 0 <= n < 8 :: Overflows(w, Expansion(w, Popped(s, e), e.pos, n), e.pos, n)
    ensures TooDear(w, pops)
  {}

  // ---------------------------------------------------------------- found with an empty queue

  const CORNER := Cell(0, 0)
  const BESIDE := Cell(1, 0)

  /** A world whose only open tiles are the start and, beside it, the target. */
  function TwoTiles(): Chase {
    Chase((set x, y | 0 <= x < WIDTH && 0 <= y < HEIGHT && !(x <= 1 && y == 0) :: Cell(x, y)), CORNER, BESIDE)
  }

  lemma TwoTilesOpen(k: nat)
    requires k < 8
    ensures TwoTiles().Open(Beyond(CORNER, k)) <==> k == 3
  {}

  lemma TwoTilesStart()
    ensures var s := Start(TwoTiles());
            s.queue == multiset{Entry(CORNER, 1)} && Best(s, CORNER) == 1 && Best(s, BESIDE) == 0
  {}

  lemma {:induction false} TwoTilesExpand(n: nat)
    requires n <= 8
    ensures var w := TwoTiles();
            var s := Popped(Start(w), Entry(CORNER, 1));
            Expansion(w, s, CORNER, n) == if n <= 3 then s else Emplaced(s, CORNER, BESIDE, 2)
  {
    var w := TwoTiles();
    var s := Popped(Start(w), Entry(CORNER, 1));
    TwoTilesStart();
    hide TwoTiles, Start;
    if n > 0 {
      TwoTilesExpand(n - 1);
      TwoTilesOpen(n - 1);
    }
  }

  lemma TwoTilesFirst()
    ensures var s := Round(TwoTiles(), Start(TwoTiles()), Entry(CORNER, 1));
            s.queue == multiset{Entry(BESIDE, 2)} && Best(s, BESIDE) == 2
  {
    TwoTilesStart();
    TwoTilesExpand(8);
    EmplacedBest(Popped(Start(TwoTiles()), Entry(CORNER, 1)), CORNER, BESIDE, 2, BESIDE);
    hide Expansion, Start;
  }

  /** There the search pops the start, then the target, and the queue is empty. */
  lemma {:induction false} TwoTilesPops(pops: seq<Entry>)
    requires Legit(TwoTiles(), pops)
    ensures |pops| <= 2
    ensures |pops| == 1 ==> pops[0] == Entry(CORNER, 1) && After(TwoTiles(), pops).queue == multiset{Entry(BESIDE, 2)}
    ensures |pops| == 2 ==> After(TwoTiles(), pops).queue == multiset{}
    decreases |pops|
  {
    if pops != [] {
      var n := |pops| - 1;
      TwoTilesPops(pops[..n]);
      TwoTilesStart();
      TwoTilesFirst();
      hide Start, Expansion;
      if n == 0 {
        assert pops[..0] == [];
      } else {
        assert n == 1 ==> pops[1] == Entry(BESIDE, 2);
      }
      hide Round;
      if n == 1 { TwoTilesSecond(pops); }
    }
  }

  lemma TwoTilesCheap(n: nat)
    requires n < 8
    ensures var w := TwoTiles();
            var s := Popped(Start(w), Entry(CORNER, 1));
            !Overflows(w, Expansion(w, s, CORNER, n), CORNER, n)
  {
    TwoTilesOpen(n);
    TwoTilesExpand(n);
    TwoTilesStart();
    hide TwoTiles, Start, Expansion, Emplaced;
  }

  lemma TwoTilesTrail()
    ensures Distance(CORNER, BESIDE) == 1 && TwoTiles().Reachable(BESIDE)
  {
    TwoTilesOpen(3);
    var p := [BESIDE, CORNER];
    assert p[1..] == [CORNER];
    assert TwoTiles().Trail(p[1..]);
    assert TwoTiles().Trail(p);
  }

  /** Every search of these two tiles that is not stopped finds the target, and then the queue
      is empty. */
  lemma TwoTilesEnd(pops: seq<Entry>)
    requires Legit(TwoTiles(), pops)
    ensures Distance(CORNER, BESIDE) == 1 && TwoTiles().Reachable(BESIDE)
    ensures |pops| <= 2 && !TooDear(TwoTiles(), pops)
    ensures pops != [] && pops[|pops| - 1].pos == BESIDE ==> After(TwoTiles(), pops).queue == multiset{}
  {
    TwoTilesPops(pops);
    TwoTilesTrail();
    hide Start, Expansion, Chase.Reachable;
    if |pops| == 1 {
      assert pops[..0] == [];
      forall n | 0 <= n < 8
        ensures !Overflows(TwoTiles(), Expansion(TwoTiles(), Popped(Start(TwoTiles()), pops[0]), CORNER, n), CORNER, n)
      {
        TwoTilesCheap(n);
      }
    }
    if |pops| == 2 { TwoTilesLast(pops); }
    hide TwoTiles, Round;
  }

  lemma TwoTilesLast(pops: seq<Entry>)
    requires Legit(TwoTiles(), pops) && |pops| == 2
    ensures pops[1].pos == BESIDE
  {
    TwoTilesPops(pops[..1]);
    hide TwoTiles, Start, Expansion, Round, After;
  }

  lemma TwoTilesSecond(pops: seq<Entry>)
    requires |pops| == 2 && pops[1] == Entry(BESIDE, 2) &&
             After(TwoTiles(), pops[..1]).queue == multiset{Entry(BESIDE, 2)}
    ensures After(TwoTiles(), pops).queue == multiset{}
  {
    hide Expansion, Start;
  }

  // ---------------------------------------------------------------- what the search means

  /** With nothing queued, the met tiles are closed under open moves, so every tile with a
      trail has been met; and the destination has not. */
  lemma {:induction false} TrailIsKnown(w: Chase, s: Search, busy: Cell, p: seq<Cell>)
    requires Inv(w, s, busy, 8) && s.queue == multiset{} && w.Trail(p)
    ensures Known(w, s, p[0]) && p[0] != w.dest
  {
    assert |s.best| == CELLS;
    hide Inv;
    if |p| == 1 {
      KnownStart(w, s, busy);
    } else {
      TrailIsKnown(w, s, busy, p[1..]);
      CellKnown(w, s, busy, 8, p[1]);
      FrontIsNeighbours(p[1], p[0]);
      var k :| 0 <= k < 8 && Beyond(p[1], k) == p[0];
      assert Relaxed(w, s, p[1], k);
    }
    CellKnown(w, s, busy, 8, p[0]);
  }

  lemma KnownStart(w: Chase, s: Search, busy: Cell)
    requires Inv(w, s, busy, 8)
    ensures Known(w, s, w.start)
  {}

  lemma ExhaustedIsUnreachable(w: Chase, s: Search, busy: Cell)
    requires Inv(w, s, busy, 8) && s.queue == multiset{}
    ensures !w.Reachable(w.dest)
  {
    forall p | w.Trail(p) ensures p[0] != w.dest { TrailIsKnown(w, s, busy, p); }
  }

  lemma InvHasParents(w: Chase, s: Search, busy: Cell, n: nat)
    requires Inv(w, s, busy, n)
    ensures Parents(w, s)
  {
    forall c ensures ParentOk(w, s, c) { CellKnown(w, s, busy, n, c); }
  }

  lemma PoppedHasParents(w: Chase, s: Search, e: Entry)
    requires Parents(w, s)
    ensures Parents(w, Popped(s, e))
  {
    forall c ensures ParentOk(w, Popped(s, e), c) { assert ParentOk(w, s, c); }
  }

  /** The part of the invariant that the walk back along the parents needs. */
  ghost predicate Parents(w: Chase, s: Search) {
    && |s.best| == CELLS && InWorld(w.start)
    && w.start in s.parent && s.parent[w.start] == w.start
    && forall c :: ParentOk(w, s, c)
  }

  lemma ParentKnown(w: Chase, s: Search, c: Cell)
    requires Parents(w, s) && c in s.parent
    ensures Known(w, s, c)
    ensures c != w.start ==>
              && s.parent[c] in s.parent && InWorld(s.parent[c])
              && Best(s, s.parent[c]) < Best(s, c)
              && w.Step(s.parent[c], c)
  {
    assert ParentOk(w, s, c);
    if c != w.start { assert ParentOk(w, s, s.parent[c]); }
  }

  lemma StartIsOwnParent(w: Chase, s: Search)
    requires Parents(w, s)
    ensures w.start in s.parent && s.parent[w.start] == w.start
  {}

  /** The tiles from c along the parents. */
  function ParentTrail(w: Chase, s: Search, c: Cell): seq<Cell>
    requires Parents(w, s) && c in s.parent
    decreases (ParentKnown(w, s, c); Best(s, c))
  {
    ParentKnown(w, s, c);
    if c == w.start then [c] else [c] + ParentTrail(w, s, s.parent[c])
  }

  lemma {:induction false} ParentTrailIsTrail(w: Chase, s: Search, c: Cell)
    requires Parents(w, s) && c in s.parent
    ensures var p := ParentTrail(w, s, c);
            w.Trail(p) && p[0] == c && w.Reachable(c)
    decreases (ParentKnown(w, s, c); Best(s, c))
  {
    ParentKnown(w, s, c);
    if c != w.start {
      ParentTrailIsTrail(w, s, s.parent[c]);
      assert ParentTrail(w, s, c)[1..] == ParentTrail(w, s, s.parent[c]);
    }
  }

  /** Each tile of the trail is followed by its parent. */
  predicate Follows(s: Search, p: seq<Cell>) {
    forall i | 0 <= i < |p| - 1 :: p[i] in s.parent && p[i + 1] == s.parent[p[i]]
  }

  lemma {:induction false} ParentTrailFollows(w: Chase, s: Search, c: Cell)
    requires Parents(w, s) && c in s.parent
    ensures Follows(s, ParentTrail(w, s, c)) && ParentTrail(w, s, c)[0] == c
    decreases (ParentKnown(w, s, c); Best(s, c))
  {
    ParentKnown(w, s, c);
    hide Parents;
    if c != w.start {
      ParentTrailFollows(w, s, s.parent[c]);
      var p, q := ParentTrail(w, s, c), ParentTrail(w, s, s.parent[c]);
      assert p == [c] + q;
      forall i | 0 <= i < |p| - 1 ensures p[i] in s.parent && p[i + 1] == s.parent[p[i]] {
        if i > 0 { assert p[i] == q[i - 1] && p[i + 1] == q[i]; }
      }
    }
  }

  /** The first tiles of a parent trail. */
  lemma TrailStarts(w: Chase, s: Search, c: Cell)
    requires Parents(w, s) && c in s.parent
    ensures c == w.start ==> ParentTrail(w, s, c) == [c]
    ensures c != w.start ==> s.parent[c] in s.parent && ParentTrail(w, s, c) == [c] + ParentTrail(w, s, s.parent[c])
  {
    ParentKnown(w, s, c);
    hide Parents;
  }

  lemma {:induction false} TrailInWorld(w: Chase, p: seq<Cell>, i: nat)
    requires w.Trail(p) && InWorld(w.start) && i < |p|
    ensures InWorld(p[i])
  {
    if |p| > 1 && i > 0 { TrailInWorld(w, p[1..], i - 1); }
  }

  /** A trail ends at the start, and its last move but one is a move from the start. */
  lemma {:induction false} TrailEnds(w: Chase, p: seq<Cell>)
    requires w.Trail(p)
    ensures p[|p| - 1] == w.start
    ensures |p| > 1 ==> w.Step(w.start, p[|p| - 2])
  {
    if |p| > 1 { TrailEnds(w, p[1..]); }
  }

  // ---------------------------------------------------------------- the measure

  /** How far the costs can still fall; an unmet tile counts as the largest. */
  function Room(best: seq<nat>): nat {
    if best == [] then 0
    else (if best[|best| - 1] == 0 then COSTS else best[|best| - 1]) + Room(best[..|best| - 1])
  }

  lemma {:induction false} RoomFalls(best: seq<nat>, i: nat, f: nat)
    requires i < |best| && 0 < f < if best[i] == 0 then COSTS else best[i]
    ensures Room(best[i := f]) < Room(best)
  {
    var n := |best| - 1;
    if i < n {
      RoomFalls(best[..n], i, f);
      assert best[i := f][..n] == best[..n][i := f];
    } else {
      assert best[i := f][..n] == best[..n];
    }
  }

  lemma {:induction false} HasLeast(q: multiset<Entry>)
    requires q != multiset{}
    ensures exists e :: e in q && forall x | x in q :: e.cost <= x.cost
  {
    var e :| e in q;
    var rest := q - multiset{e};
    if rest != multiset{} {
      HasLeast(rest);
      var l :| l in rest && forall x | x in rest :: l.cost <= x.cost;
      var m := if e.cost <= l.cost then e else l;
      assert forall x | x in q :: x == e || x in rest;
      assert m in q && forall x | x in q :: m.cost <= x.cost;
    } else {
      assert forall x | x in q :: x == e || rest[x] > 0;
    }
  }

  // ---------------------------------------------------------------- the ground below

  /** The drop from tile c, k tiles below where it began: down to the first solid tile, at
      most three tiles; None if that would look at a tile below the world. */
  function Drop(w: Chase, c: Cell, k: nat): Option<int>
    requires k < 3
    decreases 3 - k
  {
    if c.y < 0 then None
    else if c in w.solid then Some(c.y)
    else if k == 2 then Some(c.y - 1)
    else Drop(w, Cell(c.x, c.y - 1), k + 1)
  }

  /** y is where the drop from c ends: the tiles above it are open, and it is solid or three
      tiles down. */
  predicate IsGround(w: Chase, c: Cell, y: int) {
    && c.y - 3 <= y <= c.y
    && (forall v | y < v <= c.y :: Cell(c.x, v) !in w.solid)
    && (y == c.y - 3 || Cell(c.x, y) in w.solid)
  }

  lemma DropIsGround(w: Chase, c: Cell)
    requires InWorld(c)
    ensures Drop(w, c, 0).Some? ==> IsGround(w, c, Drop(w, c, 0).value)
    ensures Drop(w, c, 0).None? <==> c.y <= 1 && forall v | 0 <= v <= c.y :: Cell(c.x, v) !in w.solid
  {
    var d, e := Cell(c.x, c.y - 1), Cell(c.x, c.y - 2);
    assert c == Cell(c.x, c.y);
    assert Drop(w, c, 0) == if c in w.solid then Some(c.y) else Drop(w, d, 1);
    assert Drop(w, d, 1) == if d.y < 0 then None else if d in w.solid then Some(d.y) else Drop(w, e, 2);
  }

  /** Where the NPC is put: in the column of the tile to step to, one above the ground below
      the tile the walk ended at. */
  function Placed(w: Chase, next: Cell, pos: Cell): Option<Cell> {
    var yy := Drop(w, pos, 0);
    if yy.Some? then Some(Cell(next.x, yy.value + 1)) else None
  }

  /** What a walk of at most `steps` tiles back along trail p leads to. */
  ghost predicate Walked(w: Chase, p: seq<Cell>, steps: nat, path: seq<Cell>, next: Cell, place: Option<Cell>) {
    && w.Trail(p) && path == (if steps < |p| then p[..steps] else p)
    && next == (if |path| > 1 then path[|path| - 2] else if |path| == 1 then path[0] else w.start)
    && place == Placed(w, next, if steps < |p| then p[steps] else w.start)
  }

  /** Given the steps to get there, the walk chooses the start or an open tile beside it, and
      puts the NPC in a column at most one off its own, above the ground below its start. */
  lemma WholeWalk(w: Chase, p: seq<Cell>, steps: nat, path: seq<Cell>, next: Cell, place: Option<Cell>)
    requires Walked(w, p, steps, path, next, place) && steps >= |p| && InWorld(w.start)
    ensures next == w.start || w.Step(w.start, next)
    ensures place.Some? ==>
              -1 <= place.value.x - w.start.x <= 1 && IsGround(w, w.start, place.value.y - 1)
    ensures place.None? <==> w.start.y <= 1 && forall v | 0 <= v <= w.start.y :: Cell(w.start.x, v) !in w.solid
  {
    TrailEnds(w, p);
    DropIsGround(w, w.start);
    hide Drop, IsGround;
  }

  /** Between two rounds of the search. */
  ghost predicate Searching(w: Chase, s: Search, busy: Cell, pops: seq<Entry>) {
    InWorld(w.start) && Inv(w, s, busy, 8) && Legit(w, pops) && s == After(w, pops)
  }

  lemma SearchStarts(w: Chase)
    requires InWorld(w.start) && Distance(w.start, w.dest) < COSTS
    ensures Searching(w, Start(w), w.start, [])
  {
    StartInv(w);
    NoPops(w);
    hide Inv, Legit, After, Start;
  }

  /** What the search may rely on between rounds. */
  lemma SearchKnown(w: Chase, s: Search, busy: Cell, pops: seq<Entry>)
    requires Searching(w, s, busy, pops)
    ensures Parents(w, s) && Legit(w, pops) && s == After(w, pops) && |s.best| == CELLS
    ensures forall e | e in s.queue :: e.pos in s.parent && InWorld(e.pos)
    ensures s.queue == multiset{} ==> !w.Reachable(w.dest)
  {
    InvHasParents(w, s, busy, 8);
    forall e | e in s.queue ensures e.pos in s.parent && InWorld(e.pos) { PoppedEntry(w, s, busy, e, e); }
    if s.queue == multiset{} { ExhaustedIsUnreachable(w, s, busy); }
    hide Inv, Parents, Legit, After;
  }

  /** The round of entry e, by case: dropped, found, or expanded. */
  lemma SearchRound(w: Chase, s: Search, busy: Cell, pops: seq<Entry>, e: Entry)
    requires Searching(w, s, busy, pops) && Least(s.queue, e)
    ensures InWorld(e.pos) && |s.best| == CELLS && Legit(w, pops + [e]) && After(w, pops + [e]) == Round(w, s, e)
    ensures Best(s, e.pos) < e.cost ==> Searching(w, Popped(s, e), busy, pops + [e])
    ensures Best(s, e.pos) >= e.cost && e.pos == w.dest ==>
              Popped(s, e) == After(w, pops + [e]) && Parents(w, Popped(s, e)) && w.dest in s.parent &&
              forall x | x in Popped(s, e).queue :: x.pos in s.parent
    ensures Best(s, e.pos) >= e.cost && e.pos != w.dest ==> Inv(w, Popped(s, e), e.pos, 0)
  {
    SearchKnown(w, s, busy, pops);
    PoppedEntry(w, s, busy, e, e);
    OneMorePop(w, pops, e);
    RoundIs(w, s, e);
    if Best(s, e.pos) < e.cost {
      StaleInv(w, s, busy, e);
    } else if e.pos == w.dest {
      PoppedHasParents(w, s, e);
    } else {
      FreshInv(w, s, busy, e);
    }
    hide Inv, Parents, Legit, After, Round, Expansion;
  }

  lemma SearchExpanded(w: Chase, s: Search, busy: Cell, pops: seq<Entry>, e: Entry)
    requires Searching(w, s, busy, pops) && Least(s.queue, e) && InWorld(e.pos) && |s.best| == CELLS
    requires Best(s, e.pos) >= e.cost && e.pos != w.dest
    ensures Inv(w, Expansion(w, Popped(s, e), e.pos, 8), e.pos, 8) ==>
              Searching(w, Expansion(w, Popped(s, e), e.pos, 8), e.pos, pops + [e])
    ensures (exists n | 0 <= n < 8 :: Overflows(w, Expansion(w, Popped(s, e), e.pos, n), e.pos, n)) ==>
              TooDear(w, pops + [e])
  {
    SearchRound(w, s, busy, pops, e);
    RoundIs(w, s, e);
    assert (pops + [e])[..|pops|] == pops;
    if exists n | 0 <= n < 8 :: Overflows(w, Expansion(w, Popped(s, e), e.pos, n), e.pos, n) {
      IsTooDear(w, pops + [e], s, e);
    }
    hide Inv, Parents, Legit, Round, Expansion, TooDear;
  }
}
