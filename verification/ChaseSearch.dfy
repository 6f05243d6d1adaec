/** The path search of a chasing NPC: best-first over the tile grid with a 16-bit cost
    array, a priority queue that is never cleaned and a parent map, then a walk back along
    the parents to find the tile to step to. */
module ChaseSearch {
  import opened Options
  import opened ChaseField

  /** `Overflow`: a tile would get a cost of 65536 or more, which 16 bits do not hold. */
  datatype Outcome = Found | Exhausted | TimedOut | Overflow

  class ChaseSearch {
    const best: array<nat>
    var queue: multiset<Entry>
    var parent: map<Cell, Cell>
    var path: seq<Cell>

    constructor ()
      ensures best.Length == CELLS && fresh(best)
    {
      best := new nat[CELLS];
      queue, parent, path := multiset{}, map[], [];
    }

    ghost function View(): Search
      reads this, best
    { Search(best[..], queue, parent) }

    /** The body of the loop over the directions of a popped tile. */
    method Relax(w: Chase, node: Cell, n: nat) returns (ok: bool)
      requires Inv(w, View(), node, n) && n < 8
      modifies this`queue, this`parent, best
      ensures ok ==> Inv(w, View(), node, n + 1) && View() == RelaxedOnce(w, old(View()), node, n)
      ensures !ok ==> View() == old(View()) && Overflows(w, View(), node, n)
      ensures ok ==> Room(best[..]) < old(Room(best[..])) || (best[..] == old(best[..]) && queue == old(queue))
    {
      ghost var s := View();
      BusyKnown(w, s, node, n);
      hide Inv, Room, Index, Distance, Emplaced;
      var d := Beyond(node, n);
      if !w.Open(d) {
        SkipInv(w, s, node, n);
        return true;
      }
      var f := best[Index(node)] + FRONT[n].weight + Distance(d, w.dest);
      var known := best[Index(d)];
      if known == 0 || known > f {
        if f >= COSTS {
          return false;
        }
        Improve(w, node, n, f);
      } else {
        SkipInv(w, s, node, n);
      }
      return true;
    }

    /** A cheaper way to the tile is recorded and queued. */
    method Improve(w: Chase, node: Cell, n: nat, f: nat)
      requires Inv(w, View(), node, n) && n < 8 && w.Open(Beyond(node, n)) && f < COSTS
      requires f == Best(View(), node) + FRONT[n].weight + Distance(Beyond(node, n), w.dest)
      requires Best(View(), Beyond(node, n)) == 0 || Best(View(), Beyond(node, n)) > f
      modifies this`queue, this`parent, best
      ensures Inv(w, View(), node, n + 1) && View() == RelaxedOnce(w, old(View()), node, n)
      ensures Room(best[..]) < old(Room(best[..]))
    {
      ghost var s := View();
      BusyKnown(w, s, node, n);
      hide Inv, Room, Index, Distance, Emplaced;
      var d := Beyond(node, n);
      Emplace(node, d, f);
      RoomFalls(s.best, Index(d), f);
      EmplaceInv(w, s, node, n);
    }

    method Emplace(node: Cell, d: Cell, f: nat)
      requires best.Length == CELLS && InWorld(d)
      modifies this`queue, this`parent, best
      ensures View() == Emplaced(old(View()), node, d, f)
      ensures best[..] == old(best[..])[Index(d) := f]
    {
      best[Index(d)] := f;
      queue := queue + multiset{Entry(d, f)};
      parent := parent[d := node];
    }

    /** The loop over the eight directions of a popped tile. */
    method Expand(w: Chase, node: Cell) returns (ok: bool)
      requires Inv(w, View(), node, 0)
      modifies this`queue, this`parent, best
      ensures ok ==> Inv(w, View(), node, 8) && View() == Expansion(w, old(View()), node, 8)
      ensures !ok ==> exists n | 0 <= n < 8 :: Overflows(w, Expansion(w, old(View()), node, n), node, n)
      ensures ok ==> Room(best[..]) < old(Room(best[..])) || (best[..] == old(best[..]) && queue == old(queue))
    {
      ghost var s := View();
      BusyKnown(w, s, node, 0);
      hide Inv, Room, RelaxedOnce, Overflows;
      for n := 0 to 8
        invariant Inv(w, View(), node, n) && View() == Expansion(w, s, node, n)
        invariant Room(best[..]) < old(Room(best[..])) || (best[..] == old(best[..]) && queue == old(queue))
      {
        ok := Relax(w, node, n);
        if !ok {
          return false;
        }
      }
      return true;
    }

    /** The search loop. `patience` is the number of rounds before the clock stops it; `pops`
        are the entries popped. */
    method RunSearch(w: Chase, patience: nat) returns (o: Outcome, ghost pops: seq<Entry>)
      requires best.Length == CELLS && InWorld(w.start) && path == []
      modifies this`queue, this`parent, best
      ensures o != Overflow ==> Parents(w, View())
      ensures o == Found ==> w.dest in parent
      ensures o == Exhausted ==> queue == multiset{} && !w.Reachable(w.dest)
      ensures o == TimedOut ==> queue != multiset{} && |pops| == patience
      ensures o != Overflow ==> forall e | e in queue :: e.pos in parent
      ensures Legit(w, pops) && (o != Overflow ==> View() == After(w, pops))
      ensures o == Found ==> pops != [] && pops[|pops| - 1].pos == w.dest
      ensures o == Overflow ==> Distance(w.start, w.dest) >= COSTS || TooDear(w, pops)
    {
      pops := [];
      var h := Distance(w.start, w.dest);
      if h >= COSTS {
        NoPops(w);
        return Overflow, [];
      }
      Reset(w, h);
      SearchStarts(w);
      ghost var busy := w.start;
      var rounds := 0;
      hide *;
      while queue != multiset{}
        invariant Searching(w, View(), busy, pops) && |pops| == rounds <= patience
        decreases Room(best[..]), |queue|
      {
        SearchKnown(w, View(), busy, pops);
        if rounds == patience {
          return TimedOut, pops;
        }
        rounds := rounds + 1;
        var end;
        end, busy, pops := NextRound(w, busy, pops);
        if end.Some? {
          return end.value, pops;
        }
      }
      SearchKnown(w, View(), busy, pops);
      return Exhausted, pops;
    }

    /** `top` and `pop`. */
    method PopLeast() returns (node: Entry)
      requires queue != multiset{}
      modifies this`queue
      ensures Least(old(queue), node) && View() == Popped(old(View()), node)
    {
      HasLeast(queue);
      node :| node in queue && forall x | x in queue :: node.cost <= x.cost;
      queue := queue - multiset{node};
    }

    /** One round of the loop, unless it ends the search. */
    method NextRound(w: Chase, ghost busy: Cell, ghost pops: seq<Entry>)
        returns (end: Option<Outcome>, ghost busy': Cell, ghost pops': seq<Entry>)
      requires Searching(w, View(), busy, pops) && queue != multiset{}
      modifies this`queue, this`parent, best
      ensures |pops'| == |pops| + 1 && InWorld(w.start) && Legit(w, pops')
      ensures end.None? ==> Searching(w, View(), busy', pops')
      ensures end.None? ==>
                Room(best[..]) < old(Room(best[..])) || (Room(best[..]) == old(Room(best[..])) &&
                    |queue| < old(|queue|))
      ensures end.Some? ==> end.value.Found? || end.value.Overflow?
      ensures end == Some(Found) ==> Parents(w, View()) && w.dest in parent && View() == After(w, pops')
      ensures end == Some(Found) ==> pops'[|pops'| - 1].pos == w.dest && forall e | e in queue :: e.pos in parent
      ensures end == Some(Overflow) ==> TooDear(w, pops')
    {
      ghost var s := View();
      assert InWorld(w.start);
      hide Searching, Inv, Room, Index, Parents, Legit, After, Round, Expansion, TooDear;
      var node := PopLeast();
      SearchRound(w, s, busy, pops, node);
      pops' := pops + [node];
      busy' := busy;
      if best[Index(node.pos)] < node.cost {
        return None, busy, pops';
      }
      if node.pos == w.dest {
        return Some(Found), busy, pops';
      }
      busy' := node.pos;
      var ok := Expand(w, node.pos);
      SearchExpanded(w, s, busy, pops, node);
      end := if ok then None else Some(Overflow);
    }

    method Reset(w: Chase, h: nat)
      requires best.Length == CELLS && InWorld(w.start) && h == Distance(w.start, w.dest)
      modifies this`queue, this`parent, best
      ensures View() == Start(w)
    {
      for i := 0 to CELLS
        invariant forall k | 0 <= k < i :: best[k] == 0
      {
        best[i] := 0;
      }
      queue := multiset{Entry(w.start, h)};
      best[Index(w.start)] := h;
      parent := map[w.start := w.start];
      assert best[..] == Start(w).best;
    }

    /** The walk back along the parents, at most `steps` tiles of it before the clock stops it;
        `pos` is the tile it stands at. */
    method WalkBack(w: Chase, goal: Cell, steps: nat) returns (pos: Cell)
      requires Parents(w, View()) && goal in parent && path == []
      modifies this`path
      ensures var p := ParentTrail(w, View(), goal);
              if steps < |p| then path == p[..steps] && pos == p[steps] else path == p && pos == w.start
    {
      pos := goal;
      ghost var s := View();
      ghost var whole := ParentTrail(w, s, goal);
      assert |s.best| == CELLS;
      hide Parents;
      ParentKnown(w, s, pos);
      var left := steps;
      while true
        invariant View() == s && pos in parent && InWorld(pos) && |s.best| == CELLS
        invariant path + ParentTrail(w, s, pos) == whole && |path| + left == steps
        decreases Best(s, pos)
      {
        ghost var rest := ParentTrail(w, s, pos);
        ParentKnown(w, s, pos);
        TrailStarts(w, s, pos);
        if left == 0 {
          assert whole[..steps] == path && whole[steps] == rest[0];
          return;
        }
        left := left - 1;
        path := path + [pos];
        StartIsOwnParent(w, s);
        if pos == parent[pos] {
          return;
        }
        pos := parent[pos];
      }
    }

    /** The drop to the ground below a tile; None where it looks below the world. */
    method DropToGround(w: Chase, pos: Cell) returns (yy: Option<int>)
      requires InWorld(pos)
      ensures yy == Drop(w, pos, 0)
    {
      var y, delta := pos.y, 0;
      while true
        invariant y == pos.y - delta && 0 <= delta < 3 && Drop(w, pos, 0) == Drop(w, Cell(pos.x, y), delta)
        decreases 3 - delta
      {
        if y < 0 {
          return None;
        }
        if Cell(pos.x, y) in w.solid {
          break;
        }
        y := y - 1;
        delta := delta + 1;
        if delta >= 3 {
          break;
        }
      }
      return Some(y);
    }

    /** One chase: the tile to step to, and where the NPC is put: the column of that tile, and
        one above the ground below the tile the walk ended at. `more`: tiles were still queued
        when the search ended. */
    method ExecuteAI(w: Chase, patience: nat, steps: nat)
        returns (o: Outcome, next: Cell, place: Option<Cell>, ghost more: bool, ghost pops: seq<Entry>)
      requires best.Length == CELLS && InWorld(w.start)
      modifies this, best
      ensures o == Found ==> w.Reachable(w.dest)
      ensures o == Exhausted ==> !w.Reachable(w.dest)
      ensures o == TimedOut ==> |pops| == patience
      ensures o == Overflow ==> Distance(w.start, w.dest) >= COSTS || TooDear(w, pops)
      ensures Legit(w, pops) && (o == Found ==> pops != [] && pops[|pops| - 1].pos == w.dest)
      ensures o != Overflow ==> (more <==> After(w, pops).queue != multiset{})
      ensures (o == TimedOut ==> more) && (o == Exhausted ==> !more) && (o != Overflow ==> queue == multiset{})
      ensures o != Overflow ==>
                exists p :: Walked(w, p, steps, path, next, place) && Follows(After(w, pops), p) &&
                            GoesFrom(w, After(w, pops).queue, o, p)
    {
      path := [];
      next, place := w.start, None;
      o, pops := RunSearch(w, patience);
      more := queue != multiset{};
      if o == Overflow {
        return;
      }
      var goal := Goal(w, o);
      if o == Found { ParentTrailIsTrail(w, View(), w.dest); }
      ghost var p;
      next, place, p := StepBack(w, goal, steps);
      hide *;
      GoesThere(w, queue, o, p, goal);
      queue := multiset{};
    }

    /** From the goal of the search to the tile to step to, and the place for the NPC. */
    method StepBack(w: Chase, goal: Cell, steps: nat) returns (next: Cell, place: Option<Cell>, ghost p: seq<Cell>)
      requires Parents(w, View()) && goal in parent && path == []
      modifies this`path
      ensures Walked(w, p, steps, path, next, place) && p != [] && p[0] == goal && (goal == w.start ==> p == [w.start])
      ensures Follows(old(View()), p)
    {
      p := ParentTrail(w, View(), goal);
      ParentTrailFollows(w, View(), goal);
      BackFacts(w, View(), goal, steps);
      hide *;
      var pos := WalkBack(w, goal, steps);
      next := w.start;
      if path != [] {
        next := if |path| > 1 then path[|path| - 2] else path[0];
      }
      var yy := DropToGround(w, pos);
      place := if yy.Some? then Some(Cell(next.x, yy.value + 1)) else None;
      IsWalked(w, p, steps, path, next, pos, place);
    }

    /** The tile the walk starts from: the target if it was found and the queue is not empty,
        else the top of the queue, else the start. */
    method Goal(w: Chase, o: Outcome) returns (goal: Cell)
      requires Parents(w, View()) && (o == Found ==> w.dest in parent) && forall e | e in queue :: e.pos in parent
      ensures goal in parent
      ensures queue == multiset{} ==> goal == w.start
      ensures queue != multiset{} && o == Found ==> goal == w.dest
      ensures queue != multiset{} && o != Found ==> exists e :: Least(queue, e) && e.pos == goal
    {
      goal := w.start;
      StartIsOwnParent(w, View());
      if queue != multiset{} {
        HasLeast(queue);
        var e :| e in queue && forall x | x in queue :: e.cost <= x.cost;
        assert Least(queue, e);
        goal := if o == Found then w.dest else e.pos;
      }
    }

    /** Found with the queue empty: the NPC stays, next to its target. */
    method StaysBesideTarget() returns (o: Outcome, next: Cell)
      requires best.Length == CELLS
      modifies this, best
      ensures o == Found && next == TwoTiles().start && TwoTiles().Step(next, TwoTiles().dest)
    {
      var place;
      ghost var more, pops;
      o, next, place, more, pops := ExecuteAI(TwoTiles(), 3, 3);
      TwoTilesEnd(pops);
      hide TwoTiles, Legit, After;
    }
  }

  lemma BackFacts(w: Chase, s: Search, goal: Cell, steps: nat)
    requires Parents(w, s) && goal in s.parent
    ensures var p := ParentTrail(w, s, goal);
            w.Trail(p) && p != [] && p[0] == goal && (goal == w.start ==> p == [w.start]) &&
            InWorld(if steps < |p| then p[steps] else w.start)
  {
    ParentTrailIsTrail(w, s, goal);
    if goal == w.start { TrailStarts(w, s, w.start); }
    assert InWorld(w.start);
    hide Parents, ParentTrail, InWorld;
    var p := ParentTrail(w, s, goal);
    if steps < |p| { TrailInWorld(w, p, steps); }
  }

  lemma IsWalked(w: Chase, p: seq<Cell>, steps: nat, path: seq<Cell>, next: Cell, pos: Cell, place: Option<Cell>)
    requires w.Trail(p)
    requires if steps < |p| then path == p[..steps] && pos == p[steps] else path == p && pos == w.start
    requires next == if |path| > 1 then path[|path| - 2] else if |path| == 1 then path[0] else w.start
    requires place == if Drop(w, pos, 0).Some? then Some(Cell(next.x, Drop(w, pos, 0).value + 1)) else None
    ensures Walked(w, p, steps, path, next, place)
  {
    hide Drop, Chase.Trail;
  }

  lemma GoesThere(w: Chase, queue: multiset<Entry>, o: Outcome, p: seq<Cell>, goal: Cell)
    requires p != [] && p[0] == goal && (goal == w.start ==> p == [w.start])
    requires queue == multiset{} ==> goal == w.start
    requires queue != multiset{} && o == Found ==> goal == w.dest
    requires queue != multiset{} && o != Found ==> exists e :: Least(queue, e) && e.pos == goal
    ensures GoesFrom(w, queue, o, p)
  {}

  /** Where the walk back begins: with nothing queued at the start, where it also ends; else at
      the target if it was found, and at the tile of a least entry if the clock stopped the search. */
  ghost predicate GoesFrom(w: Chase, queue: multiset<Entry>, o: Outcome, p: seq<Cell>) {
    && p != []
    && (queue == multiset{} ==> p == [w.start])
    && (queue != multiset{} && o == Found ==> p[0] == w.dest)
    && (queue != multiset{} && o != Found ==> exists e :: Least(queue, e) && e.pos == p[0])
  }
}
