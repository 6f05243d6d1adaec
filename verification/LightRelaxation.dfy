/** The worklist relaxation that computes the light field: its invariant, and why an
    empty worklist means that every level is exact, whatever the order of the worklist. */
module LightRelaxation {
  import opened LightField

  /** The four neighbours of a cell, in the order they are visited. */
  function Dir(c: Cell, k: int): (d: Cell)
    requires 0 <= k < 4
    ensures Neighbours(c, d) && d != c
  {
    match k
    case 0 => Cell(c.x, c.y + 1)
    case 1 => Cell(c.x, c.y - 1)
    case 2 => Cell(c.x - 1, c.y)
    case _ => Cell(c.x + 1, c.y)
  }

  lemma NeighbourIsDir(c: Cell, d: Cell) returns (k: int)
    requires Neighbours(c, d)
    ensures 0 <= k < 4 && Dir(c, k) == d
  {
    k := if d == Cell(c.x, c.y + 1) then 0 else if d == Cell(c.x, c.y - 1) then 1
         else if d == Cell(c.x - 1, c.y) then 2 else 3;
  }

  // ---------------------------------------------------------------- invariant

  ghost predicate Shape(s: Scene, lv: seq<int>) {
    s.Valid() && |lv| == s.Width() * s.Height()
  }

  /** The levels around the window are light levels. */
  ghost predicate RingOk(s: Scene, ring: seq<int>) {
    Shape(s, ring) && forall c | s.InRing(c) :: 0 <= s.At(ring, c) <= FULL
  }

  /** Light from u has reached neighbour v. */
  predicate Reached(s: Scene, lv: seq<int>, u: Cell, v: Cell)
    requires s.tiles.Valid() && |lv| == s.Width() * s.Height() && s.InGrid(u) && s.InGrid(v)
  {
    s.OpenAir(v) || s.At(lv, v) >= s.Leave(u, s.At(lv, u))
  }

  predicate Glows(s: Scene, lv: seq<int>, u: Cell)
    requires s.tiles.Valid() && |lv| == s.Width() * s.Height() && s.InGrid(u)
  {
    s.Emits(u) && (s.Seeded(u) || s.At(lv, u) > 0) ==> s.At(lv, u) == FULL
  }

  /** The first n neighbours of u have received its light. */
  ghost predicate Spread(s: Scene, lv: seq<int>, u: Cell, n: int)
    requires Shape(s, lv) && s.InGrid(u) && 0 <= n <= 4
  {
    && Glows(s, lv, u)
    && (s.At(lv, u) > 0 ==>
          forall k | 0 <= k < n :: s.InWindow(Dir(u, k)) ==> Reached(s, lv, u, Dir(u, k)))
  }

  /** The level of c comes along some path. */
  ghost predicate Sound(s: Scene, lv: seq<int>, ring: seq<int>, c: Cell)
    requires Shape(s, lv) && Shape(s, ring) && s.InGrid(c)
  {
    s.At(lv, c) > 0 ==> s.Brings(c, s.At(lv, c), ring)
  }

  ghost predicate CellInv(s: Scene, lv: seq<int>, ring: seq<int>, c: Cell)
    requires Shape(s, lv) && Shape(s, ring) && s.InGrid(c)
  {
    && (s.Active(c) ==> 0 <= s.At(lv, c) <= FULL && Sound(s, lv, ring, c))
    && (!s.InWindow(c) ==> s.At(lv, c) == s.At(ring, c) || (s.InRing(c) && s.Emits(c) && s.At(lv, c) == FULL))
  }

  /** While the first n neighbours of cell u have been dealt with: every other active
      cell not on the worklist has spread its light. */
  ghost predicate Inv(s: Scene, lv: seq<int>, q: seq<Cell>, ring: seq<int>, u: Cell, n: int) {
    && Shape(s, lv) && RingOk(s, ring) && 0 <= n <= 4 && s.Active(u)
    && (forall c <- q :: s.Active(c) && (s.Seeded(c) || s.At(lv, c) > 0))
    && (forall c | s.InGrid(c) :: CellInv(s, lv, ring, c))
    && (forall c | s.Active(c) && c !in q && c != u :: Spread(s, lv, c, 4))
    && Spread(s, lv, u, n)
  }

  /** Between two pops. */
  ghost predicate Idle(s: Scene, lv: seq<int>, q: seq<Cell>, ring: seq<int>) {
    && Shape(s, lv) && RingOk(s, ring)
    && (forall c <- q :: s.Active(c) && (s.Seeded(c) || s.At(lv, c) > 0))
    && (forall c | s.InGrid(c) :: CellInv(s, lv, ring, c))
    && (forall c | s.Active(c) && c !in q :: Spread(s, lv, c, 4))
  }

  // ---------------------------------------------------------------- what the levels stay within

  lemma {:induction false} CarriedRange(s: Scene, p: seq<Cell>, ring: seq<int>)
    requires RingOk(s, ring) && s.IsPath(p)
    ensures 0 <= s.Carried(p, ring) <= FULL
    decreases |p|
  {
    if |p| > 1 {
      CarriedRange(s, p[..|p| - 1], ring);
    }
  }

  /** Extending a path by one neighbour of the window. */
  lemma CarriedOn(s: Scene, p: seq<Cell>, ring: seq<int>, v: Cell)
    requires Shape(s, ring) && s.IsPath(p)
    requires s.InWindow(v) && Neighbours(p[|p| - 1], v)
    ensures s.IsPath(p + [v])
    ensures s.Carried(p + [v], ring) == s.Arrive(v, s.Leave(p[|p| - 1], s.Carried(p, ring)))
  {
    var r := p + [v];
    assert r[..|r| - 1] == p && r[|r| - 1] == v;
  }

  // ---------------------------------------------------------------- steps

  /** Taking u off the worklist and lighting it if it emits. */
  lemma Pop(s: Scene, lv: seq<int>, q: seq<Cell>, ring: seq<int>)
    requires q != [] && Idle(s, lv, q, ring)
    ensures var u := q[0];
            s.InGrid(u) && 0 <= s.Index(u) < |lv| &&
            Inv(s, if s.Emits(u) then lv[s.Index(u) := FULL] else lv, q[1..], ring, u, 0)
  {
    hide Scene.Brings;
    var u := q[0];
    assert u in q && s.Active(u);
    IndexInRange(u.x, u.y, s.Width(), s.Height());
    var lv' := if s.Emits(u) then lv[s.Index(u) := FULL] else lv;
    forall c | s.InGrid(c)
      ensures s.At(lv', c) == if c == u && s.Emits(u) then FULL else s.At(lv, c)
    {
      AtUpdate(s, lv, u, FULL, c);
    }
    if s.Emits(u) { EmitterSound(s, lv, ring, u); }
    forall c | s.InGrid(c)
      ensures CellInv(s, lv', ring, c)
    {
      assert CellInv(s, lv, ring, c);
    }
    forall c | s.Active(c) && c !in q[1..] && c != u
      ensures Spread(s, lv', c, 4)
    {
      assert c !in q by { assert q == [u] + q[1..]; }
      assert Spread(s, lv, c, 4);
    }
    forall c <- q[1..]
      ensures s.Active(c) && (s.Seeded(c) || s.At(lv', c) > 0)
    {
      assert c in q;
    }
  }

  /** Full light at an emitter that is seeded or lit comes along a path. */
  lemma EmitterSound(s: Scene, lv: seq<int>, ring: seq<int>, u: Cell)
    requires Shape(s, lv) && Shape(s, ring) && s.Active(u) && s.Emits(u)
    requires CellInv(s, lv, ring, u)
    requires s.Seeded(u) || s.At(lv, u) > 0
    ensures s.Brings(u, FULL, ring)
  {
    if s.Seeded(u) {
      assert s.IsPath([u]) && s.Carried([u], ring) == FULL;
    } else {
      var p :| s.IsPath(p) && p[|p| - 1] == u && s.Carried(p, ring) >= s.At(lv, u);
      assert s.Carried(p, ring) >= FULL;
    }
  }

  /** Passing the light of u on to a darker neighbour of the window. */
  lemma Raise(s: Scene, lv: seq<int>, q: seq<Cell>, ring: seq<int>, u: Cell, n: int)
    requires Inv(s, lv, q, ring, u, n) && n < 4 && s.At(lv, u) > 0
    requires s.InWindow(Dir(u, n)) && !Reached(s, lv, u, Dir(u, n))
    ensures 0 <= s.Index(Dir(u, n)) < |lv|
    ensures Inv(s, lv[s.Index(Dir(u, n)) := s.Leave(u, s.At(lv, u))], q + [Dir(u, n)], ring, u, n + 1)
  {
    hide Scene.Brings;
    var v, sub := Dir(u, n), s.Leave(u, s.At(lv, u));
    IndexInRange(v.x, v.y, s.Width(), s.Height());
    var lv' := lv[s.Index(v) := sub];
    forall c | s.InGrid(c)
      ensures s.At(lv', c) == if c == v then sub else s.At(lv, c)
    {
      AtUpdate(s, lv, v, sub, c);
    }
    RaiseCell(s, lv, lv', ring, u, v, u);
    hide CellInv, Spread;
    forall c | s.InGrid(c)
      ensures CellInv(s, lv', ring, c)
    {
      RaiseCell(s, lv, lv', ring, u, v, c);
    }
    RaiseSpread(s, lv, lv', u, v, u, n);
    SpreadNext(s, lv', u, n);
    forall c | s.Active(c) && c !in q + [v] && c != u
      ensures Spread(s, lv', c, 4)
    {
      RaiseSpread(s, lv, lv', u, v, c, 4);
    }
  }

  lemma RaiseCell(s: Scene, lv: seq<int>, lv': seq<int>, ring: seq<int>, u: Cell, v: Cell, c: Cell)
    requires Shape(s, lv) && Shape(s, lv') && RingOk(s, ring) && s.InGrid(c)
    requires s.Active(u) && s.InWindow(v) && Neighbours(u, v) && s.At(lv, u) > 0 && !Reached(s, lv, u, v)
    requires forall d | s.InGrid(d) :: s.At(lv', d) == if d == v then s.Leave(u, s.At(lv, u)) else s.At(lv, d)
    requires CellInv(s, lv, ring, u) && CellInv(s, lv, ring, v) && CellInv(s, lv, ring, c)
    ensures CellInv(s, lv', ring, c) && s.At(lv', v) > s.At(lv, v) >= 0
  {
    if c == v { RaiseSound(s, lv, ring, u, v); }
  }

  lemma SpreadNext(s: Scene, lv: seq<int>, u: Cell, n: int)
    requires Shape(s, lv) && s.InGrid(u) && 0 <= n < 4 && Spread(s, lv, u, n)
    requires s.At(lv, u) > 0 && s.InWindow(Dir(u, n)) ==> Reached(s, lv, u, Dir(u, n))
    ensures Spread(s, lv, u, n + 1)
  {
  }

  /** Raising the level of v takes nothing from any other cell c. */
  lemma RaiseSpread(s: Scene, lv: seq<int>, lv': seq<int>, u: Cell, v: Cell, c: Cell, n: int)
    requires Shape(s, lv) && Shape(s, lv') && s.InGrid(c) && s.InGrid(v) && c != v && 0 <= n <= 4
    requires forall d | s.InGrid(d) && d != v :: s.At(lv', d) == s.At(lv, d)
    requires s.At(lv', v) >= s.At(lv, v)
    requires Spread(s, lv, c, n)
    ensures Spread(s, lv', c, n)
  {
    if s.At(lv, c) > 0 {
      forall k | 0 <= k < n && s.InWindow(Dir(c, k))
        ensures Reached(s, lv', c, Dir(c, k))
      {
        assert Reached(s, lv, c, Dir(c, k));
      }
    }
  }

  /** A path that brings level l to its end brings on what is left of it. */
  lemma BringsOn(s: Scene, p: seq<Cell>, ring: seq<int>, v: Cell, l: int)
    requires RingOk(s, ring) && s.IsPath(p) && s.InWindow(v) && Neighbours(p[|p| - 1], v) && s.Carried(p, ring) >= l > 0
    ensures s.InGrid(p[|p| - 1]) && s.Brings(v, s.Leave(p[|p| - 1], l), ring)
  {
    CarriedRange(s, p, ring);
    CarriedOn(s, p, ring, v);
    var r := p + [v];
    assert r[|r| - 1] == v;
    hide Scene.IsPath, Scene.Carried;
  }

  lemma RaiseSound(s: Scene, lv: seq<int>, ring: seq<int>, u: Cell, v: Cell)
    requires Shape(s, lv) && RingOk(s, ring) && s.Active(u) && s.InWindow(v) && Neighbours(u, v)
    requires CellInv(s, lv, ring, u) && s.At(lv, u) > 0
    ensures s.Brings(v, s.Leave(u, s.At(lv, u)), ring)
  {
    assert s.Brings(u, s.At(lv, u), ring);
    hide CellInv, Scene.Exact, Reached, Spread;
    var p :| s.IsPath(p) && p[|p| - 1] == u && s.Carried(p, ring) >= s.At(lv, u);
    BringsOn(s, p, ring, v, s.At(lv, u));
  }

  /** A neighbour that needs no light from u. */
  lemma Skip(s: Scene, lv: seq<int>, q: seq<Cell>, ring: seq<int>, u: Cell, n: int)
    requires Inv(s, lv, q, ring, u, n) && n < 4
    requires s.At(lv, u) > 0 && s.InWindow(Dir(u, n)) ==> Reached(s, lv, u, Dir(u, n))
    ensures Inv(s, lv, q, ring, u, n + 1)
  {
    SpreadNext(s, lv, u, n);
  }

  /** A dark cell has nothing to spread. */
  lemma SkipDark(s: Scene, lv: seq<int>, q: seq<Cell>, ring: seq<int>, u: Cell)
    requires Inv(s, lv, q, ring, u, 0) && s.At(lv, u) == 0
    ensures Idle(s, lv, q, ring)
  {
    assert Spread(s, lv, u, 4);
  }

  // ---------------------------------------------------------------- an empty worklist

  lemma IdleCell(s: Scene, lv: seq<int>, ring: seq<int>, c: Cell)
    requires Idle(s, lv, [], ring) && s.Active(c)
    ensures Shape(s, lv) && Shape(s, ring) && s.InGrid(c)
    ensures CellInv(s, lv, ring, c) && Spread(s, lv, c, 4)
    ensures s.InRing(c) ==> s.At(ring, c) <= FULL
  {
    assert CellInv(s, lv, ring, c);
  }

  /** A path of one cell carries no more than its level. */
  lemma SeedBound(s: Scene, lv: seq<int>, ring: seq<int>, c: Cell)
    requires Idle(s, lv, [], ring) && s.Active(c)
    ensures s.Valid() && |lv| == |ring| == s.Width() * s.Height() && s.Seed(c, ring) <= s.At(lv, c)
  {
    IdleCell(s, lv, ring, c);
    hide Idle, Scene.Brings;
  }

  /** Light that is no more than the level of u is no more than the level of its neighbour
      when it gets there. */
  lemma StepBound(s: Scene, lv: seq<int>, ring: seq<int>, u: Cell, c: Cell, v: int)
    requires Idle(s, lv, [], ring) && s.Active(u) && s.InWindow(c) && Neighbours(u, c)
    ensures s.Valid() && |lv| == |ring| == s.Width() * s.Height()
    ensures v <= s.At(lv, u) ==> s.Arrive(c, s.Leave(u, v)) <= s.At(lv, c)
  {
    IdleCell(s, lv, ring, u);
    IdleCell(s, lv, ring, c);
    hide Idle, Scene.Brings;
    var k := NeighbourIsDir(u, c);
    assert s.At(lv, u) > 0 ==> Reached(s, lv, u, Dir(u, k));
    assert s.OpenAir(c) ==> s.At(lv, c) == FULL;
  }

  /** No path carries more than the level of the cell it ends at. */
  lemma {:induction false} PathBound(s: Scene, lv: seq<int>, ring: seq<int>, p: seq<Cell>)
    requires Idle(s, lv, [], ring) && s.IsPath(p)
    ensures s.Carried(p, ring) <= s.At(lv, p[|p| - 1])
    decreases |p|
  {
    if |p| == 1 {
      SeedBound(s, lv, ring, p[0]);
    } else {
      var q, c := p[..|p| - 1], p[|p| - 1];
      PathBound(s, lv, ring, q);
      StepBound(s, lv, ring, q[|q| - 1], c, s.Carried(q, ring));
    }
    hide Idle;
  }

  /** When the worklist is empty every level of the window is exact. */
  lemma EmptyIsExact(s: Scene, lv: seq<int>, ring: seq<int>, c: Cell)
    requires Idle(s, lv, [], ring) && s.InWindow(c)
    ensures s.Exact(c, s.At(lv, c), ring)
  {
    assert CellInv(s, lv, ring, c);
    if s.At(lv, c) > 0 {
      var p :| s.IsPath(p) && p[|p| - 1] == c && s.Carried(p, ring) >= s.At(lv, c);
      PathBound(s, lv, ring, p);
    }
    forall p | s.IsPath(p) && p[|p| - 1] == c
      ensures s.Carried(p, ring) <= s.At(lv, c)
    {
      PathBound(s, lv, ring, p);
    }
  }

  /** The exact level is unique, so the order of the worklist does not matter. */
  lemma ExactIsUnique(s: Scene, c: Cell, v: int, w: int, ring: seq<int>)
    requires Shape(s, ring) && s.Exact(c, v, ring) && s.Exact(c, w, ring)
    ensures v == w
  {
    if v > 0 {
      var p :| s.IsPath(p) && p[|p| - 1] == c && s.Carried(p, ring) == v;
    }
    if w > 0 {
      var p :| s.IsPath(p) && p[|p| - 1] == c && s.Carried(p, ring) == w;
    }
  }
}
