/** The shade of a tile map: the level arrays, the recomputation of a window of them by a
    worklist, and the buffer of cells to redraw. */
module TileMapShade {
  import opened LightField
  import opened LightRelaxation
  import opened MachineWords

  // ---------------------------------------------------------------- termination measure

  /** How far a level is below full light. */
  function Gap(v: int): nat {
    if 0 <= v <= FULL then FULL - v else 0
  }

  function TotalGap(lv: seq<int>): nat {
    if lv == [] then 0 else TotalGap(lv[..|lv| - 1]) + Gap(lv[|lv| - 1])
  }

  lemma {:induction false} TotalGapUpdate(lv: seq<int>, i: int, v: int)
    requires 0 <= i < |lv|
    ensures TotalGap(lv[i := v]) == TotalGap(lv) - Gap(lv[i]) + Gap(v)
  {
    var n := |lv| - 1;
    if i < n {
      TotalGapUpdate(lv[..n], i, v);
      assert lv[i := v][..n] == lv[..n][i := v];
    } else {
      assert lv[i := v][..n] == lv[..n];
    }
  }

  // ---------------------------------------------------------------- sweeping the window

  /** Cell c of the window comes before (x, y) in a sweep by columns. */
  predicate Before(s: Scene, c: Cell, x: int, y: int) {
    s.InWindow(c) && (c.x < x || (c.x == x && c.y < y))
  }

  /** `added` lists the window cells whose level changed, each once. */
  ghost predicate IsRedraw(s: Scene, before: seq<int>, after: seq<int>, added: seq<Cell>)
    requires Shape(s, before) && Shape(s, after)
  {
    && (forall c :: c in added <==> s.InWindow(c) && s.At(before, c) != s.At(after, c))
    && (forall i, j | 0 <= i < j < |added| :: added[i] != added[j])
  }

  class TileMapShade {
    const tileWidth: nat
    const tileHeight: nat
    const lightLevel: array<int>
    const lightLevelLast: array<int>
    var redrawBuffer: seq<Cell>

    predicate Valid()
    {
      && lightLevel.Length == tileWidth * tileHeight
      && lightLevelLast.Length == tileWidth * tileHeight
      && lightLevel != lightLevelLast
    }

    predicate Fits(s: Scene) { s.Width() == tileWidth && s.Height() == tileHeight }

    constructor (width: nat, height: nat)
      ensures Valid() && tileWidth == 2 * width && tileHeight == 2 * height
      ensures redrawBuffer == []
      ensures fresh(lightLevel) && fresh(lightLevelLast)
    {
      tileWidth, tileHeight := 2 * width, 2 * height;
      lightLevel := new int[(2 * width) * (2 * height)];
      lightLevelLast := new int[(2 * width) * (2 * height)];
      redrawBuffer := [];
    }

    /** Where the level of cell (x, y) is kept. */
    function Position(x: int, y: int): (i: int)
      requires 0 <= x < tileWidth && 0 <= y < tileHeight
      ensures i == x + y * tileWidth && 0 <= i < tileWidth * tileHeight
    {
      IndexInRange(x, y, tileWidth, tileHeight);
      DivUnique(x, 0, x, tileWidth);
      x % tileWidth + y * tileWidth
    }

    /** Outside the grid everything is at full light. */
    function GetLightLevel(x: int, y: int): int
      requires Valid()
      reads lightLevel
    {
      if x < 0 || x >= tileWidth then FULL
      else if y < 0 || y >= tileHeight then FULL
      else lightLevel[Position(x, y)]
    }

    method SetLightLevel(x: int, y: int, v: int, ghost s: Scene)
      requires Valid() && Fits(s)
      modifies lightLevel
      ensures forall d | s.InGrid(d) ::
                s.At(lightLevel[..], d) == if d == Cell(x, y) then v else s.At(old(lightLevel[..]), d)
      ensures if s.InGrid(Cell(x, y)) then
                && 0 <= s.Index(Cell(x, y)) < lightLevel.Length
                && lightLevel[..] == old(lightLevel[..])[s.Index(Cell(x, y)) := v]
              else lightLevel[..] == old(lightLevel[..])
    {
      hide Position;
      if x < 0 || x >= tileWidth { return; }
      if y < 0 || y >= tileHeight { return; }
      lightLevel[Position(x, y)] := v;
      assert lightLevel[..] == old(lightLevel[..])[s.Index(Cell(x, y)) := v];
      forall d | s.InGrid(d)
        ensures s.At(lightLevel[..], d) == if d == Cell(x, y) then v else s.At(old(lightLevel[..]), d)
      {
        AtUpdate(s, old(lightLevel[..]), Cell(x, y), v, d);
      }
    }

    /** Keeps the level v of cell (x, y) as the last one seen. */
    method SetLast(x: int, y: int, v: int, ghost s: Scene)
      requires Valid() && Fits(s) && s.InGrid(Cell(x, y))
      modifies lightLevelLast
      ensures forall d | s.InGrid(d) ::
                s.At(lightLevelLast[..], d) == if d == Cell(x, y) then v else s.At(old(lightLevelLast[..]), d)
    {
      hide Position;
      lightLevelLast[Position(x, y)] := v;
      assert lightLevelLast[..] == old(lightLevelLast[..])[s.Index(Cell(x, y)) := v];
      forall d | s.InGrid(d)
        ensures s.At(lightLevelLast[..], d) == if d == Cell(x, y) then v else s.At(old(lightLevelLast[..]), d)
      {
        AtUpdate(s, old(lightLevelLast[..]), Cell(x, y), v, d);
      }
    }

    /** Reading is looking the cell up in the array. */
    lemma GetIsAt(s: Scene, c: Cell)
      requires Valid() && Fits(s) && s.InGrid(c)
      ensures GetLightLevel(c.x, c.y) == s.At(lightLevel[..], c)
    {
      hide Position;
      IndexInRange(c.x, c.y, tileWidth, tileHeight);
    }

    /** The cells around the window, inside the grid. */
    method PushRing(s: Scene) returns (bfs: seq<Cell>)
      requires Valid() && Fits(s) && s.Valid()
      ensures forall c :: c in bfs <==> s.InRing(c)
    {
      bfs := [];
      var x := s.x0;
      while x < s.x1
        invariant s.x0 <= x && (x <= s.x1 || x == s.x0)
        invariant forall c :: c in bfs <==> s.InGrid(c) && s.x0 <= c.x < x && (c.y == s.y0 - 1 || c.y == s.y1)
      {
        if s.y0 > 0 { bfs := bfs + [Cell(x, s.y0 - 1)]; }
        if s.y1 < tileHeight { bfs := bfs + [Cell(x, s.y1)]; }
        x := x + 1;
      }
      var y := s.y0;
      while y < s.y1
        invariant s.y0 <= y && (y <= s.y1 || y == s.y0)
        invariant forall c :: c in bfs <==>
                    s.InGrid(c) && ((s.x0 <= c.x < s.x1 && (c.y == s.y0 - 1 || c.y == s.y1)) ||
                                    (s.y0 <= c.y < y && (c.x == s.x0 - 1 || c.x == s.x1)))
      {
        if s.x0 > 0 { bfs := bfs + [Cell(s.x0 - 1, y)]; }
        if s.x1 < tileWidth { bfs := bfs + [Cell(s.x1, y)]; }
        y := y + 1;
      }
    }

    /** Remembers and clears the levels of the window, and adds its non-solid cells. */
    method ClearWindow(s: Scene, bfs0: seq<Cell>) returns (bfs: seq<Cell>)
      requires Valid() && Fits(s) && s.Valid()
      modifies lightLevel, lightLevelLast
      ensures forall c :: c in bfs <==> c in bfs0 || (s.InWindow(c) && !s.TileOf(c).solid)
      ensures forall c | s.InGrid(c) :: s.At(lightLevel[..],
              c) == if s.InWindow(c) then 0 else s.At(old(lightLevel[..]), c)
      ensures forall c | s.InGrid(c) ::
                s.At(lightLevelLast[..],
                    c) == s.At(if s.InWindow(c) then old(lightLevel[..]) else old(lightLevelLast[..]), c)
    {
      hide Scene.At, Scene.Index, GetLightLevel;
      bfs := bfs0;
      ghost var level0, last0 := lightLevel[..], lightLevelLast[..];
      var x := s.x0;
      while x < s.x1
        invariant s.x0 <= x && (x <= s.x1 || x == s.x0)
        invariant forall c :: c in bfs <==> c in bfs0 || (Before(s, c, x, s.y0) && !s.TileOf(c).solid)
        invariant forall c | s.InGrid(c) :: s.At(lightLevel[..], c) == if Before(s, c, x,
                  s.y0) then 0 else s.At(level0, c)
        invariant forall c | s.InGrid(c) ::
                    s.At(lightLevelLast[..], c) == s.At(if Before(s, c, x, s.y0) then level0 else last0, c)
      {
        var y := s.y0;
        while y < s.y1
          invariant s.y0 <= y && (y <= s.y1 || y == s.y0)
          invariant forall c :: c in bfs <==> c in bfs0 || (Before(s, c, x, y) && !s.TileOf(c).solid)
          invariant forall c | s.InGrid(c) :: s.At(lightLevel[..], c) == if Before(s, c, x,
                    y) then 0 else s.At(level0, c)
          invariant forall c | s.InGrid(c) ::
                      s.At(lightLevelLast[..], c) == s.At(if Before(s, c, x, y) then level0 else last0, c)
        {
          var c := Cell(x, y);
          GetIsAt(s, c);
          SetLast(x, y, GetLightLevel(x, y), s);
          SetLightLevel(x, y, 0, s);
          if !s.TileOf(c).solid { bfs := bfs + [c]; }
          y := y + 1;
        }
        x := x + 1;
      }
    }

    /** Setting an active cell below full light to a higher level lowers the measure. */
    lemma GapFalls(s: Scene, lv: seq<int>, c: Cell, v: int)
      requires s.InGrid(c) && |lv| == s.Width() * s.Height() && 0 <= s.At(lv, c) <= v <= FULL
      ensures 0 <= s.Index(c) < |lv|
      ensures TotalGap(lv[s.Index(c) := v]) == TotalGap(lv) - (v - s.At(lv, c))
    {
      IndexInRange(c.x, c.y, s.Width(), s.Height());
      TotalGapUpdate(lv, s.Index(c), v);
    }

    /** The worklist loop. */
    method Propagate(s: Scene, bfs0: seq<Cell>, ghost ring: seq<int>)
      requires Valid() && Fits(s) && Idle(s, lightLevel[..], bfs0, ring)
      modifies lightLevel
      ensures Idle(s, lightLevel[..], [], ring)
    {
      hide Scene.At, Scene.Index, GetLightLevel, Inv, Idle, Scene.Valid;
      var bfs := bfs0;
      while bfs != []
        invariant Idle(s, lightLevel[..], bfs, ring)
        decreases TotalGap(lightLevel[..]), |bfs|
      {
        bfs := Expand(s, bfs, ring);
      }
    }

    /** The cell popped is set to full light if it emits. */
    method LightUp(s: Scene, from: Cell, ghost q: seq<Cell>, ghost ring: seq<int>)
      requires Valid() && Fits(s) && q != [] && from == q[0] && Idle(s, lightLevel[..], q, ring)
      modifies lightLevel
      ensures Inv(s, lightLevel[..], q[1..], ring, from, 0)
      ensures TotalGap(lightLevel[..]) <= TotalGap(old(lightLevel[..]))
    {
      IdleFacts(s, lightLevel[..], q, ring, from);
      LightIsFull(s, from);
      hide Scene.At, Scene.Index, GetLightLevel, Inv, Idle;
      Pop(s, lightLevel[..], q, ring);
      GapFalls(s, lightLevel[..], from, FULL);
      var tileFrom := s.TileOf(from);
      if !tileFrom.solid && tileFrom.airWall {
        SetLightLevel(from.x, from.y, FULL, s);
      } else if tileFrom.light > 0 {
        SetLightLevel(from.x, from.y, tileFrom.light, s);
      }
    }

    lemma LightIsFull(s: Scene, c: Cell)
      requires s.Valid() && s.InGrid(c)
      ensures s.TileOf(c).light == 0 || s.TileOf(c).light == FULL
    {
      IndexInRange(c.x / 2, c.y / 2, s.tiles.width, s.tiles.height);
    }

    /** One pop: light the cell if it emits, and pass its light on to its neighbours. */
    method Expand(s: Scene, bfs0: seq<Cell>, ghost ring: seq<int>) returns (bfs: seq<Cell>)
      requires Valid() && Fits(s) && bfs0 != [] && Idle(s, lightLevel[..], bfs0, ring)
      modifies lightLevel
      ensures Idle(s, lightLevel[..], bfs, ring)
      ensures TotalGap(lightLevel[..]) < TotalGap(old(lightLevel[..])) ||
              (TotalGap(lightLevel[..]) == TotalGap(old(lightLevel[..])) && |bfs| == |bfs0| - 1)
    {
      hide Scene.At, Scene.Index, GetLightLevel, Inv, Idle;
      var from := bfs0[0];
      bfs := bfs0[1..];
      LightUp(s, from, bfs0, ring);
      InvFacts(s, lightLevel[..], bfs, ring, from, 0, from);
      GetIsAt(s, from);
      var level := GetLightLevel(from.x, from.y);
      if level == 0 {
        SkipDark(s, lightLevel[..], bfs, ring, from);
        return;
      }
      for k := 0 to 4
        invariant Inv(s, lightLevel[..], bfs, ring, from, k) && s.InGrid(from)
        invariant |lightLevel[..]| == s.Width() * s.Height() && s.At(lightLevel[..], from) == level
        invariant TotalGap(lightLevel[..]) < TotalGap(old(lightLevel[..])) ||
                  (TotalGap(lightLevel[..]) == TotalGap(old(lightLevel[..])) && |bfs| == |bfs0| - 1)
      {
        bfs := Relax(s, bfs, ring, from, level, k);
      }
      InvIsIdle(s, lightLevel[..], bfs, ring, from);
    }

    /** One direction of the inner loop. */
    method Relax(s: Scene, bfs0: seq<Cell>, ghost ring: seq<int>, from: Cell, level: int, k: int)
        returns (bfs: seq<Cell>)
      requires Valid() && Fits(s) && 0 <= k < 4 && Inv(s, lightLevel[..], bfs0, ring, from, k)
      requires s.At(lightLevel[..], from) == level > 0
      modifies lightLevel
      ensures Inv(s, lightLevel[..], bfs, ring, from, k + 1)
      ensures s.At(lightLevel[..], from) == level
      ensures TotalGap(lightLevel[..]) < TotalGap(old(lightLevel[..])) ||
              (lightLevel[..] == old(lightLevel[..]) && bfs == bfs0)
    {
      bfs := bfs0;
      var to := Dir(from, k);
      InvFacts(s, lightLevel[..], bfs, ring, from, k, from);
      hide Scene.At, Scene.Index, GetLightLevel, Inv;
      if to.y < s.y0 || to.y >= s.y1 || to.x < s.x0 || to.x >= s.x1 {
        Skip(s, lightLevel[..], bfs, ring, from, k);
        return;
      }
      InvFacts(s, lightLevel[..], bfs, ring, from, k, to);
      var tileFrom, tileTo := s.TileOf(from), s.TileOf(to);
      if !tileTo.solid && tileTo.airWall {
        Skip(s, lightLevel[..], bfs, ring, from, k);
        return;
      }
      var sub := level;
      if tileFrom.solid {
        sub := Max(level - 4, 0);
      } else if !tileFrom.airWall {
        sub := Max(level - 1, 0);
      }
      GetIsAt(s, to);
      if GetLightLevel(to.x, to.y) >= sub {
        Skip(s, lightLevel[..], bfs, ring, from, k);
        return;
      }
      Raise(s, lightLevel[..], bfs, ring, from, k);
      GapFalls(s, lightLevel[..], to, sub);
      SetLightLevel(to.x, to.y, sub, s);
      bfs := bfs + [to];
    }

    lemma IdleFacts(s: Scene, lv: seq<int>, q: seq<Cell>, ring: seq<int>, c: Cell)
      requires Idle(s, lv, q, ring) && c in q
      ensures s.Valid() && |lv| == s.Width() * s.Height() && s.InGrid(c)
      ensures 0 <= s.At(lv, c) <= FULL
    {
      assert CellInv(s, lv, ring, c);
    }

    lemma InvFacts(s: Scene, lv: seq<int>, q: seq<Cell>, ring: seq<int>, u: Cell, n: int, c: Cell)
      requires Inv(s, lv, q, ring, u, n) && (c == u || s.Active(c))
      ensures s.Valid() && |lv| == s.Width() * s.Height() && s.InGrid(c)
      ensures 0 <= s.At(lv, c) <= FULL
    {
      assert CellInv(s, lv, ring, c);
    }

    lemma InvIsIdle(s: Scene, lv: seq<int>, q: seq<Cell>, ring: seq<int>, u: Cell)
      requires Inv(s, lv, q, ring, u, 4)
      ensures Idle(s, lv, q, ring)
    {
    }

    /** Records the new levels and collects the cells whose level changed. */
    method CollectChanges(s: Scene, forRedraw: bool, ghost before: seq<int>)
      requires Valid() && Fits(s) && Shape(s, before)
      requires forall c | s.InWindow(c) :: s.At(lightLevelLast[..], c) == s.At(before, c)
      modifies lightLevelLast, this`redrawBuffer
      ensures forall c | s.InWindow(c) :: s.At(lightLevelLast[..], c) == s.At(lightLevel[..], c)
      ensures forall c | s.InGrid(c) &&
              !s.InWindow(c) :: s.At(lightLevelLast[..], c) == s.At(old(lightLevelLast[..]), c)
      ensures old(redrawBuffer) <= redrawBuffer
      ensures if forRedraw then IsRedraw(s, before, lightLevel[..], redrawBuffer[|old(redrawBuffer)|..])
              else redrawBuffer == old(redrawBuffer)
    {
      hide Scene.At, Scene.Index, GetLightLevel, Scene.Valid, Position, Swept, IsRedraw;
      ghost var after, last0, buffer0 := lightLevel[..], lightLevelLast[..], redrawBuffer;
      ghost var added: seq<Cell> := [];
      WindowInGrid(s);
      SweptStart(s, before, after, last0);
      var x := s.x0;
      while x < s.x1
        invariant s.x0 <= x && (x <= s.x1 || x == s.x0)
        invariant Swept(s, before, after, last0, lightLevelLast[..], added, x, s.y0)
        invariant redrawBuffer == if forRedraw then buffer0 + added else buffer0
      {
        var y := s.y0;
        while y < s.y1
          invariant s.y0 <= y && (y <= s.y1 || y == s.y0)
          invariant Swept(s, before, after, last0, lightLevelLast[..], added, x, y)
          invariant redrawBuffer == if forRedraw then buffer0 + added else buffer0
        {
          var c := Cell(x, y);
          GetIsAt(s, c);
          LastIsAt(s, c);
          var level := GetLightLevel(x, y);
          ghost var last, listed := lightLevelLast[..], added;
          if lightLevelLast[Position(x, y)] != level {
            if forRedraw { redrawBuffer := redrawBuffer + [c]; }
            added := added + [c];
            SetLast(x, y, level, s);
          }
          SweptCell(s, before, after, last0, last, lightLevelLast[..], listed, added, x, y);
          y := y + 1;
        }
        SweptColumn(s, before, after, last0, lightLevelLast[..], added, x, y);
        x := x + 1;
      }
      SweptAll(s, before, after, last0, lightLevelLast[..], added, x);
      if forRedraw { assert redrawBuffer[|buffer0|..] == added; }
    }

    lemma LastIsAt(s: Scene, c: Cell)
      requires Valid() && Fits(s) && s.InGrid(c)
      ensures lightLevelLast[Position(c.x, c.y)] == s.At(lightLevelLast[..], c)
    {
      hide Position;
      IndexInRange(c.x, c.y, tileWidth, tileHeight);
    }

    lemma WindowInGrid(s: Scene)
      requires s.Valid()
      ensures forall c | s.InWindow(c) :: s.InGrid(c)
    {
    }

    /** Recomputes the light of the window [x0, x1) x [y0, y1), clipped to the map. The
        levels of the window become exact, given the levels around it. */
    method InvalidateLightLevelMap(tiles: TileMap, x0: int, y0: int, x1: int, y1: int, forRedraw: bool)
      requires Valid() && Fits(Clip(tiles, x0, y0, x1, y1)) && Clip(tiles, x0, y0, x1, y1).Valid()
      requires RingOk(Clip(tiles, x0, y0, x1, y1), lightLevel[..])
      modifies lightLevel, lightLevelLast, this`redrawBuffer
      ensures var s := Clip(tiles, x0, y0, x1, y1);
              && (forall c | s.InWindow(c) :: s.Exact(c, s.At(lightLevel[..], c), old(lightLevel[..])))
              && (forall c | s.InWindow(c) :: s.At(lightLevel[..], c) <= FULL)
              && (forall c | s.InWindow(c) :: s.At(lightLevelLast[..], c) == s.At(lightLevel[..], c))
              && (forall c | s.InGrid(c) && !s.InWindow(c) ::
                    s.At(lightLevel[..], c) == if s.InRing(c) && s.Emits(c) then FULL else s.At(old(lightLevel[..]), c))
              && old(redrawBuffer) <= redrawBuffer
              && if forRedraw then IsRedraw(s, old(lightLevel[..]), lightLevel[..], redrawBuffer[|old(redrawBuffer)|..])
                 else redrawBuffer == old(redrawBuffer)
    {
      var s := Clip(tiles, x0, y0, x1, y1);
      hide Scene.At, Scene.Index, GetLightLevel, Idle, Clip, Scene.Exact;
      ghost var ring := lightLevel[..];
      var bfs := PushRing(s);
      bfs := ClearWindow(s, bfs);
      ClearedIsIdle(s, ring, lightLevel[..], bfs);
      ghost var last := lightLevelLast[..];
      Propagate(s, bfs, ring);
      DoneIsExact(s, lightLevel[..], ring);
      CollectChanges(s, forRedraw, ring);
    }

    /** The whole map. */
    method BuildLightLevelMap(tiles: TileMap)
      requires Valid() && tiles.Valid() && tileWidth == 2 * tiles.width && tileHeight == 2 * tiles.height
      modifies lightLevel, lightLevelLast, this`redrawBuffer
      ensures redrawBuffer == old(redrawBuffer)
      ensures var s := Whole(tiles);
              forall c | s.InGrid(c) ::
                && s.Exact(c, s.At(lightLevel[..], c), old(lightLevel[..]))
                && 0 <= s.At(lightLevel[..], c) <= FULL
    {
      assert Clip(tiles, 0, 0, tileWidth, tileHeight) == Whole(tiles);
      InvalidateLightLevelMap(tiles, 0, 0, tileWidth, tileHeight, false);
    }

    /** The shade element drawn over a cell below full light. */
    function ShadeElement(s: Scene, c: Cell): (e: nat)
      requires s.InGrid(c) && lightLevel.Length == s.Width() * s.Height()
      requires 0 <= s.At(lightLevel[..], c) < FULL
      reads lightLevel
      ensures e < 16 && 2 * e <= s.At(lightLevel[..], c) <= 2 * e + 1
    {
      s.At(lightLevel[..], c) / 2
    }
  }

  /** The scene of a recomputation, its window clipped to the map. */
  function Clip(tiles: TileMap, x0: int, y0: int, x1: int, y1: int): Scene {
    Scene(tiles, Max(x0, 0), Max(y0, 0), Min(x1, 2 * tiles.width), Min(y1, 2 * tiles.height))
  }

  /** The cells of the clipped window are those of the window that lie on the map. */
  lemma ClipIsWindow(tiles: TileMap, x0: int, y0: int, x1: int, y1: int, c: Cell)
    ensures Clip(tiles, x0, y0, x1, y1).InWindow(c) <==>
              x0 <= c.x < x1 && y0 <= c.y < y1 && 0 <= c.x < 2 * tiles.width && 0 <= c.y < 2 * tiles.height
  {}

  function Whole(tiles: TileMap): Scene {
    Scene(tiles, 0, 0, 2 * tiles.width, 2 * tiles.height)
  }

  function Min(a: int, b: int): int { if a < b then a else b }

  /** A cell the loops around the window put on the worklist. */
  predicate Pushed(s: Scene, c: Cell) {
    || (s.x0 <= c.x < s.x1 && ((s.y0 > 0 && c.y == s.y0 - 1) || (s.y1 < s.Height() && c.y == s.y1)))
    || (s.y0 <= c.y < s.y1 && ((s.x0 > 0 && c.x == s.x0 - 1) || (s.x1 < s.Width() && c.x == s.x1)))
  }

  /** What is asked of a window is what the code needs: that every cell it queues is on the
      map. Off the map there is no tile, and the worklist loop reads it all the same. */
  lemma ValidIffOnMap(tiles: TileMap, x0: int, y0: int, x1: int, y1: int)
    requires tiles.Valid()
    ensures Clip(tiles, x0, y0, x1, y1).Valid() <==>
              forall c | Pushed(Clip(tiles, x0, y0, x1, y1), c) :: Clip(tiles, x0, y0, x1, y1).InGrid(c)
  {
    var s := Clip(tiles, x0, y0, x1, y1);
    if forall c | Pushed(s, c) :: s.InGrid(c) {
      if s.y0 < s.y1 {
        assert s.x0 > 0 ==> Pushed(s, Cell(s.x0 - 1, s.y0));
        assert s.x1 < s.Width() ==> Pushed(s, Cell(s.x1, s.y0));
      }
      if s.x0 < s.x1 {
        assert s.y0 > 0 ==> Pushed(s, Cell(s.x0, s.y0 - 1));
        assert s.y1 < s.Height() ==> Pushed(s, Cell(s.x0, s.y1));
      }
    }
  }

  /** The changes up to cell (x, y) of the sweep have been recorded and listed. */
  ghost predicate Swept(s: Scene, before: seq<int>, after: seq<int>, last0: seq<int>, last: seq<int>,
                        added: seq<Cell>, x: int, y: int)
  {
    && Shape(s, before) && Shape(s, after) && Shape(s, last0) && Shape(s, last)
    && (forall c | s.InGrid(c) :: s.At(last, c) == s.At(if Before(s, c, x, y) then after else last0, c))
    && (forall c :: c in added <==> Before(s, c, x, y) && s.At(before, c) != s.At(after, c))
    && (forall i, j | 0 <= i < j < |added| :: added[i] != added[j])
  }

  lemma SweptStart(s: Scene, before: seq<int>, after: seq<int>, last0: seq<int>)
    requires Shape(s, before) && Shape(s, after) && Shape(s, last0)
    ensures Swept(s, before, after, last0, last0, [], s.x0, s.y0)
  {}

  lemma SweptCell(s: Scene, before: seq<int>, after: seq<int>, last0: seq<int>, last: seq<int>, last': seq<int>,
                  added: seq<Cell>, added': seq<Cell>, x: int, y: int)
    requires Swept(s, before, after, last0, last, added, x, y) && Shape(s, last')
    requires s.InWindow(Cell(x, y)) && s.InGrid(Cell(x, y)) && s.At(last0, Cell(x, y)) == s.At(before, Cell(x, y))
    requires forall d | s.InGrid(d) :: s.At(last', d) == s.At(if d == Cell(x, y) then after else last, d)
    requires added' == if s.At(last, Cell(x, y)) != s.At(after, Cell(x, y)) then added + [Cell(x, y)] else added
    ensures Swept(s, before, after, last0, last', added', x, y + 1)
  {
    hide Scene.At;
    assert forall d :: Before(s, d, x, y + 1) <==> Before(s, d, x, y) || d == Cell(x, y);
  }

  lemma SweptColumn(s: Scene, before: seq<int>, after: seq<int>, last0: seq<int>, last: seq<int>,
                    added: seq<Cell>, x: int, y: int)
    requires Swept(s, before, after, last0, last, added, x, y) && y >= s.y1 && x < s.x1
    ensures Swept(s, before, after, last0, last, added, x + 1, s.y0)
  {
    hide Scene.At;
    assert forall d :: Before(s, d, x + 1, s.y0) <==> Before(s, d, x, y);
  }

  lemma SweptAll(s: Scene, before: seq<int>, after: seq<int>, last0: seq<int>, last: seq<int>, added: seq<Cell>, x: int)
    requires Swept(s, before, after, last0, last, added, x, s.y0) && x >= s.x1
    ensures forall c | s.InWindow(c) && s.InGrid(c) :: s.At(last, c) == s.At(after, c)
    ensures forall c | s.InGrid(c) && !s.InWindow(c) :: s.At(last, c) == s.At(last0, c)
    ensures IsRedraw(s, before, after, added)
  {
    hide Scene.At;
  }

  /** With the window dark and its non-solid cells and the ring on the worklist, all that
      is not on the worklist has nothing to spread. */
  lemma ClearedIsIdle(s: Scene, ring: seq<int>, lv: seq<int>, bfs: seq<Cell>)
    requires RingOk(s, ring) && Shape(s, lv)
    requires forall c | s.InGrid(c) :: s.At(lv, c) == if s.InWindow(c) then 0 else s.At(ring, c)
    requires forall c :: c in bfs <==> s.InRing(c) || (s.InWindow(c) && !s.TileOf(c).solid)
    ensures Idle(s, lv, bfs, ring)
  {
    forall c | s.InGrid(c)
      ensures CellInv(s, lv, ring, c)
    {
      if s.InRing(c) && !s.InWindow(c) {
        assert s.IsPath([c]) && [c][|[c]| - 1] == c && s.Carried([c], ring) >= s.At(lv, c);
      }
    }
    forall c | s.Active(c) && c !in bfs
      ensures Spread(s, lv, c, 4)
    {
      assert s.InWindow(c) && s.At(lv, c) == 0;
    }
  }

  lemma DoneIsExact(s: Scene, lv: seq<int>, ring: seq<int>)
    requires Idle(s, lv, [], ring)
    ensures forall c | s.InWindow(c) :: s.Exact(c, s.At(lv, c), ring) && s.At(lv, c) <= FULL
    ensures forall c | s.InGrid(c) && !s.InWindow(c) ::
              s.At(lv, c) == if s.InRing(c) && s.Emits(c) then FULL else s.At(ring, c)
  {
    forall c | s.InGrid(c)
      ensures s.InWindow(c) ==> s.Exact(c, s.At(lv, c), ring) && s.At(lv, c) <= FULL
      ensures !s.InWindow(c) ==> s.At(lv, c) == if s.InRing(c) && s.Emits(c) then FULL else s.At(ring, c)
    {
      assert CellInv(s, lv, ring, c);
      if s.InWindow(c) { EmptyIsExact(s, lv, ring, c); }
      if s.Active(c) { assert Spread(s, lv, c, 4); }
    }
  }
}
