/** The light field of a whole map in closed form: full light at an emitter less what a
    path loses, maximised over all paths. */
module LightDecay {
  import opened LightField
  import opened LightRelaxation
  import opened TileMapShade

  /** What light loses leaving cell c. */
  function Loss(s: Scene, c: Cell): nat
    requires s.Valid() && s.InGrid(c)
  {
    if s.TileOf(c).solid then 4 else if !s.TileOf(c).airWall then 1 else 0
  }

  /** What light loses along a path. */
  function Decay(s: Scene, p: seq<Cell>): nat
    requires s.Valid() && s.IsPath(p)
  {
    if |p| == 1 then 0
    else
      var q := p[..|p| - 1];
      Decay(s, q) + Loss(s, q[|q| - 1])
  }

  lemma DecayOn(s: Scene, p: seq<Cell>, v: Cell)
    requires s.Valid() && s.IsPath(p) && s.InWindow(v) && Neighbours(p[|p| - 1], v)
    ensures s.IsPath(p + [v]) && Decay(s, p + [v]) == Decay(s, p) + Loss(s, p[|p| - 1])
  {
    var r := p + [v];
    assert r[..|r| - 1] == p && r[|r| - 1] == v;
  }

  /** `lv` is the exact light field of the whole map. */
  ghost predicate IsField(tiles: TileMap, lv: seq<int>, before: seq<int>) {
    var s := Whole(tiles);
    && s.Valid() && |lv| == |before| == s.Width() * s.Height()
    && forall c | s.InGrid(c) :: s.Exact(c, s.At(lv, c), before)
  }

  /** An emitter from which light never starts: solid, and no light reaches it. */
  predicate DarkEmitter(s: Scene, lv: seq<int>, c: Cell)
    requires s.Valid() && |lv| == s.Width() * s.Height() && s.InGrid(c)
  {
    s.Emits(c) && s.At(lv, c) == 0
  }

  /** The field is at least what any path from an emitter delivers. */
  ghost predicate DominatesPaths(s: Scene, lv: seq<int>)
    requires s.Valid() && |lv| == s.Width() * s.Height()
  {
    forall p | s.IsPath(p) && s.Emits(p[0]) :: s.At(lv, p[|p| - 1]) >= FULL - Decay(s, p)
  }

  // ---------------------------------------------------------------- proofs

  /** Light that arrives comes undiminished but for the decay since the last emitter. */
  lemma {:induction false} FromLastEmitter(tiles: TileMap, p: seq<Cell>, before: seq<int>) returns (q: seq<Cell>)
    requires Whole(tiles).Valid() && |before| == Whole(tiles).Width() * Whole(tiles).Height()
    requires Whole(tiles).IsPath(p) && Whole(tiles).Carried(p, before) > 0
    ensures Whole(tiles).IsPath(q) && Whole(tiles).Emits(q[0]) && q[|q| - 1] == p[|p| - 1]
    ensures Whole(tiles).Carried(p, before) == FULL - Decay(Whole(tiles), q)
    decreases |p|
  {
    var s := Whole(tiles);
    var c := p[|p| - 1];
    if s.Emits(c) {
      q := [c];
    } else {
      var p' := p[..|p| - 1];
      var q' := FromLastEmitter(tiles, p', before);
      DecayOn(s, q', c);
      q := q' + [c];
    }
  }

  lemma NoPathExceeds(s: Scene, c: Cell, level: int, before: seq<int>, p: seq<Cell>)
    requires Shape(s, before) && s.Exact(c, level, before)
    requires s.IsPath(p) && p[|p| - 1] == c
    ensures s.Carried(p, before) <= level
  {
  }

  lemma LossIsLeave(s: Scene, u: Cell, v: Cell, level: int)
    requires s.Valid() && s.InGrid(u) && s.InGrid(v) && level <= FULL
    ensures s.Arrive(v, s.Leave(u, level)) >= level - Loss(s, u)
  {
    hide Scene.TileOf;
  }

  lemma PathStep(s: Scene, p: seq<Cell>, before: seq<int>, v: Cell, level: int)
    requires RingOk(s, before) && s.IsPath(p) && s.InWindow(v) && Neighbours(p[|p| - 1], v)
    requires s.Exact(v, level, before)
    ensures level >= s.Carried(p, before) - Loss(s, p[|p| - 1])
  {
    hide Scene.Exact, Scene.Carried, Scene.IsPath, Scene.Arrive, Scene.Leave, Loss;
    CarriedOn(s, p, before, v);
    CarriedRange(s, p, before);
    LossIsLeave(s, p[|p| - 1], v, s.Carried(p, before));
    assert (p + [v])[|p + [v]| - 1] == v;
    NoPathExceeds(s, v, level, before, p + [v]);
  }

  /** A cell of the field is at least as light as what leaves its neighbour. */
  lemma FieldStep(tiles: TileMap, lv: seq<int>, before: seq<int>, u: Cell, v: Cell)
    requires IsField(tiles, lv, before)
    requires Whole(tiles).InGrid(u) && Whole(tiles).InGrid(v) && Neighbours(u, v)
    ensures Whole(tiles).At(lv, v) >= Whole(tiles).At(lv, u) - Loss(Whole(tiles), u)
  {
    hide Scene.TileOf, Scene.At;
    var s := Whole(tiles);
    assert s.Exact(u, s.At(lv, u), before) && s.Exact(v, s.At(lv, v), before);
    if s.At(lv, u) > 0 {
      var p :| s.IsPath(p) && p[|p| - 1] == u && s.Carried(p, before) == s.At(lv, u);
      PathStep(s, p, before, v, s.At(lv, v));
    }
  }

  lemma LitEmitterIsFull(tiles: TileMap, lv: seq<int>, before: seq<int>, c: Cell)
    requires IsField(tiles, lv, before) && Whole(tiles).InGrid(c) && Whole(tiles).Emits(c)
    ensures Whole(tiles).At(lv, c) == 0 || Whole(tiles).At(lv, c) >= FULL
  {
    var s := Whole(tiles);
    if s.At(lv, c) > 0 {
      var p :| s.IsPath(p) && p[|p| - 1] == c && s.Carried(p, before) == s.At(lv, c);
    }
  }

  lemma {:induction false} PathDelivers(tiles: TileMap, lv: seq<int>, before: seq<int>, p: seq<Cell>)
    requires Whole(tiles).Valid() && |lv| == Whole(tiles).Width() * Whole(tiles).Height()
    requires IsField(tiles, lv, before) && Whole(tiles).IsPath(p) && Whole(tiles).Emits(p[0])
    requires Whole(tiles).At(lv, p[0]) > 0
    ensures Whole(tiles).At(lv, p[|p| - 1]) >= FULL - Decay(Whole(tiles), p)
    decreases |p|
  {
    hide IsField;
    var s := Whole(tiles);
    if |p| == 1 {
      LitEmitterIsFull(tiles, lv, before, p[0]);
    } else {
      var q := p[..|p| - 1];
      PathDelivers(tiles, lv, before, q);
      FieldStep(tiles, lv, before, q[|q| - 1], p[|p| - 1]);
    }
  }

  // ---------------------------------------------------------------- results

  /** Every level above 0 is full light less the decay of a path from an emitter. */
  lemma LevelHasPath(tiles: TileMap, lv: seq<int>, before: seq<int>, c: Cell)
    requires IsField(tiles, lv, before) && Whole(tiles).InGrid(c) && Whole(tiles).At(lv, c) > 0
    ensures exists q :: Whole(tiles).IsPath(q) && q[|q| - 1] == c && Whole(tiles).Emits(q[0]) &&
                        Whole(tiles).At(lv, c) == FULL - Decay(Whole(tiles), q)
  {
    var s := Whole(tiles);
    var p :| s.IsPath(p) && p[|p| - 1] == c && s.Carried(p, before) == s.At(lv, c);
    var q := FromLastEmitter(tiles, p, before);
  }

  /** The field dominates every path from an emitter exactly when no emitter stays dark. */
  lemma DominatesIffNoDarkEmitter(tiles: TileMap, lv: seq<int>, before: seq<int>)
    requires IsField(tiles, lv, before)
    ensures DominatesPaths(Whole(tiles), lv) <==>
            forall c | Whole(tiles).InGrid(c) :: !DarkEmitter(Whole(tiles), lv, c)
  {
    var s := Whole(tiles);
    if forall c | s.InGrid(c) :: !DarkEmitter(s, lv, c) {
      forall p | s.IsPath(p) && s.Emits(p[0])
        ensures s.At(lv, p[|p| - 1]) >= FULL - Decay(s, p)
      {
        assert !DarkEmitter(s, lv, p[0]);
        assert s.Exact(p[0], s.At(lv, p[0]), before);
        PathDelivers(tiles, lv, before, p);
      }
    }
    if DominatesPaths(s, lv) {
      forall c | s.InGrid(c)
        ensures !DarkEmitter(s, lv, c)
      {
        if s.Emits(c) {
          assert s.IsPath([c]) && Decay(s, [c]) == 0;
          assert s.At(lv, [c][|[c]| - 1]) >= FULL;
        }
      }
    }
  }

  /** What light carries along a path of a whole map does not depend on earlier levels. */
  lemma {:induction false} CarriedOfMap(tiles: TileMap, p: seq<Cell>, before: seq<int>, other: seq<int>)
    requires Whole(tiles).Valid() && |before| == |other| == Whole(tiles).Width() * Whole(tiles).Height()
    requires Whole(tiles).IsPath(p)
    ensures Whole(tiles).Carried(p, before) == Whole(tiles).Carried(p, other)
    decreases |p|
  {
    if |p| > 1 { CarriedOfMap(tiles, p[..|p| - 1], before, other); }
  }

  /** No level yet. */
  function Dark(tiles: TileMap): (d: seq<int>)
    ensures |d| == Whole(tiles).Width() * Whole(tiles).Height()
  {
    seq(Whole(tiles).Width() * Whole(tiles).Height(), _ => 0)
  }

  /** Some path from a cell queued at the start brings light to c; a matter of the map alone. */
  ghost predicate Relit(tiles: TileMap, c: Cell)
    requires Whole(tiles).Valid()
  {
    exists p :: Whole(tiles).IsPath(p) && p[|p| - 1] == c && Whole(tiles).Carried(p, Dark(tiles)) > 0
  }

  /** Every solid source is lit by others. */
  ghost predicate SolidSourcesRelit(tiles: TileMap)
    requires Whole(tiles).Valid()
  {
    forall c | Whole(tiles).InGrid(c) && Whole(tiles).Emits(c) && Whole(tiles).TileOf(c).solid :: Relit(tiles, c)
  }

  lemma LitIffRelit(tiles: TileMap, lv: seq<int>, before: seq<int>, c: Cell)
    requires IsField(tiles, lv, before) && Whole(tiles).InGrid(c)
    ensures Whole(tiles).At(lv, c) > 0 <==> Relit(tiles, c)
  {
    var s := Whole(tiles);
    assert s.Exact(c, s.At(lv, c), before);
    if s.At(lv, c) > 0 {
      var p :| s.IsPath(p) && p[|p| - 1] == c && s.Carried(p, before) == s.At(lv, c);
      CarriedOfMap(tiles, p, before, Dark(tiles));
    }
    if Relit(tiles, c) {
      var p :| s.IsPath(p) && p[|p| - 1] == c && s.Carried(p, Dark(tiles)) > 0;
      CarriedOfMap(tiles, p, before, Dark(tiles));
      NoPathExceeds(s, c, s.At(lv, c), before, p);
    }
  }

  /** Only a solid emitter can stay dark: the game's one glowing tile, the torch, and open
      air are not solid. */
  lemma DarkEmitterIsSolid(tiles: TileMap, lv: seq<int>, before: seq<int>, c: Cell)
    requires IsField(tiles, lv, before) && Whole(tiles).InGrid(c) && DarkEmitter(Whole(tiles), lv, c)
    ensures Whole(tiles).TileOf(c).solid
  {
    var s := Whole(tiles);
    assert s.IsPath([c]) && [c][|[c]| - 1] == c;
    assert s.Carried([c], before) <= s.At(lv, c);
  }

  /** The level of c is the most any path from a source delivers, and not below 0. */
  ghost predicate BestDecay(tiles: TileMap, lv: seq<int>, c: Cell)
    requires Whole(tiles).Valid() && |lv| == Whole(tiles).Width() * Whole(tiles).Height() && Whole(tiles).InGrid(c)
  {
    var s := Whole(tiles);
    && s.At(lv, c) >= 0
    && (forall p | s.IsPath(p) && s.Emits(p[0]) && p[|p| - 1] == c :: s.At(lv, c) >= FULL - Decay(s, p))
    && (s.At(lv, c) > 0 ==>
          exists p :: s.IsPath(p) && s.Emits(p[0]) && p[|p| - 1] == c && s.At(lv, c) == FULL - Decay(s, p))
  }

  /** A build gives every cell the maximum over all paths from a source of 32 less the decay,
      floored at 0, if and only if on the map every solid source is lit by others. */
  lemma BestDecayIff(tiles: TileMap, lv: seq<int>, before: seq<int>)
    requires IsField(tiles, lv, before)
    ensures (forall c | Whole(tiles).InGrid(c) :: BestDecay(tiles, lv, c)) <==> SolidSourcesRelit(tiles)
  {
    var s := Whole(tiles);
    DominatesIffNoDarkEmitter(tiles, lv, before);
    forall c | s.InGrid(c) ensures DarkEmitter(s, lv, c) <==> s.Emits(c) && s.TileOf(c).solid && !Relit(tiles, c) {
      LitIffRelit(tiles, lv, before, c);
      assert s.Exact(c, s.At(lv, c), before);
      if DarkEmitter(s, lv, c) { DarkEmitterIsSolid(tiles, lv, before, c); }
    }
    hide Relit;
    if SolidSourcesRelit(tiles) {
      forall c | s.InGrid(c) ensures BestDecay(tiles, lv, c) {
        assert s.Exact(c, s.At(lv, c), before);
        if s.At(lv, c) > 0 { LevelHasPath(tiles, lv, before, c); }
      }
    }
    if forall c | s.InGrid(c) :: BestDecay(tiles, lv, c) {
      forall p | s.IsPath(p) && s.Emits(p[0]) ensures s.At(lv, p[|p| - 1]) >= FULL - Decay(s, p) {
        assert BestDecay(tiles, lv, p[|p| - 1]);
      }
    }
  }

  /** The glowing tiles of the map are not solid, as in the game. */
  ghost predicate NoSolidLamps(tiles: TileMap) {
    forall i | 0 <= i < |tiles.tiles| && tiles.tiles[i].light > 0 :: !tiles.tiles[i].solid
  }

  lemma SourceIsNotSolid(tiles: TileMap, c: Cell)
    requires Whole(tiles).Valid() && NoSolidLamps(tiles) && Whole(tiles).InGrid(c) && Whole(tiles).Emits(c)
    ensures !Whole(tiles).TileOf(c).solid
  {
    IndexInRange(c.x / 2, c.y / 2, tiles.width, tiles.height);
    assert Whole(tiles).TileOf(c) == tiles.tiles[c.x / 2 + (c.y / 2) * tiles.width];
  }

  /** On such maps, then, a build gives every cell exactly that maximum. */
  lemma NoSolidLampsIsBestDecay(tiles: TileMap, lv: seq<int>, before: seq<int>)
    requires IsField(tiles, lv, before) && NoSolidLamps(tiles)
    ensures forall c | Whole(tiles).InGrid(c) :: BestDecay(tiles, lv, c)
  {
    assert Whole(tiles).Valid();
    BestDecayIff(tiles, lv, before);
    hide BestDecay, IsField, Relit, NoSolidLamps, Scene.TileOf;
    forall c | Whole(tiles).InGrid(c) && Whole(tiles).Emits(c) ensures !Whole(tiles).TileOf(c).solid {
      SourceIsNotSolid(tiles, c);
    }
  }

  /** The tile a cell is a quarter of, and the level of a cell, read from the sequences themselves. */
  function TileAt(tiles: TileMap, x: int, y: int): Tile
    requires |tiles.tiles| == tiles.width * tiles.height && 0 <= x < 2 * tiles.width && 0 <= y < 2 * tiles.height
  {
    IndexInRange(x / 2, y / 2, tiles.width, tiles.height);
    tiles.tiles[(y / 2) * tiles.width + x / 2]
  }

  function LevelAt(tiles: TileMap, lv: seq<int>, x: int, y: int): int
    requires |lv| == (2 * tiles.width) * (2 * tiles.height) && 0 <= x < 2 * tiles.width && 0 <= y < 2 * tiles.height
  {
    IndexInRange(x, y, 2 * tiles.width, 2 * tiles.height);
    lv[y * (2 * tiles.width) + x]
  }

  lemma CellAt(tiles: TileMap, lv: seq<int>, c: Cell)
    requires Whole(tiles).Valid() && |lv| == Whole(tiles).Width() * Whole(tiles).Height() && Whole(tiles).InGrid(c)
    ensures TileAt(tiles, c.x, c.y) == Whole(tiles).TileOf(c) && LevelAt(tiles, lv, c.x, c.y) == Whole(tiles).At(lv, c)
  {}

  /** A build without a word of paths: levels are from 0 to 32; open air and glowing tiles that are
      not solid have 32; and light that leaves a cell brings a neighbour all but 4 of it out of a
      solid tile, all but 1 from in front of a wall, and all of it in open air. */
  lemma LightSpreads(tiles: TileMap, lv: seq<int>, before: seq<int>, x: int, y: int, dx: int, dy: int)
    requires IsField(tiles, lv, before) && 0 <= x < 2 * tiles.width && 0 <= y < 2 * tiles.height
    requires 0 <= x + dx < 2 * tiles.width && 0 <= y + dy < 2 * tiles.height
    requires (dx == 0 && (dy == 1 || dy == -1)) || (dy == 0 && (dx == 1 || dx == -1))
    ensures |tiles.tiles| == tiles.width * tiles.height && |lv| == (2 * tiles.width) * (2 * tiles.height)
    ensures var t, v := TileAt(tiles, x, y), LevelAt(tiles, lv, x, y);
            && 0 <= v <= 32
            && (!t.solid && (t.airWall || t.light > 0) ==> v == 32)
            && LevelAt(tiles, lv, x + dx, y + dy) >= v - (if t.solid then 4 else if t.airWall then 0 else 1)
  {
    var s, c := Whole(tiles), Cell(x, y);
    CellAt(tiles, lv, c);
    CellAt(tiles, lv, Cell(x + dx, y + dy));
    FieldStep(tiles, lv, before, c, Cell(x + dx, y + dy));
    LevelRange(tiles, lv, before, c);
    hide IsField, Scene.TileOf, Scene.At, TileAt, LevelAt;
  }

  lemma LevelRange(tiles: TileMap, lv: seq<int>, before: seq<int>, c: Cell)
    requires IsField(tiles, lv, before) && Whole(tiles).InGrid(c)
    ensures 0 <= Whole(tiles).At(lv, c) <= 32
    ensures var t := Whole(tiles).TileOf(c); !t.solid && (t.airWall || t.light > 0) ==> Whole(tiles).At(lv, c) == 32
  {
    var s := Whole(tiles);
    assert s.Exact(c, s.At(lv, c), before);
    hide Scene.TileOf, Scene.At;
    if s.At(lv, c) > 0 {
      var p :| s.IsPath(p) && p[|p| - 1] == c && s.Carried(p, before) == s.At(lv, c);
      CarriedRange(s, p, before);
    }
    assert s.IsPath([c]) && [c][|[c]| - 1] == c;
    NoPathExceeds(s, c, s.At(lv, c), before, [c]);
  }

  /** And no light comes from nowhere: a lit cell that is no source has a neighbour whose light,
      less what it loses on leaving, is just this cell's. */
  lemma LightComesFrom(tiles: TileMap, lv: seq<int>, before: seq<int>, x: int, y: int) returns (ux: int, uy: int)
    requires IsField(tiles, lv, before) && 0 <= x < 2 * tiles.width && 0 <= y < 2 * tiles.height
    requires |tiles.tiles| == tiles.width * tiles.height && |lv| == (2 * tiles.width) * (2 * tiles.height)
    requires LevelAt(tiles, lv, x, y) > 0
    requires var t := TileAt(tiles, x, y); t.light == 0 && (t.solid || !t.airWall)
    ensures 0 <= ux < 2 * tiles.width && 0 <= uy < 2 * tiles.height
    ensures (ux == x && (uy == y + 1 || uy == y - 1)) || (uy == y && (ux == x + 1 || ux == x - 1))
    ensures var t := TileAt(tiles, ux, uy);
            LevelAt(tiles, lv, x, y) ==
              LevelAt(tiles, lv, ux, uy) - (if t.solid then 4 else if t.airWall then 0 else 1)
  {
    var s, c := Whole(tiles), Cell(x, y);
    CellAt(tiles, lv, c);
    hide TileAt, LevelAt;
    var u := ComesFromCell(tiles, lv, before, c);
    ux, uy := u.x, u.y;
    CellAt(tiles, lv, u);
    hide Scene.TileOf, Scene.At;
  }

  lemma ComesFromCell(tiles: TileMap, lv: seq<int>, before: seq<int>, c: Cell) returns (u: Cell)
    requires IsField(tiles, lv, before) && Whole(tiles).InGrid(c) && Whole(tiles).At(lv, c) > 0
    requires !Whole(tiles).Emits(c)
    ensures Whole(tiles).InGrid(u) && Neighbours(u, c)
    ensures Whole(tiles).At(lv, c) == Whole(tiles).At(lv, u) - Loss(Whole(tiles), u)
  {
    var s := Whole(tiles);
    assert s.Exact(c, s.At(lv, c), before);
    var p :| s.IsPath(p) && p[|p| - 1] == c && s.Carried(p, before) == s.At(lv, c);
    assert |p| > 1;
    var q := p[..|p| - 1];
    u := q[|q| - 1];
    assert s.Exact(u, s.At(lv, u), before);
    NoPathExceeds(s, u, s.At(lv, u), before, q);
    FieldStep(tiles, lv, before, u, c);
    hide Scene.TileOf, Scene.At, IsField, Scene.Exact, Scene.IsPath;
  }

  const LONE := TileMap(1, 1, [Tile(true, true, FULL)])

  /** A single solid glowing tile does stay dark, all four cells of it. */
  lemma LoneSolidEmitterIsDark(lv: seq<int>, before: seq<int>)
    requires IsField(LONE, lv, before)
    ensures lv == [0, 0, 0, 0]
  {
    forall c | Whole(LONE).InGrid(c)
      ensures Whole(LONE).At(lv, c) == 0
    {
      LoneCellIsDark(Whole(LONE).At(lv, c), before, c);
    }
    assert Whole(LONE).At(lv, Cell(0, 0)) == lv[0] && Whole(LONE).At(lv, Cell(1, 0)) == lv[1];
    assert Whole(LONE).At(lv, Cell(0, 1)) == lv[2] && Whole(LONE).At(lv, Cell(1, 1)) == lv[3];
  }

  lemma LoneCellIsDark(level: int, before: seq<int>, c: Cell)
    requires |before| == 4 && Whole(LONE).Exact(c, level, before)
    ensures level == 0
  {
    hide Scene.Bounds;
    var s := Whole(LONE);
    if level > 0 {
      var p :| s.IsPath(p) && p[|p| - 1] == c && s.Carried(p, before) == level;
      AllDark(p, before);
    }
  }

  lemma {:induction false} AllDark(p: seq<Cell>, before: seq<int>)
    requires |before| == 4
    requires Whole(LONE).IsPath(p)
    ensures Whole(LONE).Carried(p, before) == 0
    decreases |p|
  {
    if |p| > 1 {
      AllDark(p[..|p| - 1], before);
    }
  }
}
