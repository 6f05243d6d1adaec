/** The light field of a tile map: what level every cell should have, defined by paths.

    A shade cell is a quarter of a tile. Open air and glowing tiles are at full light;
    light leaving a cell loses nothing in open air, 1 in front of a wall, 4 in a solid
    tile, and never drops below 0. A recomputation covers a window of cells and takes
    the cells around it as they are. */
module LightField {

  const FULL := 32

  datatype Cell = Cell(x: int, y: int)

  /** `light` is the level a tile emits, 0 for none; the game's tiles emit 0 or 32. */
  datatype Tile = Tile(solid: bool, airWall: bool, light: int)

  datatype TileMap = TileMap(width: nat, height: nat, tiles: seq<Tile>) {
    ghost predicate Valid() {
      && |tiles| == width * height
      && forall i | 0 <= i < |tiles| :: tiles[i].light == 0 || tiles[i].light == FULL
    }
  }

  /** A tile map, and the window recomputed: x0 <= x < x1, y0 <= y < y1. */
  datatype Scene = Scene(tiles: TileMap, x0: int, y0: int, x1: int, y1: int) {
    function Width(): nat { 2 * tiles.width }
    function Height(): nat { 2 * tiles.height }

    predicate InGrid(c: Cell) { 0 <= c.x < Width() && 0 <= c.y < Height() }
    predicate InWindow(c: Cell) { x0 <= c.x < x1 && y0 <= c.y < y1 }

    /** The cells just outside the window that the recomputation starts from. */
    predicate InRing(c: Cell) {
      && InGrid(c)
      && ((x0 <= c.x < x1 && (c.y == y0 - 1 || c.y == y1)) || (y0 <= c.y < y1 && (c.x == x0 - 1 || c.x == x1)))
    }

    predicate Active(c: Cell) { InWindow(c) || InRing(c) }

    /** The window is clipped to the grid, and the ring is where there are tiles. */
    ghost predicate Valid() {
      && tiles.Valid()
      && 0 <= x0 && 0 <= y0 && x1 <= Width() && y1 <= Height()
      && (y0 < y1 ==> x0 <= Width() && 0 <= x1)
      && (x0 < x1 ==> y0 <= Height() && 0 <= y1)
    }

    /** Position of a cell in the level arrays. */
    function Index(c: Cell): int { c.x + c.y * Width() }

    function TileOf(c: Cell): Tile
      requires tiles.Valid() && InGrid(c)
    {
      IndexInRange(c.x / 2, c.y / 2, tiles.width, tiles.height);
      tiles.tiles[c.x / 2 + (c.y / 2) * tiles.width]
    }

    predicate OpenAir(c: Cell)
      requires tiles.Valid() && InGrid(c)
    {
      !TileOf(c).solid && TileOf(c).airWall
    }

    predicate Emits(c: Cell)
      requires tiles.Valid() && InGrid(c)
    {
      OpenAir(c) || TileOf(c).light > 0
    }

    /** What is left of level v when light leaves cell c. */
    function Leave(c: Cell, v: int): int
      requires tiles.Valid() && InGrid(c)
    {
      if TileOf(c).solid then Max(v - 4, 0)
      else if !TileOf(c).airWall then Max(v - 1, 0)
      else v
    }

    /** The level of cell c reached by light of level v: a lit emitter is at full light. */
    function Arrive(c: Cell, v: int): int
      requires tiles.Valid() && InGrid(c)
    {
      if v > 0 && Emits(c) then FULL else v
    }

    /** Cells the recomputation starts from: the ring and the non-solid window cells. */
    predicate Seeded(c: Cell)
      requires tiles.Valid() && InGrid(c)
    {
      InRing(c) || (InWindow(c) && !TileOf(c).solid)
    }

    /** The level light starts with at cell c; a ring cell that does not emit keeps the
        level `ring` gives it. */
    function Seed(c: Cell, ring: seq<int>): int
      requires tiles.Valid() && InGrid(c) && |ring| == Width() * Height()
    {
      if Seeded(c) && Emits(c) then FULL
      else if InRing(c) then At(ring, c)
      else 0
    }

    function At(levels: seq<int>, c: Cell): int
      requires InGrid(c) && |levels| == Width() * Height()
    {
      IndexInRange(c.x, c.y, Width(), Height());
      levels[Index(c)]
    }

    // ---------------------------------------------------------------- paths

    /** Light starts anywhere active and steps to neighbouring cells of the window. */
    predicate IsPath(p: seq<Cell>)
      ensures IsPath(p) ==> p != [] && Active(p[0]) && Active(p[|p| - 1])
    {
      if |p| <= 1 then p != [] && Active(p[0])
      else
        var q, c := p[..|p| - 1], p[|p| - 1];
        IsPath(q) && InWindow(c) && Neighbours(q[|q| - 1], c)
    }

    /** The level light has at the end of path p. */
    function Carried(p: seq<Cell>, ring: seq<int>): int
      requires Valid() && IsPath(p) && |ring| == Width() * Height()
    {
      if |p| == 1 then Seed(p[0], ring)
      else
        var q, c := p[..|p| - 1], p[|p| - 1];
        Arrive(c, Leave(q[|q| - 1], Carried(q, ring)))
    }

    /** Some path brings at least level v to cell c. */
    ghost predicate Brings(c: Cell, v: int, ring: seq<int>)
      requires Valid() && |ring| == Width() * Height()
    {
      exists p :: IsPath(p) && p[|p| - 1] == c && Carried(p, ring) >= v
    }

    /** No path brings more than level v to cell c. */
    ghost predicate Bounds(c: Cell, v: int, ring: seq<int>)
      requires Valid() && |ring| == Width() * Height()
    {
      forall p | IsPath(p) && p[|p| - 1] == c :: Carried(p, ring) <= v
    }

    /** Some path brings exactly level v to cell c. */
    ghost predicate Attains(c: Cell, v: int, ring: seq<int>)
      requires Valid() && |ring| == Width() * Height()
    {
      exists p :: IsPath(p) && p[|p| - 1] == c && Carried(p, ring) == v
    }

    /** Level v at cell c is exact: the most any path brings, or 0 in the dark. */
    ghost predicate Exact(c: Cell, v: int, ring: seq<int>)
      requires Valid() && |ring| == Width() * Height()
    {
      Bounds(c, v, ring) && v >= 0 && (v > 0 ==> Attains(c, v, ring))
    }
  }

  predicate Neighbours(c: Cell, d: Cell) {
    (c.x == d.x && (d.y == c.y + 1 || d.y == c.y - 1)) || (c.y == d.y && (d.x == c.x + 1 || d.x == c.x - 1))
  }

  function Max(a: int, b: int): int { if a < b then b else a }

  lemma IndexInRange(x: int, y: int, w: int, h: int)
    requires 0 <= x < w && 0 <= y < h
    ensures 0 <= x + y * w < w * h
  {
    assert (y + 1) * w <= h * w;
  }

  /** Different cells have different positions. */
  lemma IndexInjective(x: int, y: int, x': int, y': int, w: int)
    requires 0 <= x < w && 0 <= x' < w && x + y * w == x' + y' * w
    ensures x == x' && y == y'
  {
    var d := y - y';
    assert d * w == x' - x;
    assert d >= 1 ==> d * w >= w;
    assert d <= -1 ==> d * w <= -w;
  }

  lemma AtUpdate(s: Scene, levels: seq<int>, c: Cell, v: int, d: Cell)
    requires s.InGrid(c) && s.InGrid(d) && |levels| == s.Width() * s.Height()
    ensures 0 <= s.Index(c) < |levels|
    ensures s.At(levels[s.Index(c) := v], d) == if c == d then v else s.At(levels, d)
  {
    IndexInRange(c.x, c.y, s.Width(), s.Height());
    IndexInRange(d.x, d.y, s.Width(), s.Height());
    if c != d && s.Index(c) == s.Index(d) {
      IndexInjective(c.x, c.y, d.x, d.y, s.Width());
    }
  }
}
