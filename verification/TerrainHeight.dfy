/** The terrain height: one-dimensional gradient noise, summed over octaves, moves every
    column of the world by a bounded number of tiles. Floats are taken as reals. */
module TerrainHeight {

  const PERM_SIZE := 257
  const OCTAVES := 4

  // ---------------------------------------------------------------- noise

  function Fade(t: real): real { t * t * t * (t * (t * 6.0 - 15.0) + 10.0) }

  function Lerp(t: real, a: real, b: real): real { a + t * (b - a) }

  function Grad(hash: int, x: real): real { if hash % 2 == 0 then x else -x }

  function Noise(perm: seq<int>, x: real): real
    requires |perm| == PERM_SIZE
  {
    var cell := x.Floor % 256;
    var s := x - x.Floor as real;
    Lerp(Fade(s), Grad(perm[cell], s), Grad(perm[cell + 1], s - 1.0)) * 2.0
  }

  /** Around the middle of the cell Fade leaves 1/2 with the sign of t - 1/2. */
  lemma FadeAroundHalf(t: real)
    ensures var s := t - 0.5;
            Fade(t) - 0.5 == s * (1.875 - 5.0 * (s * s) + 6.0 * (s * s) * (s * s))
  {
    var s := t - 0.5;
    var q := s * s;
    assert t == s + 0.5;
    assert t * t == q + s + 0.25;
    assert t * (t * 6.0 - 15.0) + 10.0 == 6.0 * (t * t) - 15.0 * t + 10.0;
    assert t * t * t == (q + s + 0.25) * (s + 0.5);
    assert (q + s + 0.25) * (s + 0.5) == q * s + 1.5 * q + 0.75 * s + 0.125;
    assert 6.0 * (t * t) - 15.0 * t + 10.0 == 6.0 * q - 9.0 * s + 4.0;
    Product(s, q);
  }

  lemma Product(s: real, q: real)
    requires q == s * s
    ensures (q * s + 1.5 * q + 0.75 * s + 0.125) * (6.0 * q - 9.0 * s + 4.0) ==
              0.5 + s * (1.875 - 5.0 * q + 6.0 * q * q)
  {
    var c := q * s;
    assert c * s == q * q;
    assert c * q == q * c;
    assert (c + 1.5 * q + 0.75 * s + 0.125) * (6.0 * q - 9.0 * s + 4.0) ==
           6.0 * (c * q) - 9.0 * (c * s) + 4.0 * c
           + 9.0 * (q * q) - 13.5 * (q * s) + 6.0 * q
           + 4.5 * (s * q) - 6.75 * (s * s) + 3.0 * s
           + 0.75 * q - 1.125 * s + 0.5;
    assert s * (1.875 - 5.0 * q + 6.0 * q * q) == 1.875 * s - 5.0 * c + 6.0 * (c * q);
  }

  lemma QuarticIsPositive(q: real)
    ensures 1.875 - 5.0 * q + 6.0 * q * q > 0.0
  {
    var r := q - 5.0 / 12.0;
    assert r * r >= 0.0;
    assert 6.0 * (r * r) == 6.0 * q * q - 5.0 * q + 25.0 / 24.0;
  }

  /** Fade keeps to the side of 1/2 its argument is on: the product is never negative. */
  lemma FadeKeepsSides(t: real)
    ensures (t - 0.5) * (Fade(t) - 0.5) >= 0.0
    ensures t < 0.5 <==> Fade(t) < 0.5
  {
    var s := t - 0.5;
    var k := 1.875 - 5.0 * (s * s) + 6.0 * (s * s) * (s * s);
    QuarticIsPositive(s * s);
    FadeAroundHalf(t);
    assert s * (s * k) == (s * s) * k;
    assert (s * s) * k >= 0.0;
    assert s < 0.0 ==> s * k < 0.0;
    assert s >= 0.0 ==> s * k >= 0.0;
  }

  lemma FadeRange(t: real)
    requires 0.0 <= t <= 1.0
    ensures 0.0 <= Fade(t) <= 1.0
  {
    FadeIsNotNegative(t);
    FadeIsNotNegative(1.0 - t);
    FadeMirrors(t);
  }

  lemma FadeIsNotNegative(t: real)
    requires 0.0 <= t
    ensures Fade(t) >= 0.0
  {
    var r := t - 1.25;
    assert r * r >= 0.0;
    var k := t * (t * 6.0 - 15.0) + 10.0;
    assert k == 6.0 * (r * r) + 0.625;
    assert t * t * t >= 0.0;
  }

  lemma FadeMirrors(t: real)
    ensures Fade(1.0 - t) == 1.0 - Fade(t)
  {
    FadeAroundHalf(t);
    FadeAroundHalf(1.0 - t);
    var s := t - 0.5;
    var k := 1.875 - 5.0 * (s * s) + 6.0 * (s * s) * (s * s);
    assert (-s) * (-s) == s * s;
    assert (-s) * k == -(s * k);
  }

  /** Products, so that a proof can keep them as they are. */
  function Times(x: real, y: real): real { x * y }

  lemma LerpIs(u: real, a: real, b: real)
    ensures Lerp(u, a, b) == Times(1.0 - u, a) + Times(u, b)
  {}

  lemma Scale(k: real, x: real, bound: real)
    requires k >= 0.0 && -bound <= x <= bound
    ensures -Times(k, bound) <= Times(k, x) <= Times(k, bound)
  {
    assert k * (bound - x) >= 0.0 && k * (bound + x) >= 0.0;
    assert k * (bound - x) == k * bound - k * x && k * (bound + x) == k * bound + k * x;
  }

  lemma Complements(u: real, s: real)
    ensures Times(1.0 - u, s) == s - Times(s, u) && Times(u, 1.0 - s) == u - Times(s, u)
    ensures Times(s - 0.5, u - 0.5) == Times(s, u) - 0.5 * s - 0.5 * u + 0.25
  {}

  lemma Blend(u: real, a: real, b: real, s: real)
    requires 0.0 <= u <= 1.0 && -s <= a <= s && -(1.0 - s) <= b <= 1.0 - s
    ensures var bound := s + u - 2.0 * Times(s, u); -bound <= Lerp(u, a, b) <= bound
  {
    hide Lerp, Times;
    LerpIs(u, a, b);
    Scale(1.0 - u, a, s);
    Scale(u, b, 1.0 - s);
    Complements(u, s);
  }

  /** One-dimensional noise stays within 1. */
  lemma NoiseBound(perm: seq<int>, x: real)
    requires |perm| == PERM_SIZE
    ensures -1.0 <= Noise(perm, x) <= 1.0
  {
    var s := x - x.Floor as real;
    var u := Fade(s);
    hide Fade, Lerp, Times;
    var a, b := Grad(perm[x.Floor % 256], s), Grad(perm[x.Floor % 256 + 1], s - 1.0);
    FadeRange(s);
    SidesProduct(s);
    Blend(u, a, b, s);
    Complements(u, s);
  }

  lemma SidesProduct(t: real)
    ensures Times(t - 0.5, Fade(t) - 0.5) >= 0.0
  {
    FadeKeepsSides(t);
  }

  /** The bound is met: half way between two lattice points with opposite gradients. */
  lemma NoiseBoundIsMet(perm: seq<int>, x: real)
    requires |perm| == PERM_SIZE && x - x.Floor as real == 0.5
    requires perm[x.Floor % 256] % 2 == 0 && perm[x.Floor % 256 + 1] % 2 != 0
    ensures Noise(perm, x) == 1.0
  {
    assert Fade(0.5) == 0.5;
  }

  /** Where the lattice is and which gradients it has: at a lattice point the noise is 0, and half
      way to the next the two gradients have equal weight. */
  lemma NoiseOnLattice(perm: seq<int>, n: int)
    requires |perm| == PERM_SIZE
    ensures Noise(perm, n as real) == 0.0
    ensures Noise(perm, n as real + 0.5) ==
              (if perm[n % 256] % 2 == 0 then 0.5 else -0.5) + (if perm[n % 256 + 1] % 2 == 0 then -0.5 else 0.5)
  {
    assert (n as real).Floor == n && (n as real + 0.5).Floor == n;
    assert Fade(0.0) == 0.0 && Fade(0.5) == 0.5;
  }

  // ---------------------------------------------------------------- octaves

  /** 1 / 2^n. */
  function Half(n: nat): (h: real)
    ensures 0.0 < h <= 1.0
  { if n == 0 then 1.0 else 0.5 * Half(n - 1) }

  function Pow2(n: nat): real { if n == 0 then 1.0 else 2.0 * Pow2(n - 1) }

  /** The octave number n: 2^n times as fine as the first and 2^n times as weak. */
  function Octave(perm: seq<int>, x: real, n: nat): real
    requires |perm| == PERM_SIZE
  { Times(Half(n + 1), Noise(perm, Times(x, Pow2(n)))) }

  function Octaves(perm: seq<int>, x: real, n: nat): real
    requires |perm| == PERM_SIZE
  {
    if n == 0 then 0.0 else Octaves(perm, x, n - 1) + Octave(perm, x, n - 1)
  }

  method Fbm(perm: seq<int>, x0: real, octave: nat) returns (f: real)
    requires |perm| == PERM_SIZE
    ensures f == Octaves(perm, x0, octave)
    ensures -(1.0 - Half(octave)) <= f <= 1.0 - Half(octave)
  {
    hide Noise, Octave, Half;
    f := 0.0;
    var w, x := 0.5, x0;
    OctaveStarts(perm, x0);
    for i := 0 to octave
      invariant f == Octaves(perm, x0, i) && w == Half(i + 1) && x == x0 * Pow2(i)
    {
      OctaveSteps(perm, x0, i, w, x);
      f := f + w * Noise(perm, x);
      x := x * 2.0;
      w := w * 0.5;
    }
    OctavesBound(perm, x0, octave);
  }

  lemma OctaveStarts(perm: seq<int>, x: real)
    requires |perm| == PERM_SIZE
    ensures Half(1) == 0.5 && x * Pow2(0) == x && Octave(perm, x, 0) == 0.5 * Noise(perm, x)
  {
    assert Times(x, Pow2(0)) == x;
  }

  lemma OctaveSteps(perm: seq<int>, x0: real, n: nat, w: real, x: real)
    requires |perm| == PERM_SIZE && w == Half(n + 1) && x == x0 * Pow2(n)
    ensures w * Noise(perm, x) == Octave(perm, x0, n)
    ensures w * 0.5 == Half(n + 2) && x * 2.0 == x0 * Pow2(n + 1)
  {
    hide Noise;
    assert Pow2(n + 1) == 2.0 * Pow2(n);
    assert x == Times(x0, Pow2(n));
    assert Times(w, Noise(perm, x)) == w * Noise(perm, x);
  }

  /** For every octave count the sum stays below 1 by what the missing octaves could add. */
  lemma {:induction false} OctavesBound(perm: seq<int>, x: real, n: nat)
    requires |perm| == PERM_SIZE
    ensures -(1.0 - Half(n)) <= Octaves(perm, x, n) <= 1.0 - Half(n)
    ensures -1.0 < Octaves(perm, x, n) < 1.0
  {
    hide Octave, Noise;
    if n > 0 {
      OctavesBound(perm, x, n - 1);
      OctaveBound(perm, x, n - 1);
      assert Half(n - 1) == 2.0 * Half(n);
    }
  }

  lemma OctaveBound(perm: seq<int>, x: real, n: nat)
    requires |perm| == PERM_SIZE
    ensures -Half(n + 1) <= Octave(perm, x, n) <= Half(n + 1)
  {
    hide Noise;
    var v := Noise(perm, Times(x, Pow2(n)));
    NoiseBound(perm, Times(x, Pow2(n)));
    Scale(Half(n + 1), v, 1.0);
    assert Times(Half(n + 1), 1.0) == Half(n + 1);
    assert Octave(perm, x, n) == Times(Half(n + 1), v);
    hide Times, Octave, Half;
  }

  /** The octaves nest: the first one, and the rest at half the strength and twice the scale. */
  lemma {:induction false} OctavesNest(perm: seq<int>, x: real, n: nat)
    requires |perm| == PERM_SIZE
    ensures Octaves(perm, x, n + 1) == 0.5 * Noise(perm, x) + 0.5 * Octaves(perm, 2.0 * x, n)
  {
    hide Octave, Noise;
    if n == 0 {
      OctaveStarts(perm, x);
      assert Octaves(perm, x, 0) == 0.0 && Octaves(perm, 2.0 * x, 0) == 0.0;
    } else {
      OctavesNest(perm, x, n - 1);
      OctaveNests(perm, x, n - 1);
    }
  }

  lemma OctaveNests(perm: seq<int>, x: real, n: nat)
    requires |perm| == PERM_SIZE
    ensures Octave(perm, x, n + 1) == 0.5 * Octave(perm, 2.0 * x, n)
  {
    hide Noise;
    assert Times(x, Pow2(n + 1)) == Times(2.0 * x, Pow2(n));
    HalfTimes(n + 1, Noise(perm, Times(x, Pow2(n + 1))));
  }

  lemma HalfTimes(n: nat, v: real)
    ensures Times(Half(n + 1), v) == 0.5 * Times(Half(n), v)
  {
    assert (0.5 * Half(n)) * v == 0.5 * (Half(n) * v);
  }

  // ---------------------------------------------------------------- columns

  /** Half away from zero. */
  function RoundToInt(v: real): int {
    if v >= 0.0 then (v + 0.5).Floor else -((-v + 0.5).Floor)
  }

  /** The height of a column. */
  function ColumnHeight(perm: seq<int>, seed: int, i: nat, height: nat): int
    requires |perm| == PERM_SIZE
  {
    height - 64 + RoundToInt(Octaves(perm, (seed % 1024) as real + i as real * 0.02, OCTAVES) * 16.0)
  }

  lemma RoundWithin(v: real, n: int)
    requires -(n as real) <= v <= n as real
    ensures -n <= RoundToInt(v) <= n
  {}

  /** The nearest whole number, halves going away from zero. */
  lemma RoundIsNearest(v: real)
    ensures v - 0.5 <= RoundToInt(v) as real <= v + 0.5
    ensures RoundToInt(-v) == -RoundToInt(v)
    ensures v >= 0.0 && v - v.Floor as real == 0.5 ==> RoundToInt(v) == v.Floor + 1
  {}

  /** The height is the nearest to 64 tiles below the top and 16 tiles for every unit of noise,
      sampled 50 columns to the unit from the last ten bits of the seed on. */
  lemma HeightIsNearest(perm: seq<int>, seed: int, i: nat, height: nat)
    requires |perm| == PERM_SIZE
    ensures var v := height as real - 64.0 + 16.0 * Octaves(perm, (seed % 1024) as real + 0.02 * i as real, 4);
            v - 0.5 <= ColumnHeight(perm, seed, i, height) as real <= v + 0.5
  {
    hide Octaves;
    assert i as real * 0.02 == 0.02 * i as real;
    RoundIsNearest(Octaves(perm, (seed % 1024) as real + i as real * 0.02, OCTAVES) * 16.0);
    hide RoundToInt;
  }

  /** The next seed's world is this one's, 50 columns on. */
  lemma NextSeedIsShifted(perm: seq<int>, seed: int, i: nat, height: nat)
    requires |perm| == PERM_SIZE && seed % 1024 < 1023
    ensures ColumnHeight(perm, seed, i + 50, height) == ColumnHeight(perm, seed + 1, i, height)
  {
    hide Octaves, RoundToInt;
    assert (seed + 1) % 1024 == seed % 1024 + 1;
    assert (i + 50) as real * 0.02 == i as real * 0.02 + 1.0;
  }

  /** For every seed and column the height is within 15 of the middle. */
  lemma HeightBound(perm: seq<int>, seed: int, i: nat, height: nat)
    requires |perm| == PERM_SIZE
    ensures height - 79 <= ColumnHeight(perm, seed, i, height) <= height - 49
  {
    var x := (seed % 1024) as real + i as real * 0.02;
    OctavesBound(perm, x, OCTAVES);
    assert Half(OCTAVES) == 0.0625;
    RoundWithin(Octaves(perm, x, OCTAVES) * 16.0, 15);
  }

  /** Columns of stone with ten tiles of dirt on top; what is above is left as it was. */
  method GenerateWorld(tiles: array2<int>, perm: seq<int>, seed: int)
    requires |perm| == PERM_SIZE
    modifies tiles
    ensures forall i, j | 0 <= i < tiles.Length0 && 0 <= j < tiles.Length1 ::
              var h := ColumnHeight(perm, seed, i, tiles.Length1);
              tiles[i, j] == if j >= h then old(tiles[i, j]) else if j >= h - 10 then 2 else 1
    ensures forall i | 0 <= i < tiles.Length0 ::
              var v := tiles.Length1 as real - 64.0 + 16.0 * Octaves(perm, (seed % 1024) as real + 0.02 * i as real, 4);
              v - 0.5 <= ColumnHeight(perm, seed, i, tiles.Length1) as real <= v + 0.5
  {
    hide Octaves;
    forall i | 0 <= i < tiles.Length0
      ensures var v := tiles.Length1 as real - 64.0 + 16.0 * Octaves(perm, (seed % 1024) as real + 0.02 * i as real, 4);
              v - 0.5 <= ColumnHeight(perm, seed, i, tiles.Length1) as real <= v + 0.5
    {
      HeightIsNearest(perm, seed, i, tiles.Length1);
    }
    var width, height := tiles.Length0, tiles.Length1;
    var ox := seed % 1024;
    for i := 0 to width
      invariant forall a, j | 0 <= a < i && 0 <= j < height ::
                  var h := ColumnHeight(perm, seed, a, height);
                  tiles[a, j] == if j >= h then old(tiles[a, j]) else if j >= h - 10 then 2 else 1
      invariant forall a, j | i <= a < width && 0 <= j < height :: tiles[a, j] == old(tiles[a, j])
    {
      var noise_value := Fbm(perm, ox as real + i as real * 0.02, OCTAVES);
      var h := height - 64 + RoundToInt(noise_value * 16.0);
      assert h == ColumnHeight(perm, seed, i, height);
      HeightBound(perm, seed, i, height);
      hide ColumnHeight, RoundToInt;
      var j := 0;
      while j < h
        invariant 0 <= j && (j <= h || j == 0)
        invariant forall a, b | 0 <= a < width && 0 <= b < height && a != i :: tiles[a, b] == old(tiles[a, b]) ||
                    a < i
        invariant forall a, b | 0 <= a < i && 0 <= b < height ::
                    var h := ColumnHeight(perm, seed, a, height);
                    tiles[a, b] == if b >= h then old(tiles[a, b]) else if b >= h - 10 then 2 else 1
        invariant forall b | 0 <= b < height ::
                    tiles[i, b] == if b >= j then old(tiles[i, b]) else if b >= h - 10 then 2 else 1
      {
        tiles[i, j] := if j + 10 >= h then 2 else 1;
        j := j + 1;
      }
    }
  }
}
