/** Words of the 64-bit index type of the vendored queue, and its wrapped comparison. */
module MachineWords {
  /** Number of values of the 64-bit index type. */
  const M := 0x1_0000_0000_0000_0000

  function Word(x: int): (w: nat)
    ensures w < M
  {
    x % M
  }

  /** `circular_less_than` on two machine words. */
  predicate CircularLess(a: nat, b: nat) {
    Word(a - b) > M / 2
  }

  /** The distances for which the wrapped comparison is the true one. */
  predicate InWindow(a: int, b: int) {
    -(M / 2) < a - b <= M / 2
  }

  lemma WordOfDifference(a: int, b: int)
    ensures Word(Word(a) - Word(b)) == Word(a - b)
  {
    var k := a / M - b / M;
    assert a - b == Word(a) - Word(b) + k * M;
    ModMultiple(Word(a) - Word(b), k, M);
  }

  /** For counters less than a full wrap apart, the comparison of the words is the
      comparison of the counters exactly inside the window. */
  lemma CircularLessExact(a: int, b: int)
    requires -M < a - b < M
    ensures (CircularLess(Word(a), Word(b)) <==> a < b) <==> InWindow(a, b)
  {
    WordOfDifference(a, b);
  }

  /** The value of a word read as a signed integer. */
  function Signed(w: nat): int {
    if w < M / 2 then w else w - M
  }

  lemma SignedWord(d: int)
    requires -(M / 2) <= d < M / 2
    ensures Signed(Word(d)) == d
  {
  }

  // ---------------------------------------------------------------- remainders

  lemma DivUnique(y: int, q: int, r: int, size: int)
    requires size > 0 && y == q * size + r && 0 <= r < size
    ensures y / size == q && y % size == r
  {
    var d := q - y / size;
    assert d * size == y % size - r;
    assert d >= 1 ==> d * size >= size;
    assert d <= -1 ==> d * size <= -size;
  }

  lemma ModMultiple(x: int, q: int, size: int)
    requires size > 0
    ensures (x + q * size) % size == x % size
  {
    assert x + q * size == (x / size + q) * size + x % size;
    DivUnique(x + q * size, x / size + q, x % size, size);
  }

  lemma ModOffset(a: int, d: int, size: int)
    requires size > 0
    ensures (a % size + d) % size == (a + d) % size
  {
    assert a + d == a % size + d + (a / size) * size;
    ModMultiple(a % size + d, a / size, size);
  }

  /** Numbers fewer than `size` apart have different remainders. */
  lemma ModApart(a: int, b: int, size: int)
    requires 0 < b - a < size
    ensures a % size != b % size
  {
    var d := b / size - a / size;
    assert b - a == d * size + (b % size - a % size);
    assert d >= 1 ==> d * size >= size;
    assert d <= 0 ==> d * size <= 0;
  }
}
