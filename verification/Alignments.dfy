/** Rounding and divisibility facts shared by the memory managers. */
module Alignments {
  function Max(a: nat, b: nat): nat { if a < b then b else a }

  function RoundUp(n: nat, alignment: nat): (r: nat)
    requires alignment > 0
    ensures n <= r < n + alignment && r % alignment == 0
  {
    var r := (n + alignment - 1) / alignment * alignment;
    RoundUpFacts(n, alignment);
    r
  }

  lemma RoundUpFacts(n: nat, alignment: nat)
    requires alignment > 0
    ensures var r := (n + alignment - 1) / alignment * alignment; n <= r < n + alignment && r % alignment == 0
  {
    var q := (n + alignment - 1) / alignment;
    assert q * alignment == n + alignment - 1 - (n + alignment - 1) % alignment;
    MultipleMod(q, alignment);
  }

  lemma MultipleMod(q: nat, m: nat)
    requires m > 0
    ensures q * m % m == 0
  {
    UniqueRemainder(q * m, q, m);
  }

  lemma UniqueRemainder(n: nat, q: nat, m: nat)
    requires m > 0 && n == q * m
    ensures n % m == 0
  {
    var p, r := n / m, n % m;
    assert n == m * p + r;
    var d := q - p;
    assert d * m == r by { assert d * m == q * m - p * m; assert p * m == m * p; }
  }

  predicate PowerOfTwo(n: nat) {
    n == 1 || (n > 1 && n % 2 == 0 && PowerOfTwo(n / 2))
  }

  /** Device alignments are powers of two, so an offset aligned for the largest
      of them is aligned for all. */
  lemma {:induction false} SmallerDivides(offset: nat, small: nat, large: nat)
    requires PowerOfTwo(small) && PowerOfTwo(large) && small <= large && offset % large == 0
    ensures offset % small == 0
    decreases large
  {
    if small == large || small == 1 {
    } else {
      HalfAligned(offset, large);
      SmallerDivides(offset / 2, small / 2, large / 2);
      DoubleAligned(offset, small);
    }
  }

  lemma HalfAligned(offset: nat, m: nat)
    requires m > 1 && m % 2 == 0 && offset % m == 0
    ensures offset % 2 == 0 && offset / 2 % (m / 2) == 0
  {
    var k, g := m / 2, offset / m;
    assert offset == m * g == 2 * (k * g) by { assert m == 2 * k; assert 2 * k * g == 2 * (k * g); }
    MultipleMod(g, k);
    assert offset / 2 == g * k;
  }

  lemma DoubleAligned(offset: nat, m: nat)
    requires m > 1 && m % 2 == 0 && offset % 2 == 0 && offset / 2 % (m / 2) == 0
    ensures offset % m == 0
  {
    var k := m / 2;
    var g := offset / 2 / k;
    assert offset / 2 == k * g;
    assert offset == g * m by { assert offset == 2 * (k * g); assert 2 * (k * g) == (2 * k) * g; }
    MultipleMod(g, m);
  }
}
