/** Whole multiples of a block, and quotients. */
module Blocks {

  lemma ScaleMonotone(a: int, b: int, d: nat)
    requires a <= b
    ensures a * d <= b * d
  {}

  lemma CancelFactor(a: int, b: int, k: nat)
    requires a * k < b * k
    ensures a < b
  {}

  lemma NoBlocks(n: nat, block: nat)
    ensures block == 0 ==> n * block == 0
  {}

  lemma NextBlock(b: nat, n: nat, block: nat)
    requires b < n
    ensures (b + 1) * block == b * block + block <= n * block
  {
    ScaleMonotone(b + 1, n, block);
  }

  lemma Division(n: int, d: nat)
    requires d > 0
    ensures n == n / d * d + n % d && 0 <= n % d < d
    ensures n / d * d <= n < (n / d + 1) * d
  {}

  lemma QuotientIs(n: int, q: int, rest: int, d: nat)
    requires 0 <= rest < d && n == q * d + rest
    ensures n / d == q && n % d == rest
  {
    Division(n, d);
    CancelFactor(q, n / d + 1, d);
    CancelFactor(n / d, q + 1, d);
  }

  lemma DivMonotone(a: int, b: int, d: nat)
    requires d > 0 && a <= b
    ensures a / d <= b / d
  {
    Division(a, d);
    Division(b, d);
    CancelFactor(a / d, b / d + 1, d);
  }

  lemma BelowQuotient(k: int, n: int, d: nat)
    requires d > 0
    ensures k < n / d <==> (k + 1) * d <= n
  {
    Division(n, d);
    if k < n / d {
      ScaleMonotone(k + 1, n / d, d);
    } else {
      ScaleMonotone(n / d + 1, k + 1, d);
    }
  }

  /** A position below n whole blocks lies in one of them. */
  lemma BlockOf(i: nat, n: nat, block: nat)
    requires i < n * block
    ensures block > 0 && i / block < n
  {
    NoBlocks(n, block);
    Division(i, block);
    CancelFactor(i / block, n, block);
  }

  lemma MultipleOf(q: int, block: nat)
    requires block > 0
    ensures q * block % block == 0 && q * block / block == q
  {
    QuotientIs(q * block, q, 0, block);
  }

  lemma WholeBlocks(x: int, block: nat)
    requires block > 0 && x % block == 0
    ensures x == x / block * block
  {
    Division(x, block);
  }

  /** n rounded up to whole blocks. */
  function CeilTo(n: nat, block: nat): (r: nat)
    requires block > 0
    ensures n <= r < n + block && r % block == 0
  {
    var q := (n + block - 1) / block;
    CeilFacts(n, block, q);
    q * block
  }

  lemma CeilFacts(n: nat, block: nat, q: int)
    requires block > 0 && q == (n + block - 1) / block
    ensures 0 <= n <= q * block < n + block && q * block % block == 0
  {
    Division(n + block - 1, block);
    MultipleOf(q, block);
    ScaleMonotone(q, q + 1, block);
    Successor(q, block);
  }

  lemma Successor(q: int, block: nat)
    ensures (q + 1) * block == q * block + block
  {}

  lemma AddWholeBlocks(x: int, y: int, block: nat)
    requires block > 0 && x % block == 0 && y % block == 0
    ensures (x + y) % block == 0
  {
    var a, b := x / block, y / block;
    WholeBlocks(x, block);
    WholeBlocks(y, block);
    Distribute(a, b, block);
    MultipleOf(a + b, block);
  }

  lemma Distribute(a: int, b: int, c: int)
    ensures (a + b) * c == a * c + b * c
  {}

  lemma BlockBegins(b: nat, block: nat, total: nat)
    requires block > 0 && b < total / block
    ensures b * block + block <= total
  {
    NextBlock(b, total / block, block);
    Division(total, block);
  }

  /** A boundary at or before s is at or before the start of s's block. */
  lemma BlockAfterBoundary(start: int, s: int, block: nat)
    requires block > 0 && start % block == 0 && start <= s
    ensures start <= s / block * block <= s
  {
    WholeBlocks(start, block);
    Division(s, block);
    DivMonotone(start, s, block);
    ScaleMonotone(start / block, s / block, block);
  }

  lemma LastBlock(s: nat, total: nat, block: nat)
    requires block > 0 && total % block == 0 && s < total
    ensures s / block < total / block
  {
    Division(s, block);
    WholeBlocks(total, block);
    CancelFactor(s / block, total / block, block);
  }
}
