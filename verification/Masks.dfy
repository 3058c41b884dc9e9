// Table indices are masked with `cap - 1`; for a power-of-two capacity that is
// the remainder (src/ordermap.rs:45-77).

module Masks {

  // Bitwise and, bit by bit.
  function BitAnd(a: nat, b: nat): nat {
    if a == 0 || b == 0 then 0
    else 2 * BitAnd(a / 2, b / 2) + (if a % 2 == 1 && b % 2 == 1 then 1 else 0)
  }

  predicate PowerOfTwo(n: nat) {
    n == 1 || (n > 1 && n % 2 == 0 && PowerOfTwo(n / 2))
  }

  lemma MulAtLeast(d: int, k: int)
    requires d > 0 && k >= 1
    ensures d * k >= d
  {
  }

  lemma Distribute(d: int, a: int, b: int)
    ensures d * a - d * b == d * (a - b)
  {
  }

  // Division with remainder has one answer.
  lemma UniqueRemainder(d: int, q: int, r: int, q': int, r': int)
    requires d > 0 && d * q + r == d * q' + r' && 0 <= r < d && 0 <= r' < d
    ensures r == r'
  {
    Distribute(d, q, q');
    Distribute(d, q', q);
    if q > q' { MulAtLeast(d, q - q'); }
    if q < q' { MulAtLeast(d, q' - q); }
  }

  lemma Divide(x: int, d: int)
    requires d > 0
    ensures x == d * (x / d) + x % d && 0 <= x % d < d
  {
  }

  lemma Double(m: int, k: int)
    ensures 2 * (m * k) == (2 * m) * k
  {
  }

  lemma HalfMod(x: nat, m: nat)
    requires m > 0
    ensures x % (2 * m) == 2 * ((x / 2) % m) + x % 2
  {
    var h := x / 2;
    Divide(h, m);
    Divide(x, 2 * m);
    Double(m, h / m);
    UniqueRemainder(2 * m, x / (2 * m), x % (2 * m), h / m, 2 * (h % m) + x % 2);
  }

  lemma {:induction false} MaskIsMod(x: nat, n: nat)
    requires PowerOfTwo(n)
    ensures BitAnd(x, n - 1) == x % n
  {
    if n > 1 {
      var m := n / 2;
      MaskIsMod(x / 2, m);
      HalfMod(x, m);
      assert (n - 1) / 2 == m - 1 && (n - 1) % 2 == 1 && n == 2 * m;
    }
  }

  // The smallest power of two that is at least `n`.
  function NextPowerOfTwo(n: nat): (p: nat)
    ensures p >= n && PowerOfTwo(p) && (p == 1 || p / 2 < n)
  {
    DoubleUntil(1, n)
  }

  function DoubleUntil(p: nat, n: nat): (r: nat)
    requires PowerOfTwo(p) && (p == 1 || p / 2 < n)
    ensures r >= n && PowerOfTwo(r) && (r == 1 || r / 2 < n)
    decreases n - p
  {
    if p >= n then p else DoubleUntil(2 * p, n)
  }

  // Room for twice the live orders: the table is never more than half full.
  function Capacity(liveMax: nat): (cap: nat)
    ensures cap >= 16 && cap >= 2 * liveMax && PowerOfTwo(cap)
  {
    var p := NextPowerOfTwo(2 * liveMax);
    if p < 16 then 16 else p
  }
}
