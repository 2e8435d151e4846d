/** Go's fixed-width unsigned arithmetic, written out over mathematical integers. */
module Words {

  const TWO31: int := 0x8000_0000
  const TWO32: int := 0x1_0000_0000
  const MAX32: u32 := 0xFFFF_FFFF

  type u32 = x: int | 0 <= x < 0x1_0000_0000

  type byte = x: int | 0 <= x < 256

  type bytes = seq<byte>

  /** The 32-bit word congruent to `x`. */
  function Wrap32(x: int): u32 {
    x % TWO32
  }

  function Add32(a: u32, b: u32): u32 {
    Wrap32(a + b)
  }

  /** `^x` on a 32-bit word. */
  function Not32(x: u32): u32 {
    0xFFFF_FFFF - x
  }

  /** `atomic.AddUint32(&v, 1)` */
  function Inc32(v: u32): u32 {
    Add32(v, 1)
  }

  /** `atomic.AddUint32(&v, ^uint32(0))` */
  function Dec32(v: u32): u32 {
    Add32(v, Not32(0))
  }

  /** `int32(v)` */
  function Signed32(v: u32): int {
    if v < TWO31 then v else v - TWO32
  }

  /** Adding the complement of `size - 1` subtracts `size`, also when `size` is zero. */
  lemma ComplementSubtracts(v: u32, size: u32)
    ensures Add32(v, Not32(Wrap32(size - 1))) == Wrap32(v - size)
    ensures Dec32(v) == Wrap32(v - 1)
  {
  }

  /** A decrement takes back exactly one increment, wherever the word wraps. */
  lemma IncDecCancel(v: u32)
    ensures Dec32(Inc32(v)) == v && Inc32(Dec32(v)) == v
  {
    assert Inc32(v) == if v == MAX32 then 0 else v + 1;
    assert Dec32(v) == if v == 0 then MAX32 else v - 1;
  }

  lemma WrapAdd(x: int, d: int)
    ensures Wrap32(Wrap32(x) + d) == Wrap32(x + d)
  {
  }

  /** A word that moved by `d` holds the moved count, as long as that count fits. */
  lemma WordFollows(c: u32, c': u32, d: int)
    requires c' == Wrap32(c + d) && 0 <= c + d < TWO32
    ensures c' == c + d
  {
  }

  // ---------- Division ----------

  lemma MulAtLeast(a: int, n: int)
    requires n >= 0
    ensures a >= 1 ==> a * n >= n
    ensures a <= -1 ==> a * n <= -n
  {
    if a >= 1 {
      assert (a - 1) * n >= 0;
    } else if a <= -1 {
      assert (-1 - a) * n >= 0;
    }
  }

  /** Quotient and remainder are determined by their defining equation. */
  lemma DivUnique(x: int, n: int, q: int, r: int)
    requires 0 <= r < n && x == q * n + r
    ensures x / n == q && x % n == r
  {
    MulAtLeast(q - x / n, n);
    assert x == x / n * n + x % n;
    assert (q - x / n) * n == x % n - r;
  }

  lemma WrapSmall(n: int)
    requires 0 <= n < TWO32
    ensures Wrap32(n) == n
  {
  }
}
