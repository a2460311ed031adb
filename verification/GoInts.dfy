/** The fixed-width integers of the balancer, with Go's wrap-around and truncation. */
module GoInts {

  const TWO_32 := 0x1_0000_0000
  const TWO_63 := 0x8000_0000_0000_0000
  const TWO_64 := 0x1_0000_0000_0000_0000

  type uint32 = x: int | 0 <= x < TWO_32
  type uint64 = x: int | 0 <= x < TWO_64

  function Inc32(x: uint32): uint32 {
    if x + 1 == TWO_32 then 0 else x + 1
  }

  /** The value of a 32-bit counter after `n` increments from zero. */
  function Wrap32(n: nat): uint32 {
    n % TWO_32
  }

  lemma {:induction false} WrapInc(n: nat)
    ensures Inc32(Wrap32(n)) == Wrap32(n + 1)
    ensures n < TWO_32 ==> Wrap32(n) == n
  {
  }

  function Sub32(x: uint32, y: uint32): uint32 {
    if y <= x then x - y else x - y + TWO_32
  }

  function Inc64(x: uint64): uint64 {
    if x + 1 == TWO_64 then 0 else x + 1
  }

  /** The conversion `int(x)` of an unsigned 64-bit value on a 64-bit machine. */
  function ToInt64(x: uint64): int {
    if x < TWO_63 then x else x - TWO_64
  }

  /** Division by two, truncating towards zero. */
  function Half(x: int): int {
    if x >= 0 then x / 2 else -((-x) / 2)
  }

  /** Remainder with the sign of the dividend. */
  function Rem(x: int, m: int): int
    requires m > 0
    decreases if x < 0 then -x else x
  {
    if x >= m then Rem(x - m, m) else if x <= -m then Rem(x + m, m) else x
  }

  /** `m` added up `k` times. */
  function Times(m: int, k: nat): int {
    if k == 0 then 0 else Times(m, k - 1) + m
  }

  lemma {:induction false} TimesIsProduct(m: int, k: nat)
    ensures Times(m, k) == m * k
  {
    if k != 0 {
      TimesIsProduct(m, k - 1);
    }
  }
}
