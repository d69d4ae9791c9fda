/** Fixed-width words.  Values are mathematical integers constrained to the
    width of the register that holds them; every truncation is written out. */
module Words {

  const TWO32: int := 0x1_0000_0000
  const TWO33: int := 0x2_0000_0000

  type uint2 = x: int | 0 <= x < 4
  type uint3 = x: int | 0 <= x < 8
  type uint4 = x: int | 0 <= x < 16
  type uint5 = x: int | 0 <= x < 32
  type uint6 = x: int | 0 <= x < 64
  type byte = x: int | 0 <= x < 256
  type uint16 = x: int | 0 <= x < 0x1_0000
  type uint32 = x: int | 0 <= x < 0x1_0000_0000
  type uint33 = x: int | 0 <= x < 0x2_0000_0000
  type uint36 = x: int | 0 <= x < 0x10_0000_0000
  type uint38 = x: int | 0 <= x < 0x40_0000_0000
  type uint64 = x: int | 0 <= x < 0x1_0000_0000_0000_0000
  type int16 = x: int | -0x8000 <= x < 0x8000
  type int33 = x: int | -0x1_0000_0000 <= x < 0x1_0000_0000
  type int34 = x: int | -0x2_0000_0000 <= x < 0x2_0000_0000
  type int64 = x: int | -0x8000_0000_0000_0000 <= x < 0x8000_0000_0000_0000

  // Unsigned truncation to a register width.
  function U3(x: int): uint3 { if 0 <= x < 8 then x else x % 8 }
  function U5(x: int): uint5 { if 0 <= x < 32 then x else x % 32 }
  function U6(x: int): uint6 { if 0 <= x < 64 then x else x % 64 }
  function U32(x: int): uint32 { if 0 <= x < 0x1_0000_0000 then x else x % 0x1_0000_0000 }
  function U36(x: int): uint36 { if 0 <= x < 0x10_0000_0000 then x else x % 0x10_0000_0000 }
  function U38(x: int): uint38 { if 0 <= x < 0x40_0000_0000 then x else x % 0x40_0000_0000 }

  // Two's-complement truncation to a register width.
  function S33(x: int): int33 {
    if -0x1_0000_0000 <= x < 0x1_0000_0000 then x
    else (x + 0x1_0000_0000) % 0x2_0000_0000 - 0x1_0000_0000
  }
  function S34(x: int): int34 {
    if -0x2_0000_0000 <= x < 0x2_0000_0000 then x
    else (x + 0x2_0000_0000) % 0x4_0000_0000 - 0x2_0000_0000
  }
  function S64(x: int): int64 {
    if -0x8000_0000_0000_0000 <= x < 0x8000_0000_0000_0000 then x
    else (x + 0x8000_0000_0000_0000) % 0x1_0000_0000_0000_0000 - 0x8000_0000_0000_0000
  }

  /** Counting modulo n: one more, or one lap less. */
  lemma LapModulo(len: nat, n: nat)
    requires n > 0
    ensures len >= n ==> (len - n) % n == len % n
    ensures (len + 1) % n == if len % n == n - 1 then 0 else len % n + 1
  {
    var laps := len / n;
    assert len == n * laps + len % n;
    if len % n == n - 1 {
      assert len + 1 == n * (laps + 1);
      Remainder(len + 1, n, laps + 1, 0);
    } else {
      Remainder(len + 1, n, laps, len % n + 1);
    }
    if len >= n {
      assert len - n == n * (laps - 1) + len % n;
      Remainder(len - n, n, laps - 1, len % n);
    }
  }

  lemma Remainder(x: int, n: int, q: int, r: int)
    requires 0 <= r < n && x == n * q + r
    ensures x % n == r
  {
    var laps := x / n - q;
    assert n * laps == r - x % n;
    assert laps >= 1 ==> n * laps >= n;
    assert laps <= -1 ==> n * laps <= -n;
  }

  /** The quotient is the only number that fits. */
  lemma Quotient(x: int, n: int, q: int)
    requires n > 0 && n * q <= x < n * q + n
    ensures x / n == q
  {
    Remainder(x, n, q, x - n * q);
    assert x == n * (x / n) + x % n;
    assert n * (x / n - q) == 0;
  }

  function Min(a: int, b: int): int { if a <= b then a else b }
  function Max(a: int, b: int): int { if a <= b then b else a }

  datatype Option<+T> = None | Some(value: T)
}
