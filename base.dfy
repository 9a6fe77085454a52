/**
 * Machine words, kernel error numbers and the power-of-two arithmetic that
 * the HAL-to-HFI lookup tables are indexed by.
 */
module Base {

  /** A C `u32`. */
  type u32 = x: int | 0 <= x < 0x1_0000_0000
  /** A C `u64`. */
  type u64 = x: int | 0 <= x < 0x1_0000_0000_0000_0000
  /** A C `s64`. */
  type i64 = x: int | -0x8000_0000_0000_0000 <= x < 0x8000_0000_0000_0000
  /** A non-zero `u32`: the HFI codes a translator may return in place of "unknown" (0). */
  type NonZeroU32 = x: int | 0 < x < 0x1_0000_0000 witness 1

  /**
   * The byte size of a firmware structure. The firmware interface header is not
   * part of this model, so every `sizeof` is an abstract constant of this type:
   * a positive whole number of 32-bit words, small enough that a packet header
   * plus a payload never overflows a `u32`.
   */
  type StructSize = x: int | 0 < x < 0x1_0000 && x % 4 == 0 witness 4

  const TwoTo32: int := 0x1_0000_0000

  /** Conversion of any C integer to `u32` (keeps the low 32 bits; `%` here never goes negative). */
  function Mod32(x: int): (r: u32)
    ensures 0 <= x < TwoTo32 ==> r == x
    ensures (r - x) % TwoTo32 == 0
  {
    x % TwoTo32
  }

  /** Storing an int into a u32 keeps its remainder modulo 2^32. */
  lemma Mod32IsRemainder(x: int)
    ensures Mod32(x) == x % TwoTo32
  {
  }

  /** `upper_32_bits` of a signed 64-bit value (taken on its two's-complement pattern). */
  function Upper32(ts: i64): (r: u32)
  {
    (ts % 0x1_0000_0000_0000_0000) / TwoTo32
  }

  /** `lower_32_bits` of a signed 64-bit value. */
  function Lower32(ts: i64): (r: u32)
  {
    ts % TwoTo32
  }

  /** The signed 64-bit value whose two's-complement halves are `hi` and `lo`. */
  function Join64(hi: u32, lo: u32): (r: i64)
  {
    var n := hi * TwoTo32 + lo;
    if n >= 0x8000_0000_0000_0000 then n - 0x1_0000_0000_0000_0000 else n
  }

  /** Splitting a timestamp into its two halves loses nothing. */
  lemma {:induction false} SplitJoin64(ts: i64)
    ensures Join64(Upper32(ts), Lower32(ts)) == ts
  {
    var u := ts % 0x1_0000_0000_0000_0000;
    assert u == Upper32(ts) * TwoTo32 + Lower32(ts) by {
      assert ts % TwoTo32 == u % TwoTo32;
    }
  }

  // Linux error numbers; operations report failure as their negation.
  const EINVAL: int := 22
  const ERANGE: int := 34
  const ENOTSUPP: int := 524

  datatype Option<T> = None | Some(value: T)

  /** 2 to the power `k`. */
  function Pow2(k: nat): (r: nat)
    ensures r >= 1
  {
    if k == 0 then 1 else 2 * Pow2(k - 1)
  }

  /**
   * `n` is a power of two: what `roundup_pow_of_two(n) == n` tests for a
   * non-zero C `int` (a negative `int` is never one).
   */
  predicate IsPow2(n: int)
    ensures IsPow2(n) ==> n > 0
    decreases if n > 0 then n else 0
  {
    n == 1 || (n > 1 && n % 2 == 0 && IsPow2(n / 2))
  }

  /** `ilog2`: the index of the highest set bit of a positive number. */
  function Log2(n: int): (r: nat)
    requires n > 0
    ensures Pow2(r) <= n < 2 * Pow2(r)
  {
    if n == 1 then 0 else 1 + Log2(n / 2)
  }

  /** A bit flag: the form the HAL gives most of its enumerations. */
  type Flag = x: int | IsPow2(x) witness 1

  lemma {:induction false} Pow2IsPow2(k: nat)
    ensures IsPow2(Pow2(k))
  {
    if k > 0 {
      Pow2IsPow2(k - 1);
      assert Pow2(k) / 2 == Pow2(k - 1);
    }
  }

  /** For a power of two, `ilog2` is exact: `1 << ilog2(n) == n`. */
  lemma {:induction false} Log2OfPow2(n: int)
    requires IsPow2(n)
    ensures Pow2(Log2(n)) == n
  {
    if n != 1 {
      Log2OfPow2(n / 2);
    }
  }

  /** `ilog2(1 << k) == k`. */
  lemma {:induction false} Log2Pow2(k: nat)
    ensures Log2(Pow2(k)) == k
  {
    if k > 0 {
      assert Pow2(k) / 2 == Pow2(k - 1);
      Log2Pow2(k - 1);
    }
  }
}
