/** Fixed-width machine integers and the small vocabulary every other module uses. */
module Machine {

  datatype Option<+T> = None | Some(value: T)

  datatype Result<+R, +E> = Ok(value: R) | Err(error: E)

  const U32_LIMIT: int := 0x1_0000_0000
  const U64_LIMIT: int := 0x1_0000_0000_0000_0000
  /** Serial-number arithmetic splits the u32 circle in two halves of this size. */
  const HALF_SEQUENCE_RANGE: int := 0x8000_0000

  type U8 = n: int | 0 <= n < 0x100
  type U32 = n: int | 0 <= n < 0x1_0000_0000
  type U64 = n: int | 0 <= n < 0x1_0000_0000_0000_0000

  /** Monotonic instants and durations, in nanoseconds. */
  type Instant = nat

  const MILLISECOND: nat := 1_000_000
  const SECOND: nat := 1_000_000_000

  const U32_MAX: U32 := 0xFFFF_FFFF
  const U64_MAX: U64 := 0xFFFF_FFFF_FFFF_FFFF

  function Min(a: int, b: int): int { if a <= b then a else b }

  function Max(a: int, b: int): int { if a >= b then a else b }

  /** `u64::saturating_add` on non-negative operands. */
  function SatAdd64(a: nat, b: nat): (r: U64)
    requires a < U64_LIMIT
  {
    if a + b < U64_LIMIT then a + b else U64_MAX
  }

  /** `saturating_sub`: also what `saturating_duration_since` does on instants. */
  function SatSub(a: nat, b: nat): nat { if a >= b then a - b else 0 }

  /** `u32::wrapping_sub`: the forward distance from b to a around the u32 circle. */
  function WrapSub(a: U32, b: U32): U32
  {
    if a >= b then a - b else a - b + U32_LIMIT
  }

  /** `u32::wrapping_add(1)`. */
  function WrapNext(a: U32): U32
  {
    if a == U32_MAX then 0 else a + 1
  }

  /** The u32 label that an unbounded index carries on the wire. */
  function Wrap(i: int): U32
  {
    i % U32_LIMIT
  }

  /** The wrapping distance of two labels is the true distance of their indices, modulo 2^32. */
  lemma WrapDistance(i: int, j: int)
    ensures WrapSub(Wrap(i), Wrap(j)) == (i - j) % U32_LIMIT
    ensures 0 <= i - j < U32_LIMIT ==> WrapSub(Wrap(i), Wrap(j)) == i - j
    ensures -U32_LIMIT <= i - j < 0 ==> WrapSub(Wrap(i), Wrap(j)) == i - j + U32_LIMIT
  {
  }

  lemma WrapSuccessor(i: int)
    ensures WrapNext(Wrap(i)) == Wrap(i + 1)
  {
  }

  /** Labels identify indices that are less than a full turn apart. */
  lemma WrapIdentifies(i: int, j: int)
    requires -U32_LIMIT < i - j < U32_LIMIT
    ensures Wrap(i) == Wrap(j) <==> i == j
  {
    WrapDistance(i, j);
  }

  /** Moving the reference one step forward shortens every other distance by one. */
  lemma WrapSubAfterNext(a: U32, n: U32)
    requires a != n
    ensures WrapSub(a, WrapNext(n)) == WrapSub(a, n) - 1
  {
  }

  /** Wrapping distance to a common reference identifies the label. */
  lemma WrapSubInjective(a: U32, b: U32, n: U32)
    ensures WrapSub(a, n) == WrapSub(b, n) <==> a == b
  {
  }

  lemma SliceFront<T>(s: seq<T>, n: nat, m: nat)
    requires n < m <= |s|
    ensures s[n..m] == [s[n]] + s[n + 1..m]
  {
  }

  lemma SliceBack<T>(s: seq<T>, n: nat, m: nat)
    requires n <= m < |s|
    ensures s[n..m + 1] == s[n..m] + [s[m]]
  {
  }

  /** `VecDeque::insert`: everything from position `at` on moves one place back. */
  function InsertAt<T>(s: seq<T>, at: nat, x: T): (r: seq<T>)
    requires at <= |s|
    ensures |r| == |s| + 1 && r[at] == x
    ensures forall k {:trigger r[k]} :: 0 <= k < at ==> r[k] == s[k]
    ensures forall k {:trigger r[k]} :: at < k < |r| ==> r[k] == s[k - 1]
    ensures multiset(r) == multiset(s) + multiset{x}
  {
    assert s == s[..at] + s[at..];
    s[..at] + [x] + s[at..]
  }
}
