/**
 * Shared value types: optional values, results, and the fixed-width integer
 * ranges the layout engine works with.
 */
module Base {

  /** The conventional Some/None datatype (Rust's `Option`). */
  datatype Option<+T> = None | Some(value: T)

  /** A success value or a typed error (Rust's `Result`). */
  datatype Result<+T, +E> = Ok(value: T) | Err(error: E)

  /** A `Result<(), E>`: success carries no value. */
  datatype Outcome<+E> = Pass | Fail(error: E)

  /** Rust's `u16`. */
  type U16 = x: int | 0 <= x < 0x1_0000

  /** Rust's `u8`, as an integer. */
  type U8 = x: int | 0 <= x < 0x100

  /** Rust's `i16`. */
  type I16 = x: int | -0x8000 <= x < 0x8000

  const U16_MAX: U16 := 0xFFFF

  function Min(a: int, b: int): int
  {
    if a <= b then a else b
  }

  /** `u16::checked_add`: None exactly when the sum does not fit in 16 bits. */
  function CheckedAdd16(a: U16, b: U16): (r: Option<U16>)
    ensures r.Some? <==> a + b <= U16_MAX
    ensures r.Some? ==> r.value == a + b
  {
    if a + b <= U16_MAX then Some(a + b) else None
  }

  /** `u16::saturating_add`: the sum, clamped to `u16::MAX`. */
  function SaturatingAdd16(a: U16, b: U16): (r: U16)
    ensures r <= a + b
    ensures r == a + b || r == U16_MAX
    ensures a + b <= U16_MAX ==> r == a + b
  {
    if a + b <= U16_MAX then a + b else U16_MAX
  }

  /** `u16::saturating_sub`: the difference, clamped at zero. */
  function SaturatingSub16(a: U16, b: U16): (r: U16)
    ensures b <= a ==> r == a - b
    ensures a <= b ==> r == 0
  {
    if b <= a then a - b else 0
  }

  /** An `as u16` cast: the value modulo 2^16. */
  function TruncU16(n: nat): (r: U16)
    ensures r <= n
    ensures n <= U16_MAX ==> r == n
    ensures (n - r) % 0x1_0000 == 0
  {
    n % 0x1_0000
  }
}

/**
 * Sequence identities, each proved in a context of its own: stated inline in
 * a larger proof they cost the solver far more.
 */
module Seqs {
  lemma AppendAssociative<T>(a: seq<T>, b: seq<T>, c: seq<T>)
    ensures a + b + c == a + (b + c)
  {
  }

  lemma AppendEmpty<T>(a: seq<T>)
    ensures a + [] == a && [] + a == a
  {
  }

  lemma DropPrefix<T>(a: seq<T>, b: seq<T>)
    ensures (a + b)[|a|..] == b
  {
  }

  lemma HeadTail<T>(s: seq<T>)
    requires |s| > 0
    ensures [s[0]] + s[1..] == s
  {
  }

  lemma TailOfAppend<T>(a: seq<T>, b: seq<T>)
    requires |a| > 0
    ensures (a + b)[0] == a[0] && (a + b)[1..] == a[1..] + b
  {
  }

  lemma SplitAt<T>(s: seq<T>, n: nat)
    requires n <= |s|
    ensures s[..n] + s[n..] == s
  {
  }

  lemma ConsTail<T>(a: seq<T>, b: seq<T>)
    requires |b| > 0
    ensures a + [b[0]] + b[1..] == a + b
  {
    assert b == [b[0]] + b[1..];
  }
}
