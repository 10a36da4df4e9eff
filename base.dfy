/** Building blocks shared by every model in this project: machine integer
    ranges, the usual Option/Result wrappers, and an opaque carrier for
    IEEE-754 doubles whose arithmetic the models never interpret. */
module Base {

  /** An unsigned 8-bit value (`u8`, `uint8_t`). */
  type byte = x: int | 0 <= x < 256

  /** An unsigned 16-bit value (`u16`). */
  type u16 = x: int | 0 <= x < 0x1_0000

  datatype Option<T> = None | Some(value: T)

  datatype Result<T, E> = Ok(value: T) | Err(error: E)

  /** A 64-bit floating-point number, identified by its bit pattern and
      otherwise opaque: no model here computes with it. */
  datatype F64 = F64(bits: int)

  /** The floating-point operations of the host, which the models take as a
      parameter because they never interpret numbers themselves. */
  datatype FloatOps = FloatOps(
    add: (F64, F64) -> F64,
    sub: (F64, F64) -> F64,
    mul: (F64, F64) -> F64,
    div: (F64, F64) -> F64,
    neg: F64 -> F64,
    greater: (F64, F64) -> bool,
    less: (F64, F64) -> bool,
    equal: (F64, F64) -> bool,
    parse: string -> F64)

  /** The big-endian value of two bytes, as `(hi << 8) | lo`. */
  function BigEndian16(hi: byte, lo: byte): (r: u16)
    ensures r / 256 == hi && r % 256 == lo
  {
    hi * 256 + lo
  }

  /** Writing slot `n` of a buffer and counting it in: the prefix in use
      grows by exactly that element. */
  lemma StoreAt<T>(s: seq<T>, n: int, x: T)
    requires 0 <= n < |s|
    ensures s[n := x][..n + 1] == s[..n] + [x]
  {
  }

  /** A buffer that starts with `buf` agrees with it on every shorter prefix. */
  lemma PrefixKept<T>(r: seq<T>, buf: seq<T>, n: int)
    requires |buf| <= |r| && r[..|buf|] == buf && 0 <= n <= |buf|
    ensures r[..n] == buf[..n]
  {
    assert r[..n] == r[..|buf|][..n];
  }

  /** Appending elements one at a time appends them as a block. */
  lemma Snoc2<T>(s: seq<T>, a: T, b: T)
    ensures s + [a] + [b] == s + [a, b]
  {
  }

  lemma Snoc4<T>(s: seq<T>, a: T, b: T, c: T, d: T)
    ensures s + [a] + [b] + [c] + [d] == s + [a, b, c, d]
  {
  }

  /** Every element of `s` satisfies `p`, and nothing else is claimed. */
  ghost predicate All<T>(s: seq<T>, p: T -> bool)
  {
    forall i :: 0 <= i < |s| ==> p(s[i])
  }
}
