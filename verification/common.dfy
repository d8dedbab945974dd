/** Small shared vocabulary: optional values, results with an error message,
    the integer maximum and absolute value, and Go's 64-bit integers. */
module Common {

  /** An optional value, standing in for Go's nil pointers and nil maps. */
  datatype Option<+T> = None | Some(value: T)

  /** A value or an error message, standing in for Go's `(T, error)` returns
      and for the `panic` of a misconfigured engine. */
  datatype Result<+T> = Ok(value: T) | Err(error: string)

  function Max(a: int, b: int): int
  {
    if a < b then b else a
  }

  function Abs(a: int): (r: nat)
    ensures r == a || r == -a
  {
    if a < 0 then -a else a
  }

  /** Two's-complement wrap-around of a Go `int64` (and `time.Duration`). */
  function Int64(x: int): (w: int)
    ensures -0x8000_0000_0000_0000 <= w < 0x8000_0000_0000_0000
    ensures -0x8000_0000_0000_0000 <= x < 0x8000_0000_0000_0000 ==> w == x
    ensures (x - w) % 0x1_0000_0000_0000_0000 == 0
  {
    (x + 0x8000_0000_0000_0000) % 0x1_0000_0000_0000_0000 - 0x8000_0000_0000_0000
  }
}
