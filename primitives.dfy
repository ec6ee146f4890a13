/** Shared value types: bytes, C#'s unchecked integer casts and the optional/fallible wrappers. */
module Primitives {

  /** An unsigned 8-bit value, as C#'s `byte`. */
  type byte = b: int | 0 <= b < 256

  /** C#'s unchecked `(byte)v` on an integer: keep the low eight bits. */
  function ToByte(v: int): (b: byte)
    ensures (v - b) % 256 == 0
    ensures 0 <= v < 256 ==> b == v
  {
    v % 256
  }

  const IntMin: int := -0x8000_0000
  const IntMax: int := 0x7FFF_FFFF
  const LongMax: int := 0x7FFF_FFFF_FFFF_FFFF

  /** C#'s unchecked `(int)v` on a long: keep the low 32 bits, read as two's complement. */
  function ToInt32(v: int): (r: int)
    ensures IntMin <= r <= IntMax
    ensures (v - r) % 0x1_0000_0000 == 0
    ensures IntMin <= v <= IntMax ==> r == v
  {
    (v - IntMin) % 0x1_0000_0000 + IntMin
  }

  const LongMin: int := -0x8000_0000_0000_0000

  /** C#'s unchecked `long` arithmetic: keep the low 64 bits, read as two's complement. */
  function ToInt64(v: int): (r: int)
    ensures LongMin <= r <= LongMax
    ensures (v - r) % 0x1_0000_0000_0000_0000 == 0
    ensures LongMin <= v <= LongMax ==> r == v
  {
    (v - LongMin) % 0x1_0000_0000_0000_0000 + LongMin
  }

  function Max(a: int, b: int): int { if a < b then b else a }
  function Min(a: int, b: int): int { if a < b then a else b }

  datatype Option<+T> = None | Some(value: T)

  /** The exceptions of the modelled code that a caller can observe. */
  datatype Fault =
    | ArgumentOutOfRange   // System.ArgumentOutOfRangeException
    | ArgumentError        // System.ArgumentException
    | IndexOutOfRange      // System.IndexOutOfRangeException
    | KeyNotFound          // System.Collections.Generic.KeyNotFoundException
    | NullReference        // System.NullReferenceException
    | NotImplemented       // System.NotImplementedException
    | InvalidOperation     // System.InvalidOperationException (Enumerable.First with no match)
    | Rethrown             // an exception of the HTTP client or the JSON parser, passed on unchanged

  datatype Result<+T> = Success(value: T) | Failure(fault: Fault)

  /** The result of an operation that returns nothing on success. */
  datatype Outcome = Done | Thrown(fault: Fault)
}
